# SPICA GFL2 shader and material codecs, animation playback and the Unity clip exporter in Dafny

This project models four parts of SPICA, a toolkit for Nintendo 3DS model
formats, and proves what they promise.

- **The GFL2 shader block** (`GFShader`):
  - The reader takes the block header, its names and the PICA200 command words. It runs the words through a register switch that fills six TexEnv stages, the buffer colour, the update buffer, the vertex and geometry entry points and the microcode and swizzle words.
  - It then decodes the seven output-map words into output registers, discovers call and jump labels, names the uniform arrays and scans each program for its `End` instruction.
  - The writer either re-emits the bytes it read (when there is a vertex shader) or builds a fragment-only block and backpatches its section length.
- **The GFL2 material block** (`GFMaterial`):
  - The reader walks the section header, the four hash names, the 168 bytes of header fields, the texture coordinates and the command words. Its register switch fills the blending, test, buffer-access, border-colour and LUT-input state.
  - The writer emits the header fields, the texture coordinates with their texture matrices, and a command list in a fixed order. That list holds the texture-unit count and the texture-unit configuration word. The writer then backpatches the section length.
  - `GetMetaValue`, which reads one value out of H3D metadata, is modelled on its own.
- **Animation playback** (`AnimControl`): the renderer's Stopped/Paused/Playing state machine with its frame and step.
- **The Unity `.anim` exporter** (`ANIM`, `ANIMCurve`, `ANIMAnimationClip`):
  - For each transform element of a skeletal animation, it builds translation, scale and rotation curves, one keyframe per frame, each named by the bone's path in the skeleton.
  - It then fills in the slopes from cyclic neighbours and unwraps the Euler angles by whole turns.

## Modules

- **`Streams`**: bytes and 32-bit words, little-endian encoding, and a byte reader and writer. The reader has a sticky failure flag that stands for the end-of-stream exception. The writer can seek back to patch a length.
- **`Pica`**:
  - PICA200 register numbers and command records.
  - The calls the encoders make on the command writer.
  - `Externals`: every collaborator whose code is not part of this model, as functions.
- **`ShaderSpec`** and **`Shader`**: the shader decoder as a function over the command list (`Replay`) with its lemmas, then the `GFShader` class whose methods are proved against it.
- **`MaterialSpec`** and **`Material`**: the same for `GFMaterial`.
- **`Playback`**: the `AnimControl` class.
- **`UnityCurve`** and **`UnityAnim`**: keyframes, curves, the clip and the `ANIM` exporter.

## Model

| member | source | states |
|---|---|---|
| Shader.GFShader.constructor | SPICA/Formats/GFL2/Shader/GFShader.cs:41-49 | A new shader has six TexEnv stages, all at their default, no programs and no microcode. |
| Shader.GFShader.Read | SPICA/Formats/GFL2/Shader/GFShader.cs:51-307 | The reader fails exactly when the block runs past the buffer. Otherwise it ends after the last command word, and every field is what the block decodes to (`DecodedFrom`): names, raw bytes, stages, buffer settings, microcode, programs and uniform tables. |
| Shader.GFShader.FromMaterial | SPICA/Formats/GFL2/Shader/GFShader.cs:309-315 | A shader made from an H3D material shares that material's stage array and buffer colour, is named after the shader name, has file name name + ".gffsh", and has no vertex program, so it writes a fragment-only block. The update-buffer word is a parameter (see "Left out"). |
| Shader.GFShader.ReadBlock | SPICA/Formats/GFL2/Shader/GFShader.cs:53-86 | For a complete block: the command words are the `CommandsLength >> 2` words after the file name, and `RawData` is every byte from the magic number through the last command word. The reader is left right after that word. |
| Shader.GFShader.ReadHeader | SPICA/Formats/GFL2/Shader/GFShader.cs:53-76 | The reader ends at the first command word. It fails exactly when that lies past the buffer. The count is `CommandsLength >> 2`, and the names are the padded strings at their fixed offsets. |
| Shader.GFShader.ReadName | SPICA/Formats/GFL2/Shader/GFShader.cs:53-67 | Magic number, count, padding to 16, section header, the 0x40-byte name, hash, count and padding: the reader ends at CommandsLength and returns the name field decoded. |
| Shader.GFShader.ReadCommandsHeader | SPICA/Formats/GFL2/Shader/GFShader.cs:69-74 | It consumes 0x50 bytes and returns `CommandsLength / 4` and the file name field. |
| Shader.GFShader.DecodeCommands | SPICA/Formats/GFL2/Shader/GFShader.cs:88-303 | The outputs are the state `Replay` gives for the command list. A program exists exactly when its entry point was set. Each program holds its output registers, labels, named uniform array and end offset, and the two programs are distinct objects. |
| Shader.GFShader.Dispatch | SPICA/Formats/GFL2/Shader/GFShader.cs:95-211 | After the loop, the local arrays and lists mirror `Replay(cmds)`. Programs are fresh and distinct and only their main offset is set. |
| Shader.GFShader.DispatchCommand | SPICA/Formats/GFL2/Shader/GFShader.cs:97-210 | One switch pass moves the mirrored state by exactly `Step`. An existing program object is kept; one created the first time its entry point is set is fresh. |
| ShaderSpec.Step | SPICA/Formats/GFL2/Shader/GFShader.cs:97-210 | One pass of the switch keeps the state well formed: six stages, seven output-map words, entry points below 0x10000. |
| ShaderSpec.Replay | SPICA/Formats/GFL2/Shader/GFShader.cs:95-211 | The dispatch loop over the whole command list yields a well-formed state. |
| ShaderSpec.StageIndex | SPICA/Formats/GFL2/Shader/GFShader.cs:101-103 | The stage index derived from any register (`(r >> 3) & 7`, less 2 from 6 on) is below 6. |
| ShaderSpec.FieldRegisterStage | SPICA/Formats/GFL2/Shader/GFShader.cs:119-162 | The register of field f of stage k is decoded as field f, and its derived stage index is k. |
| ShaderSpec.TexEnvFieldRegisters | SPICA/Formats/GFL2/Shader/GFShader.cs:119-162 | Both directions: a register sets stage field f exactly when it is one of the six `TEXENVk` registers of that field, and then it addresses its own stage. |
| ShaderSpec.FieldRegisterInjective | SPICA/Formats/GFL2/Shader/GFShader.cs:119-162 | No two (stage, field) pairs share a register. |
| ShaderSpec.StepStageField | SPICA/Formats/GFL2/Shader/GFShader.cs:119-162 | One command changes field f of stage k only when it goes to that field's register, and then it sets the value decoded from its first parameter. |
| ShaderSpec.StageFieldIsLastWrite | SPICA/Formats/GFL2/Shader/GFShader.cs:119-162 | Last writer wins, per stage and field: each TexEnv field is decoded from the last command to its register, or stays at its default. |
| ShaderSpec.OutMapIsLastWrite | SPICA/Formats/GFL2/Shader/GFShader.cs:109-115 | Output-map word i is the first parameter of the last `SH_OUTMAP_Oi` command, or 0 if there is none. |
| ShaderSpec.BufferSettingsAreLastWrite | SPICA/Formats/GFL2/Shader/GFShader.cs:164-166 | The update-buffer word and the buffer colour come from the last command to their registers. |
| ShaderSpec.EntryPointsAreLastWrite | SPICA/Formats/GFL2/Shader/GFShader.cs:170-209 | A vertex or geometry program exists if and only if its entry-point register was written. Its main offset is the low 16 bits of the last such parameter. |
| ShaderSpec.ProgramDataIsGathered | SPICA/Formats/GFL2/Shader/GFShader.cs:179-214 | `Executable` concatenates the parameters of every `CODETRANSFER_DATA0..7` command in command order. `Swizzles` does the same for `OPDESCS_DATA0..7`. |
| ShaderSpec.Component | SPICA/Formats/GFL2/Shader/GFShader.cs:224 | Component j of an output-map word is a 5-bit value. |
| ShaderSpec.MaskUpTo | SPICA/Formats/GFL2/Shader/GFShader.cs:222-228 | The mask built from the first n components fits in n bits. |
| ShaderSpec.NameUpToNone | SPICA/Formats/GFL2/Shader/GFShader.cs:222-251 | The register name stays unset exactly when every component seen is the 0x1F sentinel. |
| ShaderSpec.OutputRegMask | SPICA/Formats/GFL2/Shader/GFShader.cs:220-251 | Mask bit j is set if and only if component j is not 0x1F, so the mask is at most 0xF. The name is unset exactly when all four components are unused. |
| ShaderSpec.OutputRegsUpTo | SPICA/Formats/GFL2/Shader/GFShader.cs:216-258 | The output-register map has a key i exactly for the non-zero output-map words. |
| ShaderSpec.OutputRegsStep | SPICA/Formats/GFL2/Shader/GFShader.cs:216-258 | The pass over word i skips a zero word and otherwise puts that word's register at key i. |
| Shader.GFShader.AssignOutputRegs | SPICA/Formats/GFL2/Shader/GFShader.cs:216-258 | Both programs receive the same output registers, one for each non-zero word, and nothing else about them changes. |
| Shader.GFShader.DecodeOutputReg | SPICA/Formats/GFL2/Shader/GFShader.cs:220-251 | The component loop computes the output register that `OutputRegOf` describes for the word. |
| Shader.GFShader.DecodeComponent | SPICA/Formats/GFL2/Shader/GFShader.cs:224-250 | One component moves the mask and name from what the first j components give to what the first j + 1 give. |
| ShaderSpec.OpCode | SPICA/Formats/GFL2/Shader/GFShader.cs:266 | The opcode, the top six bits of an instruction, is below 64. |
| ShaderSpec.Dst | SPICA/Formats/GFL2/Shader/GFShader.cs:274 | A flow destination is a 12-bit value. |
| ShaderSpec.Destinations | SPICA/Formats/GFL2/Shader/GFShader.cs:264-274 | The flow destinations of a program are below 0x1000, at most one per instruction. |
| ShaderSpec.FirstSeen | SPICA/Formats/GFL2/Shader/GFShader.cs:276-278 | Deduplication keeps only values that occur in the input. |
| ShaderSpec.FirstSeenElements | SPICA/Formats/GFL2/Shader/GFShader.cs:276-278 | Deduplication keeps exactly the values of the input, in both directions. |
| ShaderSpec.FirstSeenStep | SPICA/Formats/GFL2/Shader/GFShader.cs:264-297 | One more instruction appends its destination exactly when it is a flow instruction to a destination not seen yet. |
| ShaderSpec.FirstSeenDistinct | SPICA/Formats/GFL2/Shader/GFShader.cs:276-278 | No destination gets two labels. |
| ShaderSpec.FirstIndex | SPICA/Formats/GFL2/Shader/GFShader.cs:276 | The first index of a value holds it, and no earlier index does. |
| ShaderSpec.FirstSeenOrder | SPICA/Formats/GFL2/Shader/GFShader.cs:260-297 | Labels come in first-encounter order: an earlier label's destination first occurs earlier in the program. |
| ShaderSpec.Hex4 | SPICA/Formats/GFL2/Shader/GFShader.cs:280 | `ToString("x4")` of a 12-bit destination is four characters. |
| ShaderSpec.LabelFor | SPICA/Formats/GFL2/Shader/GFShader.cs:280-288 | The k-th label has id k, offset at its destination, length 0 and a name starting with "label_". |
| ShaderSpec.LabelNamesDistinct | SPICA/Formats/GFL2/Shader/GFShader.cs:280 | Different destinations give different label names. |
| ShaderSpec.LabelsFor | SPICA/Formats/GFL2/Shader/GFShader.cs:282-294 | There is one label per discovered destination. |
| ShaderSpec.LabelsForAppend | SPICA/Formats/GFL2/Shader/GFShader.cs:282-294 | A newly discovered destination appends one label, with the next id and that destination's name. |
| ShaderSpec.LabelsDistinct | SPICA/Formats/GFL2/Shader/GFShader.cs:260-297 | Label k has id k and a 12-bit offset. Offsets are pairwise distinct, and the offsets are exactly the flow destinations. |
| Shader.GFShader.DiscoverLabels | SPICA/Formats/GFL2/Shader/GFShader.cs:260-297 | The loop over the microcode, with its set of seen destinations and running label id, produces exactly `Labels(exe)`. |
| Shader.GFShader.NoteDestination | SPICA/Formats/GFL2/Shader/GFShader.cs:266-295 | One instruction adds its destination to the seen set and list, and a label with the next id, exactly when it is a flow instruction to a new destination. |
| Shader.GFShader.FinishProgram | SPICA/Formats/GFL2/Shader/GFShader.cs:290-303 | Each existing program ends up with the shared labels, its uniform array named and indexed, and its end offset found. |
| Shader.GFShader.MakeArray | SPICA/Formats/GFL2/Shader/GFShader.cs:407-422 | Every uniform i gets the name, `IsArray`, index i and the array's length, and keeps everything else. A null array is left alone. |
| ShaderSpec.FirstEnd | SPICA/Formats/GFL2/Shader/GFShader.cs:428-435 | It finds the least index at or after `from` whose opcode is `End`. None means there is no `End` there. |
| Shader.GFShader.FindProgramEnd | SPICA/Formats/GFL2/Shader/GFShader.cs:424-438 | `EndMainOffset` becomes the first `End` at or after `MainOffset`, or stays as it was when there is none. A null program is a no-op, and nothing else about the program changes. |
| Shader.GFShader.ToShaderBinary | SPICA/Formats/GFL2/Shader/GFShader.cs:440-451 | The binary holds the microcode and swizzles, and then the programs that exist, vertex first. |
| Shader.GFShader.Write | SPICA/Formats/GFL2/Shader/GFShader.cs:317-405 | With a vertex shader, the writer gains exactly `RawData`. Otherwise it gains the fragment-only block, whose section length is backpatched (`FragmentImage`). |
| Shader.GFShader.WriteBody | SPICA/Formats/GFL2/Shader/GFShader.cs:325-398 | Before the backpatch, the writer holds the header, name and command blocks around the fragment command bytes. The section-length offset is returned, and lies inside what was written. |
| Shader.GFShader.FragmentCommandBytes | SPICA/Formats/GFL2/Shader/GFShader.cs:339-383 | The command bytes are the little-endian words of the fragment calls: six stages, update buffer, buffer colour and end. |
| Shader.GFShader.WriteHeader | SPICA/Formats/GFL2/Shader/GFShader.cs:325-331 | It appends the magic number, count 1, padding and section header, and returns the offset of the header's length field. |
| Shader.HeaderBlock | SPICA/Formats/GFL2/Shader/GFShader.cs:325-333 | The header block ends where `ShaderDataStart` is taken. |
| Shader.GFShader.WriteName | SPICA/Formats/GFL2/Shader/GFShader.cs:333-337 | It appends the padded name, its hash, count 1 and padding to 16. |
| Shader.NameBlock | SPICA/Formats/GFL2/Shader/GFShader.cs:333-337 | The name block ends on the 16-byte boundary after the 0x40-byte name and two words. |
| Shader.GFShader.WriteCommands | SPICA/Formats/GFL2/Shader/GFShader.cs:391-398 | It appends the command length, count 1, the FNV hash, padding, the file name and the command bytes. |
| Shader.CommandBlock | SPICA/Formats/GFL2/Shader/GFShader.cs:391-398 | The command section starts with the byte length of the commands and ends with the command bytes themselves. |
| Shader.FragmentBody | SPICA/Formats/GFL2/Shader/GFShader.cs:325-398 | The body holds the command section from the `CommandsLength` offset on. |
| Shader.GFShader.EmitStages | SPICA/Formats/GFL2/Shader/GFShader.cs:341-361 | The stage loop makes the six stage calls, in stage order. |
| Shader.StageCalls | SPICA/Formats/GFL2/Shader/GFShader.cs:341-361 | There is one call per stage. |
| Shader.StageCallRegisters | SPICA/Formats/GFL2/Shader/GFShader.cs:345-355 | Stage call k goes to the `TEXENVk_SOURCE` register. |
| Shader.StageCallsCarryStages | SPICA/Formats/GFL2/Shader/GFShader.cs:355-360 | Stage call k carries that stage's source, operand, combiner, colour and scale, encoded, in that order. |
| Shader.FragmentCallOrder | SPICA/Formats/GFL2/Shader/GFShader.cs:341-369 | The fragment commands go to `TEXENV0..5_SOURCE` in order, then the update buffer and the buffer colour, and the last call is the end marker. |
| Shader.PatchedBodyIsBlock | SPICA/Formats/GFL2/Shader/GFShader.cs:400-404 | Seeking back to the header's length field, writing the data length and returning turns the written body into the block. |
| Shader.PatchedBodyIsImage | SPICA/Formats/GFL2/Shader/GFShader.cs:400-404 | The same, for the stages' fragment command bytes. |
| Shader.BlockLengthField | SPICA/Formats/GFL2/Shader/GFShader.cs:400-403 | The backpatched section length counts every byte from the end of the section header to the end of the block. |
| Shader.BlockEndsWithCommands | SPICA/Formats/GFL2/Shader/GFShader.cs:398 | The block ends with the command bytes. |
| Shader.BlockCommandsLength | SPICA/Formats/GFL2/Shader/GFShader.cs:391 | In the finished block, the `CommandsLength` field holds the number of command bytes. |
| Shader.BlockCommands | SPICA/Formats/GFL2/Shader/GFShader.cs:391-398 | In the finished block, everything from `CommandsLength` on is the command section, untouched by the backpatch. |
| Shader.ShaderProgram.constructor | SPICA/Formats/GFL2/Shader/GFShader.cs:170-175 | A new program has main and end offset 0, no labels, no output registers and a fresh uniform array. |
| Pica.Command.Parameters | SPICA/Formats/GFL2/Shader/GFShader.cs:99 | A command always has a first parameter, which is the one decoders read as `Param`. |
| Material.GFMaterial.constructor | SPICA/Formats/GFL2/Model/Material/GFMaterial.cs:128-135 | A new material has three empty texture coordinates, default border colours and four zero texture sources. |
| Material.GFMaterial.Read | SPICA/Formats/GFL2/Model/Material/GFMaterial.cs:277-433 | The reader fails exactly when the block cannot be read. Otherwise the material is what `Decode` makes of the layout `Parse` finds, and the reader resumes at Position + section length. |
| Material.Parse | SPICA/Formats/GFL2/Model/Material/GFMaterial.cs:279-374 | A successful walk finds four names, at most three coordinates and fields that lie inside the buffer. |
| Material.ParseHead | SPICA/Formats/GFL2/Model/Material/GFMaterial.cs:279-350 | The head of the walk gives four names and header fields followed by `UnitsCount` inside the buffer. |
| Material.ParseTail | SPICA/Formats/GFL2/Model/Material/GFMaterial.cs:350-374 | The tail gives exactly `UnitsCount` coordinates, never more than three, and command words inside the buffer. |
| Material.GFMaterial.ReadBlock | SPICA/Formats/GFL2/Model/Material/GFMaterial.cs:279-374 | It fails exactly when `Parse` fails. Otherwise its results are the parts `Locate` finds, and it returns the resume offset. |
| Material.GFMaterial.ReadAgrees | SPICA/Formats/GFL2/Model/Material/GFMaterial.cs:279-374 | The walk fails if and only if its head or its tail fails. What the two halves read is what `Locate` finds. |
| Material.GFMaterial.ReadHead | SPICA/Formats/GFL2/Model/Material/GFMaterial.cs:279-350 | It returns the section length at header offset 8, the four names, the 168 header bytes and `UnitsCount`, and fails exactly when `ParseHead` fails. |
| Material.GFMaterial.ReadNames | SPICA/Formats/GFL2/Model/Material/GFMaterial.cs:283-286 | The four hash names are read one after the other, and the read fails when one of them cannot be read. |
| Material.GFMaterial.ReadTail | SPICA/Formats/GFL2/Model/Material/GFMaterial.cs:350-374 | It returns the coordinate slots, RenderPriority, RenderLayer and the command words where `ParseTail` puts them, and fails exactly when `ParseTail` fails. |
| Material.GFMaterial.ReadTextureCoords | SPICA/Formats/GFL2/Model/Material/GFMaterial.cs:350-355 | Coordinate k goes to slot k. A `UnitsCount` above 3 has no slot and fails. The other slots keep the empty coordinate. |
| Material.Slots | SPICA/Formats/GFL2/Model/Material/GFMaterial.cs:130 | There are always three coordinate slots. |
| Material.SlotsPush | SPICA/Formats/GFL2/Model/Material/GFMaterial.cs:352-355 | Reading one more coordinate fills exactly the next slot. |
| Material.GFMaterial.ReadCommandsHeader | SPICA/Formats/GFL2/Model/Material/GFMaterial.cs:359-367 | The eight words give `CommandsLength / 4`, RenderPriority and RenderLayer. |
| Material.GFMaterial.ReadCommands | SPICA/Formats/GFL2/Model/Material/GFMaterial.cs:359-374 | The reader takes `CommandsLength >> 2` words after the eight header words. |
| Material.DecodeParams | SPICA/Formats/GFL2/Model/Material/GFMaterial.cs:288-348 | The 168 header bytes decode to three LUT hashes, six assignments, eleven colours (BlendColor apart) and 24 words. |
| Material.ColorAt | SPICA/Formats/GFL2/Model/Material/GFMaterial.cs:305-316 | The eleven stored colours lie inside the first 72 header bytes: eight before BlendColor at 56 and three after it. |
| Material.InitialState | SPICA/Formats/GFL2/Model/Material/GFMaterial.cs:313 | The render state a new material starts the dispatch from is well formed and holds the header's blend colour. |
| Material.GFMaterial.Dispatch | SPICA/Formats/GFL2/Model/Material/GFMaterial.cs:378-425 | The loop leaves the render-state fields at `DispatchAll` of their old values, and changes no other field. |
| Material.GFMaterial.DispatchCommand | SPICA/Formats/GFL2/Model/Material/GFMaterial.cs:380-424 | One switch pass moves the render state by exactly `DispatchStep`. |
| Material.GFMaterial.DispatchBlending | SPICA/Formats/GFL2/Model/Material/GFMaterial.cs:390-396 | The blending registers update the blending fields as `BlendingStep` says. |
| Material.GFMaterial.DispatchTest | SPICA/Formats/GFL2/Model/Material/GFMaterial.cs:398-406 | The test and face-culling registers update the test fields as `TestStep` says. |
| Material.GFMaterial.DispatchBuffer | SPICA/Formats/GFL2/Model/Material/GFMaterial.cs:408-419 | The buffer-access registers update the buffer flags as `BufferStep` says. |
| Material.GFMaterial.DispatchLutInput | SPICA/Formats/GFL2/Model/Material/GFMaterial.cs:421-423 | The LUT-input registers update the LUT fields as `LutInputStep` says. |
| Material.GFMaterial.TextureSourcesOf | SPICA/Formats/GFL2/Model/Material/GFMaterial.cs:427-430 | The texture sources are X, Y, Z and W of the first vertex-shader uniform. |
| Material.GFMaterial.DefaultBorderColors | SPICA/Formats/GFL2/Model/Material/GFMaterial.cs:132 | There are three border colours, each at its default. |
| MaterialSpec.DispatchStep | SPICA/Formats/GFL2/Model/Material/GFMaterial.cs:384-424 | One pass of the switch keeps the state well formed (three border colours). |
| MaterialSpec.DispatchAll | SPICA/Formats/GFL2/Model/Material/GFMaterial.cs:378-425 | The dispatch loop keeps the state well formed. |
| MaterialSpec.StepField | SPICA/Formats/GFL2/Model/Material/GFMaterial.cs:384-424 | A command sets exactly the fields of its register, to the value decoded from its first parameter. Every other field is unchanged. |
| MaterialSpec.UnhandledRegister | SPICA/Formats/GFL2/Model/Material/GFMaterial.cs:384-424 | A command to a register outside the switch changes nothing. |
| MaterialSpec.FieldIsLastWrite | SPICA/Formats/GFL2/Model/Material/GFMaterial.cs:378-425 | Last writer wins: a field holds the value decoded from the last command to its register, or its old value when there is none. |
| MaterialSpec.LogicOp | SPICA/Formats/GFL2/Model/Material/GFMaterial.cs:396 | The logic operation is the parameter's low four bits. |
| MaterialSpec.FaceCull | SPICA/Formats/GFL2/Model/Material/GFMaterial.cs:406 | Face culling is the parameter's low two bits. |
| MaterialSpec.DecodedBits | SPICA/Formats/GFL2/Model/Material/GFMaterial.cs:396-419 | Each register reads some non-empty range of low bits of its parameter. |
| MaterialSpec.HighBitsIgnored | SPICA/Formats/GFL2/Model/Material/GFMaterial.cs:384-424 | Two parameters that agree on a register's decoded bits give the same state, whatever the later parameters. |
| MaterialSpec.BufferHighBits | SPICA/Formats/GFL2/Model/Material/GFMaterial.cs:408-419 | The buffer registers ignore all but the low four (colour) or two (depth) bits. |
| MaterialSpec.MaskedHighBits | SPICA/Formats/GFL2/Model/Material/GFMaterial.cs:396-406 | The logic op and face culling ignore all but their low four and two bits. |
| MaterialSpec.FirstOnly | SPICA/Formats/GFL2/Model/Material/GFMaterial.cs:382 | The switch reads only the register and the first parameter. |
| MaterialSpec.DepthBufferBits | SPICA/Formats/GFL2/Model/Material/GFMaterial.cs:411-419 | For the depth-buffer registers, bit 0 is the stencil flag and bit 1 the depth flag. |
| MaterialSpec.ColorBufferRoundTrip | SPICA/Formats/GFL2/Model/Material/GFMaterial.cs:586-587 | The word the writer emits for a colour-buffer flag (0xF or 0) decodes back to that flag (lines 408-409). |
| MaterialSpec.UnitsCount | SPICA/Formats/GFL2/Model/Material/GFMaterial.cs:512-515 | `UnitsCount` is one more than the highest slot with a name, or 0: every slot from it on has no name, and the slot before it has one. |
| MaterialSpec.TexUnitConfigBits | SPICA/Formats/GFL2/Model/Material/GFMaterial.cs:592-596 | Bit k of `TexUnitConfig` is set exactly when slot k has a name. The bits above are those of 0x00011000, whatever the material. |
| MaterialSpec.OrBitBits | SPICA/Formats/GFL2/Model/Material/GFMaterial.cs:594-596 | `w |= (on ? 1 : 0) << k` sets bit k when `on` holds and keeps every other bit. |
| Material.GFMaterial.TexUnitConfigOf | SPICA/Formats/GFL2/Model/Material/GFMaterial.cs:592-596 | The word accumulated by the three or-assignments is `TexUnitConfig` of the slots. |
| MaterialSpec.MatrixWords | SPICA/Formats/GFL2/Model/Material/GFMaterial.cs:527-538 | A unit has twelve matrix entries. |
| MaterialSpec.TexMtx | SPICA/Formats/GFL2/Model/Material/GFMaterial.cs:519 | `TexMtx` has exactly 12 · `UnitsCount` entries. |
| MaterialSpec.TexMtxEntry | SPICA/Formats/GFL2/Model/Material/GFMaterial.cs:521-539 | Entry 12u + j is entry j of unit u's matrix. |
| Material.GFMaterial.SetMatrix | SPICA/Formats/GFL2/Model/Material/GFMaterial.cs:527-538 | It sets the twelve entries of one unit, column by column, each from row 4 up to row 1, and keeps the units before it. |
| Material.GFMaterial.WriteUnit | SPICA/Formats/GFL2/Model/Material/GFMaterial.cs:523-538 | One pass appends the coordinate's bytes and extends the filled part of `TexMtx` by the unit's twelve entries. |
| Material.GFMaterial.UnitAppended | SPICA/Formats/GFL2/Model/Material/GFMaterial.cs:521-539 | Filling unit u after units 0..u-1 extends the filled prefix by exactly its entries, each written once. |
| Material.GFMaterial.WriteTextureCoords | SPICA/Formats/GFL2/Model/Material/GFMaterial.cs:519-539 | The loop writes the coordinates in order, and `TexMtx` ends as the matrices of those coordinates, unit after unit. |
| Material.Transforms | SPICA/Formats/GFL2/Model/Material/GFMaterial.cs:525 | There is one transform per coordinate. |
| Material.NextUnit | SPICA/Formats/GFL2/Model/Material/GFMaterial.cs:521-539 | One more coordinate adds its bytes and its twelve matrix entries. |
| Material.Units | SPICA/Formats/GFL2/Model/Material/GFMaterial.cs:512-523 | The writer emits exactly the first `UnitsCount` slots. |
| Material.Names | SPICA/Formats/GFL2/Model/Material/GFMaterial.cs:441-444 | Four names are written. |
| MaterialSpec.Opaque | SPICA/Formats/GFL2/Model/Material/GFMaterial.cs:568 | The emitted blend colour has top byte 0xFF and the colour's low three bytes. |
| MaterialSpec.MaterialCallOrder | SPICA/Formats/GFL2/Model/Material/GFMaterial.cs:545-609 | The encoded command registers come in a fixed order. The logic op and blend colour appear exactly when the blend function is not (One, Zero, One, Zero). |
| MaterialSpec.UniformRegisters | SPICA/Formats/GFL2/Model/Material/GFMaterial.cs:545-553 | The uniform commands go to the float-uniform index twice, then to the data register. |
| MaterialSpec.BlendRegisters | SPICA/Formats/GFL2/Model/Material/GFMaterial.cs:555-569 | Face culling, colour operation and blend function come first. Logic op and blend colour follow only when the function blends. |
| MaterialSpec.TestRegisters | SPICA/Formats/GFL2/Model/Material/GFMaterial.cs:571-590 | Then come the tests, the depth map, flush and invalidate, and the four buffer masks, in that order. |
| MaterialSpec.TextureRegisters | SPICA/Formats/GFL2/Model/Material/GFMaterial.cs:592-609 | Then the texture-unit configuration twice, the three border colours and the three LUT inputs, before the end marker. |
| MaterialSpec.SetCallRegisters | SPICA/Formats/GFL2/Model/Material/GFMaterial.cs:545-607 | A list of set-command calls addresses one register per call, in call order. |
| Material.GFMaterial.Write | SPICA/Formats/GFL2/Model/Material/GFMaterial.cs:435-655 | The writer gains exactly the block `Encode` describes for the material, with the section length backpatched. |
| Material.GFMaterial.WriteFields | SPICA/Formats/GFL2/Model/Material/GFMaterial.cs:435-655 | The writer gains exactly the block `Encode` describes for the given fields. |
| Material.EncodeIsPatched | SPICA/Formats/GFL2/Model/Material/GFMaterial.cs:435-655 | The encoded block is the written body with its length field patched. |
| Material.GFMaterial.WriteBody | SPICA/Formats/GFL2/Model/Material/GFMaterial.cs:437-646 | Before the backpatch, the writer holds the padded head, the command header, the command words and the trailer. The command words are those of `MaterialCalls`. |
| Material.MaterialBody | SPICA/Formats/GFL2/Model/Material/GFMaterial.cs:437-646 | The body is at least a section header long. |
| Material.GFMaterial.WriteHead | SPICA/Formats/GFL2/Model/Material/GFMaterial.cs:439-541 | It writes the preamble, the emitted coordinates and the 0xFF padding, and returns `TexMtx` of those coordinates. |
| Material.GFMaterial.WritePreamble | SPICA/Formats/GFL2/Model/Material/GFMaterial.cs:439-517 | It appends the section header, the four hash names, the header fields and `UnitsCount`. |
| Material.Preamble | SPICA/Formats/GFL2/Model/Material/GFMaterial.cs:439-517 | The preamble holds at least the section header's length field. |
| Material.Head | SPICA/Formats/GFL2/Model/Material/GFMaterial.cs:439-539 | The same holds for the head. |
| Material.Padded | SPICA/Formats/GFL2/Model/Material/GFMaterial.cs:541 | The padded head ends on a 16-byte boundary of the stream. |
| Material.PadAfterHead | SPICA/Formats/GFL2/Model/Material/GFMaterial.cs:541 | Writing the head and then aligning gives the padded head. |
| Material.GFMaterial.WriteCommands | SPICA/Formats/GFL2/Model/Material/GFMaterial.cs:631-646 | It appends the command header, the command words and the two zero longs. |
| Material.CommandPart | SPICA/Formats/GFL2/Model/Material/GFMaterial.cs:631-646 | The command part is 48 bytes plus four per command word. |
| Material.CommandHeader | SPICA/Formats/GFL2/Model/Material/GFMaterial.cs:631-638 | The header is eight words, and the first is `CommandsLength` = 4 × the number of command words. |
| Material.GFMaterial.WriteCommandHeader | SPICA/Formats/GFL2/Model/Material/GFMaterial.cs:631-638 | It appends the length, RenderPriority, the hash, RenderLayer, the three LUT hashes and 0xcd20dd3d, in that order. |
| Material.GFMaterial.WriteCommandWords | SPICA/Formats/GFL2/Model/Material/GFMaterial.cs:640-643 | It appends the command words, little-endian, in order. |
| Material.GFMaterial.RawCommandBytes | SPICA/Formats/GFL2/Model/Material/GFMaterial.cs:611-622 | The bytes the hash runs over are the command words, little-endian, in order. |
| Material.Patched | SPICA/Formats/GFL2/Model/Material/GFMaterial.cs:648-654 | Backpatching keeps the block's length. |
| Material.PatchAtEnd | SPICA/Formats/GFL2/Model/Material/GFMaterial.cs:648-654 | Seeking to start + 8, writing end − start − 0x10 and seeking back patches the body alone. |
| Material.Locate | SPICA/Formats/GFL2/Model/Material/GFMaterial.cs:279-374 | The located parts hold four names and the 168 header bytes. |
| Material.GetMetaValue | SPICA/Formats/GFL2/Model/Material/GFMaterial.cs:267-275 | A definition by cases, one per branch of the source. An absent name gives the default, and a present one gives its first value. Both failures are None: null metadata, or a value with no entries. |
| Material.MetaValueLocal | SPICA/Formats/GFL2/Model/Material/GFMaterial.cs:267-275 | The result depends only on the entry for that name. |
| Streams.ByteReader.ReadSection | SPICA/Formats/GFL2/Model/Material/GFMaterial.cs:279 | A section header is 16 bytes, with its length at offset 8. |
| Streams.ByteReader.SkipPadding | SPICA/Formats/GFL2/Model/Material/GFMaterial.cs:357 | The reader moves to the next 16-byte boundary. |
| Streams.ByteReader.ReadBytes | SPICA/Formats/GFL2/Shader/GFShader.cs:85-86 | It returns the n bytes at the position, or fewer when the buffer ends first. |
| Streams.ByteReader.ReadWords | SPICA/Formats/GFL2/Shader/GFShader.cs:76-81 | n words are read in order, one `ReadUInt32` each. |
| Streams.ByteWriter.Patch | SPICA/Formats/GFL2/Shader/GFShader.cs:400-404 | Seeking back, writing a word and returning overwrites four bytes and keeps the writer at the end. |
| Streams.ByteWriter.Pad | SPICA/Formats/GFL2/Model/Material/GFMaterial.cs:541 | It writes fill bytes up to the next 16-byte boundary. |
| Streams.DecodeEncode | SPICA/Formats/GFL2/Model/Material/GFMaterial.cs:631 | Reading back a written 32-bit word gives the word. |
| Streams.EncodeDecode | SPICA/Formats/GFL2/Model/Material/GFMaterial.cs:359 | Writing a read 32-bit word gives back its four bytes. |
| Playback.AnimControl.constructor | SPICA.Renderer/Animation/AnimControl.cs:19-22 | A new control steps by 1 and starts at frame 0, with no animation and not looping. |
| Playback.AnimControl.SetAnimation | SPICA.Renderer/Animation/AnimControl.cs:24-48 | A null animation leaves no data, stopped at frame 0. Otherwise `IsLooping` mirrors the looping flag. While Playing, the frame goes to FramesCount for a negative step and to 0 otherwise; when not Playing, the control stops. |
| Playback.AnimControl.AdvanceFrame | SPICA.Renderer/Animation/AnimControl.cs:50-67 | Nothing changes unless an animation at least \|Step\| long is playing. Then the frame moves by Step and wraps once by FramesCount, and a frame inside the animation stays inside. |
| Playback.Wrap | SPICA.Renderer/Animation/AnimControl.cs:58-65 | The wrapped frame differs by 0 or ±FramesCount. It lies in [0, FramesCount) for any frame in [−FramesCount, 2·FramesCount), and a frame already inside is unchanged. |
| Playback.AdvanceStaysInside | SPICA.Renderer/Animation/AnimControl.cs:52-65 | With a step no longer than the animation, a frame in [0, FramesCount) stays there, and one in [0, FramesCount] stays in that range. |
| Playback.Abs | SPICA.Renderer/Animation/AnimControl.cs:53 | `Math.Abs` is non-negative and equals x or −x. |
| Playback.AnimControl.SlowDown | SPICA.Renderer/Animation/AnimControl.cs:69-72 | Step is halved exactly when Playing with \|Step\| > 0.125, and nothing else changes. The reachable speed range is kept. |
| Playback.AnimControl.SpeedUp | SPICA.Renderer/Animation/AnimControl.cs:74-77 | Step is doubled exactly when Playing with \|Step\| < 8, and nothing else changes. The reachable speed range is kept. |
| Playback.AnimControl.PlayAt | SPICA.Renderer/Animation/AnimControl.cs:79-84 | `Play(s)` sets Step to s and the state to Playing, and changes nothing else. |
| Playback.AnimControl.Play | SPICA.Renderer/Animation/AnimControl.cs:86-89 | It sets the state to Playing only. |
| Playback.AnimControl.Pause | SPICA.Renderer/Animation/AnimControl.cs:91-94 | It sets the state to Paused only. |
| Playback.AnimControl.Stop | SPICA.Renderer/Animation/AnimControl.cs:96-101 | It sets the state to Stopped and the frame to 0, and changes nothing else. |
| UnityCurve.ANIMCurve.constructor | SPICA/Formats/Generic/UnityAnim/ANIMCurve.cs:9-15 | A new curve stores its path and attribute and has no keyframes. |
| UnityCurve.ANIMCurve.AddKeyFrame | SPICA/Formats/Generic/UnityAnim/ANIMCurve.cs:17-20 | It appends exactly that keyframe and keeps the earlier ones, the path and the attribute. |
| UnityCurve.ANIMCurve.Add | SPICA/Formats/Generic/UnityAnim/ANIMCurve.cs:22-25 | It appends one keyframe with that time and value and default (zero) slopes. |
| UnityAnim.ANIMAnimationClip.constructor | SPICA/Formats/Generic/UnityAnim/ANIMAnimationClip.cs:16-20 | A new clip has the given duration and name and no curves. |
| UnityAnim.Truncate | SPICA/Formats/Generic/UnityAnim/ANIM.cs:33 | `(int)` of a float truncates toward zero. |
| UnityAnim.FindBone | SPICA/Formats/Generic/UnityAnim/ANIM.cs:54 | It finds the first bone with that name, or reports that none has it. |
| UnityAnim.FindElement | SPICA/Formats/Generic/UnityAnim/ANIM.cs:146 | It returns the first element with that name, as FirstOrDefault does: no earlier element has the name. It returns none exactly when no element has it. |
| UnityAnim.Chain | SPICA/Formats/Generic/UnityAnim/ANIM.cs:57-62 | The chain runs from a root (ParentIndex −1) down to the bone, each entry the parent of the next, all valid indices. |
| UnityAnim.PathIsJoinedChain | SPICA/Formats/Generic/UnityAnim/ANIM.cs:57-64 | A bone's path is the names along its chain from the root, joined by "/". |
| UnityAnim.PathEndsWithName | SPICA/Formats/Generic/UnityAnim/ANIM.cs:57-64 | A bone's path ends with its own name. |
| UnityAnim.ParentInRange | SPICA/Formats/Generic/UnityAnim/ANIM.cs:60 | In a well-formed skeleton, a bone that is not a root has its parent inside the skeleton. |
| UnityAnim.ANIM.GetBonePath | SPICA/Formats/Generic/UnityAnim/ANIM.cs:52-65 | It needs only the parent chain of the first bone with that name to reach a root. The loop returns "" for an unknown name, and otherwise the path of the first bone with that name: its ancestors' names from the root down, joined by "/". |
| UnityAnim.UnnamedBrokenBone | SPICA/Formats/Generic/UnityAnim/ANIM.cs:36-62 | A skeleton whose second bone has an out-of-range parent is accepted when the only element names the first bone: the export never follows the broken chain. |
| UnityAnim.Samples | SPICA/Formats/Generic/UnityAnim/ANIM.cs:74-99 | A sampled curve has one keyframe per frame. |
| UnityAnim.SamplesAt | SPICA/Formats/Generic/UnityAnim/ANIM.cs:74-99 | Keyframe f is at time f/30, with the value at frame f and zero slopes, so times increase strictly. |
| UnityAnim.ANIM.SampleCurve | SPICA/Formats/Generic/UnityAnim/ANIM.cs:74-99 | The frame loop gives a fresh curve with the path, attribute "" and one keyframe per frame when the content is a transform. |
| UnityAnim.ANIM.KeysOf | SPICA/Formats/Generic/UnityAnim/ANIM.cs:67-211 | A builder samples either no keyframe or one per frame, for `(int)FramesCount + 1` frames. |
| UnityAnim.ANIM.AddedBy | SPICA/Formats/Generic/UnityAnim/ANIM.cs:101-102 | A builder adds at most one curve, only a non-empty one. |
| UnityAnim.ANIM.Expected | SPICA/Formats/Generic/UnityAnim/ANIM.cs:36-44 | Every curve the loop adds has one keyframe per frame. |
| UnityAnim.ANIM.ExpectedStep | SPICA/Formats/Generic/UnityAnim/ANIM.cs:36-44 | One more element adds its curves exactly when it is a Transform or QuatTransform. |
| UnityAnim.ANIM.AddTranslationCurve | SPICA/Formats/Generic/UnityAnim/ANIM.cs:67-103 | It adds one fresh curve named by the bone path when the bone is known and the content samples keyframes. Earlier curves stay in place, the other lists are untouched, and no curve is repeated or shared. |
| UnityAnim.ANIM.AddRotationCurve | SPICA/Formats/Generic/UnityAnim/ANIM.cs:105-135 | It adds one fresh rotation curve when the content samples keyframes, even for an unknown bone (path ""). Earlier curves stay in place, the other lists are untouched, and no curve is repeated or shared. |
| UnityAnim.ANIM.AddScaleCurves | SPICA/Formats/Generic/UnityAnim/ANIM.cs:137-211 | Only a known bone with a parent gets a scale curve, sampled with the parent and the parent's element. Earlier curves stay in place, the other lists are untouched, and no curve is repeated or shared. |
| UnityAnim.ANIM.AddElementCurves | SPICA/Formats/Generic/UnityAnim/ANIM.cs:41-43 | The three builders each add at most their one fresh curve, keeping the three lists free of repeats and of shared curves. |
| UnityAnim.ANIM.AddCounted | SPICA/Formats/Generic/UnityAnim/ANIM.cs:38-43 | One loop pass extends the three lists to the curves of one more element. Existing curves stay in place, and the rest are new. |
| UnityAnim.ANIM.AddAllCurves | SPICA/Formats/Generic/UnityAnim/ANIM.cs:36-44 | After the loop, each list holds exactly the curves `Expected` gives, in element order, all fresh and none shared. |
| UnityAnim.ANIM.Passes | SPICA/Formats/Generic/UnityAnim/ANIM.cs:46-49 | Slopes are filled in on the position and scale lists. The Euler list is unwrapped first and then gets its slopes. |
| UnityAnim.ANIM.constructor | SPICA/Formats/Generic/UnityAnim/ANIM.cs:27-50 | It needs only the chains of the bones that Transform and QuatTransform elements name to reach a root. The clip has duration FramesCount/30 and the three lists are exactly the expected curves, paths in element order, after the slope and rotation passes. |
| UnityAnim.Prev | SPICA/Formats/Generic/UnityAnim/ANIM.cs:219 | The previous keyframe index lies in the list. |
| UnityAnim.Next | SPICA/Formats/Generic/UnityAnim/ANIM.cs:221 | The next keyframe index lies in the list. |
| UnityAnim.NeighboursInRange | SPICA/Formats/Generic/UnityAnim/ANIM.cs:219-221 | `(i-1+n)%n` and `(i+1)%n` are valid indices for any n > 0: the previous keyframe, the last one before the first, and the next, the first one after the last. |
| UnityAnim.Slopes | SPICA/Formats/Generic/UnityAnim/ANIM.cs:213-226 | The slope pass keeps the number of keyframes. |
| UnityAnim.SlopesIdempotent | SPICA/Formats/Generic/UnityAnim/ANIM.cs:223-224 | The slope pass keeps every time and value, so running it twice is the same as once. |
| UnityAnim.CalculateSlopes | SPICA/Formats/Generic/UnityAnim/ANIM.cs:213-226 | The loop sets each keyframe's in and out slopes from its cyclic neighbours, and nothing else. |
| UnityAnim.SlopesEach | SPICA/Formats/Generic/UnityAnim/ANIM.cs:46 | Over a list of distinct curves, every curve gets its slopes, and paths and attributes are kept. |
| UnityAnim.Rotated | SPICA/Formats/Generic/UnityAnim/ANIM.cs:228-253 | The unwrapping pass keeps the number of keyframes. |
| UnityAnim.RotatedTurns | SPICA/Formats/Generic/UnityAnim/ANIM.cs:237-250 | Unwrapping keeps times and slopes, and moves each component of each value by +360, −360 or 0. |
| UnityAnim.SmoothUnchanged | SPICA/Formats/Generic/UnityAnim/ANIM.cs:228-253 | A curve with no jump larger than the threshold is left unchanged. |
| UnityAnim.CorrectRotation | SPICA/Formats/Generic/UnityAnim/ANIM.cs:228-253 | The in-place loop compares each keyframe with its predecessor as already corrected (the first with the last, uncorrected) and gives `Rotated`. |
| UnityAnim.CorrectAt | SPICA/Formats/Generic/UnityAnim/ANIM.cs:234-250 | One loop pass extends the corrected prefix by keyframe i, unwrapped against keyframe `(i - 1 + n) % n`. |
| UnityAnim.RotatedStep | SPICA/Formats/Generic/UnityAnim/ANIM.cs:234-250 | The predecessor the pass reads is the last keyframe as it was for the first pass, and the already corrected keyframe i - 1 after it. Writing keyframe i leaves the later keyframes as they were. |
| UnityAnim.Corrected | SPICA/Formats/Generic/UnityAnim/ANIM.cs:237-250 | The three comparisons unwrap each component independently against the previous value. |
| UnityAnim.RotateEach | SPICA/Formats/Generic/UnityAnim/ANIM.cs:48 | Over a list of distinct curves, each one is unwrapped at the default threshold 250. |

## Left out

- **Externals**: `PICACommandReader`, `PICACommandWriter`, `GFNV1`, `GFHashName`, `ReadPaddedString` and `WritePaddedString`, the `GFSection` header bytes, the `RGBA` and PICA structure constructors and `ToUInt32`, and `GFTextureCoord` (read, write, `GetTransform`) are not part of this model.
  - They are fields of the `Pica.Externals` datatype and are never given bit layouts.
  - The model proves what the codecs do around them: order, offsets, lengths and the switch.
- **Floats**: floats are reals (AnimControl, keyframes) or the 32-bit words they are stored as (material header fields, texture sources, texture matrices). IEEE rounding, NaN and infinity are not modelled.
  - The float division of the slope pass is a parameter `div`.
  - The fields of a `Sampler` stand for all the per-frame arithmetic of the curve builders:
    - `GetFrameValue`, `GetTranslationValue`, `GetRotationValue`, `GetScaleValue` and the quaternion to Euler conversion;
    - the axis mirroring (negated X translation, negated Y and Z Euler angles);
    - the radians-to-degrees factor 180/π;
    - the `Exists` fallbacks to the bone's rest translation and scale;
    - the `IsSegmentScaleCompensate` division by the parent's scale, taken from the parent's element or, without one, from the parent bone.
  - The model says which inputs each value is sampled from, not how it is computed. `Bone.scaleCompensate` only reaches the `scale` field of the sampler.
- **PICA200 register numbers**: these come from the GPU's register map. The enum that names them is not part of this model.
- **Shader opcodes**: the values of End (0x22), Call (0x24), CallC (0x25), CallU (0x26), JmpC (0x2C) and JmpU (0x2D) come from the `ShaderOpCode` enum and the PICA200 instruction encoding, which are not part of this model. The shifts and masks that take the opcode and the destination apart are the source's own.
- **Shader.GFShader.FromMaterial** and the field `texEnvUpdateBuffer`: the source keeps no update-buffer word. `SetUpdateBuffer` spreads it over the stages' flags and `GetUpdateBuffer` rebuilds it from them when writing, and neither is part of this model. The model keeps the word next to the stage array instead, and `FromMaterial` takes it as a parameter. So the model does not tie that word to the stages it shares with the material: a caller may pass a word that disagrees with their flags, and later changes to the flags do not reach it.
- **Reader failures**: a .NET end-of-stream exception is a sticky `failed` flag on the reader. The model does not say where the exception is thrown, only whether one happens.
  - A material's `UnitsCount` above 3 also ends in `failed`. The source throws an `IndexOutOfRangeException` there instead, when it stores a fourth coordinate in the three-slot `TextureCoords` array.
- **Writer position**: the writer methods require the writer to sit at the end of what it has written, as it does in every caller.
- **Null sequences**: strings and arrays that the source leaves null start empty here.
- **Playback.AnimControl.constructor**: the zero value of `AnimState`, which a new control starts in, is a parameter, because the enum's declaration is not part of this model.
- **Output register names**: the name of a new `ShaderOutputReg`, which a non-zero output-map word whose four components are all 0x1F never overwrites, is `None` here. The type's declaration and its default name are not part of this model.
- **H3D scene lookup**: the `ANIM` constructor does not take an H3D scene or the model and animation indices. It takes the skeleton, the elements and `FramesCount`, and `MatAnim` is not kept.
- **UnityAnim.ANIM.constructor**: it requires that the parent chain of the first bone named by each Transform or QuatTransform element reaches a root through valid indices (`NamedBonesRooted`). On such a bone with a broken chain the source's `GetBonePath` loop throws (an index out of range) or never ends (a cycle); other bones may be malformed.
- **Keyframes as records**: keyframes are values. The source's slope and rotation passes mutate shared `ANIMKeyFrame` objects, and aliasing between curves is not modelled.
- **ANIMCurve and float curves**: `ANIMCurve` is modelled only at `Vector3`, the one instantiation the exporter uses, and the clip's `floatCurves` list is left out.
- **UnityAnim.ANIM.AddScaleCurves**: the two casts of the parent element's content, `(H3DAnimTransform)` for a Transform element and `(H3DAnimQuatTransform)` for a QuatTransform element, throw when the parent's content is of the other kind. Neither exception is modelled.
- **Playback.AnimControl.PlayAt**: `Play(float Step)` is named `PlayAt`, because Dafny does not overload.
- **UnityCurve.ANIMCurve.AddKeyFrame**: the overload `Add(ANIMKeyFrame)` is named `AddKeyFrame`, because Dafny does not overload. `Add(time, value)` keeps its name.
- **ANIM.Save and AppendVec3Curve**: YAML output to a file is I/O.
- **GFMaterial(H3DMaterial, H3DMesh)**: this is a field-by-field copy of foreign H3D data and is not modelled. Only `GetMetaValue` is.
  - `H3DMetaData` is modelled as a map from names to value lists.
  - The `(T)` cast is not modelled.
- **Material.GFMaterial.Write**: the writer emits 0 where `LightSetIndex` was read and four `true` bytes where `BlendColor` was read, as the source does. Reading a written block therefore does not give back those two fields, and no round trip is claimed for the header.
- **VtxShaderUniforms and GeoShaderUniforms**: these come from the command reader's uniform tables (`GetAllVertexShaderUniforms`). They are externals, as is the size of a new program's uniform array.
