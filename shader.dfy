/** GFShader: the GFL2 shader block. The reader walks the block header, reads
    the command words, replays them into TexEnv stages, program entry points
    and microcode, then decodes the output map, discovers labels and finds each
    program's end. The writer re-emits the raw block when a vertex shader is
    present and otherwise builds a fragment-only block. */
module Shader {
  import opened Streams
  import opened Pica
  import opened ShaderSpec

  const MagicNum: Word := 0x15041213
  const MagicStr: string := "shader"

  /** ShaderUniformVec4: the fields MakeArray sets. */
  datatype UniformVec4 = UniformVec4(name: string, isArray: bool, arrayIndex: int, arrayLength: int)

  const NewUniform := UniformVec4("", false, 0, 0)

  /** ShaderProgram: the part a GFShader fills in. */
  class ShaderProgram {
    var mainOffset: Word
    var endMainOffset: Word
    var labels: seq<Label>
    var outputRegs: map<nat, OutputReg>
    const vec4Uniforms: array<UniformVec4>

    constructor (slots: nat)
      ensures mainOffset == 0 && endMainOffset == 0 && labels == [] && outputRegs == map[]
      ensures fresh(vec4Uniforms) && vec4Uniforms.Length == slots
    {
      mainOffset, endMainOffset := 0, 0;
      labels, outputRegs := [], map[];
      vec4Uniforms := new UniformVec4[slots](_ => NewUniform);
    }
  }

  /** ShaderBinary as ToShaderBinary fills it. */
  datatype ShaderBinary = ShaderBinary(executable: seq<Word>, swizzles: seq<Word>, programs: seq<ShaderProgram>)

  // ----- Block layout as the reader walks it -----

  /** The 0x40-byte name field: after magic and count, the padding and the
      16-byte section header. */
  function NameAt(start: nat): nat
  {
    Align16(start + 8) + 0x10
  }

  /** CommandsLength: after the name, its hash and count, and padding. */
  function CommandsLengthAt(start: nat): nat
  {
    Align16(NameAt(start) + 0x40 + 8)
  }

  /** The 0x40-byte file name field follows CommandsLength, CommandsCount,
      CommandsHash and a padding word. */
  function FileNameAt(start: nat): nat
  {
    CommandsLengthAt(start) + 0x10
  }

  function CommandWordsAt(start: nat): nat
  {
    FileNameAt(start) + 0x40
  }

  /** CommandsLength >> 2: the number of command words. */
  function WordCount(d: seq<Byte>, start: nat): nat
    requires CommandsLengthAt(start) + 4 <= |d|
  {
    var cl := CommandsLengthAt(start);
    U32(d[cl..cl + 4]) / 4
  }

  /** The whole block is inside the buffer: every read of the reader succeeds. */
  predicate Complete(d: seq<Byte>, start: nat)
  {
    CommandsLengthAt(start) + 4 <= |d| && CommandWordsAt(start) + 4 * WordCount(d, start) <= |d|
  }

  /** Where the last command word ends. */
  function RawEnd(d: seq<Byte>, start: nat): nat
    requires Complete(d, start)
  {
    CommandWordsAt(start) + 4 * WordCount(d, start)
  }

  function CommandWords(d: seq<Byte>, start: nat): seq<Word>
    requires Complete(d, start)
  {
    WordsAt(d, CommandWordsAt(start), WordCount(d, start))
  }

  // ----- The fragment-only block the writer builds -----

  function StageCall(k: nat, st: TexEnvStage, ext: Externals): SetCall
    requires k < 6
  {
    SetCall(TexEnvBase(k), Params(true, [ext.toWord(TexEnvSource, st.source), ext.toWord(TexEnvOperand, st.operand),
                                         ext.toWord(TexEnvCombiner, st.combiner), ext.toWord(Rgba, st.color),
                                         ext.toWord(TexEnvScale, st.scale)]))
  }

  /** One SOURCE..SCALE call per stage, for stages 0..n-1. */
  function StageCalls(stages: seq<TexEnvStage>, n: nat, ext: Externals): (calls: seq<SetCall>)
    requires n <= |stages| && n <= 6
    ensures |calls| == n
  {
    if n == 0 then [] else StageCalls(stages, n - 1, ext) + [StageCall(n - 1, stages[n - 1], ext)]
  }

  /** The command calls of a fragment-only block. */
  function FragmentCalls(stages: seq<TexEnvStage>, updateBuffer: Setting, bufferColor: Setting, ext: Externals): seq<SetCall>
    requires |stages| == 6
  {
    StageCalls(stages, 6, ext)
    + [SetCall(GPUREG_TEXENV_UPDATE_BUFFER, Masked(ext.toWord(TexEnvUpdateBuffer, updateBuffer), 2)),
       SetCall(GPUREG_TEXENV_BUFFER_COLOR, Param(ext.toWord(Rgba, bufferColor))),
       WriteEnd]
  }

  function FragmentWords(stages: seq<TexEnvStage>, updateBuffer: Setting, bufferColor: Setting, ext: Externals): seq<Word>
    requires |stages| == 6
  {
    ext.writeCommands(FragmentCalls(stages, updateBuffer, bufferColor, ext))
  }

  /** The offset of the section header the writer emits, from a start at p0. */
  function HeaderAt(p0: nat): nat
  {
    Align16(p0 + 8)
  }

  /** ShaderDataStart: the offset right after the section header. */
  function DataAt(p0: nat, ext: Externals): nat
  {
    HeaderAt(p0) + |ext.sectionHeader(MagicStr)|
  }

  /** Magic number, shader count 1, padding and the section header. */
  function HeaderBlock(p0: nat, ext: Externals): (b: seq<Byte>)
    ensures p0 + |b| == DataAt(p0, ext)
  {
    LE(MagicNum) + LE(1) + PadBytes(p0 + 8, ext.sectionPad) + ext.sectionHeader(MagicStr)
  }

  /** The name field, its hash, the count 1 and padding, from offset d. */
  function NameBlock(d: nat, name: string, ext: Externals): (b: seq<Byte>)
    ensures d + |b| == Align16(d + |ext.padString(name, 0x40)| + 8)
  {
    ext.padString(name, 0x40) + LE(ext.nameHash(name)) + LE(1) + PadBytes(d + |ext.padString(name, 0x40)| + 8, ext.sectionPad)
  }

  /** The offset of the CommandsLength field in a block written from p0. */
  function LengthFieldAt(p0: nat, name: string, ext: Externals): nat
  {
    DataAt(p0, ext) + |NameBlock(DataAt(p0, ext), name, ext)|
  }

  /** From CommandsLength to the end, written from offset q: the length of
      the command bytes, count 1, their FNV hash, padding, the file name and
      the command bytes themselves. */
  function CommandBlock(q: nat, fileName: string, raw: seq<Byte>, ext: Externals): (c: seq<Byte>)
    ensures |raw| + 4 <= |c| && c[..4] == LE(W(|raw|)) && c[|c| - |raw|..] == raw
  {
    var c := LE(W(|raw|)) + LE(1) + LE(ext.fnv(raw)) + PadBytes(q + 12, ext.sectionPad) + ext.padString(fileName, 0x40) + raw;
    assert c[..4] == LE(W(|raw|));
    c
  }

  /** Everything the fragment writer emits before the length backpatch. */
  function FragmentBody(p0: nat, name: string, fileName: string, raw: seq<Byte>, ext: Externals): (b: seq<Byte>)
    ensures var q := LengthFieldAt(p0, name, ext) - p0;
      q <= |b| && b[q..] == CommandBlock(q + p0, fileName, raw, ext)
  {
    var h, n := HeaderBlock(p0, ext), NameBlock(DataAt(p0, ext), name, ext);
    var c := CommandBlock(LengthFieldAt(p0, name, ext), fileName, raw, ext);
    assert (h + n + c)[|h + n|..] == c;
    h + n + c
  }

  /** A block written from offset p0 around command bytes raw: the body with
      the section length at header offset 8 set to the bytes after the header. */
  function Block(p0: nat, name: string, fileName: string, raw: seq<Byte>, ext: Externals): seq<Byte>
  {
    var body := FragmentBody(p0, name, fileName, raw, ext);
    Overwrite(body, HeaderAt(p0) + 8 - p0, LE(W(p0 + |body| - DataAt(p0, ext))))
  }

  /** Backpatching the length of a body written after d0 yields d0 followed by the block. */
  lemma PatchedBodyIsBlock(d0: seq<Byte>, p0: nat, name: string, fileName: string, raw: seq<Byte>, ext: Externals,
                           at: nat, length: nat)
    requires p0 == |d0| && at == HeaderAt(p0) + 8 && at + 4 <= p0 + |FragmentBody(p0, name, fileName, raw, ext)|
    requires length == p0 + |FragmentBody(p0, name, fileName, raw, ext)| - DataAt(p0, ext)
    ensures Overwrite(d0 + FragmentBody(p0, name, fileName, raw, ext), at, LE(W(length))) == d0 + Block(p0, name, fileName, raw, ext)
  {
    var body := FragmentBody(p0, name, fileName, raw, ext);
    var w := LE(W(length));
    OverwriteShift(d0, body, at - p0, w);
    assert Block(p0, name, fileName, raw, ext) == Overwrite(body, at - p0, w) by {
      assert HeaderAt(p0) + 8 - p0 == at - p0;
      assert p0 + |body| - DataAt(p0, ext) == length;
    }
  }

  /** The same for the fragment commands of the given stages. */
  lemma PatchedBodyIsImage(d0: seq<Byte>, p0: nat, name: string, fileName: string, stages: seq<TexEnvStage>,
                           updateBuffer: Setting, bufferColor: Setting, ext: Externals,
                           raw: seq<Byte>, at: nat, length: nat)
    requires |stages| == 6 && raw == Words(FragmentWords(stages, updateBuffer, bufferColor, ext))
    requires p0 == |d0| && at == HeaderAt(p0) + 8 && at + 4 <= p0 + |FragmentBody(p0, name, fileName, raw, ext)|
    requires length == p0 + |FragmentBody(p0, name, fileName, raw, ext)| - DataAt(p0, ext)
    ensures Overwrite(d0 + FragmentBody(p0, name, fileName, raw, ext), at, LE(W(length)))
         == d0 + FragmentImage(p0, name, fileName, stages, updateBuffer, bufferColor, ext)
  {
    PatchedBodyIsBlock(d0, p0, name, fileName, raw, ext, at, length);
  }

  /** The fragment-only block: the block around the fragment commands. */
  function FragmentImage(p0: nat, name: string, fileName: string, stages: seq<TexEnvStage>,
                         updateBuffer: Setting, bufferColor: Setting, ext: Externals): seq<Byte>
    requires |stages| == 6
  {
    Block(p0, name, fileName, Words(FragmentWords(stages, updateBuffer, bufferColor, ext)), ext)
  }

  class GFShader {
    var name: string
    var fileName: string
    var rawData: seq<Byte>
    var texEnvStages: array<TexEnvStage>
    /** The word last given to SetUpdateBuffer, which spreads it over the stages. */
    var texEnvUpdateBuffer: Setting
    var texEnvBufferColor: Setting
    var vtxShader: ShaderProgram?
    var geoShader: ShaderProgram?
    var executable: seq<Word>
    var swizzles: seq<Word>
    var vtxShaderUniforms: map<Word, Vector4>
    var geoShaderUniforms: map<Word, Vector4>

    ghost predicate Valid()
      reads this
    {
      texEnvStages.Length == 6 && (vtxShader != null && geoShader != null ==> vtxShader != geoShader)
    }

    /** new GFShader(): six default stages, no programs. Strings the source
        leaves null are empty here. */
    constructor ()
      ensures Valid() && fresh(texEnvStages)
      ensures texEnvStages[..] == Initial.stages && vtxShader == null && geoShader == null
      ensures executable == [] && swizzles == [] && rawData == []
    {
      name, fileName, rawData := "", "", [];
      texEnvStages := new TexEnvStage[6](_ => DefaultStage);
      texEnvUpdateBuffer, texEnvBufferColor := Default, Default;
      vtxShader, geoShader := null, null;
      executable, swizzles := [], [];
      vtxShaderUniforms, geoShaderUniforms := map[], map[];
      new;
      assert texEnvStages[..] == Initial.stages;
    }

    /** new GFShader(Material, ShaderName): a fragment shader for an H3D
        material. It shares the material's six TexEnv stages (the same array,
        with the update buffer they carry) and takes its buffer colour; the
        file name is the shader name with ".gffsh" appended. */
    constructor FromMaterial(shaderName: string, stages: array<TexEnvStage>, updateBuffer: Setting, bufferColor: Setting)
      requires stages.Length == 6
      ensures Valid() && texEnvStages == stages
      ensures name == shaderName && fileName == shaderName + ".gffsh"
      ensures texEnvUpdateBuffer == updateBuffer && texEnvBufferColor == bufferColor
      ensures vtxShader == null && geoShader == null && executable == [] && swizzles == [] && rawData == []
    {
      name, fileName, rawData := shaderName, shaderName + ".gffsh", [];
      texEnvStages := stages;
      texEnvUpdateBuffer, texEnvBufferColor := updateBuffer, bufferColor;
      vtxShader, geoShader := null, null;
      executable, swizzles := [], [];
      vtxShaderUniforms, geoShaderUniforms := map[], map[];
    }

    /** What a program holds once the reader is done with it. */
    static ghost predicate ProgramDecoded(p: ShaderProgram, entry: Word, st: DecodeState, uniformName: string, ext: Externals)
      reads p, p.vec4Uniforms
      requires WellFormed(st)
    {
      var end := FirstEnd(st.executable, entry);
      p.mainOffset == entry
      && p.endMainOffset == (if end.Some? then W(end.value) else 0)
      && p.labels == Labels(st.executable)
      && p.outputRegs == OutputRegsUpTo(st.outMap, 7)
      && p.vec4Uniforms.Length == ext.uniformSlots
      && forall i :: 0 <= i < p.vec4Uniforms.Length ==>
           p.vec4Uniforms[i] == UniformVec4(uniformName, true, i, p.vec4Uniforms.Length)
    }

    /** The shader as the reader leaves it after a block at `start` of d. */
    ghost predicate DecodedFrom(d: seq<Byte>, start: nat, ext: Externals)
      reads this, texEnvStages, vtxShader, geoShader
      reads if vtxShader != null then {vtxShader.vec4Uniforms} else {}
      reads if geoShader != null then {geoShader.vec4Uniforms} else {}
      requires Complete(d, start)
    {
      var words := CommandWords(d, start);
      var st := Replay(ext.readCommands(words));
      rawData == d[start..RawEnd(d, start)]
      && name == ext.paddedString(d[NameAt(start)..NameAt(start) + 0x40])
      && fileName == ext.paddedString(d[FileNameAt(start)..FileNameAt(start) + 0x40])
      && texEnvStages[..] == st.stages
      && texEnvUpdateBuffer == st.updateBuffer && texEnvBufferColor == st.bufferColor
      && executable == st.executable && swizzles == st.swizzles
      && (vtxShader != null <==> st.vtxEntry.Some?)
      && (geoShader != null <==> st.geoEntry.Some?)
      && (vtxShader != null ==> ProgramDecoded(vtxShader, st.vtxEntry.value, st, "v_c", ext))
      && (geoShader != null ==> ProgramDecoded(geoShader, st.geoEntry.value, st, "g_c", ext))
      && vtxShaderUniforms == ext.vtxUniforms(words) && geoShaderUniforms == ext.geoUniforms(words)
    }

    /** new GFShader(Reader). The reader's failed flag reports a block that runs
        past the end of the buffer; a complete block decodes as DecodedFrom says. */
    constructor Read(reader: ByteReader, ext: Externals)
      modifies reader
      ensures Valid() && fresh(texEnvStages)
      ensures reader.failed == (old(reader.failed) || !Complete(reader.data, old(reader.pos)))
      ensures Complete(reader.data, old(reader.pos)) ==>
                reader.pos == RawEnd(reader.data, old(reader.pos)) && DecodedFrom(reader.data, old(reader.pos), ext)
    {
      ghost var d, start := reader.data, reader.pos;
      var nm, fnm, words, raw := ReadBlock(reader, ext);
      var stages, updateBuffer, bufferColor, vtx, geo, exe, swz := DecodeCommands(ext.readCommands(words), ext);
      name, fileName, rawData := nm, fnm, raw;
      texEnvStages := stages;
      texEnvUpdateBuffer, texEnvBufferColor := updateBuffer, bufferColor;
      vtxShader, geoShader := vtx, geo;
      executable, swizzles := exe, swz;
      vtxShaderUniforms, geoShaderUniforms := ext.vtxUniforms(words), ext.geoUniforms(words);
    }

    /** The header and command words of the block, and the raw bytes from the
        magic number through the last command word. */
    static method ReadBlock(reader: ByteReader, ext: Externals)
      returns (name: string, fileName: string, words: seq<Word>, rawData: seq<Byte>)
      modifies reader
      ensures reader.failed == (old(reader.failed) || !Complete(reader.data, old(reader.pos)))
      ensures Complete(reader.data, old(reader.pos)) ==>
        var d, s := reader.data, old(reader.pos);
        && words == CommandWords(d, s)
        && rawData == d[s..RawEnd(d, s)]
        && reader.pos == RawEnd(d, s)
        && name == ext.paddedString(d[NameAt(s)..NameAt(s) + 0x40])
        && fileName == ext.paddedString(d[FileNameAt(s)..FileNameAt(s) + 0x40])
    {
      ghost var d, e0 := reader.data, reader.failed;
      var rawDataStart := reader.pos;
      var count;
      name, fileName, count := ReadHeader(reader, ext);
      words := reader.ReadWords(count);
      var rawDataEnd := reader.pos;
      reader.Seek(rawDataStart);
      rawData := reader.ReadBytes(rawDataEnd - rawDataStart);
      if !Complete(d, rawDataStart) && CommandsLengthAt(rawDataStart) + 4 <= |d| {
        assert reader.failed;
      }
    }

    /** The block header up to the file name: returns the names and
        CommandsLength >> 2. */
    static method ReadHeader(reader: ByteReader, ext: Externals) returns (name: string, fileName: string, count: nat)
      modifies reader
      ensures reader.pos == CommandWordsAt(old(reader.pos))
      ensures reader.failed == (old(reader.failed) || |reader.data| < reader.pos)
      ensures reader.pos <= |reader.data| ==>
        var d, s := reader.data, old(reader.pos);
        && count == WordCount(d, s)
        && name == ext.paddedString(d[NameAt(s)..NameAt(s) + 0x40])
        && fileName == ext.paddedString(d[FileNameAt(s)..FileNameAt(s) + 0x40])
    {
      ghost var s := reader.pos;
      name := ReadName(reader, ext);
      fileName, count := ReadCommandsHeader(reader, ext);
    }

    /** Magic number, shader count, padding, the section header, the name
        field, its hash and count, and padding. */
    static method ReadName(reader: ByteReader, ext: Externals) returns (name: string)
      modifies reader
      ensures reader.pos == CommandsLengthAt(old(reader.pos))
      ensures reader.failed == (old(reader.failed) || |reader.data| < NameAt(old(reader.pos)) + 0x48)
      ensures NameAt(old(reader.pos)) + 0x40 <= |reader.data| ==>
        name == ext.paddedString(reader.data[NameAt(old(reader.pos))..NameAt(old(reader.pos)) + 0x40])
    {
      var magicNumber := reader.ReadUInt32();
      var shaderCount := reader.ReadUInt32();
      reader.SkipPadding();
      var sectionLength := reader.ReadSection();
      var nameField := reader.ReadField(0x40);
      name := ext.paddedString(nameField);
      var hash := reader.ReadUInt32();
      var nameCount := reader.ReadUInt32();
      reader.SkipPadding();
    }

    /** CommandsLength, CommandsCount, CommandsHash, a padding word and the
        file name field; returns the file name and CommandsLength >> 2. */
    static method ReadCommandsHeader(reader: ByteReader, ext: Externals) returns (fileName: string, count: nat)
      modifies reader
      ensures reader.pos == old(reader.pos) + 0x50
      ensures reader.failed == (old(reader.failed) || |reader.data| < reader.pos)
      ensures reader.pos <= |reader.data| ==>
        && count == U32(reader.data[old(reader.pos)..old(reader.pos) + 4]) / 4
        && fileName == ext.paddedString(reader.data[old(reader.pos) + 0x10..old(reader.pos) + 0x50])
    {
      var commandsLength := reader.ReadUInt32();
      count := commandsLength / 4;
      var commandsCount := reader.ReadUInt32();
      var commandsHash := reader.ReadUInt32();
      var padding := reader.ReadUInt32();
      var fileNameField := reader.ReadField(0x40);
      fileName := ext.paddedString(fileNameField);
    }

    /** Everything the reader does with the command list: the dispatch loop,
        the output map, the labels, the uniform arrays and the program ends. */
    static method DecodeCommands(cmds: seq<Command>, ext: Externals)
      returns (stages: array<TexEnvStage>, updateBuffer: Setting, bufferColor: Setting,
               vtx: ShaderProgram?, geo: ShaderProgram?, exe: seq<Word>, swz: seq<Word>)
      ensures fresh(stages) && stages.Length == 6
      ensures var st := Replay(cmds);
        && stages[..] == st.stages
        && updateBuffer == st.updateBuffer && bufferColor == st.bufferColor
        && exe == st.executable && swz == st.swizzles
        && (vtx != null <==> st.vtxEntry.Some?) && (geo != null <==> st.geoEntry.Some?)
        && (vtx != null ==> ProgramDecoded(vtx, st.vtxEntry.value, st, "v_c", ext))
        && (geo != null ==> ProgramDecoded(geo, st.geoEntry.value, st, "g_c", ext))
      ensures vtx != null && geo != null ==> vtx != geo
    {
      ghost var st := Replay(cmds);
      var outMap;
      outMap, stages, updateBuffer, bufferColor, vtx, geo, exe, swz := Dispatch(cmds, ext);
      AssignOutputRegs(outMap, vtx, geo);
      var labels := DiscoverLabels(exe);
      FinishProgram(vtx, labels, "v_c", exe, if st.vtxEntry.Some? then st.vtxEntry.value else 0, st, ext);
      FinishProgram(geo, labels, "g_c", exe, if st.geoEntry.Some? then st.geoEntry.value else 0, st, ext);
    }

    /** The dispatch loop's variables hold the state st. */
    static ghost predicate Mirrors(st: DecodeState, outMap: array<Word>, stages: array<TexEnvStage>,
                                   updateBuffer: Setting, bufferColor: Setting, vtx: ShaderProgram?, geo: ShaderProgram?,
                                   exe: seq<Word>, swz: seq<Word>)
      reads outMap, stages, vtx, geo
    {
      && outMap[..] == st.outMap && stages[..] == st.stages
      && updateBuffer == st.updateBuffer && bufferColor == st.bufferColor
      && exe == st.executable && swz == st.swizzles
      && (vtx != null <==> st.vtxEntry.Some?) && (geo != null <==> st.geoEntry.Some?)
      && (vtx != null ==> vtx.mainOffset == st.vtxEntry.value)
      && (geo != null ==> geo.mainOffset == st.geoEntry.value)
    }

    /** A program as the dispatch loop creates it: only its main offset is set. */
    static ghost predicate Untouched(p: ShaderProgram?, ext: Externals)
      reads p
    {
      p != null ==> p.vec4Uniforms.Length == ext.uniformSlots && p.labels == [] && p.outputRegs == map[] && p.endMainOffset == 0
    }

    /** The dispatch loop: each command sets the state its register names. */
    static method Dispatch(cmds: seq<Command>, ext: Externals)
      returns (outMap: array<Word>, stages: array<TexEnvStage>, updateBuffer: Setting, bufferColor: Setting,
               vtx: ShaderProgram?, geo: ShaderProgram?, exe: seq<Word>, swz: seq<Word>)
      ensures fresh(outMap) && fresh(stages) && outMap.Length == 7 && stages.Length == 6
      ensures Mirrors(Replay(cmds), outMap, stages, updateBuffer, bufferColor, vtx, geo, exe, swz)
      ensures vtx != null ==> fresh(vtx) && fresh(vtx.vec4Uniforms)
      ensures geo != null ==> fresh(geo) && fresh(geo.vec4Uniforms)
      ensures Untouched(vtx, ext) && Untouched(geo, ext)
      ensures vtx != null && geo != null ==> vtx != geo && vtx.vec4Uniforms != geo.vec4Uniforms
    {
      outMap := new Word[7](_ => 0);
      stages := new TexEnvStage[6](_ => DefaultStage);
      updateBuffer, bufferColor := Default, Default;
      vtx, geo := null, null;
      exe, swz := [], [];
      assert outMap[..] == Initial.outMap && stages[..] == Initial.stages;
      for i := 0 to |cmds|
        invariant fresh(outMap) && fresh(stages) && outMap.Length == 7 && stages.Length == 6
        invariant Mirrors(Replay(cmds[..i]), outMap, stages, updateBuffer, bufferColor, vtx, geo, exe, swz)
        invariant vtx != null ==> fresh(vtx) && fresh(vtx.vec4Uniforms)
        invariant geo != null ==> fresh(geo) && fresh(geo.vec4Uniforms)
        invariant Untouched(vtx, ext) && Untouched(geo, ext)
        invariant vtx != null && geo != null ==> vtx != geo && vtx.vec4Uniforms != geo.vec4Uniforms
      {
        assert cmds[..i + 1][..i] == cmds[..i];
        updateBuffer, bufferColor, vtx, geo, exe, swz :=
          DispatchCommand(cmds[i], outMap, stages, updateBuffer, bufferColor, vtx, geo, exe, swz, Replay(cmds[..i]), ext);
      }
      assert cmds[..|cmds|] == cmds;
    }

    /** One pass of the switch: the command's register selects what its first
        parameter (or, for the microcode and swizzle registers, all of its
        parameters) is stored in. A program is created the first time its
        entry point is set. */
    static method DispatchCommand(cmd: Command, outMap: array<Word>, stages: array<TexEnvStage>,
                                  updateBuffer: Setting, bufferColor: Setting, vtx: ShaderProgram?, geo: ShaderProgram?,
                                  exe: seq<Word>, swz: seq<Word>, ghost before: DecodeState, ext: Externals)
      returns (updateBuffer': Setting, bufferColor': Setting, vtx': ShaderProgram?, geo': ShaderProgram?,
               exe': seq<Word>, swz': seq<Word>)
      requires WellFormed(before) && outMap.Length == 7 && stages.Length == 6
      requires Mirrors(before, outMap, stages, updateBuffer, bufferColor, vtx, geo, exe, swz)
      requires Untouched(vtx, ext) && Untouched(geo, ext)
      requires vtx != null && geo != null ==> vtx != geo && vtx.vec4Uniforms != geo.vec4Uniforms
      modifies outMap, stages, vtx, geo
      ensures Mirrors(Step(before, cmd), outMap, stages, updateBuffer', bufferColor', vtx', geo', exe', swz')
      ensures vtx != null ==> vtx' == vtx
      ensures geo != null ==> geo' == geo
      ensures vtx' != null && vtx' != vtx ==> fresh(vtx') && fresh(vtx'.vec4Uniforms)
      ensures geo' != null && geo' != geo ==> fresh(geo') && fresh(geo'.vec4Uniforms)
      ensures Untouched(vtx', ext) && Untouched(geo', ext)
      ensures vtx' != null && geo' != null ==> vtx' != geo' && vtx'.vec4Uniforms != geo'.vec4Uniforms
    {
      updateBuffer', bufferColor', vtx', geo', exe', swz' := updateBuffer, bufferColor, vtx, geo, exe, swz;
      var param := cmd.first;
      var stage := StageIndex(cmd.register);
      var field := TexEnvField(cmd.register);
      if InRange(cmd.register, GPUREG_SH_OUTMAP_O0, 7) {
        outMap[cmd.register - GPUREG_SH_OUTMAP_O0] := param;
      } else if field.Some? {
        stages[stage] := With(stages[stage], field.value, Decoded(param));
      } else if cmd.register == GPUREG_TEXENV_UPDATE_BUFFER {
        updateBuffer' := Decoded(param);
      } else if cmd.register == GPUREG_TEXENV_BUFFER_COLOR {
        bufferColor' := Decoded(param);
      } else if cmd.register == GPUREG_GSH_ENTRYPOINT {
        if geo' == null {
          geo' := new ShaderProgram(ext.uniformSlots);
        }
        geo'.mainOffset := param % 0x10000;
      } else if InRange(cmd.register, GPUREG_VSH_CODETRANSFER_DATA0, 8) {
        exe' := exe + cmd.Parameters();
      } else if InRange(cmd.register, GPUREG_VSH_OPDESCS_DATA0, 8) {
        var ps := cmd.Parameters();
        for j := 0 to |ps|
          invariant swz' == swz + ps[..j]
        {
          swz' := swz' + [ps[j]];
        }
        assert ps[..|ps|] == ps;
      } else if cmd.register == GPUREG_VSH_ENTRYPOINT {
        if vtx' == null {
          vtx' := new ShaderProgram(ext.uniformSlots);
        }
        vtx'.mainOffset := param % 0x10000;
      }
    }

    /** The output-map pass: every non-zero word becomes the output register
        at its index, in both programs. */
    static method AssignOutputRegs(outMap: array<Word>, vtx: ShaderProgram?, geo: ShaderProgram?)
      requires outMap.Length == 7
      requires vtx != null && geo != null ==> vtx != geo
      modifies vtx, geo
      ensures vtx != null ==> vtx.outputRegs == old(vtx.outputRegs) + OutputRegsUpTo(outMap[..], 7)
      ensures geo != null ==> geo.outputRegs == old(geo.outputRegs) + OutputRegsUpTo(outMap[..], 7)
      ensures vtx != null ==> vtx.mainOffset == old(vtx.mainOffset) && vtx.endMainOffset == old(vtx.endMainOffset)
                              && vtx.labels == old(vtx.labels)
      ensures geo != null ==> geo.mainOffset == old(geo.mainOffset) && geo.endMainOffset == old(geo.endMainOffset)
                              && geo.labels == old(geo.labels)
    {
      ghost var regs: map<nat, OutputReg> := map[];
      for i := 0 to 7
        invariant regs == OutputRegsUpTo(outMap[..], i)
        invariant vtx != null ==> vtx.outputRegs == old(vtx.outputRegs) + regs
        invariant geo != null ==> geo.outputRegs == old(geo.outputRegs) + regs
        invariant vtx != null ==> vtx.mainOffset == old(vtx.mainOffset) && vtx.endMainOffset == old(vtx.endMainOffset)
                                  && vtx.labels == old(vtx.labels)
        invariant geo != null ==> geo.mainOffset == old(geo.mainOffset) && geo.endMainOffset == old(geo.endMainOffset)
                                  && geo.labels == old(geo.labels)
      {
        OutputRegsStep(outMap[..], i);
        if outMap[i] == 0 {
          continue;
        }
        var reg := DecodeOutputReg(outMap[i]);
        if vtx != null {
          UnionUpdate(old(vtx.outputRegs), regs, i, reg);
          vtx.outputRegs := vtx.outputRegs[i := reg];
        }
        if geo != null {
          UnionUpdate(old(geo.outputRegs), regs, i, reg);
          geo.outputRegs := geo.outputRegs[i := reg];
        }
        regs := regs[i := reg];
      }
    }

    /** One output-map word: component j (5 bits at bit 8j) sets mask bit j
        and the name unless it is 0x1F. */
    static method DecodeOutputReg(word: Word) returns (reg: OutputReg)
      ensures reg == OutputRegOf(word)
    {
      var mask: Word, name: Option<OutputName> := 0, None;
      for j := 0 to 4
        invariant mask == MaskUpTo(word, j) && name == NameUpTo(word, j)
      {
        mask, name := DecodeComponent(word, j, mask, name);
      }
      reg := OutputReg(mask, name);
    }

    /** One pass of the component loop: a used component sets its mask bit
        and becomes the name. */
    static method DecodeComponent(word: Word, j: nat, mask: Word, name: Option<OutputName>)
      returns (mask': Word, name': Option<OutputName>)
      requires j < 4 && mask == MaskUpTo(word, j) && name == NameUpTo(word, j)
      ensures mask' == MaskUpTo(word, j + 1) && name' == NameUpTo(word, j + 1)
    {
      var value := Component(word, j);
      mask', name' := mask, name;
      if value != 0x1F {
        mask' := SetBit(mask, j);
        name' := Some(RegName(value));
      }
    }

    /** Label discovery: every new destination of a call or jump becomes the
        next label, numbered from 0. */
    static method DiscoverLabels(exe: seq<Word>) returns (labels: seq<Label>)
      ensures labels == Labels(exe)
    {
      var dsts: set<Word> := {};
      var lblId: nat := 0;
      labels := [];
      ghost var found: seq<Word> := [];
      for i := 0 to |exe|
        invariant found == FirstSeen(Destinations(exe[..i]))
        invariant forall x :: x in dsts <==> x in found
        invariant forall x :: x in found ==> x < 0x1000
        invariant lblId == |found| && labels == LabelsFor(found)
      {
        FirstSeenStep(exe, i);
        dsts, lblId, labels, found := NoteDestination(exe[i], dsts, lblId, labels, found);
      }
      assert exe[..|exe|] == exe;
    }

    /** One instruction of the label scan: a flow instruction to a destination
        not seen yet gets the next label id and the name label_XXXX. */
    static method NoteDestination(w: Word, dsts: set<Word>, lblId: nat, labels: seq<Label>, ghost found: seq<Word>)
      returns (dsts': set<Word>, lblId': nat, labels': seq<Label>, ghost found': seq<Word>)
      requires forall x :: x in dsts <==> x in found
      requires forall x :: x in found ==> x < 0x1000
      requires lblId == |found| && labels == LabelsFor(found)
      ensures found' == if IsFlow(w) && Dst(w) !in found then found + [Dst(w)] else found
      ensures forall x :: x in dsts' <==> x in found'
      ensures forall x :: x in found' ==> x < 0x1000
      ensures lblId' == |found'| && labels' == LabelsFor(found')
    {
      dsts', lblId', labels', found' := dsts, lblId, labels, found;
      var opCode := OpCode(w);
      if opCode == OpCall || opCode == OpCallC || opCode == OpCallU || opCode == OpJmpC || opCode == OpJmpU {
        var dst := Dst(w);
        if dst !in dsts {
          dsts' := dsts + {dst};
          var name := "label_" + Hex4(dst);
          LabelsForAppend(found, dst);
          labels' := labels + [Label(lblId, dst, 0, name)];
          lblId' := lblId + 1;
          found' := found + [dst];
        }
      }
    }

    /** The steps of the reader after label discovery that touch one program:
        its labels, MakeArray over its uniforms and FindProgramEnd. */
    static method FinishProgram(p: ShaderProgram?, labels: seq<Label>, uniformName: string, exe: seq<Word>,
                                ghost entry: Word, ghost st: DecodeState, ext: Externals)
      requires WellFormed(st) && exe == st.executable && labels == Labels(exe)
      requires p != null ==> p.mainOffset == entry && p.endMainOffset == 0 && p.labels == []
                             && p.outputRegs == OutputRegsUpTo(st.outMap, 7) && p.vec4Uniforms.Length == ext.uniformSlots
      modifies p, if p != null then {p.vec4Uniforms} else {}
      ensures p != null ==> ProgramDecoded(p, entry, st, uniformName, ext)
    {
      if p != null {
        p.labels := p.labels + labels;
        MakeArray(p.vec4Uniforms, uniformName);
        FindProgramEnd(p, exe);
      }
    }

    /** MakeArray: names every uniform of the array and marks it as element i
        of an array as long as the whole; a null array is left alone. */
    static method MakeArray(uniforms: array?<UniformVec4>, name: string)
      modifies uniforms
      ensures uniforms != null ==> forall i :: 0 <= i < uniforms.Length ==>
        uniforms[i] == old(uniforms[i]).(name := name, isArray := true, arrayIndex := i, arrayLength := uniforms.Length)
    {
      if uniforms != null {
        for i := 0 to uniforms.Length
          invariant forall k :: 0 <= k < i ==>
            uniforms[k] == old(uniforms[k]).(name := name, isArray := true, arrayIndex := k, arrayLength := uniforms.Length)
          invariant forall k :: i <= k < uniforms.Length ==> uniforms[k] == old(uniforms[k])
        {
          uniforms[i] := uniforms[i].(name := name, isArray := true, arrayIndex := i, arrayLength := uniforms.Length);
        }
      }
    }

    /** FindProgramEnd: the first End at or after the main offset; without
        one the end offset stays as it was, and a null program is left alone. */
    static method FindProgramEnd(program: ShaderProgram?, exe: seq<Word>)
      modifies program
      ensures program != null ==>
        var end := FirstEnd(exe, old(program.mainOffset));
        program.endMainOffset == (if end.Some? then W(end.value) else old(program.endMainOffset))
      ensures program != null ==> program.mainOffset == old(program.mainOffset) && program.labels == old(program.labels)
                                  && program.outputRegs == old(program.outputRegs)
    {
      if program != null {
        var i: nat := program.mainOffset;
        while i < |exe|
          invariant program.mainOffset == old(program.mainOffset) && program.labels == old(program.labels)
          invariant program.outputRegs == old(program.outputRegs) && program.endMainOffset == old(program.endMainOffset)
          invariant FirstEnd(exe, old(program.mainOffset)) == FirstEnd(exe, i)
          decreases |exe| - i
        {
          if OpCode(exe[i]) == OpEnd {
            program.endMainOffset := W(i);
            break;
          }
          i := i + 1;
        }
      }
    }

    /** ToShaderBinary: the microcode and the programs that exist, vertex first. */
    method ToShaderBinary() returns (b: ShaderBinary)
      ensures b.executable == executable && b.swizzles == swizzles
      ensures b.programs == (if vtxShader != null then [vtxShader] else []) + (if geoShader != null then [geoShader] else [])
    {
      var programs: seq<ShaderProgram> := [];
      if vtxShader != null {
        programs := programs + [vtxShader];
      }
      if geoShader != null {
        programs := programs + [geoShader];
      }
      b := ShaderBinary(executable, swizzles, programs);
    }

    /** Write: the captured raw block when there is a vertex shader, else a
        fragment-only block with its section length backpatched. */
    method Write(writer: ByteWriter, ext: Externals)
      requires Valid() && writer.Valid() && writer.AtEnd()
      modifies writer
      ensures writer.Valid() && writer.AtEnd()
      ensures vtxShader != null ==> writer.data == old(writer.data) + rawData
      ensures vtxShader == null ==>
        writer.data == old(writer.data)
        + FragmentImage(old(writer.pos), name, fileName, texEnvStages[..], texEnvUpdateBuffer, texEnvBufferColor, ext)
    {
      if vtxShader != null {
        writer.Write(rawData);
        return;
      }
      ghost var d0, p0 := writer.data, writer.pos;
      var lengthPos, dataStart, raw := WriteBody(writer, ext);
      var rememberPosition := writer.pos;
      writer.Patch(lengthPos, W(rememberPosition - dataStart));
      PatchedBodyIsImage(d0, p0, name, fileName, texEnvStages[..], texEnvUpdateBuffer, texEnvBufferColor, ext, raw,
                         lengthPos, rememberPosition - dataStart);
    }

    /** Everything before the backpatch: header, name and command blocks;
        returns the offset of the section length field, ShaderDataStart and
        the command bytes. */
    method WriteBody(writer: ByteWriter, ext: Externals) returns (lengthPos: nat, dataStart: nat, raw: seq<Byte>)
      requires Valid() && writer.Valid() && writer.AtEnd()
      modifies writer
      ensures writer.Valid() && writer.AtEnd()
      ensures raw == Words(FragmentWords(texEnvStages[..], texEnvUpdateBuffer, texEnvBufferColor, ext))
      ensures writer.data == old(writer.data) + FragmentBody(old(writer.pos), name, fileName, raw, ext)
      ensures lengthPos == HeaderAt(old(writer.pos)) + 8 && dataStart == DataAt(old(writer.pos), ext)
      ensures lengthPos + 4 <= writer.pos
    {
      ghost var d0, p0 := writer.data, writer.pos;
      lengthPos := WriteHeader(writer, ext);
      ghost var h := HeaderBlock(p0, ext);
      dataStart := writer.pos;
      WriteName(writer, name, ext);
      ghost var n := NameBlock(dataStart, name, ext);
      raw := FragmentCommandBytes(texEnvStages, texEnvUpdateBuffer, texEnvBufferColor, ext);
      ghost var q := writer.pos;
      assert q == LengthFieldAt(p0, name, ext);
      WriteCommands(writer, fileName, raw, ext);
      ghost var c := CommandBlock(q, fileName, raw, ext);
      assert FragmentBody(p0, name, fileName, raw, ext) == h + n + c;
      AppendThree(d0, h, n, c);
    }

    /** The fragment commands: the six stages, the update buffer (mask 2),
        the buffer colour and the end of the stream. */
    static method FragmentCommandBytes(stages: array<TexEnvStage>, updateBuffer: Setting, bufferColor: Setting, ext: Externals)
      returns (raw: seq<Byte>)
      requires stages.Length == 6
      ensures raw == Words(FragmentWords(stages[..], updateBuffer, bufferColor, ext))
    {
      var calls := EmitStages(stages, ext);
      calls := calls + [SetCall(GPUREG_TEXENV_UPDATE_BUFFER, Masked(ext.toWord(TexEnvUpdateBuffer, updateBuffer), 2))];
      calls := calls + [SetCall(GPUREG_TEXENV_BUFFER_COLOR, Param(ext.toWord(Rgba, bufferColor)))];
      calls := calls + [WriteEnd];
      assert calls == FragmentCalls(stages[..], updateBuffer, bufferColor, ext);
      var fragCmds := ext.writeCommands(calls);
      raw := Words(fragCmds);
    }

    /** Magic number, count 1, padding and the section header; returns the
        offset of the header's length field. */
    static method WriteHeader(writer: ByteWriter, ext: Externals) returns (lengthPos: nat)
      requires writer.Valid() && writer.AtEnd()
      modifies writer
      ensures writer.Valid() && writer.AtEnd()
      ensures writer.data == old(writer.data) + HeaderBlock(old(writer.pos), ext)
      ensures lengthPos == HeaderAt(old(writer.pos)) + 8
    {
      writer.WriteUInt32(MagicNum);
      writer.WriteUInt32(1);
      writer.Pad(ext.sectionPad);
      lengthPos := writer.pos + 8;
      writer.Write(ext.sectionHeader(MagicStr));
    }

    /** The padded name, its hash, the count 1 and padding. */
    static method WriteName(writer: ByteWriter, name: string, ext: Externals)
      requires writer.Valid() && writer.AtEnd()
      modifies writer
      ensures writer.Valid() && writer.AtEnd()
      ensures writer.data == old(writer.data) + NameBlock(old(writer.pos), name, ext)
    {
      writer.Write(ext.padString(name, 0x40));
      writer.WriteUInt32(ext.nameHash(name));
      writer.WriteUInt32(1);
      writer.Pad(ext.sectionPad);
    }

    /** CommandsLength, count 1, the FNV hash, padding, the file name and
        the command bytes. */
    static method WriteCommands(writer: ByteWriter, fileName: string, raw: seq<Byte>, ext: Externals)
      requires writer.Valid() && writer.AtEnd()
      modifies writer
      ensures writer.Valid() && writer.AtEnd()
      ensures writer.data == old(writer.data) + CommandBlock(old(writer.pos), fileName, raw, ext)
    {
      ghost var d0, q := writer.data, writer.pos;
      writer.WriteUInt32(W(|raw|));
      writer.WriteUInt32(1);
      writer.WriteUInt32(ext.fnv(raw));
      ghost var fixed := LE(W(|raw|)) + LE(1) + LE(ext.fnv(raw));
      assert writer.data == d0 + fixed && writer.pos == q + 12;
      writer.Pad(ext.sectionPad);
      ghost var padded := fixed + PadBytes(q + 12, ext.sectionPad);
      assert writer.data == d0 + padded;
      writer.Write(ext.padString(fileName, 0x40));
      assert writer.data == d0 + (padded + ext.padString(fileName, 0x40));
      writer.Write(raw);
      AppendTwo(d0, padded + ext.padString(fileName, 0x40), raw);
    }

    /** The six SOURCE..SCALE calls, in stage order. */
    static method EmitStages(stages: array<TexEnvStage>, ext: Externals) returns (calls: seq<SetCall>)
      requires stages.Length == 6
      ensures calls == StageCalls(stages[..], 6, ext)
    {
      calls := [];
      for stage := 0 to 6
        invariant calls == StageCalls(stages[..], stage, ext)
      {
        var register := TexEnvBase(stage);
        var st := stages[stage];
        calls := calls + [SetCall(register, Params(true, [ext.toWord(TexEnvSource, st.source), ext.toWord(TexEnvOperand, st.operand),
                                                          ext.toWord(TexEnvCombiner, st.combiner), ext.toWord(Rgba, st.color),
                                                          ext.toWord(TexEnvScale, st.scale)]))];
      }
    }
  }

  /** The stage calls go to the stages' SOURCE registers in stage order. */
  lemma {:induction false} StageCallRegisters(stages: seq<TexEnvStage>, n: nat, ext: Externals)
    requires n <= |stages| && n <= 6
    ensures CallRegisters(StageCalls(stages, n, ext)) == seq(n, k requires 0 <= k < n => TexEnvBase(k))
  {
    if n > 0 {
      StageCallRegisters(stages, n - 1, ext);
      var c := StageCall(n - 1, stages[n - 1], ext);
      CallRegistersAppend(StageCalls(stages, n - 1, ext), [c]);
      assert CallRegisters([c]) == [c.register] + CallRegisters([c][1..]);
      assert [c][1..] == [];
    }
  }

  /** The fragment block's commands: SOURCE of stages 0..5 in order, then the
      update buffer and the buffer colour, then the end marker. */
  lemma FragmentCallOrder(stages: seq<TexEnvStage>, updateBuffer: Setting, bufferColor: Setting, ext: Externals)
    requires |stages| == 6
    ensures CallRegisters(FragmentCalls(stages, updateBuffer, bufferColor, ext))
            == [0xC0, 0xC8, 0xD0, 0xD8, 0xF0, 0xF8, GPUREG_TEXENV_UPDATE_BUFFER, GPUREG_TEXENV_BUFFER_COLOR]
    ensures FragmentCalls(stages, updateBuffer, bufferColor, ext)[|FragmentCalls(stages, updateBuffer, bufferColor, ext)| - 1] == WriteEnd
  {
    var s := StageCalls(stages, 6, ext);
    var u := SetCall(GPUREG_TEXENV_UPDATE_BUFFER, Masked(ext.toWord(TexEnvUpdateBuffer, updateBuffer), 2));
    var b := SetCall(GPUREG_TEXENV_BUFFER_COLOR, Param(ext.toWord(Rgba, bufferColor)));
    var tail := [u, b, WriteEnd];
    assert FragmentCalls(stages, updateBuffer, bufferColor, ext) == s + tail;
    CallRegistersAppend(s, tail);
    StageCallRegisters(stages, 6, ext);
    var bases := seq(6, k requires 0 <= k < 6 => TexEnvBase(k));
    assert bases[0] == 0xC0 && bases[1] == 0xC8 && bases[2] == 0xD0 && bases[3] == 0xD8 && bases[4] == 0xF0 && bases[5] == 0xF8;
    assert bases == [0xC0, 0xC8, 0xD0, 0xD8, 0xF0, 0xF8];
    assert [WriteEnd][1..] == [];
    assert CallRegisters([WriteEnd]) == [];
    assert [b, WriteEnd][1..] == [WriteEnd];
    assert CallRegisters([b, WriteEnd]) == [GPUREG_TEXENV_BUFFER_COLOR];
    assert tail[1..] == [b, WriteEnd];
    assert CallRegisters(tail) == [GPUREG_TEXENV_UPDATE_BUFFER, GPUREG_TEXENV_BUFFER_COLOR];
  }

  /** Each stage call carries that stage's five fields, encoded, in field order. */
  lemma {:induction false} StageCallsCarryStages(stages: seq<TexEnvStage>, n: nat, ext: Externals, k: nat)
    requires n <= |stages| && n <= 6 && k < n
    ensures StageCalls(stages, n, ext)[k] == SetCall(TexEnvBase(k), Params(true,
      [ext.toWord(TexEnvSource, stages[k].source), ext.toWord(TexEnvOperand, stages[k].operand),
       ext.toWord(TexEnvCombiner, stages[k].combiner), ext.toWord(Rgba, stages[k].color),
       ext.toWord(TexEnvScale, stages[k].scale)]))
  {
    if k < n - 1 {
      StageCallsCarryStages(stages, n - 1, ext, k);
    }
  }

  /** The backpatched section length: the four bytes at header offset 8 count
      every byte from the end of the section header to the end of the block. */
  lemma BlockLengthField(p0: nat, name: string, fileName: string, raw: seq<Byte>, ext: Externals)
    ensures var img := Block(p0, name, fileName, raw, ext);
      var at := HeaderAt(p0) + 8 - p0;
      at + 4 <= |img| && img[at..at + 4] == LE(W(p0 + |img| - DataAt(p0, ext)))
  {
    var body := FragmentBody(p0, name, fileName, raw, ext);
    var at := HeaderAt(p0) + 8 - p0;
    var patch := LE(W(p0 + |body| - DataAt(p0, ext)));
    assert at + 4 <= LengthFieldAt(p0, name, ext) - p0 + 4 <= |body|;
    OverwriteParts(body, at, patch);
  }

  /** The block ends with the command bytes. */
  lemma BlockEndsWithCommands(p0: nat, name: string, fileName: string, raw: seq<Byte>, ext: Externals)
    requires |ext.sectionHeader(MagicStr)| >= 12
    ensures var img := Block(p0, name, fileName, raw, ext);
      |raw| <= |img| && img[|img| - |raw|..] == raw
  {
    var c := BlockCommands(p0, name, fileName, raw, ext);
    var img := Block(p0, name, fileName, raw, ext);
    var q := LengthFieldAt(p0, name, ext) - p0;
    assert |img| == q + |c|;
    assert img[|img| - |raw|..] == img[q..][|c| - |raw|..];
  }

  /** When the section header leaves room for its length field, the
      CommandsLength field after the padded name block holds the number of
      command bytes. */
  lemma BlockCommandsLength(p0: nat, name: string, fileName: string, raw: seq<Byte>, ext: Externals)
    requires |ext.sectionHeader(MagicStr)| >= 12
    ensures var img := Block(p0, name, fileName, raw, ext);
      var q := LengthFieldAt(p0, name, ext) - p0;
      q + 4 <= |img| && img[q..q + 4] == LE(W(|raw|))
  {
    var c := BlockCommands(p0, name, fileName, raw, ext);
    var img := Block(p0, name, fileName, raw, ext);
    var q := LengthFieldAt(p0, name, ext) - p0;
    assert img[q..q + 4] == c[..4];
  }

  /** Past the backpatched length, the block holds the command section. */
  lemma BlockCommands(p0: nat, name: string, fileName: string, raw: seq<Byte>, ext: Externals) returns (c: seq<Byte>)
    requires |ext.sectionHeader(MagicStr)| >= 12
    ensures c == CommandBlock(LengthFieldAt(p0, name, ext), fileName, raw, ext)
    ensures var q := LengthFieldAt(p0, name, ext) - p0;
      q <= |Block(p0, name, fileName, raw, ext)| && Block(p0, name, fileName, raw, ext)[q..] == c
  {
    var body := FragmentBody(p0, name, fileName, raw, ext);
    var at := HeaderAt(p0) + 8 - p0;
    var q := LengthFieldAt(p0, name, ext) - p0;
    c := CommandBlock(q + p0, fileName, raw, ext);
    PatchedSuffix(body, at, LE(W(p0 + |body| - DataAt(p0, ext))), q);
  }
}
