/** The GPU command stream as the shader and material codecs see it: the PICA200
    register numbers they dispatch on, the (register, parameters) records the
    command reader yields, the calls the encoders make on the command writer,
    and the collaborators whose code is not part of this model. */
module Pica {
  import opened Streams

  /** A PICARegister number (a 16-bit enum in the source). */
  type Register = r: int | 0 <= r < 0x10000

  /** One command of the stream. The command reader always yields at least one
      parameter word, which the decoders read as `Parameters[0]`. */
  datatype Command = Command(register: Register, first: Word, more: seq<Word>)
  {
    function Parameters(): (ps: seq<Word>)
      ensures |ps| > 0 && ps[0] == first
    {
      [first] + more
    }
  }

  /** The first parameter of the last command to register r, if any. */
  function LastWrite(cmds: seq<Command>, r: Register): Option<Word>
  {
    if cmds == [] then None
    else if cmds[|cmds| - 1].register == r then Some(cmds[|cmds| - 1].first)
    else LastWrite(cmds[..|cmds| - 1], r)
  }

  /** The overloads of the command writer the encoders use, as calls. */
  datatype Args =
    | Params(consecutive: bool, params: seq<Word>)  // SetCommand(reg, consecutive, params...)
    | Param(value: Word)                            // SetCommand(reg, value)
    | Masked(value: Word, mask: Word)               // SetCommand(reg, value, mask)
    | Flag(on: bool)                                // SetCommand(reg, bool)
    | Flags(first: bool, second: bool)              // SetCommand(reg, bool, bool)
    | Floats(consecutive: bool, bits: seq<Word>)    // SetCommand(reg, consecutive, float[]), floats as their bit patterns
    | Repeated(consecutive: bool, params: seq<Word>) // SetCommands(reg, consecutive, params...)

  datatype SetCall = SetCall(register: Register, args: Args) | WriteEnd

  /** The registers of a call list, in call order, leaving out WriteEnd. */
  function CallRegisters(calls: seq<SetCall>): (rs: seq<Register>)
    ensures |rs| <= |calls|
  {
    if calls == [] then []
    else (if calls[0].SetCall? then [calls[0].register] else []) + CallRegisters(calls[1..])
  }

  lemma {:induction false} CallRegistersAppend(a: seq<SetCall>, b: seq<SetCall>)
    ensures CallRegisters(a + b) == CallRegisters(a) + CallRegisters(b)
  {
    if a == [] {
      assert a + b == b;
    } else {
      assert (a + b)[0] == a[0];
      assert (a + b)[1..] == a[1..] + b;
      CallRegistersAppend(a[1..], b);
      assert CallRegisters(a + b) == (if a[0].SetCall? then [a[0].register] else []) + CallRegisters(a[1..] + b);
    }
  }

  // PICA200 register numbers (the GPU's register map; the enum that names
  // them is not part of this model).
  const GPUREG_FACECULLING_CONFIG: Register := 0x040
  const GPUREG_DEPTHMAP_SCALE: Register := 0x04D
  const GPUREG_DEPTHMAP_OFFSET: Register := 0x04E
  const GPUREG_SH_OUTMAP_O0: Register := 0x050
  const GPUREG_DEPTHMAP_ENABLE: Register := 0x06D
  const GPUREG_TEXUNIT_CONFIG: Register := 0x080
  const GPUREG_TEXUNIT0_BORDER_COLOR: Register := 0x081
  const GPUREG_TEXUNIT1_BORDER_COLOR: Register := 0x091
  const GPUREG_TEXUNIT2_BORDER_COLOR: Register := 0x099
  const GPUREG_TEXENV_UPDATE_BUFFER: Register := 0x0E0
  const GPUREG_TEXENV_BUFFER_COLOR: Register := 0x0FD
  const GPUREG_COLOR_OPERATION: Register := 0x100
  const GPUREG_BLEND_FUNC: Register := 0x101
  const GPUREG_LOGIC_OP: Register := 0x102
  const GPUREG_BLEND_COLOR: Register := 0x103
  const GPUREG_FRAGOP_ALPHA_TEST: Register := 0x104
  const GPUREG_STENCIL_TEST: Register := 0x105
  const GPUREG_STENCIL_OP: Register := 0x106
  const GPUREG_DEPTH_COLOR_MASK: Register := 0x107
  const GPUREG_FRAMEBUFFER_INVALIDATE: Register := 0x110
  const GPUREG_FRAMEBUFFER_FLUSH: Register := 0x111
  const GPUREG_COLORBUFFER_READ: Register := 0x112
  const GPUREG_COLORBUFFER_WRITE: Register := 0x113
  const GPUREG_DEPTHBUFFER_READ: Register := 0x114
  const GPUREG_DEPTHBUFFER_WRITE: Register := 0x115
  const GPUREG_LIGHTING_LUTINPUT_ABS: Register := 0x1D0
  const GPUREG_LIGHTING_LUTINPUT_SELECT: Register := 0x1D1
  const GPUREG_LIGHTING_LUTINPUT_SCALE: Register := 0x1D2
  const GPUREG_GSH_ENTRYPOINT: Register := 0x28A
  const GPUREG_VSH_ENTRYPOINT: Register := 0x2BA
  const GPUREG_VSH_FLOATUNIFORM_INDEX: Register := 0x2C0
  const GPUREG_VSH_FLOATUNIFORM_DATA0: Register := 0x2C1
  const GPUREG_VSH_CODETRANSFER_DATA0: Register := 0x2CC
  const GPUREG_VSH_OPDESCS_DATA0: Register := 0x2D6

  /** The five registers of TexEnv stage k (SOURCE, OPERAND, COMBINER, COLOR,
      SCALE follow each other): stages 0..3 from 0xC0 in steps of 8, stages
      4 and 5 from 0xF0, past the update-buffer register at 0xE0. */
  function TexEnvBase(k: nat): (r: Register)
    requires k < 6
  {
    if k < 4 then 0xC0 + 8 * k else 0xF0 + 8 * (k - 4)
  }

  /** SH_OUTMAP_O0..O6 are consecutive. */
  function OutMapRegister(i: nat): Register
    requires i < 7
  {
    GPUREG_SH_OUTMAP_O0 + i
  }

  /** A PICA state structure or an RGBA colour, by how it was built: Default
      is the value a field holds before anything is assigned to it, Decoded(w)
      the one a decoder builds from a command word (`new PICATexEnvSource(Param)`,
      `new RGBA(Param)`), Read(b) the colour `new RGBA(Reader)` builds from the
      four bytes b. Encoders turn a setting back into a word (`ToUInt32()`) or
      into bytes (`RGBA.Write`) through Externals. */
  datatype Setting = Default | Decoded(word: Word) | Read(bytes: seq<Byte>)

  /** The PICA structures whose bit layouts are not part of this model. */
  datatype Structure =
    | TexEnvSource | TexEnvOperand | TexEnvCombiner | TexEnvScale | TexEnvUpdateBuffer
    | ColorOperation | BlendFunction | AlphaTest | StencilTest | StencilOperation
    | DepthColorMask | LUTInputAbsolute | LUTInputSelection | LUTInputScale | Rgba

  /** A Vector4 of floats, each held as its IEEE-754 bit pattern. */
  datatype Vector4 = Vector4(x: Word, y: Word, z: Word, w: Word)

  /** PICABlendFunc: the blend factors a PICABlendFunction selects. */
  datatype BlendFactor =
    | Zero | One | SourceColor | OneMinusSourceColor | DestinationColor | OneMinusDestinationColor
    | SourceAlpha | OneMinusSourceAlpha | DestinationAlpha | OneMinusDestinationAlpha
    | ConstantColor | OneMinusConstantColor | ConstantAlpha | OneMinusConstantAlpha
    | SourceAlphaSaturate

  datatype BlendFactors = BlendFactors(colorSrc: BlendFactor, colorDst: BlendFactor,
                                       alphaSrc: BlendFactor, alphaDst: BlendFactor)

  /** Code the codecs call but whose text is not part of this model, taken as
      uninterpreted functions: the command reader and writer, the FNV-1 hash
      of the command bytes, the name hash, padded strings, section headers and
      the PICA structures' encoders. */
  datatype Externals = Externals(
    readCommands: seq<Word> -> seq<Command>,          // PICACommandReader over a word buffer
    writeCommands: seq<SetCall> -> seq<Word>,         // PICACommandWriter.GetBuffer after these calls
    toWord: (Structure, Setting) -> Word,             // ToUInt32() of a PICA structure or colour
    rgbaBytes: Setting -> seq<Byte>,                  // RGBA.Write(Writer)
    vtxUniforms: seq<Word> -> map<Word, Vector4>,     // GetAllVertexShaderUniforms of a reader over these words
    geoUniforms: seq<Word> -> map<Word, Vector4>,     // GetAllGeometryShaderUniforms
    vtxUniform0: seq<Word> -> Vector4,                // VtxShaderUniforms[0] after reading these words
    blendFactors: Setting -> BlendFactors,            // the four factors of a PICABlendFunction
    fnv: seq<Byte> -> Word,                           // GFNV1 hash over bytes
    nameHash: string -> Word,                         // GFHashName(name).Hash
    paddedString: seq<Byte> -> string,                // ReadPaddedString over a fixed-width field
    readHashName: (seq<Byte>, nat) -> Option<(string, nat)>, // new GFHashName(Reader).Name and the offset after it
    hashNameBytes: string -> seq<Byte>,               // new GFHashName(name).Write(Writer)
    padString: (string, nat) -> seq<Byte>,            // WritePaddedString(s, width)
    sectionHeader: string -> seq<Byte>,               // new GFSection(magic).Write, length 0
    sectionPad: Byte,                                 // the fill byte of GFSection.WritePadding
    float24MinusOne: Word,                            // PICAVectorFloat24.GetWord24(-1)
    uniformSlots: nat)                                // the length of a new ShaderProgram's Vec4Uniforms
}
