/** What the GFL2 material codec computes, stated as functions: the fold of the
    reader's register dispatch over the command list, and the command calls,
    texture-unit count, texture-unit configuration word and texture-matrix
    floats the writer derives from a material. The class in module Material is
    proved against these; the lemmas here say what they mean. */
module MaterialSpec {
  import opened Streams
  import opened Pica

  // ----- The reader's register dispatch -----

  /** The blending fields of GFMaterial. */
  datatype Blending = Blending(colorOperation: Setting, blendFunction: Setting, blendColor: Setting,
                               logicalOperation: Word)   // PICALogicalOp

  /** The per-fragment tests and the face culling mode. */
  datatype Tests = Tests(alphaTest: Setting, stencilTest: Setting, stencilOperation: Setting,
                         depthColorMask: Setting, faceCulling: Word)   // PICAFaceCulling

  /** The colour, stencil and depth buffer access flags. */
  datatype Buffers = Buffers(colorBufferRead: bool, colorBufferWrite: bool,
                             stencilBufferRead: bool, stencilBufferWrite: bool,
                             depthBufferRead: bool, depthBufferWrite: bool)

  /** The three lighting LUT input settings. */
  datatype LutInput = LutInput(absolute: Setting, selection: Setting, scale: Setting)

  /** The fields of GFMaterial that the command dispatch sets, in groups. */
  datatype RenderState = RenderState(borderColor: seq<Setting>,   // BorderColor[0..3]
                                     blending: Blending, tests: Tests, buffers: Buffers, lutInput: LutInput)

  predicate WellFormed(st: RenderState)
  {
    |st.borderColor| == 3
  }

  /** (PICALogicalOp)(Param & 0xf): the low four bits. */
  function LogicOp(p: Word): (op: Word)
    ensures op < 16
  {
    p % 16
  }

  /** (PICAFaceCulling)(Param & 3): the low two bits. */
  function FaceCull(p: Word): (f: Word)
    ensures f < 4
  {
    p % 4
  }

  /** (Param & 0xf) == 0xf: all four colour channels enabled. */
  predicate AllChannels(p: Word)
  {
    p % 16 == 15
  }

  /** (Param & 1) != 0: the stencil bit of a depth-buffer access word. */
  predicate StencilBit(p: Word)
  {
    p % 2 == 1
  }

  /** (Param & 2) != 0: the depth bit of a depth-buffer access word. */
  predicate DepthBit(p: Word)
  {
    p / 2 % 2 == 1
  }

  predicate IsBorderColorRegister(reg: Register)
  {
    reg == GPUREG_TEXUNIT0_BORDER_COLOR || reg == GPUREG_TEXUNIT1_BORDER_COLOR || reg == GPUREG_TEXUNIT2_BORDER_COLOR
  }

  predicate IsBlendingRegister(reg: Register)
  {
    reg == GPUREG_COLOR_OPERATION || reg == GPUREG_BLEND_FUNC || reg == GPUREG_BLEND_COLOR || reg == GPUREG_LOGIC_OP
  }

  predicate IsTestRegister(reg: Register)
  {
    reg == GPUREG_FRAGOP_ALPHA_TEST || reg == GPUREG_STENCIL_TEST || reg == GPUREG_STENCIL_OP
    || reg == GPUREG_DEPTH_COLOR_MASK || reg == GPUREG_FACECULLING_CONFIG
  }

  predicate IsBufferRegister(reg: Register)
  {
    reg == GPUREG_COLORBUFFER_READ || reg == GPUREG_COLORBUFFER_WRITE
    || reg == GPUREG_DEPTHBUFFER_READ || reg == GPUREG_DEPTHBUFFER_WRITE
  }

  predicate IsLutInputRegister(reg: Register)
  {
    reg == GPUREG_LIGHTING_LUTINPUT_ABS || reg == GPUREG_LIGHTING_LUTINPUT_SELECT || reg == GPUREG_LIGHTING_LUTINPUT_SCALE
  }

  /** The switch cases of the blending registers. */
  function BlendingStep(b: Blending, reg: Register, p: Word): Blending
  {
    if reg == GPUREG_COLOR_OPERATION then b.(colorOperation := Decoded(p))
    else if reg == GPUREG_BLEND_FUNC then b.(blendFunction := Decoded(p))
    else if reg == GPUREG_BLEND_COLOR then b.(blendColor := Decoded(p))
    else if reg == GPUREG_LOGIC_OP then b.(logicalOperation := LogicOp(p))
    else b
  }

  /** The switch cases of the test and face-culling registers. */
  function TestStep(t: Tests, reg: Register, p: Word): Tests
  {
    if reg == GPUREG_FRAGOP_ALPHA_TEST then t.(alphaTest := Decoded(p))
    else if reg == GPUREG_STENCIL_TEST then t.(stencilTest := Decoded(p))
    else if reg == GPUREG_STENCIL_OP then t.(stencilOperation := Decoded(p))
    else if reg == GPUREG_DEPTH_COLOR_MASK then t.(depthColorMask := Decoded(p))
    else if reg == GPUREG_FACECULLING_CONFIG then t.(faceCulling := FaceCull(p))
    else t
  }

  /** The switch cases of the buffer access registers. */
  function BufferStep(b: Buffers, reg: Register, p: Word): Buffers
  {
    if reg == GPUREG_COLORBUFFER_READ then b.(colorBufferRead := AllChannels(p))
    else if reg == GPUREG_COLORBUFFER_WRITE then b.(colorBufferWrite := AllChannels(p))
    else if reg == GPUREG_DEPTHBUFFER_READ then b.(stencilBufferRead := StencilBit(p), depthBufferRead := DepthBit(p))
    else if reg == GPUREG_DEPTHBUFFER_WRITE then b.(stencilBufferWrite := StencilBit(p), depthBufferWrite := DepthBit(p))
    else b
  }

  /** The switch cases of the LUT input registers. */
  function LutInputStep(l: LutInput, reg: Register, p: Word): LutInput
  {
    if reg == GPUREG_LIGHTING_LUTINPUT_ABS then l.(absolute := Decoded(p))
    else if reg == GPUREG_LIGHTING_LUTINPUT_SELECT then l.(selection := Decoded(p))
    else if reg == GPUREG_LIGHTING_LUTINPUT_SCALE then l.(scale := Decoded(p))
    else l
  }

  /** One pass of the dispatch switch, on the command's first parameter;
      registers outside the switch leave the state as it is. */
  function DispatchStep(st: RenderState, c: Command): (r: RenderState)
    requires WellFormed(st)
    ensures WellFormed(r)
  {
    var p, reg := c.first, c.register;
    if reg == GPUREG_TEXUNIT0_BORDER_COLOR then st.(borderColor := st.borderColor[0 := Decoded(p)])
    else if reg == GPUREG_TEXUNIT1_BORDER_COLOR then st.(borderColor := st.borderColor[1 := Decoded(p)])
    else if reg == GPUREG_TEXUNIT2_BORDER_COLOR then st.(borderColor := st.borderColor[2 := Decoded(p)])
    else if IsBlendingRegister(reg) then st.(blending := BlendingStep(st.blending, reg, p))
    else if IsTestRegister(reg) then st.(tests := TestStep(st.tests, reg, p))
    else if IsBufferRegister(reg) then st.(buffers := BufferStep(st.buffers, reg, p))
    else if IsLutInputRegister(reg) then st.(lutInput := LutInputStep(st.lutInput, reg, p))
    else st
  }

  /** The dispatch loop over a command list, from the state the fields held before it. */
  function DispatchAll(st: RenderState, cmds: seq<Command>): (r: RenderState)
    requires WellFormed(st)
    ensures WellFormed(r)
  {
    if cmds == [] then st else DispatchStep(DispatchAll(st, cmds[..|cmds| - 1]), cmds[|cmds| - 1])
  }

  /** The dispatch's fields one by one, each with the register that sets it. */
  datatype Field =
    | BorderColor0 | BorderColor1 | BorderColor2
    | ColorOperationField | BlendFunctionField | BlendColorField | LogicalOperationField
    | AlphaTestField | StencilTestField | StencilOperationField | DepthColorMaskField
    | FaceCullingField | ColorBufferReadField | ColorBufferWriteField
    | StencilBufferReadField | DepthBufferReadField | StencilBufferWriteField | DepthBufferWriteField
    | LutInputAbsoluteField | LutInputSelectionField | LutInputScaleField

  /** A field's value, whatever its type. */
  datatype Value = SettingValue(setting: Setting) | WordValue(word: Word) | BoolValue(flag: bool)

  function Get(st: RenderState, f: Field): Value
    requires WellFormed(st)
  {
    match f
    case BorderColor0 => SettingValue(st.borderColor[0])
    case BorderColor1 => SettingValue(st.borderColor[1])
    case BorderColor2 => SettingValue(st.borderColor[2])
    case ColorOperationField => SettingValue(st.blending.colorOperation)
    case BlendFunctionField => SettingValue(st.blending.blendFunction)
    case BlendColorField => SettingValue(st.blending.blendColor)
    case LogicalOperationField => WordValue(st.blending.logicalOperation)
    case AlphaTestField => SettingValue(st.tests.alphaTest)
    case StencilTestField => SettingValue(st.tests.stencilTest)
    case StencilOperationField => SettingValue(st.tests.stencilOperation)
    case DepthColorMaskField => SettingValue(st.tests.depthColorMask)
    case FaceCullingField => WordValue(st.tests.faceCulling)
    case ColorBufferReadField => BoolValue(st.buffers.colorBufferRead)
    case ColorBufferWriteField => BoolValue(st.buffers.colorBufferWrite)
    case StencilBufferReadField => BoolValue(st.buffers.stencilBufferRead)
    case DepthBufferReadField => BoolValue(st.buffers.depthBufferRead)
    case StencilBufferWriteField => BoolValue(st.buffers.stencilBufferWrite)
    case DepthBufferWriteField => BoolValue(st.buffers.depthBufferWrite)
    case LutInputAbsoluteField => SettingValue(st.lutInput.absolute)
    case LutInputSelectionField => SettingValue(st.lutInput.selection)
    case LutInputScaleField => SettingValue(st.lutInput.scale)
  }

  /** The register whose commands set field f. */
  function FieldRegister(f: Field): Register
  {
    match f
    case BorderColor0 => GPUREG_TEXUNIT0_BORDER_COLOR
    case BorderColor1 => GPUREG_TEXUNIT1_BORDER_COLOR
    case BorderColor2 => GPUREG_TEXUNIT2_BORDER_COLOR
    case ColorOperationField => GPUREG_COLOR_OPERATION
    case BlendFunctionField => GPUREG_BLEND_FUNC
    case BlendColorField => GPUREG_BLEND_COLOR
    case LogicalOperationField => GPUREG_LOGIC_OP
    case AlphaTestField => GPUREG_FRAGOP_ALPHA_TEST
    case StencilTestField => GPUREG_STENCIL_TEST
    case StencilOperationField => GPUREG_STENCIL_OP
    case DepthColorMaskField => GPUREG_DEPTH_COLOR_MASK
    case FaceCullingField => GPUREG_FACECULLING_CONFIG
    case ColorBufferReadField => GPUREG_COLORBUFFER_READ
    case ColorBufferWriteField => GPUREG_COLORBUFFER_WRITE
    case StencilBufferReadField => GPUREG_DEPTHBUFFER_READ
    case DepthBufferReadField => GPUREG_DEPTHBUFFER_READ
    case StencilBufferWriteField => GPUREG_DEPTHBUFFER_WRITE
    case DepthBufferWriteField => GPUREG_DEPTHBUFFER_WRITE
    case LutInputAbsoluteField => GPUREG_LIGHTING_LUTINPUT_ABS
    case LutInputSelectionField => GPUREG_LIGHTING_LUTINPUT_SELECT
    case LutInputScaleField => GPUREG_LIGHTING_LUTINPUT_SCALE
  }

  /** The value field f takes from a command whose first parameter is p. */
  function FieldValue(f: Field, p: Word): Value
  {
    match f
    case LogicalOperationField => WordValue(LogicOp(p))
    case FaceCullingField => WordValue(FaceCull(p))
    case ColorBufferReadField => BoolValue(AllChannels(p))
    case ColorBufferWriteField => BoolValue(AllChannels(p))
    case StencilBufferReadField => BoolValue(StencilBit(p))
    case DepthBufferReadField => BoolValue(DepthBit(p))
    case StencilBufferWriteField => BoolValue(StencilBit(p))
    case DepthBufferWriteField => BoolValue(DepthBit(p))
    case _ => SettingValue(Decoded(p))
  }

  /** A command sets exactly the fields of its register, to the value decoded
      from its first parameter; every other field keeps its value. */
  lemma StepField(st: RenderState, c: Command, f: Field)
    requires WellFormed(st)
    ensures Get(DispatchStep(st, c), f) == if c.register == FieldRegister(f) then FieldValue(f, c.first) else Get(st, f)
  {
    match f
    case BorderColor0 => {}
    case BorderColor1 => {}
    case BorderColor2 => {}
    case ColorOperationField => {}
    case BlendFunctionField => {}
    case BlendColorField => {}
    case LogicalOperationField => {}
    case AlphaTestField => {}
    case StencilTestField => {}
    case StencilOperationField => {}
    case DepthColorMaskField => {}
    case FaceCullingField => {}
    case ColorBufferReadField => {}
    case ColorBufferWriteField => {}
    case StencilBufferReadField => {}
    case DepthBufferReadField => {}
    case StencilBufferWriteField => {}
    case DepthBufferWriteField => {}
    case LutInputAbsoluteField => {}
    case LutInputSelectionField => {}
    case LutInputScaleField => {}
  }

  /** A command to a register the dispatch does not handle changes nothing. */
  lemma UnhandledRegister(st: RenderState, c: Command)
    requires WellFormed(st)
    requires forall f: Field :: FieldRegister(f) != c.register
    ensures DispatchStep(st, c) == st
  {
    var reg := c.register;
    assert !IsBorderColorRegister(reg) by {
      assert FieldRegister(BorderColor0) != reg && FieldRegister(BorderColor1) != reg && FieldRegister(BorderColor2) != reg;
    }
    assert !IsBlendingRegister(reg) by {
      assert FieldRegister(ColorOperationField) != reg && FieldRegister(BlendFunctionField) != reg;
      assert FieldRegister(BlendColorField) != reg && FieldRegister(LogicalOperationField) != reg;
    }
    assert !IsTestRegister(reg) by {
      assert FieldRegister(AlphaTestField) != reg && FieldRegister(StencilTestField) != reg;
      assert FieldRegister(StencilOperationField) != reg && FieldRegister(DepthColorMaskField) != reg;
      assert FieldRegister(FaceCullingField) != reg;
    }
    assert !IsBufferRegister(reg) by {
      assert FieldRegister(ColorBufferReadField) != reg && FieldRegister(ColorBufferWriteField) != reg;
      assert FieldRegister(StencilBufferReadField) != reg && FieldRegister(StencilBufferWriteField) != reg;
    }
    assert !IsLutInputRegister(reg) by {
      assert FieldRegister(LutInputAbsoluteField) != reg && FieldRegister(LutInputSelectionField) != reg;
      assert FieldRegister(LutInputScaleField) != reg;
    }
  }

  /** Last writer wins: after the dispatch loop a field holds the value
      decoded from the last command to its register, and the value it had
      before the loop when there is none. */
  lemma {:induction false} FieldIsLastWrite(st: RenderState, cmds: seq<Command>, f: Field)
    requires WellFormed(st)
    ensures Get(DispatchAll(st, cmds), f) ==
      if LastWrite(cmds, FieldRegister(f)).Some? then FieldValue(f, LastWrite(cmds, FieldRegister(f)).value) else Get(st, f)
  {
    if cmds != [] {
      FieldIsLastWrite(st, cmds[..|cmds| - 1], f);
      StepField(DispatchAll(st, cmds[..|cmds| - 1]), cmds[|cmds| - 1], f);
    }
  }

  /** The bits of the first parameter that a register's decoded fields depend
      on: the low nibble for the logic op and the colour-buffer masks, the low
      two bits for face culling and the depth-buffer flags, the whole word for
      the others. */
  function DecodedBits(reg: Register): (m: nat)
    ensures m > 0
  {
    if reg == GPUREG_LOGIC_OP || reg == GPUREG_COLORBUFFER_READ || reg == GPUREG_COLORBUFFER_WRITE then 16
    else if reg == GPUREG_FACECULLING_CONFIG || reg == GPUREG_DEPTHBUFFER_READ || reg == GPUREG_DEPTHBUFFER_WRITE then 4
    else 0x1_0000_0000
  }

  /** Bits above a register's decoded bits, and parameters after the first,
      are ignored. */
  lemma HighBitsIgnored(st: RenderState, reg: Register, p: Word, q: Word, more: seq<Word>, more': seq<Word>)
    requires WellFormed(st) && p % DecodedBits(reg) == q % DecodedBits(reg)
    ensures DispatchStep(st, Command(reg, p, more)) == DispatchStep(st, Command(reg, q, more'))
  {
    if IsBufferRegister(reg) {
      BufferHighBits(st, reg, p, q, more, more');
    } else if reg == GPUREG_LOGIC_OP || reg == GPUREG_FACECULLING_CONFIG {
      MaskedHighBits(st, reg, p, q, more, more');
    } else {
      assert p == q;
      FirstOnly(st, Command(reg, p, more), Command(reg, q, more'));
    }
  }

  /** The buffer registers read the low four (colour) or two (depth) bits. */
  lemma BufferHighBits(st: RenderState, reg: Register, p: Word, q: Word, more: seq<Word>, more': seq<Word>)
    requires WellFormed(st) && IsBufferRegister(reg) && p % DecodedBits(reg) == q % DecodedBits(reg)
    ensures DispatchStep(st, Command(reg, p, more)) == DispatchStep(st, Command(reg, q, more'))
  {
    if reg == GPUREG_DEPTHBUFFER_READ || reg == GPUREG_DEPTHBUFFER_WRITE {
      Mod4Bits(p);
      Mod4Bits(q);
      assert StencilBit(p) == StencilBit(q) && DepthBit(p) == DepthBit(q);
    } else {
      assert AllChannels(p) == AllChannels(q);
    }
    assert BufferStep(st.buffers, reg, p) == BufferStep(st.buffers, reg, q);
  }

  /** The logic operation and face culling read the low four and two bits. */
  lemma MaskedHighBits(st: RenderState, reg: Register, p: Word, q: Word, more: seq<Word>, more': seq<Word>)
    requires WellFormed(st) && (reg == GPUREG_LOGIC_OP || reg == GPUREG_FACECULLING_CONFIG)
    requires p % DecodedBits(reg) == q % DecodedBits(reg)
    ensures DispatchStep(st, Command(reg, p, more)) == DispatchStep(st, Command(reg, q, more'))
  {
    if reg == GPUREG_LOGIC_OP {
      assert LogicOp(p) == LogicOp(q);
      assert BlendingStep(st.blending, reg, p) == BlendingStep(st.blending, reg, q);
    } else {
      assert FaceCull(p) == FaceCull(q);
      assert TestStep(st.tests, reg, p) == TestStep(st.tests, reg, q);
    }
  }

  /** A pass of the switch reads only the register and the first parameter. */
  lemma FirstOnly(st: RenderState, c: Command, c': Command)
    requires WellFormed(st) && c.register == c'.register && c.first == c'.first
    ensures DispatchStep(st, c) == DispatchStep(st, c')
  {
  }

  lemma Mod4Bits(p: Word)
    ensures p % 2 == p % 4 % 2 && p / 2 % 2 == p % 4 / 2
  {
  }

  /** The depth-buffer words: bit 0 is the stencil flag and bit 1 the depth flag. */
  lemma DepthBufferBits(st: RenderState, c: Command)
    requires WellFormed(st)
    requires c.register == GPUREG_DEPTHBUFFER_READ || c.register == GPUREG_DEPTHBUFFER_WRITE
    ensures var r, two := DispatchStep(st, c), c.first % 4;
      (if c.register == GPUREG_DEPTHBUFFER_READ then r.buffers.stencilBufferRead else r.buffers.stencilBufferWrite) == (two == 1 || two == 3)
      && (if c.register == GPUREG_DEPTHBUFFER_READ then r.buffers.depthBufferRead else r.buffers.depthBufferWrite) == (two >= 2)
  {
    Mod4Bits(c.first);
  }

  /** The word the writer emits for a colour-buffer flag (0xF or 0) decodes
      back to that flag. */
  lemma ColorBufferRoundTrip(st: RenderState, reg: Register, b: bool, more: seq<Word>)
    requires WellFormed(st) && (reg == GPUREG_COLORBUFFER_READ || reg == GPUREG_COLORBUFFER_WRITE)
    ensures var r := DispatchStep(st, Command(reg, ColorBufferWord(b), more));
      (if reg == GPUREG_COLORBUFFER_READ then r.buffers.colorBufferRead else r.buffers.colorBufferWrite) == b
  {
  }

  // ----- What the writer derives from a material -----

  /** GFTextureCoord: its name and, not part of this model, the rest of it. */
  datatype TextureCoord = TextureCoord(name: Option<string>, other: seq<Word>)

  const EmptyCoord := TextureCoord(None, [])

  /** UnitsCount: one more than the index of the last texture coordinate that
      has a name, 0 when none has. */
  function UnitsCount(coords: seq<TextureCoord>): (n: nat)
    requires |coords| == 3
    ensures n <= 3
    ensures forall k :: n <= k < 3 ==> coords[k].name.None?
    ensures n > 0 ==> coords[n - 1].name.Some?
  {
    if coords[2].name.Some? then 3 else if coords[1].name.Some? then 2 else if coords[0].name.Some? then 1 else 0
  }

  /** Bit k of w. */
  predicate BitOf(w: Word, k: nat)
    requires k < 3
  {
    if k == 0 then w % 2 == 1 else if k == 1 then w / 2 % 2 == 1 else w / 4 % 2 == 1
  }

  /** The value of bit k. */
  function BitValue(k: nat): nat
    requires k < 3
  {
    if k == 0 then 1 else if k == 1 then 2 else 4
  }

  /** w as its bits 0..2 and the rest. */
  lemma LowBits(w: Word)
    ensures w == 8 * (w / 8) + 4 * (w / 4 % 2) + 2 * (w / 2 % 2) + w % 2
  {
  }

  /** Sets bit k of w (k < 3) when on holds, and leaves w as it is otherwise. */
  function OrBit(w: Word, k: nat, on: bool): Word
    requires k < 3
  {
    if on && !BitOf(w, k) then (assert w % 8 + BitValue(k) < 8 by { LowBits(w); } w + BitValue(k)) else w
  }

  /** OrBit sets bit k when `on` holds and keeps every other bit. */
  lemma OrBitBits(w: Word, k: nat, on: bool)
    requires k < 3
    ensures BitOf(OrBit(w, k, on), k) == (BitOf(w, k) || on)
    ensures OrBit(w, k, on) / 8 == w / 8
    ensures forall j :: 0 <= j < 3 && j != k ==> BitOf(OrBit(w, k, on), j) == BitOf(w, j)
  {
    var q, b2, b1, b0 := w / 8, w / 4 % 2, w / 2 % 2, w % 2;
    LowBits(w);
    if on && !BitOf(w, k) {
      var r := OrBit(w, k, on);
      if k == 0 {
        BitsOf(r, q, b2, b1, 1);
      } else if k == 1 {
        BitsOf(r, q, b2, 1, b0);
      } else {
        BitsOf(r, q, 1, b1, b0);
      }
    }
  }

  /** The bits of 8q + 4b2 + 2b1 + b0. */
  lemma BitsOf(r: int, q: nat, b2: nat, b1: nat, b0: nat)
    requires b0 < 2 && b1 < 2 && b2 < 2 && r == 8 * q + 4 * b2 + 2 * b1 + b0
    ensures r % 2 == b0 && r / 2 % 2 == b1 && r / 4 % 2 == b2 && r / 8 == q
  {
    assert r / 2 == 4 * q + 2 * b2 + b1;
    assert r / 4 == 2 * q + b2;
  }

  /** TexUnitConfig: 0x00011000 with bit k set for each named coordinate k. */
  function TexUnitConfig(coords: seq<TextureCoord>): (c: Word)
    requires |coords| == 3
  {
    OrBit(OrBit(OrBit(0x11000, 0, coords[0].name.Some?), 1, coords[1].name.Some?), 2, coords[2].name.Some?)
  }

  /** Bits 0..2 of TexUnitConfig say which coordinates have a name; the bits
      above them are those of 0x00011000 whatever the material. */
  lemma TexUnitConfigBits(coords: seq<TextureCoord>)
    requires |coords| == 3
    ensures TexUnitConfig(coords) / 8 == 0x11000 / 8
    ensures forall k :: 0 <= k < 3 ==> (BitOf(TexUnitConfig(coords), k) <==> coords[k].name.Some?)
  {
    var c0 := OrBit(0x11000, 0, coords[0].name.Some?);
    var c1 := OrBit(c0, 1, coords[1].name.Some?);
    OrBitBits(0x11000, 0, coords[0].name.Some?);
    OrBitBits(c0, 1, coords[1].name.Some?);
    OrBitBits(c1, 2, coords[2].name.Some?);
    assert !BitOf(0x11000, 0) && !BitOf(0x11000, 1) && !BitOf(0x11000, 2);
  }

  /** A Matrix3x4 of floats, as bit patterns. */
  datatype Matrix3x4 = Matrix3x4(m11: Word, m12: Word, m13: Word, m21: Word, m22: Word, m23: Word,
                                 m31: Word, m32: Word, m33: Word, m41: Word, m42: Word, m43: Word)

  /** The twelve TexMtx entries of one unit: the matrix by columns, each from row 4 up to row 1. */
  function MatrixWords(m: Matrix3x4): (ws: seq<Word>)
    ensures |ws| == 12
  {
    [m.m41, m.m31, m.m21, m.m11, m.m42, m.m32, m.m22, m.m12, m.m43, m.m33, m.m23, m.m13]
  }

  /** TexMtx for the given transforms, unit after unit. */
  function TexMtx(ms: seq<Matrix3x4>): (t: seq<Word>)
    ensures |t| == 12 * |ms|
  {
    if ms == [] then [] else TexMtx(ms[..|ms| - 1]) + MatrixWords(ms[|ms| - 1])
  }

  /** Entry 12u + j of TexMtx is entry j of unit u's words. */
  lemma {:induction false} TexMtxEntry(ms: seq<Matrix3x4>, u: nat, j: nat)
    requires u < |ms| && j < 12
    ensures TexMtx(ms)[12 * u + j] == MatrixWords(ms[u])[j]
  {
    if u < |ms| - 1 {
      TexMtxEntry(ms[..|ms| - 1], u, j);
    }
  }

  /** The blend function is not the identity (One, Zero for colour and One, Zero for alpha),
      so the material really blends. */
  predicate Blends(f: BlendFactors)
  {
    f.colorSrc != One || f.colorDst != Zero || f.alphaSrc != One || f.alphaDst != Zero
  }

  /** The blend colour word with its alpha byte forced to 0xFF: the colour made opaque. */
  function Opaque(w: Word): (r: Word)
    ensures r / 0x100_0000 == 0xFF && r % 0x100_0000 == w % 0x100_0000
  {
    w % 0x100_0000 + 0xFF00_0000
  }

  /** The colour buffer access word: all four channel bits when access is on, none otherwise. */
  function ColorBufferWord(b: bool): Word
  {
    if b then 0xF else 0
  }

  /** The uniform calls: the texture sources, the texture-matrix index and the matrices. */
  function UniformCalls(textureSources: seq<Word>, texMtx: seq<Word>): seq<SetCall>
    requires |textureSources| == 4
  {
    [SetCall(GPUREG_VSH_FLOATUNIFORM_INDEX, Params(true, [0x8000_0000, textureSources[3], textureSources[2],
                                                         textureSources[1], textureSources[0]])),
     SetCall(GPUREG_VSH_FLOATUNIFORM_INDEX, Param(0x8000_0001)),
     SetCall(GPUREG_VSH_FLOATUNIFORM_DATA0, Floats(false, texMtx))]
  }

  /** Face culling, colour operation and blend function; the logic op and the
      opaque blend colour follow only when the blend function blends. */
  function BlendCalls(st: RenderState, ext: Externals): seq<SetCall>
  {
    [SetCall(GPUREG_FACECULLING_CONFIG, Param(st.tests.faceCulling)),
     SetCall(GPUREG_COLOR_OPERATION, Masked(ext.toWord(ColorOperation, st.blending.colorOperation), 3)),
     SetCall(GPUREG_BLEND_FUNC, Param(ext.toWord(BlendFunction, st.blending.blendFunction)))]
    + (if Blends(ext.blendFactors(st.blending.blendFunction))
       then [SetCall(GPUREG_LOGIC_OP, Param(st.blending.logicalOperation)),
             SetCall(GPUREG_BLEND_COLOR, Param(Opaque(ext.toWord(Rgba, st.blending.blendColor))))]
       else [])
  }

  /** Alpha, stencil and depth-colour tests, the fixed depth map, flush and
      invalidate, and the buffer access masks. */
  function TestCalls(st: RenderState, ext: Externals): seq<SetCall>
  {
    [SetCall(GPUREG_FRAGOP_ALPHA_TEST, Masked(ext.toWord(AlphaTest, st.tests.alphaTest), 3)),
     SetCall(GPUREG_STENCIL_TEST, Param(ext.toWord(StencilTest, st.tests.stencilTest))),
     SetCall(GPUREG_STENCIL_OP, Param(ext.toWord(StencilOperation, st.tests.stencilOperation))),
     SetCall(GPUREG_DEPTH_COLOR_MASK, Param(ext.toWord(DepthColorMask, st.tests.depthColorMask))),
     SetCall(GPUREG_DEPTHMAP_ENABLE, Flag(true)),
     SetCall(GPUREG_DEPTHMAP_SCALE, Param(ext.float24MinusOne)),
     SetCall(GPUREG_DEPTHMAP_OFFSET, Param(0)),
     SetCall(GPUREG_FRAMEBUFFER_FLUSH, Flag(true)),
     SetCall(GPUREG_FRAMEBUFFER_INVALIDATE, Flag(true)),
     SetCall(GPUREG_COLORBUFFER_READ, Masked(ColorBufferWord(st.buffers.colorBufferRead), 1)),
     SetCall(GPUREG_COLORBUFFER_WRITE, Masked(ColorBufferWord(st.buffers.colorBufferWrite), 1)),
     SetCall(GPUREG_DEPTHBUFFER_READ, Flags(st.buffers.stencilBufferRead, st.buffers.depthBufferRead)),
     SetCall(GPUREG_DEPTHBUFFER_WRITE, Flags(st.buffers.stencilBufferWrite, st.buffers.depthBufferWrite))]
  }

  /** The texture-unit configuration, the border colours, the LUT inputs and the end. */
  function TextureCalls(st: RenderState, texUnitConfig: Word, ext: Externals): seq<SetCall>
    requires WellFormed(st)
  {
    [SetCall(GPUREG_TEXUNIT_CONFIG, Repeated(false, [0, 0, 0, 0])),
     SetCall(GPUREG_TEXUNIT_CONFIG, Param(texUnitConfig)),
     SetCall(GPUREG_TEXUNIT0_BORDER_COLOR, Param(ext.toWord(Rgba, st.borderColor[0]))),
     SetCall(GPUREG_TEXUNIT1_BORDER_COLOR, Param(ext.toWord(Rgba, st.borderColor[1]))),
     SetCall(GPUREG_TEXUNIT2_BORDER_COLOR, Param(ext.toWord(Rgba, st.borderColor[2]))),
     SetCall(GPUREG_LIGHTING_LUTINPUT_ABS, Param(ext.toWord(LUTInputAbsolute, st.lutInput.absolute))),
     SetCall(GPUREG_LIGHTING_LUTINPUT_SELECT, Param(ext.toWord(LUTInputSelection, st.lutInput.selection))),
     SetCall(GPUREG_LIGHTING_LUTINPUT_SCALE, Param(ext.toWord(LUTInputScale, st.lutInput.scale))),
     WriteEnd]
  }

  /** Every command call the material writer makes, in order. */
  function MaterialCalls(textureSources: seq<Word>, texMtx: seq<Word>, st: RenderState, texUnitConfig: Word,
                         ext: Externals): seq<SetCall>
    requires |textureSources| == 4 && WellFormed(st)
  {
    UniformCalls(textureSources, texMtx) + BlendCalls(st, ext) + TestCalls(st, ext) + TextureCalls(st, texUnitConfig, ext)
  }

  /** The registers of a list of calls that has no WriteEnd, one per call. */
  lemma {:induction false} SetCallRegisters(calls: seq<SetCall>)
    requires forall i :: 0 <= i < |calls| ==> calls[i].SetCall?
    ensures |CallRegisters(calls)| == |calls|
    ensures forall i :: 0 <= i < |calls| ==> CallRegisters(calls)[i] == calls[i].register
  {
    if calls != [] {
      SetCallRegisters(calls[1..]);
      assert CallRegisters(calls) == [calls[0].register] + CallRegisters(calls[1..]);
    }
  }

  /** The registers the material writer addresses, in order: uniforms, face
      culling, colour operation, blend function, the logic op and blend colour
      exactly when the blend function blends, the tests, the depth map, flush
      and invalidate, the buffer masks, the texture-unit configuration twice,
      the three border colours and the three LUT inputs. */
  lemma MaterialCallOrder(textureSources: seq<Word>, texMtx: seq<Word>, st: RenderState, texUnitConfig: Word, ext: Externals)
    requires |textureSources| == 4 && WellFormed(st)
    ensures CallRegisters(MaterialCalls(textureSources, texMtx, st, texUnitConfig, ext)) ==
      [GPUREG_VSH_FLOATUNIFORM_INDEX, GPUREG_VSH_FLOATUNIFORM_INDEX, GPUREG_VSH_FLOATUNIFORM_DATA0,
       GPUREG_FACECULLING_CONFIG, GPUREG_COLOR_OPERATION, GPUREG_BLEND_FUNC]
      + (if Blends(ext.blendFactors(st.blending.blendFunction)) then [GPUREG_LOGIC_OP, GPUREG_BLEND_COLOR] else [])
      + [GPUREG_FRAGOP_ALPHA_TEST, GPUREG_STENCIL_TEST, GPUREG_STENCIL_OP, GPUREG_DEPTH_COLOR_MASK,
         GPUREG_DEPTHMAP_ENABLE, GPUREG_DEPTHMAP_SCALE, GPUREG_DEPTHMAP_OFFSET,
         GPUREG_FRAMEBUFFER_FLUSH, GPUREG_FRAMEBUFFER_INVALIDATE,
         GPUREG_COLORBUFFER_READ, GPUREG_COLORBUFFER_WRITE, GPUREG_DEPTHBUFFER_READ, GPUREG_DEPTHBUFFER_WRITE]
      + [GPUREG_TEXUNIT_CONFIG, GPUREG_TEXUNIT_CONFIG,
         GPUREG_TEXUNIT0_BORDER_COLOR, GPUREG_TEXUNIT1_BORDER_COLOR, GPUREG_TEXUNIT2_BORDER_COLOR,
         GPUREG_LIGHTING_LUTINPUT_ABS, GPUREG_LIGHTING_LUTINPUT_SELECT, GPUREG_LIGHTING_LUTINPUT_SCALE]
  {
    var u, b, t, x := UniformCalls(textureSources, texMtx), BlendCalls(st, ext), TestCalls(st, ext),
                      TextureCalls(st, texUnitConfig, ext);
    CallRegistersAppend(u + b + t, x);
    CallRegistersAppend(u + b, t);
    CallRegistersAppend(u, b);
    UniformRegisters(textureSources, texMtx);
    BlendRegisters(st, ext);
    TestRegisters(st, ext);
    TextureRegisters(st, texUnitConfig, ext);
    var opt := if Blends(ext.blendFactors(st.blending.blendFunction)) then [GPUREG_LOGIC_OP, GPUREG_BLEND_COLOR] else [];
    assert [GPUREG_VSH_FLOATUNIFORM_INDEX, GPUREG_VSH_FLOATUNIFORM_INDEX, GPUREG_VSH_FLOATUNIFORM_DATA0]
           + ([GPUREG_FACECULLING_CONFIG, GPUREG_COLOR_OPERATION, GPUREG_BLEND_FUNC] + opt)
        == [GPUREG_VSH_FLOATUNIFORM_INDEX, GPUREG_VSH_FLOATUNIFORM_INDEX, GPUREG_VSH_FLOATUNIFORM_DATA0,
            GPUREG_FACECULLING_CONFIG, GPUREG_COLOR_OPERATION, GPUREG_BLEND_FUNC] + opt;
  }

  lemma UniformRegisters(textureSources: seq<Word>, texMtx: seq<Word>)
    requires |textureSources| == 4
    ensures CallRegisters(UniformCalls(textureSources, texMtx)) ==
      [GPUREG_VSH_FLOATUNIFORM_INDEX, GPUREG_VSH_FLOATUNIFORM_INDEX, GPUREG_VSH_FLOATUNIFORM_DATA0]
  {
    SetCallRegisters(UniformCalls(textureSources, texMtx));
  }

  lemma TestRegisters(st: RenderState, ext: Externals)
    ensures CallRegisters(TestCalls(st, ext)) ==
      [GPUREG_FRAGOP_ALPHA_TEST, GPUREG_STENCIL_TEST, GPUREG_STENCIL_OP, GPUREG_DEPTH_COLOR_MASK,
       GPUREG_DEPTHMAP_ENABLE, GPUREG_DEPTHMAP_SCALE, GPUREG_DEPTHMAP_OFFSET,
       GPUREG_FRAMEBUFFER_FLUSH, GPUREG_FRAMEBUFFER_INVALIDATE,
       GPUREG_COLORBUFFER_READ, GPUREG_COLORBUFFER_WRITE, GPUREG_DEPTHBUFFER_READ, GPUREG_DEPTHBUFFER_WRITE]
  {
    SetCallRegisters(TestCalls(st, ext));
  }

  lemma BlendRegisters(st: RenderState, ext: Externals)
    ensures CallRegisters(BlendCalls(st, ext)) ==
      [GPUREG_FACECULLING_CONFIG, GPUREG_COLOR_OPERATION, GPUREG_BLEND_FUNC]
      + (if Blends(ext.blendFactors(st.blending.blendFunction)) then [GPUREG_LOGIC_OP, GPUREG_BLEND_COLOR] else [])
  {
    var calls := BlendCalls(st, ext);
    var fixed := calls[..3];
    var optional := calls[3..];
    assert calls == fixed + optional;
    CallRegistersAppend(fixed, optional);
    SetCallRegisters(fixed);
    SetCallRegisters(optional);
  }

  lemma TextureRegisters(st: RenderState, texUnitConfig: Word, ext: Externals)
    requires WellFormed(st)
    ensures CallRegisters(TextureCalls(st, texUnitConfig, ext)) ==
      [GPUREG_TEXUNIT_CONFIG, GPUREG_TEXUNIT_CONFIG,
       GPUREG_TEXUNIT0_BORDER_COLOR, GPUREG_TEXUNIT1_BORDER_COLOR, GPUREG_TEXUNIT2_BORDER_COLOR,
       GPUREG_LIGHTING_LUTINPUT_ABS, GPUREG_LIGHTING_LUTINPUT_SELECT, GPUREG_LIGHTING_LUTINPUT_SCALE]
  {
    var x := TextureCalls(st, texUnitConfig, ext);
    var x' := x[..|x| - 1];
    assert x == x' + [WriteEnd];
    CallRegistersAppend(x', [WriteEnd]);
    assert CallRegisters([WriteEnd]) == [] by {
      assert [WriteEnd][1..] == [];
    }
    SetCallRegisters(x');
  }
}
