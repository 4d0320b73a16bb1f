/** What the GFL2 shader decoder computes from its command list, stated as
    functions: the fold of the register dispatch over the commands, the output
    registers decoded from the SH_OUTMAP words, the labels found in the
    executable and the end of each program. The imperative decoder in module
    Shader is proved against these, and the lemmas here say what they mean. */
module ShaderSpec {
  import opened Streams
  import opened Pica

  /** PICATexEnvStage: the fields the decoder sets from the five per-stage registers. */
  datatype TexEnvStage = TexEnvStage(source: Setting, operand: Setting, combiner: Setting,
                                     color: Setting, scale: Setting)

  const DefaultStage := TexEnvStage(Default, Default, Default, Default, Default)

  /** The five per-stage registers, in register order from the stage's base. */
  datatype StageField = SourceField | OperandField | CombinerField | ColorField | ScaleField

  function FieldOffset(f: StageField): (o: nat)
    ensures o < 5
  {
    match f
    case SourceField => 0
    case OperandField => 1
    case CombinerField => 2
    case ColorField => 3
    case ScaleField => 4
  }

  function FieldAt(o: nat): StageField
    requires o < 5
  {
    if o == 0 then SourceField
    else if o == 1 then OperandField
    else if o == 2 then CombinerField
    else if o == 3 then ColorField
    else ScaleField
  }

  /** The structure each field holds, for encoding it. */
  function FieldStructure(f: StageField): Structure
  {
    match f
    case SourceField => TexEnvSource
    case OperandField => TexEnvOperand
    case CombinerField => TexEnvCombiner
    case ColorField => Rgba
    case ScaleField => TexEnvScale
  }

  function Get(st: TexEnvStage, f: StageField): Setting
  {
    match f
    case SourceField => st.source
    case OperandField => st.operand
    case CombinerField => st.combiner
    case ColorField => st.color
    case ScaleField => st.scale
  }

  function With(st: TexEnvStage, f: StageField, v: Setting): (r: TexEnvStage)
    ensures Get(r, f) == v
    ensures forall g :: g != f ==> Get(r, g) == Get(st, g)
  {
    match f
    case SourceField => st.(source := v)
    case OperandField => st.(operand := v)
    case CombinerField => st.(combiner := v)
    case ColorField => st.(color := v)
    case ScaleField => st.(scale := v)
  }

  /** The register of field f of stage k (GPUREG_TEXENVk_SOURCE and the rest). */
  function FieldRegister(k: nat, f: StageField): Register
    requires k < 6
  {
    TexEnvBase(k) + FieldOffset(f)
  }

  /** The stage index the decoder derives from a register: bits 3..5, less two
      from 6 on. It is always a valid index into the six stages. */
  function StageIndex(r: Register): (s: nat)
    ensures s < 6
  {
    var b := (r / 8) % 8;
    if b >= 6 then b - 2 else b
  }

  /** Which per-stage field, if any, a register sets. */
  function TexEnvField(r: Register): Option<StageField>
  {
    var o := r % 8;
    if r - o in {0xC0, 0xC8, 0xD0, 0xD8, 0xF0, 0xF8} && o < 5 then Some(FieldAt(o)) else None
  }

  lemma FieldAtOffset(f: StageField)
    ensures FieldAt(FieldOffset(f)) == f
  {
  }

  lemma DivMod8(b: int, o: int)
    requires b >= 0 && b % 8 == 0 && 0 <= o < 8
    ensures (b + o) / 8 == b / 8 && (b + o) % 8 == o
  {
  }

  /** Field f of stage k is decoded as field f of stage k. */
  lemma FieldRegisterStage(k: nat, f: StageField)
    requires k < 6
    ensures TexEnvField(FieldRegister(k, f)) == Some(f)
    ensures StageIndex(FieldRegister(k, f)) == k
  {
    var b, o := TexEnvBase(k), FieldOffset(f);
    DivMod8(b, o);
    FieldAtOffset(f);
    assert b - 0 in {0xC0, 0xC8, 0xD0, 0xD8, 0xF0, 0xF8} by {
      assert k == 0 || k == 1 || k == 2 || k == 3 || k == 4 || k == 5;
    }
    assert (b / 8) % 8 == (if k < 4 then k else k + 2) by {
      assert k == 0 || k == 1 || k == 2 || k == 3 || k == 4 || k == 5;
    }
  }

  /** A register sets a per-stage field exactly when it is one of the thirty
      TEXENVk_SOURCE..SCALE registers, and then it addresses stage k. */
  lemma TexEnvFieldRegisters(r: Register, f: StageField)
    ensures TexEnvField(r) == Some(f) <==> exists k :: 0 <= k < 6 && r == FieldRegister(k, f)
    ensures TexEnvField(r) == Some(f) ==> r == FieldRegister(StageIndex(r), f)
  {
    if TexEnvField(r) == Some(f) {
      var o := r % 8;
      var b := r - o;
      assert b in {0xC0, 0xC8, 0xD0, 0xD8, 0xF0, 0xF8};
      var k: nat := if b == 0xC0 then 0 else if b == 0xC8 then 1 else if b == 0xD0 then 2
                    else if b == 0xD8 then 3 else if b == 0xF0 then 4 else 5;
      assert b == TexEnvBase(k);
      assert FieldAt(o) == f;
      assert o == FieldOffset(f);
      FieldRegisterStage(k, f);
      assert r == FieldRegister(k, f);
    }
    if exists k :: 0 <= k < 6 && r == FieldRegister(k, f) {
      var k :| 0 <= k < 6 && r == FieldRegister(k, f);
      FieldRegisterStage(k, f);
    }
  }

  /** Different (stage, field) pairs have different registers. */
  lemma FieldRegisterInjective(k1: nat, f1: StageField, k2: nat, f2: StageField)
    requires k1 < 6 && k2 < 6
    ensures FieldRegister(k1, f1) == FieldRegister(k2, f2) ==> k1 == k2 && f1 == f2
  {
    FieldRegisterStage(k1, f1);
    FieldRegisterStage(k2, f2);
  }

  /** What the dispatch loop has built after some commands. */
  datatype DecodeState = DecodeState(
    outMap: seq<Word>,           // OutMap[0..7]
    stages: seq<TexEnvStage>,    // TexEnvStages[0..6]
    updateBuffer: Setting,       // the word last given to SetUpdateBuffer
    bufferColor: Setting,        // TexEnvBufferColor
    geoEntry: Option<Word>,      // GeoShader created, with its MainOffset
    vtxEntry: Option<Word>,      // VtxShader created, with its MainOffset
    executable: seq<Word>,       // ShaderExecutable
    swizzles: seq<Word>)         // ShaderSwizzles, before widening to 64 bits

  ghost predicate WellFormed(st: DecodeState)
  {
    |st.outMap| == 7 && |st.stages| == 6
  }

  const Initial := DecodeState([0, 0, 0, 0, 0, 0, 0],
                               [DefaultStage, DefaultStage, DefaultStage, DefaultStage, DefaultStage, DefaultStage],
                               Default, Default, None, None, [], [])

  function InRange(r: Register, lo: Register, count: nat): bool
  {
    lo <= r && r - lo < count
  }

  /** One pass of the dispatch switch, on the command's first parameter. */
  function Step(st: DecodeState, c: Command): (r: DecodeState)
    requires WellFormed(st)
    ensures WellFormed(r)
  {
    var p := c.first;
    if InRange(c.register, GPUREG_SH_OUTMAP_O0, 7) then
      st.(outMap := st.outMap[c.register - GPUREG_SH_OUTMAP_O0 := p])
    else if TexEnvField(c.register).Some? then
      var k := StageIndex(c.register);
      st.(stages := st.stages[k := With(st.stages[k], TexEnvField(c.register).value, Decoded(p))])
    else if c.register == GPUREG_TEXENV_UPDATE_BUFFER then st.(updateBuffer := Decoded(p))
    else if c.register == GPUREG_TEXENV_BUFFER_COLOR then st.(bufferColor := Decoded(p))
    else if c.register == GPUREG_GSH_ENTRYPOINT then st.(geoEntry := Some(p % 0x10000))
    else if InRange(c.register, GPUREG_VSH_CODETRANSFER_DATA0, 8) then
      st.(executable := st.executable + c.Parameters())
    else if InRange(c.register, GPUREG_VSH_OPDESCS_DATA0, 8) then
      st.(swizzles := st.swizzles + c.Parameters())
    else if c.register == GPUREG_VSH_ENTRYPOINT then st.(vtxEntry := Some(p % 0x10000))
    else st
  }

  /** The dispatch loop over a command list, from the initial state. */
  function Replay(cmds: seq<Command>): (r: DecodeState)
    ensures WellFormed(r)
  {
    if cmds == [] then Initial else Step(Replay(cmds[..|cmds| - 1]), cmds[|cmds| - 1])
  }

  function AsSetting(w: Option<Word>): Setting
  {
    if w.Some? then Decoded(w.value) else Default
  }

  /** The parameters of every command to registers lo .. lo+7, concatenated in
      command order. */
  function Gathered(cmds: seq<Command>, lo: Register): seq<Word>
  {
    if cmds == [] then []
    else Gathered(cmds[..|cmds| - 1], lo)
         + (if InRange(cmds[|cmds| - 1].register, lo, 8) then cmds[|cmds| - 1].Parameters() else [])
  }

  lemma {:induction false} LastCommand(cmds: seq<Command>)
    requires cmds != []
    ensures Replay(cmds) == Step(Replay(cmds[..|cmds| - 1]), cmds[|cmds| - 1])
  {
  }

  /** One command changes field f of stage k only when it goes to that field's register. */
  lemma StepStageField(st: DecodeState, c: Command, k: nat, f: StageField)
    requires WellFormed(st) && k < 6
    ensures Get(Step(st, c).stages[k], f) ==
            if c.register == FieldRegister(k, f) then Decoded(c.first) else Get(st.stages[k], f)
  {
    FieldRegisterStage(k, f);
    var g := TexEnvField(c.register);
    if g.Some? && !InRange(c.register, GPUREG_SH_OUTMAP_O0, 7) {
      var j := StageIndex(c.register);
      TexEnvFieldRegisters(c.register, g.value);
      FieldRegisterInjective(j, g.value, k, f);
    }
  }

  /** Last writer wins, per stage and per field: a stage field holds the
      structure built from the last command to its own register, and stays at
      its default when there is none. Commands to other stages or fields leave
      it alone. */
  lemma {:induction false} StageFieldIsLastWrite(cmds: seq<Command>, k: nat, f: StageField)
    requires k < 6
    ensures Get(Replay(cmds).stages[k], f) == AsSetting(LastWrite(cmds, FieldRegister(k, f)))
  {
    if cmds != [] {
      StageFieldIsLastWrite(cmds[..|cmds| - 1], k, f);
      StepStageField(Replay(cmds[..|cmds| - 1]), cmds[|cmds| - 1], k, f);
    }
  }

  /** Each of the seven output-map words is the first parameter of the last
      SH_OUTMAP_Oi command, or 0 when there is none. */
  lemma {:induction false} OutMapIsLastWrite(cmds: seq<Command>, i: nat)
    requires i < 7
    ensures Replay(cmds).outMap[i] == (if LastWrite(cmds, OutMapRegister(i)).Some? then LastWrite(cmds, OutMapRegister(i)).value else 0)
  {
    if cmds != [] {
      OutMapIsLastWrite(cmds[..|cmds| - 1], i);
    }
  }

  /** The buffer colour and the update-buffer word are the last ones given. */
  lemma {:induction false} BufferSettingsAreLastWrite(cmds: seq<Command>)
    ensures Replay(cmds).bufferColor == AsSetting(LastWrite(cmds, GPUREG_TEXENV_BUFFER_COLOR))
    ensures Replay(cmds).updateBuffer == AsSetting(LastWrite(cmds, GPUREG_TEXENV_UPDATE_BUFFER))
  {
    if cmds != [] {
      BufferSettingsAreLastWrite(cmds[..|cmds| - 1]);
    }
  }

  /** A program exists exactly when its entry-point register was written, and
      its main offset is the low 16 bits of the last such command. */
  lemma {:induction false} EntryPointsAreLastWrite(cmds: seq<Command>)
    ensures Replay(cmds).vtxEntry.Some? <==> LastWrite(cmds, GPUREG_VSH_ENTRYPOINT).Some?
    ensures Replay(cmds).vtxEntry.Some? ==> Replay(cmds).vtxEntry.value == LastWrite(cmds, GPUREG_VSH_ENTRYPOINT).value % 0x10000
    ensures Replay(cmds).geoEntry.Some? <==> LastWrite(cmds, GPUREG_GSH_ENTRYPOINT).Some?
    ensures Replay(cmds).geoEntry.Some? ==> Replay(cmds).geoEntry.value == LastWrite(cmds, GPUREG_GSH_ENTRYPOINT).value % 0x10000
  {
    if cmds != [] {
      EntryPointsAreLastWrite(cmds[..|cmds| - 1]);
    }
  }

  /** The executable is every CODETRANSFER_DATA0..7 command's parameters
      concatenated in order, and the swizzles the same for OPDESCS_DATA0..7. */
  lemma {:induction false} ProgramDataIsGathered(cmds: seq<Command>)
    ensures Replay(cmds).executable == Gathered(cmds, GPUREG_VSH_CODETRANSFER_DATA0)
    ensures Replay(cmds).swizzles == Gathered(cmds, GPUREG_VSH_OPDESCS_DATA0)
  {
    if cmds != [] {
      ProgramDataIsGathered(cmds[..|cmds| - 1]);
    }
  }

  // ----- Output registers -----

  /** ShaderOutputRegName. */
  datatype OutputName = Position | QuatNormal | Color | TexCoord0 | TexCoord1 | TexCoord0W
                      | Generic | View | TexCoord2

  /** ShaderOutputReg: a component mask and a name; None is the name a new
      register holds before any component is decoded. */
  datatype OutputReg = OutputReg(mask: Word, name: Option<OutputName>)

  /** The semantic of an output component, by the range its 5-bit value falls in. */
  function RegName(v: Word): OutputName
  {
    if v < 0x4 then Position
    else if v < 0x8 then QuatNormal
    else if v < 0xC then Color
    else if v < 0xE then TexCoord0
    else if v < 0x10 then TexCoord1
    else if v < 0x11 then TexCoord0W
    else if v < 0x12 then Generic
    else if v < 0x16 then View
    else if v < 0x18 then TexCoord2
    else Generic
  }

  /** Component j of an output-map word: 5 bits at bit 8j; 0x1F marks it unused. */
  function Component(word: Word, j: nat): (v: Word)
    requires j < 4
    ensures v <= 0x1F
  {
    (word / Pow256(j)) % 0x20
  }

  /** 256^j, the weight of byte j of a word. */
  function Pow256(j: nat): (p: nat)
    requires j < 4
    ensures p > 0
  {
    if j == 0 then 1 else if j == 1 then 0x100 else if j == 2 then 0x1_0000 else 0x100_0000
  }

  /** Bit j of a mask, (m >> j) & 1 == 1. */
  predicate Bit(m: Word, j: nat)
    requires j < 4
  {
    (m / MaskBit(j)) % 2 == 1
  }

  /** The mask bit of component j, 1 << j. */
  function MaskBit(j: nat): (b: Word)
    requires j < 4
  {
    if j == 0 then 1 else if j == 1 then 2 else if j == 2 then 4 else 8
  }

  /** 2^n for n <= 4. */
  function Pow2(n: nat): (p: nat)
    requires n <= 4
  {
    if n == 0 then 1 else if n == 1 then 2 else if n == 2 then 4 else if n == 3 then 8 else 16
  }

  /** The mask m with bit j set as well. */
  function SetBit(m: Word, j: nat): Word
    requires j < 4 && m < 0x10
  {
    if Bit(m, j) then m else m + MaskBit(j)
  }

  /** The mask decoded from components 0..n-1: bit j set when component j is used. */
  function MaskUpTo(word: Word, n: nat): (m: Word)
    requires n <= 4
    ensures m < Pow2(n)
  {
    if n == 0 then 0
    else if Component(word, n - 1) != 0x1F then SetBit(MaskUpTo(word, n - 1), n - 1)
    else MaskUpTo(word, n - 1)
  }

  /** The name decoded from components 0..n-1: the last used one decides. */
  function NameUpTo(word: Word, n: nat): Option<OutputName>
    requires n <= 4
  {
    if n == 0 then None
    else if Component(word, n - 1) != 0x1F then Some(RegName(Component(word, n - 1)))
    else NameUpTo(word, n - 1)
  }

  /** The name is None exactly when all four components are unused. */
  lemma {:induction false} NameUpToNone(word: Word, n: nat)
    requires n <= 4
    ensures NameUpTo(word, n).None? <==> forall j :: 0 <= j < n ==> Component(word, j) == 0x1F
  {
    if n > 0 {
      NameUpToNone(word, n - 1);
    }
  }

  /** The output register a non-zero output-map word describes. */
  function OutputRegOf(word: Word): OutputReg
  {
    OutputReg(MaskUpTo(word, 4), NameUpTo(word, 4))
  }

  /** Mask bit j is set exactly when component j is not the 0x1F sentinel, so
      the mask fits in four bits; the name is missing only when no component
      is used. */
  lemma OutputRegMask(word: Word)
    ensures OutputRegOf(word).mask <= 0xF
    ensures forall j :: 0 <= j < 4 ==> (Bit(OutputRegOf(word).mask, j) <==> Component(word, j) != 0x1F)
    ensures OutputRegOf(word).name.None? <==> forall j :: 0 <= j < 4 ==> Component(word, j) == 0x1F
  {
    var b0: Word := if Component(word, 0) != 0x1F then 1 else 0;
    var b1: Word := if Component(word, 1) != 0x1F then 1 else 0;
    var b2: Word := if Component(word, 2) != 0x1F then 1 else 0;
    var b3: Word := if Component(word, 3) != 0x1F then 1 else 0;
    var m := MaskUpTo(word, 4);
    assert MaskUpTo(word, 1) == b0;
    assert MaskUpTo(word, 2) == b0 + 2 * b1;
    assert MaskUpTo(word, 3) == b0 + 2 * b1 + 4 * b2;
    assert m == b0 + 2 * b1 + 4 * b2 + 8 * b3;
    FourBits(b0, b1, b2, b3);
    forall j | 0 <= j < 4
      ensures Bit(m, j) <==> Component(word, j) != 0x1F
    {
      if j == 0 {} else if j == 1 {} else if j == 2 {} else {}
    }
    NameUpToNone(word, 4);
  }

  lemma FourBits(b0: Word, b1: Word, b2: Word, b3: Word)
    requires b0 <= 1 && b1 <= 1 && b2 <= 1 && b3 <= 1
    ensures var m := b0 + 2 * b1 + 4 * b2 + 8 * b3;
      m <= 0xF && Bit(m, 0) == (b0 == 1) && Bit(m, 1) == (b1 == 1) && Bit(m, 2) == (b2 == 1) && Bit(m, 3) == (b3 == 1)
  {
  }

  /** The registers the output-map pass assigns from words 0..n-1: zero words
      are skipped, every other index gets the register its word describes. */
  function OutputRegsUpTo(om: seq<Word>, n: nat): (m: map<nat, OutputReg>)
    requires n <= |om|
    ensures forall j: nat :: j in m <==> j < n && om[j] != 0
  {
    map j | 0 <= j < n && om[j] != 0 :: OutputRegOf(om[j])
  }

  /** The pass over word i adds the register of a non-zero word at key i. */
  lemma OutputRegsStep(om: seq<Word>, i: nat)
    requires i < |om|
    ensures OutputRegsUpTo(om, i + 1) == if om[i] == 0 then OutputRegsUpTo(om, i)
                                         else OutputRegsUpTo(om, i)[i := OutputRegOf(om[i])]
  {
    var m0, m1 := OutputRegsUpTo(om, i), OutputRegsUpTo(om, i + 1);
    if om[i] == 0 {
      assert m1 == m0;
    } else {
      assert m1 == m0[i := OutputRegOf(om[i])];
    }
  }

  /** Updating a key of a map union updates the right-hand map. */
  lemma UnionUpdate(a: map<nat, OutputReg>, b: map<nat, OutputReg>, k: nat, v: OutputReg)
    ensures (a + b)[k := v] == a + b[k := v]
  {
  }

  // ----- Labels -----

  const OpEnd: Word := 0x22
  const OpCall: Word := 0x24
  const OpCallC: Word := 0x25
  const OpCallU: Word := 0x26
  const OpJmpC: Word := 0x2C
  const OpJmpU: Word := 0x2D

  /** ShaderOpCode: the top six bits of an instruction. */
  function OpCode(w: Word): (op: Word)
    ensures op < 64
  {
    w / 0x400_0000
  }

  /** Call, CallC, CallU, JmpC and JmpU name a destination. */
  predicate IsFlow(w: Word)
  {
    var op := OpCode(w);
    op == OpCall || op == OpCallC || op == OpCallU || op == OpJmpC || op == OpJmpU
  }

  /** The destination of a flow instruction: 12 bits at bit 10. */
  function Dst(w: Word): (d: Word)
    ensures d < 0x1000
  {
    w / 0x400 % 0x1000
  }

  /** The destinations of the flow instructions, in program order. */
  function Destinations(exe: seq<Word>): (ds: seq<Word>)
    ensures |ds| <= |exe|
    ensures forall i :: 0 <= i < |ds| ==> ds[i] < 0x1000
  {
    if exe == [] then []
    else Destinations(exe[..|exe| - 1]) + (if IsFlow(exe[|exe| - 1]) then [Dst(exe[|exe| - 1])] else [])
  }

  /** The distinct values of ds in order of first occurrence. */
  function FirstSeen(ds: seq<Word>): (fs: seq<Word>)
    ensures forall i :: 0 <= i < |fs| ==> fs[i] in ds
  {
    if ds == [] then []
    else
      var prev := FirstSeen(ds[..|ds| - 1]);
      if ds[|ds| - 1] in prev then prev else prev + [ds[|ds| - 1]]
  }

  lemma {:induction false} FirstSeenElements(ds: seq<Word>)
    ensures forall x :: x in FirstSeen(ds) <==> x in ds
  {
    if ds != [] {
      FirstSeenElements(ds[..|ds| - 1]);
      assert ds == ds[..|ds| - 1] + [ds[|ds| - 1]];
    }
  }

  /** One more instruction: a flow instruction to a destination not seen yet
      adds it at the end; anything else leaves the list alone. */
  lemma FirstSeenStep(exe: seq<Word>, i: nat)
    requires i < |exe|
    ensures var f := FirstSeen(Destinations(exe[..i]));
      FirstSeen(Destinations(exe[..i + 1])) == if IsFlow(exe[i]) && Dst(exe[i]) !in f then f + [Dst(exe[i])] else f
  {
    assert exe[..i + 1][..i] == exe[..i];
    var ds := Destinations(exe[..i]);
    if IsFlow(exe[i]) {
      assert (ds + [Dst(exe[i])])[..|ds|] == ds;
    } else {
      assert ds + [] == ds;
    }
  }

  /** No destination is labelled twice. */
  lemma {:induction false} FirstSeenDistinct(ds: seq<Word>)
    ensures forall a, b :: 0 <= a < b < |FirstSeen(ds)| ==> FirstSeen(ds)[a] != FirstSeen(ds)[b]
  {
    if ds != [] {
      FirstSeenDistinct(ds[..|ds| - 1]);
    }
  }

  /** The index of the first occurrence of x in ds. */
  function FirstIndex(ds: seq<Word>, x: Word): (i: nat)
    requires x in ds
    ensures i < |ds| && ds[i] == x && forall j :: 0 <= j < i ==> ds[j] != x
  {
    if ds[0] == x then 0 else 1 + FirstIndex(ds[1..], x)
  }

  lemma FirstIndexPrefix(ds: seq<Word>, y: Word, x: Word)
    requires x in ds
    ensures FirstIndex(ds + [y], x) == FirstIndex(ds, x)
  {
    if ds[0] != x {
      assert (ds + [y])[1..] == ds[1..] + [y];
      FirstIndexPrefix(ds[1..], y, x);
    }
  }

  ghost predicate InFirstOrder(ds: seq<Word>, fs: seq<Word>)
  {
    (forall x :: x in fs ==> x in ds) &&
    forall a, b :: 0 <= a < b < |fs| ==> FirstIndex(ds, fs[a]) < FirstIndex(ds, fs[b])
  }

  lemma FirstOrderExtend(ds: seq<Word>, y: Word)
    requires InFirstOrder(ds, FirstSeen(ds))
    requires forall x :: x in FirstSeen(ds) <==> x in ds
    ensures InFirstOrder(ds + [y], FirstSeen(ds + [y]))
  {
    var ds' := ds + [y];
    assert ds'[..|ds'| - 1] == ds;
    var fs, fs' := FirstSeen(ds), FirstSeen(ds');
    forall x | x in fs
      ensures FirstIndex(ds', x) == FirstIndex(ds, x)
    {
      FirstIndexPrefix(ds, y, x);
    }
    if y !in fs {
      assert fs' == fs + [y];
      assert FirstIndex(ds', y) == |ds|;
    }
  }

  /** Labels come in the order their destinations are first reached: an earlier
      label's destination first occurs earlier in the program. */
  lemma {:induction false} FirstSeenOrder(ds: seq<Word>)
    ensures InFirstOrder(ds, FirstSeen(ds))
  {
    if ds != [] {
      var init := ds[..|ds| - 1];
      assert ds == init + [ds[|ds| - 1]];
      FirstSeenOrder(init);
      FirstSeenElements(init);
      FirstOrderExtend(init, ds[|ds| - 1]);
    }
  }

  /** ShaderLabel. The id is the running label count: a 32-bit field in the
      source, which cannot wrap because every label has its own 12-bit offset. */
  datatype Label = Label(id: nat, offset: Word, length: Word, name: string)

  function HexDigit(n: Word): (c: char)
    requires n < 16
  {
    "0123456789abcdef"[n]
  }

  /** ToString("x4") of a value below 0x10000: four lower-case hex digits,
      the most significant first. */
  function Hex4(d: Word): (s: string)
    requires d < 0x10000
    ensures |s| == 4
  {
    [HexDigit(d / 16 / 16 / 16), HexDigit(d / 16 / 16 % 16), HexDigit(d / 16 % 16), HexDigit(d % 16)]
  }

  lemma HexDigitInjective(a: Word, b: Word)
    requires a < 16 && b < 16
    ensures HexDigit(a) == HexDigit(b) ==> a == b
  {
  }

  /** A value is determined by its four hex digits. */
  lemma Nibbles(d: Word)
    requires d < 0x10000
    ensures d == 16 * (16 * (16 * (d / 16 / 16 / 16) + d / 16 / 16 % 16) + d / 16 % 16) + d % 16
  {
    var a := d / 16;
    var b := a / 16;
    assert d == 16 * a + d % 16;
    assert a == 16 * b + a % 16;
    assert b == 16 * (b / 16) + b % 16;
  }

  /** The k-th label found: id k, at its destination, length 0, named after it. */
  function LabelFor(k: nat, d: Word): (l: Label)
    requires d < 0x1000
    ensures l.id == k && l.offset == d && l.length == 0 && |l.name| == 10 && l.name[..6] == "label_"
  {
    Label(k, d, 0, "label_" + Hex4(d))
  }

  /** The names of different destinations differ: label names are unique. */
  lemma LabelNamesDistinct(d1: Word, d2: Word)
    requires d1 < 0x1000 && d2 < 0x1000 && d1 != d2
    ensures LabelFor(0, d1).name != LabelFor(0, d2).name
  {
    assert LabelFor(0, d1).name[6..] == Hex4(d1);
    assert LabelFor(0, d2).name[6..] == Hex4(d2);
    if Hex4(d1) == Hex4(d2) {
      HexDigitInjective(d1 / 16 / 16 / 16, d2 / 16 / 16 / 16);
      HexDigitInjective(d1 / 16 / 16 % 16, d2 / 16 / 16 % 16);
      HexDigitInjective(d1 / 16 % 16, d2 / 16 % 16);
      HexDigitInjective(d1 % 16, d2 % 16);
      Nibbles(d1);
      Nibbles(d2);
    }
  }

  /** The labels of destinations fs, numbered in order. */
  function LabelsFor(fs: seq<Word>): (ls: seq<Label>)
    requires forall x :: x in fs ==> x < 0x1000
    ensures |ls| == |fs|
  {
    seq(|fs|, k requires 0 <= k < |fs| => assert fs[k] in fs; LabelFor(k, fs[k]))
  }

  lemma LabelsForAppend(fs: seq<Word>, d: Word)
    requires forall x :: x in fs ==> x < 0x1000
    requires d < 0x1000
    ensures LabelsFor(fs + [d]) == LabelsFor(fs) + [Label(|fs|, d, 0, "label_" + Hex4(d))]
  {
    var l, r := LabelsFor(fs + [d]), LabelsFor(fs) + [Label(|fs|, d, 0, "label_" + Hex4(d))];
    assert |l| == |r|;
    forall k | 0 <= k < |l|
      ensures l[k] == r[k]
    {
      if k < |fs| {
        assert (fs + [d])[k] == fs[k];
      }
    }
  }

  /** The labels the decoder hands to each program. */
  function Labels(exe: seq<Word>): (ls: seq<Label>)
  {
    FirstSeenElements(Destinations(exe));
    LabelsFor(FirstSeen(Destinations(exe)))
  }

  /** Label k has id k and a 12-bit offset, no two labels share an offset, and
      so (LabelNamesDistinct) no two share a name; the offsets are the flow
      destinations in the order they are first reached (FirstSeenOrder). */
  lemma LabelsDistinct(exe: seq<Word>)
    ensures forall k :: 0 <= k < |Labels(exe)| ==> Labels(exe)[k].id == k && Labels(exe)[k].offset < 0x1000
    ensures forall a, b :: 0 <= a < b < |Labels(exe)| ==> Labels(exe)[a].offset != Labels(exe)[b].offset
    ensures forall x :: x in Destinations(exe) <==> exists k :: 0 <= k < |Labels(exe)| && Labels(exe)[k].offset == x
  {
    var ds := Destinations(exe);
    var fs := FirstSeen(ds);
    FirstSeenElements(ds);
    FirstSeenDistinct(ds);
    var ls := Labels(exe);
    assert forall k :: 0 <= k < |ls| ==> ls[k].offset == fs[k];
    forall x | x in ds
      ensures exists k :: 0 <= k < |ls| && ls[k].offset == x
    {
      var k :| 0 <= k < |fs| && fs[k] == x;
      assert ls[k].offset == x;
    }
  }

  // ----- Program end -----

  /** The first End instruction at or after index `from`, if any. */
  function FirstEnd(exe: seq<Word>, from: nat): (r: Option<nat>)
    ensures r.Some? ==> from <= r.value < |exe| && OpCode(exe[r.value]) == OpEnd
    ensures r.Some? ==> forall i :: from <= i < r.value ==> OpCode(exe[i]) != OpEnd
    ensures r.None? ==> forall i :: from <= i < |exe| ==> OpCode(exe[i]) != OpEnd
    decreases |exe| - from
  {
    if from >= |exe| then None
    else if OpCode(exe[from]) == OpEnd then Some(from)
    else FirstEnd(exe, from + 1)
  }
}
