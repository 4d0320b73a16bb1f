/** GFMaterial: the GFL2 material block. The reader walks the section header,
    the four hash names, the fixed header fields, the texture coordinates and
    the command words, and replays the commands into the render-state fields.
    The writer emits the same layout with a freshly built command list and
    backpatches the section length. */
module Material {
  import opened Streams
  import opened Pica
  import opened MaterialSpec

  const MagicStr: string := "material"

  /** The GFTextureCoord reader, writer and transform, whose code is not part
      of this model. */
  datatype CoordCodec = CoordCodec(
    parse: (seq<Byte>, nat) -> Option<(TextureCoord, nat)>,  // new GFTextureCoord(Reader) and the offset after it
    bytes: TextureCoord -> seq<Byte>,                        // GFTextureCoord.Write(Writer)
    transform: TextureCoord -> Matrix3x4)                    // GFTextureCoord.GetTransform()

  /** The header fields between the names and the texture coordinates, except
      BlendColor, which the command dispatch may overwrite and which is kept
      with the render state. Ints and floats are held as their 32-bit patterns,
      the sbyte BumpTexture as its byte. */
  datatype MaterialParams = MaterialParams(
    lutHashIds: seq<Word>,           // LUT0HashId..LUT2HashId
    bumpTexture: Byte,
    constantAssignments: seq<Byte>,  // Constant0Assignment..Constant5Assignment
    lightSetIndex: Byte,
    colors: seq<Setting>,            // Constant0..5Color, Specular0Color, Specular1Color, EmissionColor, AmbientColor, DiffuseColor
    values: seq<Word>)               // EdgeType, IDEdgeEnable, EdgeID, ProjectionType, RimPower, RimScale, PhongPower,
                                     // PhongScale, IDEdgeOffsetEnable, EdgeMapAlphaMask, BakeTexture0..2,
                                     // BakeConstant0..5, VertexShaderType, ShaderParam0..3

  predicate ParamsWellFormed(p: MaterialParams)
  {
    |p.lutHashIds| == 3 && |p.constantAssignments| == 6 && |p.colors| == 11 && |p.values| == 24
  }

  /** The fields of a new GFMaterial() before anything is read into them. */
  const NoParams := MaterialParams([0, 0, 0], 0, [0, 0, 0, 0, 0, 0], 0, [Default, Default, Default, Default, Default, Default, Default, Default, Default, Default, Default],
                                  [0, 0, 0, 0, 0, 0, 0, 0, 0, 0, 0, 0, 0, 0, 0, 0, 0, 0, 0, 0, 0, 0, 0, 0])

  // ----- The header fields as bytes -----

  /** The header fields take 168 bytes: three LUT hashes and a padding word,
      BumpTexture, six assignments and LightSetIndex, twelve four-byte colours
      and 24 words. */
  const ParamsSize: nat := 168

  /** Where header colour k starts: Constant0..5Color, Specular0Color and
      Specular1Color from 24 on, then, past BlendColor at 56, EmissionColor,
      AmbientColor and DiffuseColor from 60 on. */
  function ColorAt(k: nat): (at: nat)
    ensures k < 11 ==> at + 4 <= 72 && (at < 56 <==> k < 8) && (k >= 8 ==> at >= 60)
  {
    if k < 8 then 24 + 4 * k else 28 + 4 * k
  }

  /** The colours written one after the other, RGBA.Write each. */
  function ColorBytes(cs: seq<Setting>, ext: Externals): seq<Byte>
  {
    if cs == [] then [] else ColorBytes(cs[..|cs| - 1], ext) + ext.rgbaBytes(cs[|cs| - 1])
  }

  /** The header fields as the reader takes them from the 168-byte block b:
      the colours where ColorAt says, BlendColor (at 56) left out, and the
      24 words from 72 on. */
  function DecodeParams(b: seq<Byte>): (p: MaterialParams)
    requires |b| == ParamsSize
    ensures ParamsWellFormed(p)
  {
    MaterialParams([U32(b[0..4]), U32(b[4..8]), U32(b[8..12])], b[16], b[17..23], b[23],
                   seq(11, k requires 0 <= k < 11 => Read(b[ColorAt(k)..ColorAt(k) + 4])),
                   seq(24, k requires 0 <= k < 24 => U32(b[72 + 4 * k..76 + 4 * k])))
  }

  /** BlendColor as the header holds it. */
  function HeaderBlendColor(b: seq<Byte>): Setting
    requires |b| == ParamsSize
  {
    Read(b[56..60])
  }

  /** The header fields as the writer emits them: a zero padding word, a zero
      byte where LightSetIndex was read, and four bytes of 1 (Write(true)
      four times) where BlendColor was read. */
  function EncodeParams(p: MaterialParams, ext: Externals): seq<Byte>
    requires ParamsWellFormed(p)
  {
    LE(p.lutHashIds[0]) + LE(p.lutHashIds[1]) + LE(p.lutHashIds[2]) + LE(0)
    + [p.bumpTexture] + p.constantAssignments + [0]
    + ColorBytes(p.colors[..8], ext) + [1, 1, 1, 1] + ColorBytes(p.colors[8..], ext)
    + Words(p.values)
  }

  // ----- The block as the reader walks it -----

  /** Where the reader finds each part of a block: the names, the offset of
      the header fields, the texture coordinates, the offset of
      CommandsLength and the number of command words. */
  datatype Layout = Layout(names: seq<string>, paramsAt: nat, coords: seq<TextureCoord>, headerAt: nat, count: nat)

  /** The reader's walk up to the texture coordinates: the section header,
      the four names and the header fields with UnitsCount after them. Gives
      the names and the offset of the header fields. */
  function ParseHead(d: seq<Byte>, s: nat, ext: Externals): (r: Option<(seq<string>, nat)>)
    ensures r.Some? ==> |r.value.0| == 4 && r.value.1 + ParamsSize + 4 <= |d|
  {
    if |d| < s + 16 then None
    else match ParseMany(ext.readHashName, d, s + 16, 4)
      case None => None
      case Some((names, q)) => if |d| < q + ParamsSize + 4 then None else Some((names, q))
  }

  /** The rest of the walk, from the first texture coordinate at c0: the
      coordinates, padding to a 16-byte boundary, the eight header words and the
      command words. Gives the coordinates, the offset of CommandsLength and
      the number of command words. */
  function ParseTail(d: seq<Byte>, c0: nat, units: Word, codec: CoordCodec): (r: Option<(seq<TextureCoord>, nat, nat)>)
    ensures r.Some? ==> |r.value.0| == units <= 3 && r.value.1 + 32 + 4 * r.value.2 <= |d|
  {
    if units > 3 then None
    else match ParseMany(codec.parse, d, c0, units)
      case None => None
      case Some((coords, c)) =>
        var h := Align16(c);
        if |d| < h + 32 then None
        else
          var n := U32(d[h..h + 4]) / 4;
          if |d| < h + 32 + 4 * n then None else Some((coords, h, n))
  }

  /** The walk of the reader over a block at s of d, or None when a read runs
      past the end, a name or texture coordinate cannot be read, or UnitsCount
      exceeds the three TextureCoords slots. */
  function Parse(d: seq<Byte>, s: nat, ext: Externals, codec: CoordCodec): (r: Option<Layout>)
    ensures r.Some? ==> |r.value.names| == 4 && |r.value.coords| <= 3
    ensures r.Some? ==> r.value.paramsAt + ParamsSize + 4 <= |d| && r.value.headerAt + 32 + 4 * r.value.count <= |d|
  {
    match ParseHead(d, s, ext)
    case None => None
    case Some((names, q)) =>
      match ParseTail(d, q + ParamsSize + 4, U32(d[q + ParamsSize..q + ParamsSize + 4]), codec)
      case None => None
      case Some((coords, h, n)) => Some(Layout(names, q, coords, h, n))
  }

  /** Position + MaterialSection.Length: where the reader resumes. */
  function ResumeAt(d: seq<Byte>, s: nat): nat
    requires s + 16 <= |d|
  {
    s + 16 + U32(d[s + 8..s + 12])
  }

  /** The render state of a new material whose header held blend colour c. */
  function InitialState(c: Setting): (st: RenderState)
    ensures WellFormed(st)
  {
    RenderState([Default, Default, Default], Blending(Default, Default, c, 0),
                Tests(Default, Default, Default, Default, 0),
                Buffers(false, false, false, false, false, false),
                LutInput(Default, Default, Default))
  }

  // ----- The block the writer builds -----

  /** GetTransform of each coordinate. */
  function Transforms(cs: seq<TextureCoord>, codec: CoordCodec): (ms: seq<Matrix3x4>)
    ensures |ms| == |cs|
  {
    if cs == [] then [] else Transforms(cs[..|cs| - 1], codec) + [codec.transform(cs[|cs| - 1])]
  }

  /** The coordinates written one after the other. */
  function CoordBytes(cs: seq<TextureCoord>, codec: CoordCodec): seq<Byte>
  {
    if cs == [] then [] else CoordBytes(cs[..|cs| - 1], codec) + codec.bytes(cs[|cs| - 1])
  }

  /** The eight words before the command words: CommandsLength, RenderPriority,
      the FNV hash of the command bytes, RenderLayer, the three LUT hashes and
      a constant. */
  function CommandHeader(cmds: seq<Word>, priority: Word, layer: Word, luts: seq<Word>, ext: Externals): (h: seq<Byte>)
    requires |luts| == 3
    ensures |h| == 32 && h[..4] == LE(W(4 * |cmds|))
  {
    LE(W(4 * |cmds|)) + LE(priority) + LE(ext.fnv(Words(cmds))) + LE(layer)
    + LE(luts[0]) + LE(luts[1]) + LE(luts[2]) + LE(0xcd20dd3d)
  }

  /** Write(0ul): eight zero bytes. */
  const ZeroLong: seq<Byte> := [0, 0, 0, 0, 0, 0, 0, 0]

  /** Two Write(0ul): sixteen zero bytes. */
  const Trailer: seq<Byte> := ZeroLong + ZeroLong

  /** The section header, the four hash names, the header fields and UnitsCount. */
  function Preamble(names: seq<string>, params: MaterialParams, units: nat, ext: Externals): (h: seq<Byte>)
    requires |names| == 4 && ParamsWellFormed(params)
    ensures |h| >= 12
  {
    ext.sectionHeader(MagicStr)
    + ext.hashNameBytes(names[0]) + ext.hashNameBytes(names[1]) + ext.hashNameBytes(names[2]) + ext.hashNameBytes(names[3])
    + EncodeParams(params, ext) + LE(W(units))
  }

  /** The preamble and the coordinates. */
  function Head(names: seq<string>, params: MaterialParams, coords: seq<TextureCoord>,
                ext: Externals, codec: CoordCodec): (h: seq<Byte>)
    requires |names| == 4 && ParamsWellFormed(params) && |coords| <= 3
    ensures |h| >= 12
  {
    Preamble(names, params, |coords|, ext) + CoordBytes(coords, codec)
  }

  /** The head followed by 0xff padding to a 16-byte boundary of the stream. */
  function Padded(p0: nat, names: seq<string>, params: MaterialParams, coords: seq<TextureCoord>,
                  ext: Externals, codec: CoordCodec): (b: seq<Byte>)
    requires |names| == 4 && ParamsWellFormed(params) && |coords| <= 3
    ensures (p0 + |b|) % 16 == 0
  {
    var h := Head(names, params, coords, ext, codec);
    h + PadBytes(p0 + |h|, 0xFF)
  }

  /** A stream holding the head and its padding after d0 holds Padded after d0. */
  lemma PadAfterHead(d0: seq<Byte>, written: seq<Byte>, p0: nat, names: seq<string>, params: MaterialParams,
                     coords: seq<TextureCoord>, ext: Externals, codec: CoordCodec)
    requires |names| == 4 && ParamsWellFormed(params) && |coords| <= 3
    requires written == d0 + Head(names, params, coords, ext, codec) + PadBytes(p0 + |Head(names, params, coords, ext, codec)|, 0xFF)
    ensures written == d0 + Padded(p0, names, params, coords, ext, codec)
  {
    var h := Head(names, params, coords, ext, codec);
    AppendTwo(d0, h, PadBytes(p0 + |h|, 0xFF));
  }

  /** The command header, the command words and the trailer. */
  function CommandPart(cmds: seq<Word>, priority: Word, layer: Word, luts: seq<Word>, ext: Externals): (b: seq<Byte>)
    requires |luts| == 3
    ensures |b| == 48 + 4 * |cmds|
  {
    CommandHeader(cmds, priority, layer, luts, ext) + Words(cmds) + Trailer
  }

  /** Everything the writer emits before the backpatch. */
  function MaterialBody(p0: nat, names: seq<string>, params: MaterialParams, coords: seq<TextureCoord>,
                        cmds: seq<Word>, priority: Word, layer: Word, ext: Externals, codec: CoordCodec): (b: seq<Byte>)
    requires |names| == 4 && ParamsWellFormed(params) && |coords| <= 3
    ensures |b| >= 0x10
  {
    Padded(p0, names, params, coords, ext, codec) + CommandPart(cmds, priority, layer, params.lutHashIds, ext)
  }

  /** A section with its length field at offset 8 set to the number of bytes
      after the 16-byte section header. */
  function Patched(body: seq<Byte>): (b: seq<Byte>)
    requires |body| >= 0x10
    ensures |b| == |body|
  {
    Overwrite(body, 8, LE(W(|body| - 0x10)))
  }

  /** The block: the body with its section length backpatched. */
  function MaterialImage(p0: nat, names: seq<string>, params: MaterialParams, coords: seq<TextureCoord>,
                         cmds: seq<Word>, priority: Word, layer: Word, ext: Externals, codec: CoordCodec): seq<Byte>
    requires |names| == 4 && ParamsWellFormed(params) && |coords| <= 3
  {
    Patched(MaterialBody(p0, names, params, coords, cmds, priority, layer, ext, codec))
  }

  /** Seeking back from the end of a stream that ends with body and writing
      the section length there patches the body alone. */
  lemma PatchAtEnd(d0: seq<Byte>, body: seq<Byte>, written: seq<Byte>, start: nat, end: nat, length: Word)
    requires written == d0 + body && |body| >= 0x10 && start == |d0| && end == |written|
    requires end - start - 0x10 >= 0 && length == W(end - start - 0x10)
    ensures start + 8 + 4 <= |written| && Overwrite(written, start + 8, LE(length)) == d0 + Patched(body)
  {
    OverwriteShift(d0, body, 8, LE(W(|body| - 0x10)));
  }

  /** The three TextureCoords slots once coords were read into the first
      ones: the others keep the empty coordinate of new GFMaterial(). */
  function Slots(coords: seq<TextureCoord>): (s: seq<TextureCoord>)
    requires |coords| <= 3
    ensures |s| == 3
  {
    coords + seq(3 - |coords|, _ => EmptyCoord)
  }

  /** Reading one more coordinate fills the next slot. */
  lemma SlotsPush(coords: seq<TextureCoord>, x: TextureCoord)
    requires |coords| < 3
    ensures Slots(coords + [x]) == Slots(coords)[|coords| := x]
  {
    var a, b := Slots(coords + [x]), Slots(coords)[|coords| := x];
    assert forall i :: 0 <= i < 3 ==> a[i] == b[i] by {
      forall i | 0 <= i < 3
        ensures a[i] == b[i]
      {
        if i < |coords| {
          assert a[i] == a[..|coords| + 1][i] == (coords + [x])[i];
          assert b[i] == Slots(coords)[..|coords|][i];
        }
      }
    }
  }

  /** A material as a value: its names, header fields, RenderPriority,
      RenderLayer, coordinate slots, render state and texture sources. */
  datatype Fields = Fields(materialName: string, shaderName: string, vtxShaderName: string, fragShaderName: string,
                           params: MaterialParams, priority: Word, layer: Word,
                           coords: seq<TextureCoord>, state: RenderState, sources: seq<Word>)

  /** What the reader takes from a block before interpreting it: the four
      names, the 168 bytes of the header fields, the coordinate slots,
      RenderPriority, RenderLayer and the command words. */
  datatype RawMaterial = RawMaterial(names: seq<string>, block: seq<Byte>, slots: seq<TextureCoord>,
                                     priority: Word, layer: Word, words: seq<Word>)

  /** The parts of the block of d that l locates: priority and layer from the
      command header, the coordinates in the low slots and the rest empty. */
  function Locate(d: seq<Byte>, l: Layout): (raw: RawMaterial)
    requires |l.names| == 4 && |l.coords| <= 3
    requires l.paramsAt + ParamsSize <= |d| && l.headerAt + 32 + 4 * l.count <= |d|
    ensures |raw.names| == 4 && |raw.block| == ParamsSize
  {
    RawMaterial(l.names, d[l.paramsAt..l.paramsAt + ParamsSize], Slots(l.coords),
                U32(d[l.headerAt + 4..l.headerAt + 8]), U32(d[l.headerAt + 12..l.headerAt + 16]),
                WordsAt(d, l.headerAt + 32, l.count))
  }

  /** The material the reader makes of those parts: the header fields
      decoded, the commands replayed over the initial state, and the texture
      sources from the first vertex shader uniform. */
  function Assemble(raw: RawMaterial, ext: Externals): Fields
    requires |raw.names| == 4 && |raw.block| == ParamsSize
  {
    var v := ext.vtxUniform0(raw.words);
    Fields(raw.names[0], raw.names[1], raw.names[2], raw.names[3], DecodeParams(raw.block), raw.priority, raw.layer, raw.slots,
           DispatchAll(InitialState(HeaderBlendColor(raw.block)), ext.readCommands(raw.words)), [v.x, v.y, v.z, v.w])
  }

  /** The material the reader makes of the block of d whose parts are where l says. */
  function Decode(d: seq<Byte>, l: Layout, ext: Externals): Fields
    requires |l.names| == 4 && |l.coords| <= 3
    requires l.paramsAt + ParamsSize <= |d| && l.headerAt + 32 + 4 * l.count <= |d|
  {
    Assemble(Locate(d, l), ext)
  }

  /** The shapes a material keeps: three LUT hashes, six assignments, eleven
      header colours and 24 header words, three coordinate slots, three
      border colours and four texture sources. */
  predicate FieldsWellFormed(f: Fields)
  {
    ParamsWellFormed(f.params) && |f.coords| == 3 && WellFormed(f.state) && |f.sources| == 4
  }

  /** MaterialName, ShaderName, VtxShaderName and FragShaderName, in the order they are written. */
  function Names(f: Fields): (ns: seq<string>)
    ensures |ns| == 4
  {
    [f.materialName, f.shaderName, f.vtxShaderName, f.fragShaderName]
  }

  /** The coordinates the writer emits: the first UnitsCount slots. */
  function Units(f: Fields): (cs: seq<TextureCoord>)
    requires |f.coords| == 3
    ensures |cs| == UnitsCount(f.coords) && cs == f.coords[..|cs|]
  {
    f.coords[..UnitsCount(f.coords)]
  }

  /** The command words the writer builds for material f: the command writer
      run over the calls of MaterialCalls, with the texture matrices of the
      emitted coordinates and the TexUnitConfig of the slots. */
  function CommandWords(f: Fields, ext: Externals, codec: CoordCodec): seq<Word>
    requires FieldsWellFormed(f)
  {
    ext.writeCommands(MaterialCalls(f.sources, TexMtx(Transforms(Units(f), codec)), f.state, TexUnitConfig(f.coords), ext))
  }

  /** The block the writer emits for material f from offset p0. */
  function Encode(p0: nat, f: Fields, ext: Externals, codec: CoordCodec): seq<Byte>
    requires FieldsWellFormed(f)
  {
    MaterialImage(p0, Names(f), f.params, Units(f), CommandWords(f, ext, codec), f.priority, f.layer, ext, codec)
  }

  /** One more coordinate adds its bytes and its twelve matrix entries. */
  lemma NextUnit(coords: seq<TextureCoord>, unit: nat, codec: CoordCodec)
    requires unit < |coords|
    ensures CoordBytes(coords[..unit + 1], codec) == CoordBytes(coords[..unit], codec) + codec.bytes(coords[unit])
    ensures TexMtx(Transforms(coords[..unit + 1], codec))
         == TexMtx(Transforms(coords[..unit], codec)) + MatrixWords(codec.transform(coords[unit]))
  {
    assert coords[..unit + 1][..unit] == coords[..unit];
    var ms := Transforms(coords[..unit + 1], codec);
    assert ms[..unit] == Transforms(coords[..unit], codec) && ms[unit] == codec.transform(coords[unit]);
  }

  /** Encode is the body around the command words of f, patched. */
  lemma EncodeIsPatched(p0: nat, f: Fields, cmds: seq<Word>, ext: Externals, codec: CoordCodec)
    requires FieldsWellFormed(f) && cmds == CommandWords(f, ext, codec)
    ensures Encode(p0, f, ext, codec) == Patched(MaterialBody(p0, Names(f), f.params, Units(f), cmds, f.priority, f.layer, ext, codec))
  {
  }

  /** GetMetaValue(MetaData, ValueName, DefaultValue): the first of the
      values stored under the name, or the default when the metadata holds no
      value of that name. The metadata is a map from names to value lists;
      None is a failure: a null metadata object, or a value with no entries. */
  function GetMetaValue<T>(meta: Option<map<string, seq<T>>>, name: string, default: T): (r: Option<T>)
    ensures r.None? <==> meta.None? || (name in meta.value && meta.value[name] == [])
    ensures meta.Some? && name !in meta.value ==> r == Some(default)
    ensures meta.Some? && name in meta.value && meta.value[name] != [] ==> r == Some(meta.value[name][0])
  {
    match meta
    case None => None
    case Some(m) =>
      if name !in m then Some(default)
      else if m[name] == [] then None
      else Some(m[name][0])
  }

  /** The value read for a name depends only on that name's entry: two
      metadata maps that agree on it give the same value. */
  lemma {:induction false} MetaValueLocal<T>(m1: map<string, seq<T>>, m2: map<string, seq<T>>, name: string, default: T)
    requires (name in m1 <==> name in m2) && (name in m1 ==> m1[name] == m2[name])
    ensures GetMetaValue(Some(m1), name, default) == GetMetaValue(Some(m2), name, default)
  {
  }

  class GFMaterial {
    var materialName: string
    var shaderName: string
    var vtxShaderName: string
    var fragShaderName: string
    var params: MaterialParams
    var renderPriority: Word
    var renderLayer: Word
    var blending: Blending
    var tests: Tests
    var buffers: Buffers
    var lutInput: LutInput
    const textureCoords: array<TextureCoord>
    const borderColor: array<Setting>
    const textureSources: array<Word>   // floats as their bit patterns

    ghost predicate Valid()
      reads this
    {
      textureCoords.Length == 3 && borderColor.Length == 3 && textureSources.Length == 4 && ParamsWellFormed(params)
    }

    /** The fields the command dispatch sets. */
    function State(): (st: RenderState)
      reads this, borderColor
      requires borderColor.Length == 3
      ensures WellFormed(st)
    {
      RenderState(borderColor[..], blending, tests, buffers, lutInput)
    }

    /** new GFMaterial(): three empty coordinates, default border colours and
        zero texture sources. Names the source leaves null are empty here. */
    constructor ()
      ensures Valid() && fresh(textureCoords) && fresh(borderColor) && fresh(textureSources)
      ensures textureCoords[..] == [EmptyCoord, EmptyCoord, EmptyCoord] && State() == InitialState(Default)
      ensures textureSources[..] == [0, 0, 0, 0] && params == NoParams
    {
      materialName, shaderName, vtxShaderName, fragShaderName := "", "", "", "";
      params, renderPriority, renderLayer := NoParams, 0, 0;
      var st := InitialState(Default);
      blending, tests, buffers, lutInput := st.blending, st.tests, st.buffers, st.lutInput;
      textureCoords := new TextureCoord[3](_ => EmptyCoord);
      borderColor := new Setting[3](_ => Default);
      textureSources := new Word[4](_ => 0);
      new;
      assert textureCoords[..] == [EmptyCoord, EmptyCoord, EmptyCoord];
      assert borderColor[..] == [Default, Default, Default];
      assert textureSources[..] == [0, 0, 0, 0];
    }

    /** The fields the reader sets, as a value. */
    function Snapshot(): (f: Fields)
      reads this, textureCoords, borderColor, textureSources
      requires borderColor.Length == 3
      ensures Valid() ==> FieldsWellFormed(f)
    {
      Fields(materialName, shaderName, vtxShaderName, fragShaderName, params, renderPriority, renderLayer,
             textureCoords[..], State(), textureSources[..])
    }

    /** new GFMaterial(Reader). The reader's failed flag reports a block that
        cannot be read; a block that can decodes as Decode says and the
        reader resumes at Position + MaterialSection.Length. */
    constructor Read(reader: ByteReader, ext: Externals, codec: CoordCodec)
      modifies reader
      ensures Valid() && fresh(textureCoords) && fresh(borderColor) && fresh(textureSources)
      ensures reader.failed == (old(reader.failed) || Parse(reader.data, old(reader.pos), ext, codec).None?)
      ensures Parse(reader.data, old(reader.pos), ext, codec).Some? ==>
                reader.pos == ResumeAt(reader.data, old(reader.pos))
                && Snapshot() == Decode(reader.data, Parse(reader.data, old(reader.pos), ext, codec).value, ext)
    {
      ghost var d, s := reader.data, reader.pos;
      var names, block, coords, words, priority, layer, resume := ReadBlock(reader, ext, codec);
      materialName, shaderName, vtxShaderName, fragShaderName := names[0], names[1], names[2], names[3];
      params := DecodeParams(block);
      renderPriority, renderLayer := priority, layer;
      var st := InitialState(HeaderBlendColor(block));
      blending, tests, buffers, lutInput := st.blending, st.tests, st.buffers, st.lutInput;
      var colors := DefaultBorderColors();
      var sources := TextureSourcesOf(ext.vtxUniform0(words));
      textureCoords, borderColor, textureSources := coords, colors, sources;
      new;
      assert State() == InitialState(HeaderBlendColor(block)) by {
        assert borderColor[..] == [Default, Default, Default];
      }
      ghost var f0 := Snapshot();
      assert f0 == Fields(names[0], names[1], names[2], names[3], DecodeParams(block), priority, layer, coords[..],
                          InitialState(HeaderBlendColor(block)), textureSources[..]);
      Dispatch(ext.readCommands(words));
      reader.Seek(resume);
      assert Snapshot() == f0.(state := DispatchAll(InitialState(HeaderBlendColor(block)), ext.readCommands(words)));
      assert Snapshot() == Assemble(RawMaterial(names, block, coords[..], priority, layer, words), ext);
    }

    /** The reads of the constructor, from the section header to the command
        words: the names, the 168 bytes of the header fields, the coordinate
        slots, the command words, RenderPriority, RenderLayer and where the
        reader resumes. */
    static method ReadBlock(reader: ByteReader, ext: Externals, codec: CoordCodec)
      returns (names: seq<string>, block: seq<Byte>, coords: array<TextureCoord>, words: seq<Word>,
               priority: Word, layer: Word, resume: nat)
      modifies reader
      ensures |names| == 4 && |block| == ParamsSize && fresh(coords) && coords.Length == 3
      ensures reader.failed == (old(reader.failed) || Parse(reader.data, old(reader.pos), ext, codec).None?)
      ensures Parse(reader.data, old(reader.pos), ext, codec).Some? ==>
        && resume == ResumeAt(reader.data, old(reader.pos))
        && Locate(reader.data, Parse(reader.data, old(reader.pos), ext, codec).value)
           == RawMaterial(names, block, coords[..], priority, layer, words)
    {
      ghost var d, s := reader.data, reader.pos;
      var position, sectionLength, unitsCount;
      position, sectionLength, names, block, unitsCount := ReadHead(reader, ext);
      ghost var c0 := reader.pos;
      var count;
      coords, count, priority, layer, words := ReadTail(reader, unitsCount, codec);
      ReadAgrees(d, s, ext, codec, c0, unitsCount, names, block, coords[..], count, priority, layer, words);
      resume := position + sectionLength;
    }

    static method DefaultBorderColors() returns (a: array<Setting>)
      ensures fresh(a) && a[..] == [Default, Default, Default]
    {
      a := new Setting[3](_ => Default);
      assert a[..] == [Default, Default, Default];
    }

    /** TextureSources[0..3] := VtxShaderUniforms[0].X, .Y, .Z, .W. */
    static method TextureSourcesOf(v: Vector4) returns (a: array<Word>)
      ensures fresh(a) && a[..] == [v.x, v.y, v.z, v.w]
    {
      a := new Word[4](_ => 0);
      a[0], a[1], a[2], a[3] := v.x, v.y, v.z, v.w;
      assert a[..] == [v.x, v.y, v.z, v.w];
    }

    /** Parse joins the head and the tail of the walk, so what the two reads
        return is what Locate finds at the layout Parse finds. */
    static lemma ReadAgrees(d: seq<Byte>, s: nat, ext: Externals, codec: CoordCodec, c0: nat, units: Word,
                            names: seq<string>, block: seq<Byte>, slots: seq<TextureCoord>,
                            count: nat, priority: Word, layer: Word, words: seq<Word>)
      requires ParseHead(d, s, ext).Some? ==>
        var h := ParseHead(d, s, ext).value;
        && names == h.0 && block == d[h.1..h.1 + ParamsSize]
        && c0 == h.1 + ParamsSize + 4 && units == U32(d[h.1 + ParamsSize..h.1 + ParamsSize + 4])
      requires ParseTail(d, c0, units, codec).Some? ==>
        var r := ParseTail(d, c0, units, codec).value;
        && slots == Slots(r.0)
        && count == r.2 && words == WordsAt(d, r.1 + 32, r.2)
        && priority == U32(d[r.1 + 4..r.1 + 8]) && layer == U32(d[r.1 + 12..r.1 + 16])
      ensures Parse(d, s, ext, codec).None? <==> (ParseHead(d, s, ext).None? || ParseTail(d, c0, units, codec).None?)
      ensures Parse(d, s, ext, codec).Some? ==>
        Locate(d, Parse(d, s, ext, codec).value) == RawMaterial(names, block, slots, priority, layer, words)
    {
      if Parse(d, s, ext, codec).Some? {
        var h, t := ParseHead(d, s, ext).value, ParseTail(d, c0, units, codec).value;
        var l := Parse(d, s, ext, codec).value;
        assert l == Layout(h.0, h.1, t.0, t.1, t.2) && |t.0| == units;
        assert Locate(d, l) == RawMaterial(h.0, d[h.1..h.1 + ParamsSize], Slots(t.0),
                                           U32(d[t.1 + 4..t.1 + 8]), U32(d[t.1 + 12..t.1 + 16]), WordsAt(d, t.1 + 32, t.2));
      }
    }

    /** The section header, the names, the header fields and UnitsCount:
        returns Position, the section length, the names, the 168 bytes of the
        header fields and UnitsCount. */
    static method ReadHead(reader: ByteReader, ext: Externals)
      returns (position: nat, sectionLength: Word, names: seq<string>, block: seq<Byte>, unitsCount: Word)
      modifies reader
      ensures |names| == 4 && |block| == ParamsSize && position == old(reader.pos) + 16
      ensures reader.failed == (old(reader.failed) || ParseHead(reader.data, old(reader.pos), ext).None?)
      ensures position <= |reader.data| ==> sectionLength == U32(reader.data[old(reader.pos) + 8..old(reader.pos) + 12])
      ensures ParseHead(reader.data, old(reader.pos), ext).Some? ==>
        var q, d := ParseHead(reader.data, old(reader.pos), ext).value.1, reader.data;
        && names == ParseHead(d, old(reader.pos), ext).value.0
        && block == d[q..q + ParamsSize] && unitsCount == U32(d[q + ParamsSize..q + ParamsSize + 4])
        && reader.pos == q + ParamsSize + 4
    {
      sectionLength := reader.ReadSection();
      position := reader.pos;
      names := ReadNames(reader, ext);
      block := reader.ReadField(ParamsSize);
      unitsCount := reader.ReadUInt32();
    }

    /** The texture coordinates, padding, the eight header words and the
        command words: returns the coordinate slots, CommandsLength >> 2,
        RenderPriority, RenderLayer and the command words. */
    static method ReadTail(reader: ByteReader, unitsCount: Word, codec: CoordCodec)
      returns (coords: array<TextureCoord>, count: nat, priority: Word, layer: Word, words: seq<Word>)
      modifies reader
      ensures fresh(coords) && coords.Length == 3
      ensures reader.failed == (old(reader.failed) || ParseTail(reader.data, old(reader.pos), unitsCount, codec).None?)
      ensures ParseTail(reader.data, old(reader.pos), unitsCount, codec).Some? ==>
        var r, d := ParseTail(reader.data, old(reader.pos), unitsCount, codec).value, reader.data;
        && coords[..] == Slots(r.0)
        && count == r.2 && words == WordsAt(d, r.1 + 32, r.2)
        && priority == U32(d[r.1 + 4..r.1 + 8]) && layer == U32(d[r.1 + 12..r.1 + 16])
    {
      ghost var d, p0 := reader.data, reader.pos;
      coords := new TextureCoord[3](_ => EmptyCoord);
      assert coords[..] == [EmptyCoord, EmptyCoord, EmptyCoord];
      ReadTextureCoords(reader, coords, unitsCount, codec);
      reader.SkipPadding();
      ghost var h := reader.pos;
      count, priority, layer, words := ReadCommands(reader);
      if ParseTail(d, p0, unitsCount, codec).Some? {
        ghost var r := ParseTail(d, p0, unitsCount, codec).value;
        assert r.1 == h && r.2 == count && h + 32 + 4 * count <= |d|;
      }
    }

    /** The command header and the command words: returns CommandsLength >> 2,
        RenderPriority, RenderLayer and the words. */
    static method ReadCommands(reader: ByteReader) returns (count: nat, priority: Word, layer: Word, words: seq<Word>)
      modifies reader
      ensures reader.pos == old(reader.pos) + 32 + 4 * count
      ensures reader.failed == (old(reader.failed) || |reader.data| < old(reader.pos) + 32 || |reader.data| < reader.pos)
      ensures old(reader.pos) + 32 <= |reader.data| ==>
        var d, h := reader.data, old(reader.pos);
        && count == U32(d[h..h + 4]) / 4 && priority == U32(d[h + 4..h + 8]) && layer == U32(d[h + 12..h + 16])
        && (reader.pos <= |d| ==> words == WordsAt(d, h + 32, count))
    {
      count, priority, layer := ReadCommandsHeader(reader);
      words := reader.ReadWords(count);
    }

    /** The four GFHashName reads. */
    static method ReadNames(reader: ByteReader, ext: Externals) returns (names: seq<string>)
      modifies reader
      ensures |names| == 4
      ensures reader.failed == (old(reader.failed) || ParseMany(ext.readHashName, reader.data, old(reader.pos), 4).None?)
      ensures ParseMany(ext.readHashName, reader.data, old(reader.pos), 4).Some? ==>
                (names, reader.pos) == ParseMany(ext.readHashName, reader.data, old(reader.pos), 4).value
    {
      ghost var d, p0, e0 := reader.data, reader.pos, reader.failed;
      var materialName := reader.ReadWith(ext.readHashName, "");
      assert ReadSoFar(reader, ext.readHashName, p0, e0, [materialName]) by {
        assert [] + [materialName] == [materialName];
      }
      var shaderName := reader.ReadWith(ext.readHashName, "");
      assert ReadSoFar(reader, ext.readHashName, p0, e0, [materialName, shaderName]) by {
        assert [materialName] + [shaderName] == [materialName, shaderName];
      }
      var vtxShaderName := reader.ReadWith(ext.readHashName, "");
      assert ReadSoFar(reader, ext.readHashName, p0, e0, [materialName, shaderName, vtxShaderName]) by {
        assert [materialName, shaderName] + [vtxShaderName] == [materialName, shaderName, vtxShaderName];
      }
      var fragShaderName := reader.ReadWith(ext.readHashName, "");
      names := [materialName, shaderName, vtxShaderName, fragShaderName];
      assert ReadSoFar(reader, ext.readHashName, p0, e0, names) by {
        assert [materialName, shaderName, vtxShaderName] + [fragShaderName] == names;
      }
    }

    /** After reading items one by one from p0: the failed flag says whether
        one of them could not be read, and otherwise the reader is past them. */
    static ghost predicate ReadSoFar<T>(reader: ByteReader, parse: (seq<Byte>, nat) -> Option<(T, nat)>, p0: nat, e0: bool, items: seq<T>)
      reads reader
    {
      var r := ParseMany(parse, reader.data, p0, |items|);
      reader.failed == (e0 || r.None?) && (r.Some? ==> r.value == (items, reader.pos))
    }

    /** The UnitsCount loop: coordinate `unit` into slot `unit`; a fourth one
        has no slot and aborts the decoder. */
    static method ReadTextureCoords(reader: ByteReader, coords: array<TextureCoord>, unitsCount: Word, codec: CoordCodec)
      requires coords.Length == 3 && coords[..] == [EmptyCoord, EmptyCoord, EmptyCoord]
      modifies reader, coords
      ensures reader.failed == (old(reader.failed) || unitsCount > 3 || ParseMany(codec.parse, reader.data, old(reader.pos), unitsCount).None?)
      ensures unitsCount <= 3 && ParseMany(codec.parse, reader.data, old(reader.pos), unitsCount).Some? ==>
                var r := ParseMany(codec.parse, reader.data, old(reader.pos), unitsCount).value;
                reader.pos == r.1 && coords[..] == Slots(r.0)
    {
      ghost var d, p0, e0 := reader.data, reader.pos, reader.failed;
      assert coords[..] == Slots([]);
      var unit := 0;
      while unit < unitsCount
        invariant unit <= unitsCount && unit <= 3
        invariant reader.data == d && coords.Length == 3
        invariant reader.failed == (e0 || ParseMany(codec.parse, d, p0, unit).None?)
        invariant ParseMany(codec.parse, d, p0, unit).Some? ==>
                    var r := ParseMany(codec.parse, d, p0, unit).value;
                    reader.pos == r.1 && coords[..] == Slots(r.0)
        decreases unitsCount - unit
      {
        if unit >= 3 {
          reader.Fail();   // IndexOutOfRangeException
          break;
        }
        ghost var before := coords[..];
        coords[unit] := reader.ReadWith(codec.parse, EmptyCoord);
        if ParseMany(codec.parse, d, p0, unit + 1).Some? {
          var r, r' := ParseMany(codec.parse, d, p0, unit).value, ParseMany(codec.parse, d, p0, unit + 1).value;
          assert r'.0 == r.0 + [coords[unit]] && r'.1 == reader.pos;
          assert coords[..] == before[unit := coords[unit]];
          SlotsPush(r.0, coords[unit]);
          assert coords[..] == Slots(r'.0);
        }
        unit := unit + 1;
      }
    }

    /** CommandsLength, RenderPriority, a 24-bit value, RenderLayer, the LUT
        hashes again and another hash; returns CommandsLength >> 2 and the
        two fields kept. */
    static method ReadCommandsHeader(reader: ByteReader) returns (count: nat, priority: Word, layer: Word)
      modifies reader
      ensures reader.pos == old(reader.pos) + 32
      ensures reader.failed == (old(reader.failed) || |reader.data| < reader.pos)
      ensures reader.pos <= |reader.data| ==>
        var d, h := reader.data, old(reader.pos);
        count == U32(d[h..h + 4]) / 4 && priority == U32(d[h + 4..h + 8]) && layer == U32(d[h + 12..h + 16])
    {
      var commandsLength := reader.ReadUInt32();
      count := commandsLength / 4;
      priority := reader.ReadUInt32();
      var unknown := reader.ReadUInt32();
      layer := reader.ReadUInt32();
      var lut0 := reader.ReadUInt32();
      var lut1 := reader.ReadUInt32();
      var lut2 := reader.ReadUInt32();
      var hash := reader.ReadUInt32();
    }

    /** The dispatch loop over the commands the command reader yields. */
    method Dispatch(cmds: seq<Command>)
      requires Valid()
      modifies this`blending, this`tests, this`buffers, this`lutInput, borderColor
      ensures Valid()
      ensures State() == DispatchAll(old(State()), cmds)
      ensures Snapshot() == old(Snapshot()).(state := State())
    {
      ghost var st0 := State();
      for i := 0 to |cmds|
        invariant Valid()
        invariant State() == DispatchAll(st0, cmds[..i])
        invariant Snapshot() == old(Snapshot()).(state := State())
      {
        assert cmds[..i + 1][..i] == cmds[..i];
        DispatchCommand(cmds[i]);
      }
      assert cmds[..|cmds|] == cmds;
    }

    /** One pass of the switch on the command's register, with its first
        parameter. */
    method DispatchCommand(cmd: Command)
      requires Valid()
      modifies this`blending, this`tests, this`buffers, this`lutInput, borderColor
      ensures Valid()
      ensures State() == DispatchStep(old(State()), cmd)
    {
      var param := cmd.first;
      var reg := cmd.register;
      if reg == GPUREG_TEXUNIT0_BORDER_COLOR {
        borderColor[0] := Decoded(param);
      } else if reg == GPUREG_TEXUNIT1_BORDER_COLOR {
        borderColor[1] := Decoded(param);
      } else if reg == GPUREG_TEXUNIT2_BORDER_COLOR {
        borderColor[2] := Decoded(param);
      } else if IsBlendingRegister(reg) {
        DispatchBlending(reg, param);
      } else if IsTestRegister(reg) {
        DispatchTest(reg, param);
      } else if IsBufferRegister(reg) {
        DispatchBuffer(reg, param);
      } else if IsLutInputRegister(reg) {
        DispatchLutInput(reg, param);
      }
    }

    method DispatchBlending(reg: Register, param: Word)
      modifies this`blending
      ensures blending == BlendingStep(old(blending), reg, param)
    {
      if reg == GPUREG_COLOR_OPERATION {
        blending := blending.(colorOperation := Decoded(param));
      } else if reg == GPUREG_BLEND_FUNC {
        blending := blending.(blendFunction := Decoded(param));
      } else if reg == GPUREG_BLEND_COLOR {
        blending := blending.(blendColor := Decoded(param));
      } else if reg == GPUREG_LOGIC_OP {
        blending := blending.(logicalOperation := param % 16);
      }
    }

    method DispatchTest(reg: Register, param: Word)
      modifies this`tests
      ensures tests == TestStep(old(tests), reg, param)
    {
      if reg == GPUREG_FRAGOP_ALPHA_TEST {
        tests := tests.(alphaTest := Decoded(param));
      } else if reg == GPUREG_STENCIL_TEST {
        tests := tests.(stencilTest := Decoded(param));
      } else if reg == GPUREG_STENCIL_OP {
        tests := tests.(stencilOperation := Decoded(param));
      } else if reg == GPUREG_DEPTH_COLOR_MASK {
        tests := tests.(depthColorMask := Decoded(param));
      } else if reg == GPUREG_FACECULLING_CONFIG {
        tests := tests.(faceCulling := param % 4);
      }
    }

    method DispatchBuffer(reg: Register, param: Word)
      modifies this`buffers
      ensures buffers == BufferStep(old(buffers), reg, param)
    {
      if reg == GPUREG_COLORBUFFER_READ {
        buffers := buffers.(colorBufferRead := param % 16 == 0xF);
      } else if reg == GPUREG_COLORBUFFER_WRITE {
        buffers := buffers.(colorBufferWrite := param % 16 == 0xF);
      } else if reg == GPUREG_DEPTHBUFFER_READ {
        buffers := buffers.(stencilBufferRead := param % 2 != 0, depthBufferRead := param / 2 % 2 != 0);
      } else if reg == GPUREG_DEPTHBUFFER_WRITE {
        buffers := buffers.(stencilBufferWrite := param % 2 != 0, depthBufferWrite := param / 2 % 2 != 0);
      }
    }

    method DispatchLutInput(reg: Register, param: Word)
      modifies this`lutInput
      ensures lutInput == LutInputStep(old(lutInput), reg, param)
    {
      if reg == GPUREG_LIGHTING_LUTINPUT_ABS {
        lutInput := lutInput.(absolute := Decoded(param));
      } else if reg == GPUREG_LIGHTING_LUTINPUT_SELECT {
        lutInput := lutInput.(selection := Decoded(param));
      } else if reg == GPUREG_LIGHTING_LUTINPUT_SCALE {
        lutInput := lutInput.(scale := Decoded(param));
      }
    }

    // ----- Writing -----

    /** Write: the block Encode describes for this material, with the section
        length at StartPosition + 8 backpatched to EndPosition - StartPosition - 0x10.
        The writer only reads the material, so it works on the fields as one value. */
    method Write(writer: ByteWriter, ext: Externals, codec: CoordCodec)
      requires Valid() && writer.Valid() && writer.AtEnd()
      modifies writer
      ensures writer.Valid() && writer.AtEnd()
      ensures writer.data == old(writer.data) + Encode(old(writer.pos), old(Snapshot()), ext, codec)
    {
      var f := Snapshot();
      WriteFields(writer, f, ext, codec);
    }

    /** Write for the fields f. */
    static method WriteFields(writer: ByteWriter, f: Fields, ext: Externals, codec: CoordCodec)
      requires FieldsWellFormed(f) && writer.Valid() && writer.AtEnd()
      modifies writer
      ensures writer.Valid() && writer.AtEnd()
      ensures writer.data == old(writer.data) + Encode(old(writer.pos), f, ext, codec)
    {
      ghost var d0 := writer.data;
      var startPosition := writer.pos;
      var cmds := WriteBody(writer, f, ext, codec);
      ghost var body := MaterialBody(startPosition, Names(f), f.params, Units(f), cmds, f.priority, f.layer, ext, codec);
      var endPosition := writer.pos;
      assert endPosition - startPosition == |body|;
      var length := W(endPosition - startPosition - 0x10);
      PatchAtEnd(d0, body, writer.data, startPosition, endPosition, length);
      writer.Patch(startPosition + 8, length);
      assert writer.data == d0 + Patched(body);
      EncodeIsPatched(startPosition, f, cmds, ext, codec);
    }

    /** Everything before the backpatch; returns the command words. */
    static method WriteBody(writer: ByteWriter, f: Fields, ext: Externals, codec: CoordCodec) returns (cmds: seq<Word>)
      requires FieldsWellFormed(f) && writer.Valid() && writer.AtEnd()
      modifies writer
      ensures writer.Valid() && writer.AtEnd()
      ensures cmds == CommandWords(f, ext, codec)
      ensures writer.data == old(writer.data) + MaterialBody(old(writer.pos), Names(f), f.params, Units(f), cmds,
                                                             f.priority, f.layer, ext, codec)
    {
      ghost var d0, p0 := writer.data, writer.pos;
      var matrices := WriteHead(writer, f, ext, codec);
      var texUnitConfig := TexUnitConfigOf(f.coords);
      cmds := ext.writeCommands(MaterialCalls(f.sources, matrices, f.state, texUnitConfig, ext));
      WriteCommands(writer, cmds, f.priority, f.layer, f.params.lutHashIds, ext);
      AppendTwo(d0, Padded(p0, Names(f), f.params, Units(f), ext, codec), CommandPart(cmds, f.priority, f.layer, f.params.lutHashIds, ext));
    }

    /** The preamble, the coordinates and the 0xff padding; returns the
        contents of TexMtx. */
    static method WriteHead(writer: ByteWriter, f: Fields, ext: Externals, codec: CoordCodec) returns (matrices: seq<Word>)
      requires FieldsWellFormed(f) && writer.Valid() && writer.AtEnd()
      modifies writer
      ensures writer.Valid() && writer.AtEnd()
      ensures matrices == TexMtx(Transforms(Units(f), codec))
      ensures writer.data == old(writer.data) + Padded(old(writer.pos), Names(f), f.params, Units(f), ext, codec)
    {
      ghost var d0, p0 := writer.data, writer.pos;
      var unitsCount := UnitsCount(f.coords);
      WritePreamble(writer, Names(f), f.params, unitsCount, ext);
      ghost var pre := Preamble(Names(f), f.params, unitsCount, ext);
      var texMtx := WriteTextureCoords(writer, Units(f), codec);
      matrices := texMtx[..];
      ghost var h := Head(Names(f), f.params, Units(f), ext, codec);
      AppendTwo(d0, pre, CoordBytes(Units(f), codec));
      assert writer.pos == p0 + |h|;
      writer.Pad(0xFF);
      PadAfterHead(d0, writer.data, p0, Names(f), f.params, Units(f), ext, codec);
    }

    /** The section header, the four names, the header fields and UnitsCount. */
    static method WritePreamble(writer: ByteWriter, names: seq<string>, params: MaterialParams, unitsCount: nat, ext: Externals)
      requires |names| == 4 && ParamsWellFormed(params) && writer.Valid() && writer.AtEnd()
      modifies writer
      ensures writer.Valid() && writer.AtEnd()
      ensures writer.data == old(writer.data) + Preamble(names, params, unitsCount, ext)
    {
      ghost var d0 := writer.data;
      writer.Write(ext.sectionHeader(MagicStr));
      writer.Write(ext.hashNameBytes(names[0]));
      writer.Write(ext.hashNameBytes(names[1]));
      writer.Write(ext.hashNameBytes(names[2]));
      writer.Write(ext.hashNameBytes(names[3]));
      ghost var n := ext.sectionHeader(MagicStr) + ext.hashNameBytes(names[0]) + ext.hashNameBytes(names[1])
                     + ext.hashNameBytes(names[2]) + ext.hashNameBytes(names[3]);
      assert writer.data == d0 + n;
      writer.Write(EncodeParams(params, ext));
      writer.WriteUInt32(W(unitsCount));
      AppendThree(d0, n, EncodeParams(params, ext), LE(W(unitsCount)));
    }

    /** The coordinates to emit, each followed by its texture matrix going
        into TexMtx[12 * Unit .. 12 * Unit + 12]. */
    static method WriteTextureCoords(writer: ByteWriter, coords: seq<TextureCoord>, codec: CoordCodec) returns (texMtx: array<Word>)
      requires writer.Valid() && writer.AtEnd()
      modifies writer
      ensures writer.Valid() && writer.AtEnd() && fresh(texMtx)
      ensures writer.data == old(writer.data) + CoordBytes(coords, codec)
      ensures texMtx[..] == TexMtx(Transforms(coords, codec))
    {
      ghost var d0 := writer.data;
      texMtx := new Word[|coords| * 12];
      for unit := 0 to |coords|
        invariant writer.Valid() && writer.AtEnd()
        invariant writer.data == d0 + CoordBytes(coords[..unit], codec)
        invariant texMtx[..12 * unit] == TexMtx(Transforms(coords[..unit], codec))
      {
        WriteUnit(writer, texMtx, unit, coords[unit], codec);
        NextUnit(coords, unit, codec);
        AppendTwo(d0, CoordBytes(coords[..unit], codec), codec.bytes(coords[unit]));
      }
      assert texMtx[..] == texMtx[..12 * |coords|];
      assert coords[..|coords|] == coords;
    }

    /** One pass of the loop: the coordinate, then its matrix into TexMtx. */
    static method WriteUnit(writer: ByteWriter, texMtx: array<Word>, unit: nat, coord: TextureCoord, codec: CoordCodec)
      requires writer.Valid() && writer.AtEnd() && 12 * unit + 12 <= texMtx.Length
      modifies writer, texMtx
      ensures writer.Valid() && writer.AtEnd() && writer.data == old(writer.data) + codec.bytes(coord)
      ensures texMtx[..12 * (unit + 1)] == old(texMtx[..12 * unit]) + MatrixWords(codec.transform(coord))
    {
      ghost var before := texMtx[..];
      writer.Write(codec.bytes(coord));
      var mtx := codec.transform(coord);
      SetMatrix(texMtx, unit, mtx);
      UnitAppended(texMtx[..], before, unit, MatrixWords(mtx));
    }

    /** Filling unit u after units 0..u-1 extends the filled prefix by its twelve entries. */
    static lemma UnitAppended(now: seq<Word>, before: seq<Word>, u: nat, ws: seq<Word>)
      requires |now| == |before| && 12 * u + 12 <= |now| && |ws| == 12
      requires now[..12 * u] == before[..12 * u]
      requires forall j :: 0 <= j < 12 ==> now[12 * u + j] == ws[j]
      ensures now[..12 * (u + 1)] == before[..12 * u] + ws
    {
      assert now[12 * u..12 * u + 12] == ws;
      assert now[..12 * (u + 1)] == now[..12 * u] + now[12 * u..12 * u + 12];
    }

    /** The twelve entries of one unit, matrix column after column. */
    static method SetMatrix(texMtx: array<Word>, unit: nat, mtx: Matrix3x4)
      requires 12 * unit + 12 <= texMtx.Length
      modifies texMtx
      ensures texMtx[..12 * unit] == old(texMtx[..])[..12 * unit]
      ensures forall j :: 0 <= j < 12 ==> texMtx[12 * unit + j] == MatrixWords(mtx)[j]
    {
      texMtx[unit * 12 + 0] := mtx.m41;
      texMtx[unit * 12 + 1] := mtx.m31;
      texMtx[unit * 12 + 2] := mtx.m21;
      texMtx[unit * 12 + 3] := mtx.m11;
      texMtx[unit * 12 + 4] := mtx.m42;
      texMtx[unit * 12 + 5] := mtx.m32;
      texMtx[unit * 12 + 6] := mtx.m22;
      texMtx[unit * 12 + 7] := mtx.m12;
      texMtx[unit * 12 + 8] := mtx.m43;
      texMtx[unit * 12 + 9] := mtx.m33;
      texMtx[unit * 12 + 10] := mtx.m23;
      texMtx[unit * 12 + 11] := mtx.m13;
    }

    /** TexUnitConfig: 0x00011000, then bit k or-ed in when TextureCoords[k] has a name. */
    static method TexUnitConfigOf(coords: seq<TextureCoord>) returns (texUnitConfig: Word)
      requires |coords| == 3
      ensures texUnitConfig == TexUnitConfig(coords)
    {
      texUnitConfig := 0x0001_1000;
      texUnitConfig := OrBit(texUnitConfig, 0, coords[0].name.Some?);
      texUnitConfig := OrBit(texUnitConfig, 1, coords[1].name.Some?);
      texUnitConfig := OrBit(texUnitConfig, 2, coords[2].name.Some?);
    }

    /** The command header, the command words and the two zero longs. */
    static method WriteCommands(writer: ByteWriter, cmds: seq<Word>, priority: Word, layer: Word, luts: seq<Word>, ext: Externals)
      requires |luts| == 3 && writer.Valid() && writer.AtEnd()
      modifies writer
      ensures writer.Valid() && writer.AtEnd()
      ensures writer.data == old(writer.data) + CommandPart(cmds, priority, layer, luts, ext)
    {
      ghost var d0 := writer.data;
      var raw := RawCommandBytes(cmds);
      WriteCommandHeader(writer, |cmds|, priority, ext.fnv(raw), layer, luts);
      WriteCommandWords(writer, cmds);
      ghost var d2 := writer.data;
      writer.Write(ZeroLong);
      writer.Write(ZeroLong);
      AppendTwo(d2, ZeroLong, ZeroLong);
      AppendThree(d0, CommandHeader(cmds, priority, layer, luts, ext), Words(cmds), Trailer);
      assert writer.data == d0 + CommandPart(cmds, priority, layer, luts, ext);
    }

    /** Writes each command word, little-endian, in order. */
    static method WriteCommandWords(writer: ByteWriter, cmds: seq<Word>)
      requires writer.Valid() && writer.AtEnd()
      modifies writer
      ensures writer.Valid() && writer.AtEnd()
      ensures writer.data == old(writer.data) + Words(cmds)
    {
      ghost var d0 := writer.data;
      for i := 0 to |cmds|
        invariant writer.Valid() && writer.AtEnd()
        invariant writer.data == d0 + Words(cmds[..i])
      {
        writer.WriteUInt32(cmds[i]);
        assert cmds[..i + 1] == cmds[..i] + [cmds[i]];
        WordsAppend(cmds[..i], cmds[i]);
      }
      assert cmds[..|cmds|] == cmds;
    }

    /** The command words as the bytes the FNV hash runs over. */
    static method RawCommandBytes(cmds: seq<Word>) returns (raw: seq<Byte>)
      ensures raw == Words(cmds)
    {
      raw := [];
      for i := 0 to |cmds|
        invariant raw == Words(cmds[..i])
      {
        assert cmds[..i + 1] == cmds[..i] + [cmds[i]];
        WordsAppend(cmds[..i], cmds[i]);
        raw := raw + LE(cmds[i]);
      }
      assert cmds[..|cmds|] == cmds;
    }

    /** CommandsLength, RenderPriority, the hash, RenderLayer, the LUT hashes
        again and the constant 0xcd20dd3d. */
    static method WriteCommandHeader(writer: ByteWriter, count: nat, priority: Word, hash: Word, layer: Word, luts: seq<Word>)
      requires |luts| == 3 && writer.Valid() && writer.AtEnd()
      modifies writer
      ensures writer.Valid() && writer.AtEnd()
      ensures writer.data == old(writer.data) + (LE(W(4 * count)) + LE(priority) + LE(hash) + LE(layer)
                                                 + LE(luts[0]) + LE(luts[1]) + LE(luts[2]) + LE(0xcd20dd3d))
    {
      ghost var d0 := writer.data;
      writer.WriteUInt32(W(count * 4));
      writer.WriteUInt32(priority);
      writer.WriteUInt32(hash);
      writer.WriteUInt32(layer);
      ghost var a := LE(W(4 * count)) + LE(priority) + LE(hash) + LE(layer);
      assert writer.data == d0 + a;
      writer.WriteUInt32(luts[0]);
      writer.WriteUInt32(luts[1]);
      writer.WriteUInt32(luts[2]);
      writer.WriteUInt32(0xcd20dd3d);
      ghost var b := LE(luts[0]) + LE(luts[1]) + LE(luts[2]) + LE(0xcd20dd3d);
      assert writer.data == d0 + a + b;
      AppendTwo(d0, a, b);
      assert a + b == LE(W(4 * count)) + LE(priority) + LE(hash) + LE(layer)
                     + LE(luts[0]) + LE(luts[1]) + LE(luts[2]) + LE(0xcd20dd3d);
    }
  }
}
