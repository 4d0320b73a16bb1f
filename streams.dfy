/** Byte-level stream helpers shared by the shader and material codecs: the
    32-bit little-endian word, a reader that walks a byte buffer and a writer
    that appends to one and can seek back to patch a length field. */
module Streams {

  /** An unsigned byte and an unsigned 32-bit word, as integers in range. */
  type Byte = b: int | 0 <= b < 0x100
  type Word = w: int | 0 <= w < 0x1_0000_0000

  datatype Option<T> = None | Some(value: T)

  /** A count stored in a 32-bit field: C#'s (uint) and (int) casts keep the
      low 32 bits. */
  function W(n: nat): Word
  {
    n % 0x1_0000_0000
  }

  /** The four bytes a BinaryWriter emits for a 32-bit value, low byte first. */
  function LE(w: Word): (b: seq<Byte>)
    ensures |b| == 4
  {
    [w % 0x100, w / 0x100 % 0x100, w / 0x100 / 0x100 % 0x100, w / 0x100 / 0x100 / 0x100]
  }

  /** The 32-bit value a BinaryReader reads from four bytes. */
  function U32(b: seq<Byte>): Word
    requires |b| == 4
  {
    b[0] as int + 0x100 * b[1] as int + 0x1_0000 * b[2] as int + 0x100_0000 * b[3] as int
  }

  lemma DecodeEncode(w: Word)
    ensures U32(LE(w)) == w
  {
  }

  lemma EncodeDecode(b: seq<Byte>)
    requires |b| == 4
    ensures LE(U32(b)) == b
  {
    var hi2 := b[2] as int + 0x100 * b[3] as int;
    var hi := b[1] as int + 0x100 * hi2;
    Split(U32(b), b[0], hi);
    Split(hi, b[1], hi2);
    Split(hi2, b[2], b[3]);
  }

  /** Division and remainder by 256 undo a + 256 q. */
  lemma Split(a: int, r: int, q: int)
    requires 0 <= r < 0x100 && 0 <= q && a == r + 0x100 * q
    ensures a % 0x100 == r && a / 0x100 == q
  {
  }

  /** The bytes of a word array written one word after the other. */
  function Words(ws: seq<Word>): (b: seq<Byte>)
    ensures |b| == 4 * |ws|
  {
    if ws == [] then [] else LE(ws[0]) + Words(ws[1..])
  }

  lemma {:induction false} WordsAppend(ws: seq<Word>, w: Word)
    ensures Words(ws + [w]) == Words(ws) + LE(w)
  {
    if ws == [] {
      assert [w][1..] == [];
    } else {
      assert (ws + [w])[1..] == ws[1..] + [w];
      WordsAppend(ws[1..], w);
    }
  }

  /** The n words stored little-endian from byte offset p on. */
  function WordsAt(data: seq<Byte>, p: nat, n: nat): (ws: seq<Word>)
    requires p + 4 * n <= |data|
    ensures |ws| == n
    decreases n
  {
    if n == 0 then [] else [U32(data[p..p + 4])] + WordsAt(data, p + 4, n - 1)
  }

  /** Word k of WordsAt is the one at byte offset p + 4 * k. */
  lemma {:induction false} WordsAtIndex(data: seq<Byte>, p: nat, n: nat)
    requires p + 4 * n <= |data|
    ensures forall k :: 0 <= k < n ==> WordsAt(data, p, n)[k] == U32(data[p + 4 * k .. p + 4 * k + 4])
    decreases n
  {
    if n > 0 {
      WordsAtIndex(data, p + 4, n - 1);
      var ws := WordsAt(data, p, n);
      forall k | 0 < k < n
        ensures ws[k] == U32(data[p + 4 * k .. p + 4 * k + 4])
      {
        assert ws[k] == WordsAt(data, p + 4, n - 1)[k - 1];
        assert p + 4 + 4 * (k - 1) == p + 4 * k;
      }
    }
  }

  lemma {:induction false} WordsAtWords(data: seq<Byte>, p: nat, n: nat)
    requires p + 4 * n <= |data|
    ensures Words(WordsAt(data, p, n)) == data[p .. p + 4 * n]
    decreases n
  {
    if n > 0 {
      var ws := WordsAt(data, p, n);
      assert ws[1..] == WordsAt(data, p + 4, n - 1);
      WordsAtWords(data, p + 4, n - 1);
      EncodeDecode(data[p..p + 4]);
      assert data[p .. p + 4 * n] == data[p..p + 4] + data[p + 4 .. p + 4 + 4 * (n - 1)];
    }
  }

  /** The offset SkipPadding and WritePadding move to: the next multiple of 16. */
  function Align16(p: nat): (q: nat)
    ensures p <= q < p + 16
  {
    if p % 16 == 0 then p else p + (16 - p % 16)
  }

  /** The pad bytes that bring a stream at offset p to a 16-byte boundary. */
  function PadBytes(p: nat, fill: Byte): (b: seq<Byte>)
    ensures p + |b| == Align16(p)
    ensures forall k :: 0 <= k < |b| ==> b[k] == fill
  {
    seq(Align16(p) - p, _ => fill)
  }

  /** A BinaryReader over a byte buffer. A read that runs past the end sets
      `failed` and it stays set: the source throws EndOfStreamException there.
      A decoder that throws some other exception sets it too (Fail), and every
      decoder in this model reports failure when `failed` is set. */
  class ByteReader {
    const data: seq<Byte>
    var pos: nat
    var failed: bool

    constructor (data: seq<Byte>, pos: nat)
      ensures this.data == data && this.pos == pos && !failed
    {
      this.data := data;
      this.pos := pos;
      failed := false;
    }

    method ReadUInt32() returns (w: Word)
      modifies this
      ensures pos == old(pos) + 4
      ensures failed == (old(failed) || |data| < pos)
      ensures pos <= |data| ==> w == U32(data[old(pos)..pos])
    {
      if pos + 4 <= |data| {
        w := U32(data[pos..pos + 4]);
      } else {
        w := 0;
        failed := true;
      }
      pos := pos + 4;
    }

    method ReadByte() returns (b: Byte)
      modifies this
      ensures pos == old(pos) + 1
      ensures failed == (old(failed) || |data| < pos)
      ensures pos <= |data| ==> b == data[old(pos)]
    {
      if pos < |data| {
        b := data[pos];
      } else {
        b := 0;
        failed := true;
      }
      pos := pos + 1;
    }

    /** ReadBytes(n): returns what is left when fewer than n bytes remain, as
        a .NET BinaryReader does, without failing. */
    method ReadBytes(n: nat) returns (b: seq<Byte>)
      modifies this
      ensures failed == old(failed)
      ensures b == if old(pos) + n <= |data| then data[old(pos)..old(pos) + n]
                   else if old(pos) <= |data| then data[old(pos)..] else []
      ensures pos == old(pos) + |b|
    {
      if pos + n <= |data| {
        b := data[pos..pos + n];
      } else if pos <= |data| {
        b := data[pos..];
      } else {
        b := [];
      }
      pos := pos + |b|;
    }

    /** A fixed-width field such as the one ReadPaddedString(n) consumes:
        fails when fewer than n bytes remain. */
    method ReadField(n: nat) returns (b: seq<Byte>)
      modifies this
      ensures pos == old(pos) + n && |b| == n
      ensures failed == (old(failed) || |data| < pos)
      ensures pos <= |data| ==> b == data[old(pos)..pos]
    {
      if pos + n <= |data| {
        b := data[pos..pos + n];
      } else {
        b := seq(n, _ => 0);
        failed := true;
      }
      pos := pos + n;
    }

    /** new GFSection(Reader): a 16-byte section header whose 32-bit length
        sits at offset 8, after the 8-byte magic. */
    method ReadSection() returns (length: Word)
      modifies this
      ensures pos == old(pos) + 16
      ensures failed == (old(failed) || |data| < pos)
      ensures pos <= |data| ==> length == U32(data[old(pos) + 8..old(pos) + 12])
    {
      var magic := ReadField(8);
      length := ReadUInt32();
      var padding := ReadUInt32();
    }

    /** Runs a parser of a structure whose layout is not part of this model. */
    method ReadWith<T>(parse: (seq<Byte>, nat) -> Option<(T, nat)>, otherwise: T) returns (v: T)
      modifies this
      ensures parse(data, old(pos)).Some? ==> v == parse(data, old(pos)).value.0 && pos == parse(data, old(pos)).value.1
      ensures failed == (old(failed) || parse(data, old(pos)).None?)
    {
      var r := parse(data, pos);
      if r.Some? {
        v, pos := r.value.0, r.value.1;
      } else {
        v, failed := otherwise, true;
      }
    }

    /** n words into a fresh array, one ReadUInt32 each. */
    method ReadWords(n: nat) returns (words: seq<Word>)
      requires |data| < pos ==> failed
      modifies this
      ensures pos == old(pos) + 4 * n
      ensures failed == (old(failed) || |data| < pos)
      ensures pos <= |data| ==> words == WordsAt(data, old(pos), n)
    {
      ghost var p0, e0 := pos, failed;
      var commands := new Word[n];
      for index := 0 to n
        invariant pos == p0 + 4 * index
        invariant failed == (e0 || |data| < pos)
        invariant forall k :: 0 <= k < index && pos <= |data| ==>
                    commands[k] == U32(data[p0 + 4 * k..p0 + 4 * k + 4])
      {
        commands[index] := ReadUInt32();
      }
      words := commands[..];
      if pos <= |data| {
        WordsAtIndex(data, p0, n);
      }
    }

    /** An exception other than end of stream aborts the decoder. */
    method Fail()
      modifies this
      ensures pos == old(pos) && failed
    {
      failed := true;
    }

    method Seek(p: nat)
      modifies this
      ensures pos == p && failed == old(failed)
    {
      pos := p;
    }

    /** GFSection.SkipPadding: moves forward to the next 16-byte boundary. */
    method SkipPadding()
      modifies this
      ensures pos == Align16(old(pos)) && failed == old(failed)
    {
      pos := Align16(pos);
    }
  }

  /** k structures parsed one after the other from offset p: the items and
      the offset after the last, or None when one of them fails. */
  function ParseMany<T>(parse: (seq<Byte>, nat) -> Option<(T, nat)>, d: seq<Byte>, p: nat, k: nat): (r: Option<(seq<T>, nat)>)
    ensures r.Some? ==> |r.value.0| == k
  {
    if k == 0 then Some(([], p))
    else match ParseMany(parse, d, p, k - 1)
      case None => None
      case Some((items, q)) =>
        match parse(d, q)
        case None => None
        case Some((x, q')) => Some((items + [x], q'))
  }

  /** What writing b at offset p does to a stream holding d: overwrite, then extend. */
  function Overwrite(d: seq<Byte>, p: nat, b: seq<Byte>): (r: seq<Byte>)
    requires p <= |d|
    ensures |r| == if p + |b| <= |d| then |d| else p + |b|
  {
    d[..p] + b + (if p + |b| <= |d| then d[p + |b|..] else [])
  }

  /** Bytes before p are kept, b sits at p, and bytes past it are kept. */
  lemma OverwriteParts(d: seq<Byte>, p: nat, b: seq<Byte>)
    requires p <= |d|
    ensures var r := Overwrite(d, p, b);
      r[..p] == d[..p] && r[p..p + |b|] == b && (p + |b| <= |d| ==> r[p + |b|..] == d[p + |b|..])
  {
    var r := Overwrite(d, p, b);
    assert r[..p] == d[..p];
    assert r[p..p + |b|] == b;
  }

  /** A BinaryWriter over a growing byte stream. */
  class ByteWriter {
    var data: seq<Byte>
    var pos: nat

    ghost predicate Valid()
      reads this
    {
      pos <= |data|
    }

    /** A writer at the end of the stream: every write appends. */
    ghost predicate AtEnd()
      reads this
    {
      pos == |data|
    }

    constructor ()
      ensures Valid() && AtEnd() && data == []
    {
      data, pos := [], 0;
    }

    method Write(b: seq<Byte>)
      requires Valid()
      modifies this
      ensures Valid()
      ensures pos == old(pos) + |b|
      ensures old(AtEnd()) ==> data == old(data) + b && AtEnd()
      ensures !old(AtEnd()) ==> data == Overwrite(old(data), old(pos), b)
    {
      data := Overwrite(data, pos, b);
      pos := pos + |b|;
    }

    method WriteUInt32(w: Word)
      requires Valid()
      modifies this
      ensures Valid()
      ensures pos == old(pos) + 4
      ensures old(AtEnd()) ==> data == old(data) + LE(w) && AtEnd()
      ensures !old(AtEnd()) ==> data == Overwrite(old(data), old(pos), LE(w))
    {
      Write(LE(w));
    }

    method WriteByte(b: Byte)
      requires Valid()
      modifies this
      ensures Valid()
      ensures pos == old(pos) + 1
      ensures old(AtEnd()) ==> data == old(data) + [b] && AtEnd()
      ensures !old(AtEnd()) ==> data == Overwrite(old(data), old(pos), [b])
    {
      Write([b]);
    }

    /** Seek back to `at`, write the word there and return to the end. */
    method Patch(at: nat, w: Word)
      requires Valid() && AtEnd() && at + 4 <= pos
      modifies this
      ensures Valid() && AtEnd() && pos == old(pos)
      ensures data == Overwrite(old(data), at, LE(w))
    {
      var end := pos;
      Seek(at);
      WriteUInt32(w);
      Seek(end);
    }

    /** Seek inside what has been written so far. */
    method Seek(p: nat)
      requires p <= |data|
      modifies this
      ensures Valid() && pos == p && data == old(data)
    {
      pos := p;
    }

    /** GFSection.WritePadding and IOUtils.Align(0x10, fill): fill bytes up to
        the next 16-byte boundary. */
    method Pad(fill: Byte)
      requires Valid()
      modifies this
      ensures Valid()
      ensures pos == Align16(old(pos))
      ensures old(AtEnd()) ==> data == old(data) + PadBytes(old(pos), fill) && AtEnd()
      ensures !old(AtEnd()) ==> data == Overwrite(old(data), old(pos), PadBytes(old(pos), fill))
    {
      ghost var d0, p0 := data, pos;
      ghost var written: seq<Byte> := [];
      while pos % 16 != 0
        invariant p0 <= pos <= Align16(p0)
        invariant written == PadBytes(p0, fill)[..pos - p0]
        invariant Valid() && data == Overwrite(d0, p0, written) && pos == p0 + |written|
        decreases Align16(p0) - pos
      {
        WriteByte(fill);
        OverwriteTwice(d0, p0, written, [fill]);
        written := written + [fill];
      }
      assert written == PadBytes(p0, fill);
    }
  }

  /** Three appends in a row append their concatenation. */
  lemma AppendThree(d: seq<Byte>, a: seq<Byte>, b: seq<Byte>, c: seq<Byte>)
    ensures d + a + b + c == d + (a + b + c)
  {
  }

  /** Two appends in a row append their concatenation. */
  lemma AppendTwo(d: seq<Byte>, a: seq<Byte>, b: seq<Byte>)
    ensures d + a + b == d + (a + b)
  {
  }

  lemma OverwriteShift(prefix: seq<Byte>, body: seq<Byte>, q: nat, b: seq<Byte>)
    requires q <= |body|
    ensures Overwrite(prefix + body, |prefix| + q, b) == prefix + Overwrite(body, q, b)
  {
    var l, r := Overwrite(prefix + body, |prefix| + q, b), prefix + Overwrite(body, q, b);
    assert |l| == |r|;
    forall i | 0 <= i < |l|
      ensures l[i] == r[i]
    {
      if i < |prefix| {
      } else if i < |prefix| + q {
        assert l[i] == (prefix + body)[i];
      } else if i < |prefix| + q + |b| {
        assert l[i] == b[i - |prefix| - q];
      } else {
        assert l[i] == (prefix + body)[i];
      }
    }
  }

  /** Bytes from q on, past the patched ones, are kept. */
  lemma PatchedSuffix(d: seq<Byte>, p: nat, b: seq<Byte>, q: nat)
    requires p + |b| <= q <= |d|
    ensures Overwrite(d, p, b)[q..] == d[q..]
  {
    OverwriteParts(d, p, b);
    var r := Overwrite(d, p, b);
    assert r[q..] == r[p + |b|..][q - p - |b|..];
    assert d[q..] == d[p + |b|..][q - p - |b|..];
  }

  lemma OverwriteTwice(d: seq<Byte>, p: nat, a: seq<Byte>, b: seq<Byte>)
    requires p <= |d|
    ensures p + |a| <= |Overwrite(d, p, a)|
    ensures Overwrite(Overwrite(d, p, a), p + |a|, b) == Overwrite(d, p, a + b)
  {
  }
}
