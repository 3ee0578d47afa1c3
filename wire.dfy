/**
 * Byte-level wire primitives shared by both ends of the link: the fixed-width
 * encodings a packed device struct holds in memory, cursor-based reads that
 * fail instead of reading past the end of the buffer, and the console's
 * parser object whose cursor advances by each field's width.
 *
 * The byte order is a parameter of every multi-byte encoding and read; the
 * device and the console are assumed to agree on WireOrder.
 */
module Wire {
  import opened Wrappers

  type byte = bv8

  datatype Endian = LittleEndian | BigEndian

  /** The byte order of the device's packed structs (the ESP's native order), which the console's
      parser must use too. */
  const WireOrder: Endian := LittleEndian

  const BoolWidth: nat := 1
  const U8Width: nat := 1
  const U16Width: nat := 2
  const U32Width: nat := 4
  const F32Width: nat := 4

  function Zeros(n: nat): (r: seq<byte>)
    ensures |r| == n
    ensures forall k :: 0 <= k < n ==> r[k] == 0
  {
    seq(n, _ => 0)
  }

  /** `bytes` lies in `buf` starting at `pos`. */
  ghost predicate At(buf: seq<byte>, pos: nat, bytes: seq<byte>) {
    pos + |bytes| <= |buf| && buf[pos..pos + |bytes|] == bytes
  }

  lemma AtSplit(buf: seq<byte>, pos: nat, a: seq<byte>, b: seq<byte>)
    requires At(buf, pos, a + b)
    ensures At(buf, pos, a) && At(buf, pos + |a|, b)
  {
    assert buf[pos..pos + |a|] == (a + b)[..|a|];
    assert buf[pos + |a|..pos + |a| + |b|] == (a + b)[|a|..];
  }

  // ---------------------------------------------------------------------
  // Encodings: the bytes a field of a packed struct occupies.

  function BoolByte(b: bool): byte {
    if b then 1 else 0
  }

  // Byte lanes of a 16- and a 32-bit word, least significant first.

  function Lane16(v: bv16, k: nat): byte
    requires k < 2
  {
    if k == 0 then (v & 0xFF) as byte else (v >> 8) as byte
  }

  function Lane32(v: bv32, k: nat): byte
    requires k < 4
  {
    if k == 0 then (v & 0xFF) as byte
    else if k == 1 then ((v >> 8) & 0xFF) as byte
    else if k == 2 then ((v >> 16) & 0xFF) as byte
    else (v >> 24) as byte
  }

  function Join16(b0: byte, b1: byte): bv16 {
    ((b1 as bv16) << 8) | (b0 as bv16)
  }

  function Join32(b0: byte, b1: byte, b2: byte, b3: byte): bv32 {
    ((b3 as bv32) << 24) | ((b2 as bv32) << 16) | ((b1 as bv32) << 8) | (b0 as bv32)
  }

  lemma JoinLanes16(v: bv16)
    ensures Join16(Lane16(v, 0), Lane16(v, 1)) == v
  {
  }

  lemma LanesJoin16(b0: byte, b1: byte)
    ensures Lane16(Join16(b0, b1), 0) == b0 && Lane16(Join16(b0, b1), 1) == b1
  {
  }

  lemma JoinLanes32(v: bv32)
    ensures Join32(Lane32(v, 0), Lane32(v, 1), Lane32(v, 2), Lane32(v, 3)) == v
  {
  }

  lemma LanesJoin32(b0: byte, b1: byte, b2: byte, b3: byte)
    ensures var v := Join32(b0, b1, b2, b3);
      Lane32(v, 0) == b0 && Lane32(v, 1) == b1 && Lane32(v, 2) == b2 && Lane32(v, 3) == b3
  {
  }

  function U16Bytes(v: bv16, e: Endian): (r: seq<byte>)
    ensures |r| == U16Width
  {
    if e == LittleEndian then [Lane16(v, 0), Lane16(v, 1)] else [Lane16(v, 1), Lane16(v, 0)]
  }

  function U32Bytes(v: bv32, e: Endian): (r: seq<byte>)
    ensures |r| == U32Width
  {
    if e == LittleEndian then [Lane32(v, 0), Lane32(v, 1), Lane32(v, 2), Lane32(v, 3)]
    else [Lane32(v, 3), Lane32(v, 2), Lane32(v, 1), Lane32(v, 0)]
  }

  // ---------------------------------------------------------------------
  // Decodings of byte groups.

  function U16Of(b: seq<byte>, e: Endian): bv16
    requires |b| == U16Width
  {
    if e == LittleEndian then Join16(b[0], b[1]) else Join16(b[1], b[0])
  }

  function U32Of(b: seq<byte>, e: Endian): bv32
    requires |b| == U32Width
  {
    if e == LittleEndian then Join32(b[0], b[1], b[2], b[3]) else Join32(b[3], b[2], b[1], b[0])
  }

  /** The text of a fixed-length string field: its bytes up to the first NUL, or all of them. */
  function CString(b: seq<byte>): (r: seq<byte>)
    ensures r <= b
    ensures forall k :: 0 <= k < |r| ==> r[k] != 0
    ensures |r| < |b| ==> b[|r|] == 0
  {
    if |b| == 0 || b[0] == 0 then [] else [b[0]] + CString(b[1..])
  }

  /** Decoding undoes encoding, in either byte order. */
  lemma U16Inverse(v: bv16, e: Endian)
    ensures U16Of(U16Bytes(v, e), e) == v
  {
    JoinLanes16(v);
  }

  /** Encoding undoes decoding: every two bytes are the encoding of exactly one word. */
  lemma U16Bijective(b: seq<byte>, e: Endian)
    requires |b| == U16Width
    ensures U16Bytes(U16Of(b, e), e) == b
  {
    if e == LittleEndian { LanesJoin16(b[0], b[1]); } else { LanesJoin16(b[1], b[0]); }
  }

  lemma U32Inverse(v: bv32, e: Endian)
    ensures U32Of(U32Bytes(v, e), e) == v
  {
    JoinLanes32(v);
  }

  lemma U32Bijective(b: seq<byte>, e: Endian)
    requires |b| == U32Width
    ensures U32Bytes(U32Of(b, e), e) == b
  {
    if e == LittleEndian { LanesJoin32(b[0], b[1], b[2], b[3]); } else { LanesJoin32(b[3], b[2], b[1], b[0]); }
  }

  /** A string without NUL bytes, written into a field with its terminator and zero padding,
      reads back as itself. */
  lemma {:induction false} CStringOfPadded(s: seq<byte>, pad: nat)
    requires forall k :: 0 <= k < |s| ==> s[k] != 0
    ensures CString(s + Zeros(pad)) == s
  {
    if |s| == 0 {
      assert s + Zeros(pad) == Zeros(pad);
    } else {
      assert (s + Zeros(pad))[1..] == s[1..] + Zeros(pad);
      CStringOfPadded(s[1..], pad);
    }
  }

  // ---------------------------------------------------------------------
  // Reads with an explicit cursor: each yields the value and the cursor
  // after the field, or None when fewer bytes remain than the field needs.

  function ReadU8(buf: seq<byte>, pos: nat): (r: Option<(byte, nat)>)
    ensures r.Some? <==> pos + U8Width <= |buf|
    ensures r.Some? ==> r.value.1 == pos + U8Width
  {
    if pos + U8Width <= |buf| then Some((buf[pos], pos + U8Width)) else None
  }

  /** A boolean byte: zero is false, anything else true. */
  function ReadBool(buf: seq<byte>, pos: nat): (r: Option<(bool, nat)>)
    ensures r.Some? <==> pos + BoolWidth <= |buf|
    ensures r.Some? ==> r.value.1 == pos + BoolWidth
  {
    if pos + BoolWidth <= |buf| then Some((buf[pos] != 0, pos + BoolWidth)) else None
  }

  function ReadU16(buf: seq<byte>, pos: nat, e: Endian): (r: Option<(bv16, nat)>)
    ensures r.Some? <==> pos + U16Width <= |buf|
    ensures r.Some? ==> r.value.1 == pos + U16Width
  {
    if pos + U16Width <= |buf| then Some((U16Of(buf[pos..pos + U16Width], e), pos + U16Width)) else None
  }

  function ReadU32(buf: seq<byte>, pos: nat, e: Endian): (r: Option<(bv32, nat)>)
    ensures r.Some? <==> pos + U32Width <= |buf|
    ensures r.Some? ==> r.value.1 == pos + U32Width
  {
    if pos + U32Width <= |buf| then Some((U32Of(buf[pos..pos + U32Width], e), pos + U32Width)) else None
  }

  /** A binary32 float, kept as its bit pattern. */
  function ReadF32(buf: seq<byte>, pos: nat, e: Endian): (r: Option<(bv32, nat)>)
    ensures r.Some? <==> pos + F32Width <= |buf|
    ensures r.Some? ==> r.value.1 == pos + F32Width
  {
    ReadU32(buf, pos, e)
  }

  /** A view of the next n bytes. */
  function ReadBytes(buf: seq<byte>, pos: nat, n: nat): (r: Option<(seq<byte>, nat)>)
    ensures r.Some? <==> pos + n <= |buf|
    ensures r.Some? ==> |r.value.0| == n && r.value.1 == pos + n
  {
    if pos + n <= |buf| then Some((buf[pos..pos + n], pos + n)) else None
  }

  /** An n-byte string field, decoded up to its first NUL. */
  function ReadFixedStr(buf: seq<byte>, pos: nat, n: nat): (r: Option<(seq<byte>, nat)>)
    ensures r.Some? <==> pos + n <= |buf|
    ensures r.Some? ==> |r.value.0| <= n && r.value.1 == pos + n
  {
    if pos + n <= |buf| then Some((CString(buf[pos..pos + n]), pos + n)) else None
  }

  // Reading back what an encoding put at the cursor.

  lemma ReadU8At(buf: seq<byte>, pos: nat, v: byte)
    requires At(buf, pos, [v])
    ensures ReadU8(buf, pos) == Some((v, pos + U8Width))
  {
    assert buf[pos] == buf[pos..pos + 1][0];
  }

  lemma ReadBoolAt(buf: seq<byte>, pos: nat, b: bool)
    requires At(buf, pos, [BoolByte(b)])
    ensures ReadBool(buf, pos) == Some((b, pos + BoolWidth))
  {
    assert buf[pos] == buf[pos..pos + 1][0];
  }

  lemma ReadU16At(buf: seq<byte>, pos: nat, v: bv16, e: Endian)
    requires At(buf, pos, U16Bytes(v, e))
    ensures ReadU16(buf, pos, e) == Some((v, pos + U16Width))
  {
    U16Inverse(v, e);
  }

  lemma ReadU32At(buf: seq<byte>, pos: nat, v: bv32, e: Endian)
    requires At(buf, pos, U32Bytes(v, e))
    ensures ReadU32(buf, pos, e) == Some((v, pos + U32Width))
    ensures ReadF32(buf, pos, e) == Some((v, pos + F32Width))
  {
    U32Inverse(v, e);
  }

  lemma ReadBinaryAt(buf: seq<byte>, pos: nat, bytes: seq<byte>)
    requires At(buf, pos, bytes)
    ensures ReadBytes(buf, pos, |bytes|) == Some((bytes, pos + |bytes|))
  {
  }

  lemma ReadFixedStringAt(buf: seq<byte>, pos: nat, bytes: seq<byte>)
    requires At(buf, pos, bytes)
    ensures ReadFixedStr(buf, pos, |bytes|) == Some((CString(bytes), pos + |bytes|))
  {
  }

  // ---------------------------------------------------------------------
  // The console's parser object: an immutable buffer and a cursor that each
  // successful read advances by the field's width. A read that does not fit
  // fails and leaves the cursor where it was.

  function ValueOf<T>(x: Option<(T, nat)>): Option<T> {
    if x.Some? then Some(x.value.0) else None
  }

  function NextOf<T>(x: Option<(T, nat)>, pos: nat): nat {
    if x.Some? then x.value.1 else pos
  }

  class BinaryParser {
    const data: seq<byte>
    const order: Endian
    var pos: nat

    constructor (data: seq<byte>, order: Endian)
      ensures this.data == data && this.order == order && pos == 0
    {
      this.data := data;
      this.order := order;
      pos := 0;
    }

    method ReadUint8() returns (r: Option<byte>)
      modifies this
      ensures r == ValueOf(ReadU8(data, old(pos)))
      ensures pos == NextOf(ReadU8(data, old(pos)), old(pos))
    {
      if pos + U8Width <= |data| {
        r := Some(data[pos]);
        pos := pos + U8Width;
      } else {
        r := None;
      }
    }

    method ReadBoolean() returns (r: Option<bool>)
      modifies this
      ensures r == ValueOf(ReadBool(data, old(pos)))
      ensures pos == NextOf(ReadBool(data, old(pos)), old(pos))
    {
      if pos + BoolWidth <= |data| {
        r := Some(data[pos] != 0);
        pos := pos + BoolWidth;
      } else {
        r := None;
      }
    }

    method ReadUint16() returns (r: Option<bv16>)
      modifies this
      ensures r == ValueOf(ReadU16(data, old(pos), order))
      ensures pos == NextOf(ReadU16(data, old(pos), order), old(pos))
    {
      if pos + U16Width <= |data| {
        r := Some(U16Of(data[pos..pos + U16Width], order));
        pos := pos + U16Width;
      } else {
        r := None;
      }
    }

    method ReadUint32() returns (r: Option<bv32>)
      modifies this
      ensures r == ValueOf(ReadU32(data, old(pos), order))
      ensures pos == NextOf(ReadU32(data, old(pos), order), old(pos))
    {
      if pos + U32Width <= |data| {
        r := Some(U32Of(data[pos..pos + U32Width], order));
        pos := pos + U32Width;
      } else {
        r := None;
      }
    }

    method ReadFloat32() returns (r: Option<bv32>)
      modifies this
      ensures r == ValueOf(ReadF32(data, old(pos), order))
      ensures pos == NextOf(ReadF32(data, old(pos), order), old(pos))
    {
      r := ReadUint32();
    }

    method ReadBinary(n: nat) returns (r: Option<seq<byte>>)
      modifies this
      ensures r == ValueOf(ReadBytes(data, old(pos), n))
      ensures pos == NextOf(ReadBytes(data, old(pos), n), old(pos))
    {
      if pos + n <= |data| {
        r := Some(data[pos..pos + n]);
        pos := pos + n;
      } else {
        r := None;
      }
    }

    method ReadFixedString(n: nat) returns (r: Option<seq<byte>>)
      modifies this
      ensures r == ValueOf(ReadFixedStr(data, old(pos), n))
      ensures pos == NextOf(ReadFixedStr(data, old(pos), n), old(pos))
    {
      if pos + n <= |data| {
        r := Some(CString(data[pos..pos + n]));
        pos := pos + n;
      } else {
        r := None;
      }
    }
  }
}
