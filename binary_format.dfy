/**
 * The primitives of System.IO.BinaryWriter and BinaryReader that the file-change
 * serializer uses: little-endian two's-complement Int16 and Int32, one byte per
 * Boolean, and length-prefixed strings (the UTF-8 byte count as a 7-bit
 * encoded integer, then the UTF-8 bytes).
 *
 * Every decoder reads `s` from position `i` on and returns the value and the
 * position just after it, or the exception the reader throws. Every encoder
 * has a round-trip lemma: wherever its bytes are found, the decoder reads the
 * value back and stops at their end.
 */
module BinaryFormat {
  import opened Wrappers
  import Utf8
  import opened Sequences

  type uint8 = Utf8.uint8
  type int16 = v: int | -0x8000 <= v < 0x8000
  type int32 = v: int | -0x8000_0000 <= v < 0x8000_0000

  /** The exceptions a BinaryReader throws while reading these primitives. */
  datatype ReadError =
    | EndOfStream           // EndOfStreamException: fewer bytes left than the value needs
    | BadSevenBitInt        // FormatException: a 7-bit encoded integer longer than 32 bits
    | NegativeStringLength  // IOException: a string length prefix below zero
    | InvalidUtf8           // the string's bytes are not well-formed UTF-8

  // ---------------------------------------------------------------------------
  // Two's complement
  // ---------------------------------------------------------------------------

  /** The 16-bit pattern of `v`. */
  function Unsigned16(v: int16): (u: nat)
    ensures u < 0x1_0000
  {
    if v < 0 then v + 0x1_0000 else v
  }

  function Signed16(u: nat): (v: int16)
    requires u < 0x1_0000
  {
    if u >= 0x8000 then u - 0x1_0000 else u
  }

  /** The 32-bit pattern of `v`: the C# cast `(uint)v`. */
  function Unsigned32(v: int32): (u: nat)
    ensures u < 0x1_0000_0000
  {
    if v < 0 then v + 0x1_0000_0000 else v
  }

  /** The C# cast `(int)u` of a 32-bit pattern. */
  function Signed32(u: nat): (v: int32)
    requires u < 0x1_0000_0000
  {
    if u >= 0x8000_0000 then u - 0x1_0000_0000 else u
  }

  /** Division by 256 splits off the low byte. */
  lemma DivMod256(q: int, r: int)
    requires 0 <= r < 256
    ensures (q * 256 + r) / 256 == q && (q * 256 + r) % 256 == r
  {
  }

  // ---------------------------------------------------------------------------
  // Int16, Int32, Boolean
  // ---------------------------------------------------------------------------

  function EncodeInt16(v: int16): (r: seq<uint8>)
    ensures |r| == 2
  {
    var u := Unsigned16(v);
    [u % 256, u / 256]
  }

  function DecodeInt16(s: seq<uint8>, i: nat): (r: Result<(int16, nat), ReadError>)
    ensures r.Ok? ==> r.value.1 == i + 2 <= |s|
    ensures r.Err? ==> |s| < i + 2 && r.error == EndOfStream
  {
    if |s| < i + 2 then Err(EndOfStream) else Ok((Signed16(s[i + 1] as int * 256 + s[i]), i + 2))
  }

  function EncodeInt32(v: int32): (r: seq<uint8>)
    ensures |r| == 4
  {
    var u := Unsigned32(v);
    var q1 := u / 256;
    var q2 := q1 / 256;
    [u % 256, q1 % 256, q2 % 256, q2 / 256]
  }

  function DecodeInt32(s: seq<uint8>, i: nat): (r: Result<(int32, nat), ReadError>)
    ensures r.Ok? ==> r.value.1 == i + 4 <= |s|
    ensures r.Err? ==> |s| < i + 4 && r.error == EndOfStream
  {
    if |s| < i + 4 then Err(EndOfStream)
    else Ok((Signed32(((s[i + 3] as int * 256 + s[i + 2]) * 256 + s[i + 1]) * 256 + s[i]), i + 4))
  }

  function EncodeBool(b: bool): (r: seq<uint8>)
    ensures |r| == 1
  {
    [if b then 1 else 0]
  }

  /** ReadBoolean: any non-zero byte reads as true. */
  function DecodeBool(s: seq<uint8>, i: nat): (r: Result<(bool, nat), ReadError>)
    ensures r.Ok? ==> r.value.1 == i + 1 <= |s|
    ensures r.Err? ==> |s| <= i && r.error == EndOfStream
  {
    if |s| < i + 1 then Err(EndOfStream) else Ok((s[i] != 0, i + 1))
  }

  lemma Int16RoundTrip(s: seq<uint8>, i: nat, v: int16)
    requires At(s, i, EncodeInt16(v))
    ensures DecodeInt16(s, i).Ok? && DecodeInt16(s, i).value.0 == v && DecodeInt16(s, i).value.1 == i + 2
  {
    var u := Unsigned16(v);
    AtIndex(s, i, EncodeInt16(v), 0);
    AtIndex(s, i, EncodeInt16(v), 1);
    DivMod256(u / 256, u % 256);
  }

  lemma Int32RoundTrip(s: seq<uint8>, i: nat, v: int32)
    requires At(s, i, EncodeInt32(v))
    ensures DecodeInt32(s, i).Ok? && DecodeInt32(s, i).value.0 == v && DecodeInt32(s, i).value.1 == i + 4
  {
    var e := EncodeInt32(v);
    var u := Unsigned32(v);
    var q1 := u / 256;
    var q2 := q1 / 256;
    AtIndex(s, i, e, 0);
    AtIndex(s, i, e, 1);
    AtIndex(s, i, e, 2);
    AtIndex(s, i, e, 3);
    assert s[i] == e[0] == u % 256 && s[i + 1] == e[1] == q1 % 256;
    assert s[i + 2] == e[2] == q2 % 256 && s[i + 3] == e[3] == q2 / 256;
    assert s[i + 3] as int * 256 + s[i + 2] == q2;
    assert q2 * 256 + s[i + 1] == q1;
    assert q1 * 256 + s[i] == u;
  }

  lemma BoolRoundTrip(s: seq<uint8>, i: nat, b: bool)
    requires At(s, i, EncodeBool(b))
    ensures DecodeBool(s, i).Ok? && DecodeBool(s, i).value.0 == b && DecodeBool(s, i).value.1 == i + 1
  {
    AtIndex(s, i, EncodeBool(b), 0);
  }

  // ---------------------------------------------------------------------------
  // 7-bit encoded integers
  // ---------------------------------------------------------------------------

  /** Write7BitEncodedInt of a 32-bit pattern: seven bits per byte, low first, high bit = more follows. */
  function Encode7Bit(u: nat): (r: seq<uint8>)
    ensures 1 <= |r|
  {
    if u < 128 then [u] else [(u % 128 + 128) as uint8] + Encode7Bit(u / 128)
  }

  /** The largest value (exclusive) the bytes from the `k`-th on may still carry: 32 bits in all. */
  function Limit7(k: nat): (r: nat)
    requires k <= 4
    ensures r >= 16
    decreases 4 - k
  {
    if k == 4 then 16 else 128 * Limit7(k + 1)
  }

  /**
   * Read7BitEncodedInt from its `k`-th byte on, which is at position `j`: at
   * most four bytes with the high bit set, and a fifth byte, if any, must fit
   * the four bits left of 32.
   */
  function Decode7Bit(s: seq<uint8>, j: nat, k: nat): (r: Result<(nat, nat), ReadError>)
    requires k <= 4
    ensures r.Ok? ==> j < r.value.1 <= |s| && r.value.1 <= j + 5 - k && r.value.0 < Limit7(k)
    decreases 4 - k
  {
    if |s| <= j then Err(EndOfStream)
    else if k == 4 then
      if s[j] > 15 then Err(BadSevenBitInt) else Ok((s[j], j + 1))
    else if s[j] < 128 then Ok((s[j], j + 1))
    else
      match Decode7Bit(s, j + 1, k + 1)
      case Err(e) => Err(e)
      case Ok((high, end)) =>
        assert 128 * high <= 128 * (Limit7(k + 1) - 1);
        Ok((s[j] as int - 128 + 128 * high, end))
  }

  function Read7BitInt(s: seq<uint8>, i: nat): (r: Result<(int32, nat), ReadError>)
    ensures r.Ok? ==> i < r.value.1 <= |s| && r.value.1 <= i + 5
  {
    match Decode7Bit(s, i, 0)
    case Err(e) => Err(e)
    case Ok((u, end)) => Ok((Signed32(u), end))
  }

  function Write7BitInt(v: int32): (r: seq<uint8>)
    ensures 1 <= |r|
  {
    Encode7Bit(Unsigned32(v))
  }

  lemma {:induction false} Decode7BitEncode(s: seq<uint8>, j: nat, k: nat, u: nat)
    requires k <= 4 && u < Limit7(k) && At(s, j, Encode7Bit(u))
    ensures Decode7Bit(s, j, k) == Ok((u, j + |Encode7Bit(u)|))
    decreases 4 - k
  {
    AtIndex(s, j, Encode7Bit(u), 0);
    if u >= 128 {
      assert k < 4;
      Decode7BitEncode(s, j + 1, k + 1, u / 128);
    }
  }

  /** Every 32-bit integer, negative ones included, reads back from its 7-bit encoding. */
  lemma SevenBitRoundTrip(s: seq<uint8>, i: nat, v: int32)
    requires At(s, i, Write7BitInt(v))
    ensures Read7BitInt(s, i).Ok? && Read7BitInt(s, i).value.0 == v && Read7BitInt(s, i).value.1 == i + |Write7BitInt(v)|
  {
    assert Limit7(0) == 0x1_0000_0000;
    Decode7BitEncode(s, i, 0, Unsigned32(v));
  }

  // ---------------------------------------------------------------------------
  // Strings
  // ---------------------------------------------------------------------------

  /** A string whose UTF-8 byte count fits the Int32 length prefix. */
  predicate Encodable(str: string)
  {
    |Utf8.Encode(str)| < 0x8000_0000
  }

  /** Write(string): the UTF-8 byte count, 7-bit encoded, then the bytes. */
  function EncodeString(str: string): (r: seq<uint8>)
    requires Encodable(str)
  {
    Write7BitInt(|Utf8.Encode(str)|) + Utf8.Encode(str)
  }

  /** ReadString: a negative length is an IOException; too few bytes, EndOfStream. */
  function DecodeString(s: seq<uint8>, i: nat): (r: Result<(string, nat), ReadError>)
    ensures r.Ok? ==> i < r.value.1 <= |s|
  {
    match Read7BitInt(s, i)
    case Err(e) => Err(e)
    case Ok((length, j)) =>
      if length < 0 then Err(NegativeStringLength)
      else if |s| - j < length then Err(EndOfStream)
      else
        match Utf8.Decode(s[j..j + length])
        case None => Err(InvalidUtf8)
        case Some(str) => Ok((str, j + length))
  }

  /** ReadString succeeds on a length prefix followed by that many well-formed bytes. */
  lemma DecodeStringOk(s: seq<uint8>, i: nat, j: nat, bytes: seq<uint8>, str: string)
    requires Read7BitInt(s, i).Ok? && Read7BitInt(s, i).value.0 == |bytes| && Read7BitInt(s, i).value.1 == j
    requires At(s, j, bytes) && Utf8.Decode(bytes) == Some(str)
    ensures DecodeString(s, i).Ok? && DecodeString(s, i).value.0 == str && DecodeString(s, i).value.1 == j + |bytes|
  {
    AtSlice(s, j, bytes);
  }

  lemma StringRoundTrip(s: seq<uint8>, i: nat, str: string)
    requires Encodable(str) && At(s, i, EncodeString(str))
    ensures DecodeString(s, i).Ok? && DecodeString(s, i).value.0 == str
    ensures DecodeString(s, i).value.1 == i + |EncodeString(str)|
  {
    var bytes := Utf8.Encode(str);
    var prefix := Write7BitInt(|bytes|);
    AtSplit(s, i, prefix, bytes);
    SevenBitRoundTrip(s, i, |bytes|);
    Utf8.DecodeEncode(str);
    DecodeStringOk(s, i, i + |prefix|, bytes, str);
  }

  // ---------------------------------------------------------------------------
  // The writer and the reader
  // ---------------------------------------------------------------------------

  /** A BinaryWriter over a stream that keeps every byte written. */
  class BinaryWriter {
    var bytes: seq<uint8>

    constructor ()
      ensures bytes == []
    {
      bytes := [];
    }

    method WriteInt16(v: int16)
      modifies this
      ensures bytes == old(bytes) + EncodeInt16(v)
    {
      bytes := bytes + EncodeInt16(v);
    }

    method WriteInt32(v: int32)
      modifies this
      ensures bytes == old(bytes) + EncodeInt32(v)
    {
      bytes := bytes + EncodeInt32(v);
    }

    method WriteBool(b: bool)
      modifies this
      ensures bytes == old(bytes) + EncodeBool(b)
    {
      bytes := bytes + EncodeBool(b);
    }

    method WriteString(str: string)
      requires Encodable(str)
      modifies this
      ensures bytes == old(bytes) + EncodeString(str)
    {
      bytes := bytes + EncodeString(str);
    }
  }

  /** A read method's outcome agrees with a decoder's: the same value with the reader at the decoder's end position, or the same error. */
  predicate Agrees<T(==), E(==)>(r: Result<T, E>, d: Result<(T, nat), E>, end: int)
  {
    if d.Ok? then r.Ok? && r.value == d.value.0 && end == d.value.1
    else r.Err? && r.error == d.error
  }

  /** A BinaryReader over a fixed sequence of bytes and its read position. */
  class BinaryReader {
    const data: seq<uint8>
    var pos: nat

    constructor (data: seq<uint8>)
      ensures this.data == data && pos == 0
    {
      this.data := data;
      pos := 0;
    }

    /** The reader never stands past the end of its stream. */
    predicate Valid()
      reads this
    {
      pos <= |data|
    }

    method ReadInt16() returns (r: Result<int16, ReadError>)
      requires Valid()
      modifies this
      ensures Valid()
      ensures Agrees(r, DecodeInt16(data, old(pos)), pos)
    {
      var d := DecodeInt16(data, pos);
      if d.Ok? {
        pos := d.value.1;
        r := Ok(d.value.0);
      } else {
        r := Err(d.error);
      }
    }

    method ReadInt32() returns (r: Result<int32, ReadError>)
      requires Valid()
      modifies this
      ensures Valid()
      ensures Agrees(r, DecodeInt32(data, old(pos)), pos)
    {
      var d := DecodeInt32(data, pos);
      if d.Ok? {
        pos := d.value.1;
        r := Ok(d.value.0);
      } else {
        r := Err(d.error);
      }
    }

    method ReadBoolean() returns (r: Result<bool, ReadError>)
      requires Valid()
      modifies this
      ensures Valid()
      ensures Agrees(r, DecodeBool(data, old(pos)), pos)
    {
      var d := DecodeBool(data, pos);
      if d.Ok? {
        pos := d.value.1;
        r := Ok(d.value.0);
      } else {
        r := Err(d.error);
      }
    }

    method ReadString() returns (r: Result<string, ReadError>)
      requires Valid()
      modifies this
      ensures Valid()
      ensures Agrees(r, DecodeString(data, old(pos)), pos)
    {
      var d := DecodeString(data, pos);
      if d.Ok? {
        pos := d.value.1;
        r := Ok(d.value.0);
      } else {
        r := Err(d.error);
      }
    }
  }
}
