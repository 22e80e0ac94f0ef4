/**
 * UTF-8, the encoding BinaryWriter and BinaryReader use for the characters of
 * a string: every Unicode scalar value becomes one to four bytes, and decoding
 * accepts only well-formed sequences (shortest form, no surrogates, nothing
 * above U+10FFFF).
 */
module Utf8 {
  import opened Wrappers

  type uint8 = b: int | 0 <= b < 256

  /** A continuation byte carrying the six bits `v`. */
  function Cont(v: int): uint8
    requires 0 <= v < 64
  {
    0x80 + v
  }

  predicate IsCont(b: uint8)
  {
    0x80 <= b < 0xC0
  }

  /** The six payload bits of a continuation byte. */
  function Bits(b: uint8): int
  {
    b - 0x80
  }

  /** The bytes of one scalar value, shortest form. */
  function EncodeChar(c: char): (r: seq<uint8>)
    ensures 1 <= |r| <= 4
  {
    var n := c as int;
    var q1 := n / 64;
    var q2 := q1 / 64;
    var q3 := q2 / 64;
    if n < 0x80 then [n]
    else if n < 0x800 then [0xC0 + q1, Cont(n % 64)]
    else if n < 0x1_0000 then [0xE0 + q2, Cont(q1 % 64), Cont(n % 64)]
    else [0xF0 + q3, Cont(q2 % 64), Cont(q1 % 64), Cont(n % 64)]
  }

  /** A Unicode scalar value: a code point that is not a surrogate. */
  predicate IsScalar(n: int)
  {
    0 <= n < 0xD800 || 0xE000 <= n < 0x11_0000
  }

  /**
   * The scalar value at the front of `s` and the number of bytes it takes, or
   * None when the front is not a well-formed UTF-8 sequence.
   */
  function DecodeChar(s: seq<uint8>): (r: Option<(char, nat)>)
    ensures r.Some? ==> 1 <= r.value.1 <= |s| && r.value.1 <= 4
  {
    if |s| == 0 then None
    else
      var b0: int := s[0];
      if b0 < 0x80 then Some((b0 as char, 1))
      else if 0xC2 <= b0 < 0xE0 then
        if |s| < 2 || !IsCont(s[1]) then None
        else Some((((b0 - 0xC0) * 64 + Bits(s[1])) as char, 2))
      else if 0xE0 <= b0 < 0xF0 then
        if |s| < 3 || !IsCont(s[1]) || !IsCont(s[2]) then None
        else
          var n := ((b0 - 0xE0) * 64 + Bits(s[1])) * 64 + Bits(s[2]);
          if n < 0x800 || !IsScalar(n) then None else Some((n as char, 3))
      else if 0xF0 <= b0 < 0xF5 then
        if |s| < 4 || !IsCont(s[1]) || !IsCont(s[2]) || !IsCont(s[3]) then None
        else
          var n := (((b0 - 0xF0) * 64 + Bits(s[1])) * 64 + Bits(s[2])) * 64 + Bits(s[3]);
          if n < 0x1_0000 || 0x11_0000 <= n then None else Some((n as char, 4))
      else None
  }

  function Encode(str: string): (r: seq<uint8>)
    ensures |r| >= |str|
    decreases |str|, 1
  {
    if |str| == 0 then [] else EncodeFront(str)
  }

  /** A non-empty string: its first character's bytes, then the rest's. */
  function EncodeFront(str: string): (r: seq<uint8>)
    requires |str| > 0
    ensures |r| >= |str|
    decreases |str|, 0
  {
    EncodeChar(str[0]) + Encode(str[1..])
  }

  /** The string `s` encodes, or None when `s` is not well-formed UTF-8. */
  function Decode(s: seq<uint8>): Option<string>
    decreases |s|, 1
  {
    if |s| == 0 then Some("") else DecodeNonEmpty(s)
  }

  /** Non-empty input: one well-formed character, then a well-formed rest. */
  function DecodeNonEmpty(s: seq<uint8>): Option<string>
    requires |s| > 0
    decreases |s|, 0
  {
    match DecodeChar(s)
    case None => None
    case Some((c, n)) =>
      match Decode(s[n..])
      case None => None
      case Some(tail) => Some([c] + tail)
  }

  /** Division by 64 splits off the last base-64 digit. */
  lemma DivMod64(q: int, r: int)
    requires 0 <= r < 64
    ensures (q * 64 + r) / 64 == q && (q * 64 + r) % 64 == r
  {
  }

  lemma DecodeEncodeTwo(n: int, rest: seq<uint8>)
    requires 0x80 <= n < 0x800
    ensures DecodeChar([0xC0 + n / 64, Cont(n % 64)] + rest) == Some((n as char, 2))
  {
    var s := [0xC0 + n / 64, Cont(n % 64)] + rest;
    assert Bits(s[1]) == n % 64;
  }

  lemma DecodeEncodeThree(n: int, rest: seq<uint8>)
    requires 0x800 <= n < 0x1_0000 && IsScalar(n)
    ensures var q1 := n / 64;
      DecodeChar([0xE0 + q1 / 64, Cont(q1 % 64), Cont(n % 64)] + rest) == Some((n as char, 3))
  {
    var q1 := n / 64;
    var s := [0xE0 + q1 / 64, Cont(q1 % 64), Cont(n % 64)] + rest;
    assert Bits(s[1]) == q1 % 64 && Bits(s[2]) == n % 64;
  }

  lemma DecodeEncodeFour(n: int, rest: seq<uint8>)
    requires 0x1_0000 <= n < 0x11_0000
    ensures var q1 := n / 64; var q2 := q1 / 64;
      DecodeChar([0xF0 + q2 / 64, Cont(q2 % 64), Cont(q1 % 64), Cont(n % 64)] + rest) == Some((n as char, 4))
  {
    var q1 := n / 64;
    var q2 := q1 / 64;
    var s := [0xF0 + q2 / 64, Cont(q2 % 64), Cont(q1 % 64), Cont(n % 64)] + rest;
    assert Bits(s[1]) == q2 % 64 && Bits(s[2]) == q1 % 64 && Bits(s[3]) == n % 64;
  }

  /** Decoding the front of a character's bytes gives back the character and its length. */
  lemma DecodeEncodeChar(c: char, rest: seq<uint8>)
    ensures DecodeChar(EncodeChar(c) + rest) == Some((c, |EncodeChar(c)|))
  {
    var n := c as int;
    if n < 0x80 {
    } else if n < 0x800 {
      DecodeEncodeTwo(n, rest);
    } else if n < 0x1_0000 {
      DecodeEncodeThree(n, rest);
    } else {
      DecodeEncodeFour(n, rest);
    }
  }

  /** Decoding an encoded string gives the string back. */
  lemma {:induction false} DecodeEncode(str: string)
    ensures Decode(Encode(str)) == Some(str)
  {
    if |str| > 0 {
      var e := EncodeChar(str[0]);
      DecodeEncodeChar(str[0], Encode(str[1..]));
      assert (e + Encode(str[1..]))[|e|..] == Encode(str[1..]);
      DecodeEncode(str[1..]);
      assert [str[0]] + str[1..] == str;
    }
  }

  /** A decodable non-empty input is one decodable character followed by a decodable rest. */
  lemma DecodeFront(s: seq<uint8>)
    requires Decode(s).Some? && |s| > 0
    ensures DecodeChar(s).Some?
    ensures var n := DecodeChar(s).value.1;
      && Decode(s[n..]).Some?
      && Decode(s).value == [DecodeChar(s).value.0] + Decode(s[n..]).value
  {
  }

  /** Encoding what decoding accepted gives back the same bytes: decoding is one-to-one. */
  lemma {:induction false} EncodeDecode(s: seq<uint8>)
    requires Decode(s).Some?
    ensures Encode(Decode(s).value) == s
    decreases |s|
  {
    if |s| > 0 {
      DecodeFront(s);
      var c, n := DecodeChar(s).value.0, DecodeChar(s).value.1;
      var tail := Decode(s[n..]).value;
      var str := [c] + tail;
      assert str[0] == c && str[1..] == tail;
      EncodeDecodeChar(s);
      EncodeDecode(s[n..]);
      assert Encode(str) == s[..n] + s[n..];
      assert s == s[..n] + s[n..];
    }
  }

  /** The one character decoding accepts at the front is encoded by exactly the bytes it took. */
  lemma EncodeDecodeChar(s: seq<uint8>)
    requires DecodeChar(s).Some?
    ensures EncodeChar(DecodeChar(s).value.0) == s[..DecodeChar(s).value.1]
  {
    var b0: int := s[0];
    if b0 < 0x80 {
    } else if b0 < 0xE0 {
      DivMod64(b0 - 0xC0, Bits(s[1]));
    } else if b0 < 0xF0 {
      var q1 := (b0 - 0xE0) * 64 + Bits(s[1]);
      DivMod64(q1, Bits(s[2]));
      DivMod64(b0 - 0xE0, Bits(s[1]));
    } else {
      var q2 := (b0 - 0xF0) * 64 + Bits(s[1]);
      var q1 := q2 * 64 + Bits(s[2]);
      DivMod64(q1, Bits(s[3]));
      DivMod64(q2, Bits(s[2]));
      DivMod64(b0 - 0xF0, Bits(s[1]));
    }
  }
}
