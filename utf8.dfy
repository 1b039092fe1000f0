/** UTF-8 as Rust uses it: `str::as_bytes` (encoding) and
    `String::from_utf8` (validating decoding). */
module Utf8 {
  import opened Wrappers

  type byte = b: int | 0 <= b < 256

  predicate IsContinuation(b: byte) {
    0x80 <= b <= 0xBF
  }

  /** The UTF-8 bytes of one character. */
  function EncodeChar(c: char): (r: seq<byte>)
    ensures 1 <= |r| <= 4
  {
    var cp := c as int;
    if cp < 0x80 then [cp]
    else if cp < 0x800 then [0xC0 + cp / 64, 0x80 + cp % 64]
    else if cp < 0x1_0000 then [0xE0 + cp / 4096, 0x80 + (cp / 64) % 64, 0x80 + cp % 64]
    else [0xF0 + cp / 262144, 0x80 + (cp / 4096) % 64, 0x80 + (cp / 64) % 64, 0x80 + cp % 64]
  }

  /** `s.as_bytes()`. */
  function Encode(s: string): seq<byte>
    decreases |s|
  {
    if |s| == 0 then [] else EncodeChar(s[0]) + Encode(s[1..])
  }

  /** The allowed second byte of a three-byte sequence: no overlong forms,
      no surrogates. */
  predicate SecondOfThree(b0: byte, b1: byte) {
    if b0 == 0xE0 then 0xA0 <= b1 <= 0xBF
    else if b0 == 0xED then 0x80 <= b1 <= 0x9F
    else IsContinuation(b1)
  }

  /** The allowed second byte of a four-byte sequence: no overlong forms,
      nothing above U+10FFFF. */
  predicate SecondOfFour(b0: byte, b1: byte) {
    if b0 == 0xF0 then 0x90 <= b1 <= 0xBF
    else if b0 == 0xF4 then 0x80 <= b1 <= 0x8F
    else IsContinuation(b1)
  }

  /** The character at the front of `bs` and the number of bytes it takes,
      or None when `bs` does not start with a well-formed sequence. */
  function DecodeFirst(bs: seq<byte>): (r: Option<(char, nat)>)
    requires |bs| > 0
    ensures r.Some? ==> 1 <= r.value.1 <= |bs|
  {
    var b0 := bs[0];
    if b0 < 0x80 then Some((b0 as char, 1))
    else if 0xC2 <= b0 <= 0xDF then
      if |bs| >= 2 && IsContinuation(bs[1])
      then Some((((b0 as int - 0xC0) * 64 + (bs[1] as int - 0x80)) as char, 2))
      else None
    else if 0xE0 <= b0 <= 0xEF then
      if |bs| >= 3 && SecondOfThree(b0, bs[1]) && IsContinuation(bs[2])
      then Some((((b0 as int - 0xE0) * 4096 + (bs[1] as int - 0x80) * 64 + (bs[2] as int - 0x80)) as char, 3))
      else None
    else if 0xF0 <= b0 <= 0xF4 then
      if |bs| >= 4 && SecondOfFour(b0, bs[1]) && IsContinuation(bs[2]) && IsContinuation(bs[3])
      then Some((((b0 as int - 0xF0) * 262144 + (bs[1] as int - 0x80) * 4096 + (bs[2] as int - 0x80) * 64 + (bs[3] as int - 0x80)) as char, 4))
      else None
    else None
  }

  /** `String::from_utf8(bs)`: the text, or None when `bs` is not UTF-8. */
  function Decode(bs: seq<byte>): Option<string>
    decreases |bs|
  {
    if |bs| == 0 then Some("")
    else match DecodeFirst(bs)
      case None => None
      case Some((c, n)) =>
        match Decode(bs[n..])
        case None => None
        case Some(rest) => Some([c] + rest)
  }

  lemma DecodeFirstOfEncodeChar(c: char, tail: seq<byte>)
    ensures DecodeFirst(EncodeChar(c) + tail) == Some((c, |EncodeChar(c)|))
  {
    var cp := c as int;
    if cp < 0x80 {
    } else if cp < 0x800 {
      DecodeTwo(c, tail);
    } else if cp < 0x1_0000 {
      DecodeThree(c, tail);
    } else {
      DecodeFour(c, tail);
    }
  }

  lemma DecodeTwo(c: char, tail: seq<byte>)
    requires 0x80 <= c as int < 0x800
    ensures DecodeFirst(EncodeChar(c) + tail) == Some((c, 2))
  {
    var cp := c as int;
    var hi, lo := cp / 64, cp % 64;
    assert cp == hi * 64 + lo && 2 <= hi < 32;
    var bs := EncodeChar(c) + tail;
    assert bs[0] == 0xC0 + hi && bs[1] == 0x80 + lo;
  }

  lemma DecodeThree(c: char, tail: seq<byte>)
    requires 0x800 <= c as int < 0x1_0000
    ensures DecodeFirst(EncodeChar(c) + tail) == Some((c, 3))
  {
    var cp := c as int;
    var hi, mid, lo := cp / 4096, (cp / 64) % 64, cp % 64;
    assert cp == hi * 4096 + mid * 64 + lo && hi < 16;
    assert hi == 0 ==> mid >= 32;
    assert hi == 13 ==> mid < 32;
    var bs := EncodeChar(c) + tail;
    assert bs[0] == 0xE0 + hi && bs[1] == 0x80 + mid && bs[2] == 0x80 + lo;
  }

  lemma DecodeFour(c: char, tail: seq<byte>)
    requires 0x1_0000 <= c as int
    ensures DecodeFirst(EncodeChar(c) + tail) == Some((c, 4))
  {
    var cp := c as int;
    assert cp < 0x11_0000;
    var q1, lo := cp / 64, cp % 64;
    var q2, mid := q1 / 64, q1 % 64;
    var top, hi := q2 / 64, q2 % 64;
    assert cp == q1 * 64 + lo;
    assert q1 == q2 * 64 + mid;
    assert q2 == top * 64 + hi;
    assert cp / 4096 == q2;
    assert cp / 262144 == top;
    assert top <= 4;
    assert top == 0 ==> hi >= 16;
    assert top == 4 ==> hi < 16;
    var bs := EncodeChar(c) + tail;
    assert bs[0] == 0xF0 + top && bs[1] == 0x80 + hi && bs[2] == 0x80 + mid && bs[3] == 0x80 + lo;
    assert cp == top * 262144 + hi * 4096 + mid * 64 + lo;
  }

  /** Decoding the encoding of a text gives the text back. */
  lemma {:induction false} DecodeEncode(s: string)
    ensures Decode(Encode(s)) == Some(s)
    decreases |s|
  {
    if |s| > 0 {
      var e := EncodeChar(s[0]);
      DecodeFirstOfEncodeChar(s[0], Encode(s[1..]));
      DecodeEncode(s[1..]);
      assert (e + Encode(s[1..]))[|e|..] == Encode(s[1..]);
      assert [s[0]] + s[1..] == s;
    }
  }

  lemma EncodeCharOfDecodeFirst(bs: seq<byte>)
    requires |bs| > 0 && DecodeFirst(bs).Some?
    ensures EncodeChar(DecodeFirst(bs).value.0) == bs[..DecodeFirst(bs).value.1]
  {
    var b0 := bs[0];
    if b0 < 0x80 {
    } else if b0 <= 0xDF {
      EncodeTwo(bs);
    } else if b0 <= 0xEF {
      EncodeThree(bs);
    } else {
      EncodeFour(bs);
    }
  }

  lemma EncodeTwo(bs: seq<byte>)
    requires |bs| > 0 && 0x80 <= bs[0] <= 0xDF && DecodeFirst(bs).Some?
    ensures EncodeChar(DecodeFirst(bs).value.0) == bs[..2]
  {
    var hi, lo := bs[0] as int - 0xC0, bs[1] as int - 0x80;
    var cp := DecodeFirst(bs).value.0 as int;
    assert cp == hi * 64 + lo && 0 <= lo < 64;
    assert cp / 64 == hi && cp % 64 == lo;
  }

  lemma EncodeThree(bs: seq<byte>)
    requires |bs| > 0 && 0xE0 <= bs[0] <= 0xEF && DecodeFirst(bs).Some?
    ensures EncodeChar(DecodeFirst(bs).value.0) == bs[..3]
  {
    var hi, mid, lo := bs[0] as int - 0xE0, bs[1] as int - 0x80, bs[2] as int - 0x80;
    var cp := DecodeFirst(bs).value.0 as int;
    assert cp == hi * 4096 + mid * 64 + lo && 0 <= mid < 64 && 0 <= lo < 64;
    assert cp / 64 == hi * 64 + mid;
    assert cp / 4096 == hi && (cp / 64) % 64 == mid && cp % 64 == lo;
  }

  lemma EncodeFour(bs: seq<byte>)
    requires |bs| > 0 && 0xF0 <= bs[0] && DecodeFirst(bs).Some?
    ensures EncodeChar(DecodeFirst(bs).value.0) == bs[..4]
  {
    var top, hi, mid, lo := bs[0] as int - 0xF0, bs[1] as int - 0x80, bs[2] as int - 0x80, bs[3] as int - 0x80;
    var cp := DecodeFirst(bs).value.0 as int;
    assert cp == top * 262144 + hi * 4096 + mid * 64 + lo && 0 <= hi < 64 && 0 <= mid < 64 && 0 <= lo < 64;
    assert cp / 64 == top * 4096 + hi * 64 + mid;
    assert cp / 4096 == top * 64 + hi;
    assert cp / 262144 == top && (cp / 4096) % 64 == hi && (cp / 64) % 64 == mid && cp % 64 == lo;
  }

  /** A successful decoding loses nothing: encoding the text gives the
      bytes back, so `Decode` accepts exactly the encodings. */
  lemma {:induction false} EncodeDecode(bs: seq<byte>, s: string)
    requires Decode(bs) == Some(s)
    ensures Encode(s) == bs
    decreases |bs|
  {
    if |bs| > 0 {
      var (c, n) := DecodeFirst(bs).value;
      var rest := Decode(bs[n..]).value;
      EncodeDecode(bs[n..], rest);
      EncodeCharOfDecodeFirst(bs);
      assert s == [c] + rest;
      assert s[1..] == rest;
      assert bs == bs[..n] + bs[n..];
    }
  }
}
