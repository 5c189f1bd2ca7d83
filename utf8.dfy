/**
 * UTF-8, as Python's `str.encode()` and `bytes.decode()` apply it by default (strict
 * errors): one to four bytes per character, overlong forms, surrogates and code points
 * above U+10FFFF rejected by the decoder.
 */
module Utf8 {
  import opened Options
  import opened Bytes

  /** The bytes of one character. */
  function EncodeChar(c: char): (b: seq<byte>)
    ensures 1 <= |b| <= 4
    ensures (c as int < 0x80) <==> |b| == 1
    ensures |b| == 1 ==> b[0] as int == c as int
  {
    var n := c as int;
    if n < 0x80 then [n as byte]
    else if n < 0x800 then [(0xC0 + n / 64) as byte, (0x80 + n % 64) as byte]
    else if n < 0x10000 then
      [(0xE0 + n / 4096) as byte, (0x80 + (n / 64) % 64) as byte, (0x80 + n % 64) as byte]
    else
      [(0xF0 + n / 262144) as byte, (0x80 + (n / 4096) % 64) as byte,
       (0x80 + (n / 64) % 64) as byte, (0x80 + n % 64) as byte]
  }

  /** `s.encode()`. */
  function Encode(s: string): (b: seq<byte>)
    ensures |b| >= |s|
    decreases |s|
  {
    if s == [] then [] else EncodeChar(s[0]) + Encode(s[1..])
  }

  lemma {:induction false} EncodeAppend(a: string, b: string)
    ensures Encode(a + b) == Encode(a) + Encode(b)
    decreases |a|
  {
    if a != [] {
      assert (a + b)[1..] == a[1..] + b;
      EncodeAppend(a[1..], b);
    } else {
      assert a + b == b;
    }
  }

  predicate IsContinuation(b: byte) { 0x80 <= b < 0xC0 }

  predicate IsScalar(n: int) { 0 <= n < 0xD800 || 0xE000 <= n < 0x110000 }

  /** The character a well-formed sequence at the start of `b` stands for, and its length. */
  function DecodeFirst(b: seq<byte>): (r: Option<(char, nat)>)
    ensures r.Some? ==> 1 <= r.value.1 <= |b|
  {
    if |b| == 0 then None
    else
      var b0 := b[0] as int;
      if b0 < 0x80 then Some((b0 as char, 1))
      else if 0xC2 <= b0 < 0xE0 then
        if |b| >= 2 && IsContinuation(b[1]) then
          Some((((b0 - 0xC0) * 64 + (b[1] as int - 0x80)) as char, 2))
        else None
      else if 0xE0 <= b0 < 0xF0 then
        if |b| >= 3 && IsContinuation(b[1]) && IsContinuation(b[2]) then
          var n := (b0 - 0xE0) * 4096 + (b[1] as int - 0x80) * 64 + (b[2] as int - 0x80);
          if 0x800 <= n && IsScalar(n) then Some((n as char, 3)) else None
        else None
      else if 0xF0 <= b0 < 0xF5 then
        if |b| >= 4 && IsContinuation(b[1]) && IsContinuation(b[2]) && IsContinuation(b[3]) then
          var n := (b0 - 0xF0) * 262144 + (b[1] as int - 0x80) * 4096
                   + (b[2] as int - 0x80) * 64 + (b[3] as int - 0x80);
          if 0x10000 <= n < 0x110000 then Some((n as char, 4)) else None
        else None
      else None
  }

  /** `b.decode()`; None where Python raises UnicodeDecodeError. */
  function Decode(b: seq<byte>): (r: Option<string>)
    ensures r.Some? ==> |r.value| <= |b|
    decreases |b|
  {
    if b == [] then Some([])
    else match DecodeFirst(b)
      case None => None
      case Some((c, k)) =>
        match Decode(b[k..])
        case None => None
        case Some(rest) => Some([c] + rest)
  }

  lemma DecodeTwo(c: char, rest: seq<byte>)
    requires 0x80 <= c as int < 0x800
    ensures DecodeFirst(EncodeChar(c) + rest) == Some((c, 2))
  {
    var n := c as int;
    var b := EncodeChar(c) + rest;
    assert b[0] as int == 0xC0 + n / 64 && b[1] as int == 0x80 + n % 64;
    assert (n / 64) * 64 + n % 64 == n;
  }

  lemma DecodeThree(c: char, rest: seq<byte>)
    requires 0x800 <= c as int < 0x10000
    ensures DecodeFirst(EncodeChar(c) + rest) == Some((c, 3))
  {
    var n := c as int;
    var b := EncodeChar(c) + rest;
    var q, r := n / 64, n % 64;
    var h, m := q / 64, q % 64;
    assert n == q * 64 + r;
    assert q == h * 64 + m;
    assert h == n / 4096;
    assert b[0] as int == 0xE0 + h && b[1] as int == 0x80 + m && b[2] as int == 0x80 + r;
    assert h * 4096 + m * 64 + r == n;
  }

  lemma DecodeFour(c: char, rest: seq<byte>)
    requires 0x10000 <= c as int
    ensures DecodeFirst(EncodeChar(c) + rest) == Some((c, 4))
  {
    var n := c as int;
    var b := EncodeChar(c) + rest;
    var q, r := n / 64, n % 64;
    var p, m := q / 64, q % 64;
    var h, l := p / 64, p % 64;
    assert n == q * 64 + r;
    assert q == p * 64 + m;
    assert p == h * 64 + l;
    assert p == n / 4096 && h == n / 262144;
    assert b[0] as int == 0xF0 + h && b[1] as int == 0x80 + l;
    assert b[2] as int == 0x80 + m && b[3] as int == 0x80 + r;
    assert h * 262144 + l * 4096 + m * 64 + r == n;
  }

  /** The decoder reads back the first character of an encoding. */
  lemma DecodeFirstOfEncodeChar(c: char, rest: seq<byte>)
    ensures DecodeFirst(EncodeChar(c) + rest) == Some((c, |EncodeChar(c)|))
  {
    var n := c as int;
    if n < 0x80 {
    } else if n < 0x800 {
      DecodeTwo(c, rest);
    } else if n < 0x10000 {
      DecodeThree(c, rest);
    } else {
      DecodeFour(c, rest);
    }
  }

  /** Decoding an encoding gives the text back. */
  lemma {:induction false} DecodeEncode(s: string)
    ensures Decode(Encode(s)) == Some(s)
    decreases |s|
  {
    if s != [] {
      var e := EncodeChar(s[0]);
      var b := Encode(s);
      DecodeFirstOfEncodeChar(s[0], Encode(s[1..]));
      assert b[|e|..] == Encode(s[1..]);
      DecodeEncode(s[1..]);
      assert [s[0]] + s[1..] == s;
    }
  }
}
