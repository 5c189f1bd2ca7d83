/**
 * Base64 with padding, the encoding of section 4 of RFC 4648, as Python's `b64encode` and
 * `b64decode` apply it: three bytes become four characters of the 64-character alphabet, a
 * final group of one or two bytes is padded with `=`.
 */
module Base64 {
  import opened Options
  import opened Bytes

  /** The alphabet of Table 1 in section 4 of RFC 4648. */
  function Alphabet(i: nat): (c: char)
    requires i < 64
  {
    if i < 26 then ('A' as int + i) as char
    else if i < 52 then ('a' as int + i - 26) as char
    else if i < 62 then ('0' as int + i - 52) as char
    else if i == 62 then '+'
    else '/'
  }

  /** The value of an alphabet character; None for any other character, `=` included. */
  function Index(c: char): (r: Option<nat>)
    ensures r.Some? ==> r.value < 64 && Alphabet(r.value) == c
  {
    if 'A' <= c <= 'Z' then Some(c as int - 'A' as int)
    else if 'a' <= c <= 'z' then Some(c as int - 'a' as int + 26)
    else if '0' <= c <= '9' then Some(c as int - '0' as int + 52)
    else if c == '+' then Some(62)
    else if c == '/' then Some(63)
    else None
  }

  lemma IndexOfAlphabet(i: nat)
    requires i < 64
    ensures Index(Alphabet(i)) == Some(i)
  {
  }

  /** The four characters of a full group of three bytes. */
  function Quad(b0: byte, b1: byte, b2: byte): (s: string)
    ensures |s| == 4
  {
    [Alphabet(b0 as nat / 4), Alphabet((b0 as nat % 4) * 16 + b1 as nat / 16),
     Alphabet((b1 as nat % 16) * 4 + b2 as nat / 64), Alphabet(b2 as nat % 64)]
  }

  /** The four characters of a final group of two bytes, padded with one `=`. */
  function PairQuad(b0: byte, b1: byte): (s: string)
    ensures |s| == 4
  {
    [Alphabet(b0 as nat / 4), Alphabet((b0 as nat % 4) * 16 + b1 as nat / 16),
     Alphabet((b1 as nat % 16) * 4), '=']
  }

  /** The four characters of a final group of one byte, padded with `==`. */
  function SingleQuad(b0: byte): (s: string)
    ensures |s| == 4
  {
    [Alphabet(b0 as nat / 4), Alphabet((b0 as nat % 4) * 16), '=', '=']
  }

  /** `b64encode(b)`. */
  function Encode(b: seq<byte>): (s: string)
    ensures |s| == (|b| + 2) / 3 * 4
    decreases |b|
  {
    if |b| == 0 then ""
    else if |b| == 1 then SingleQuad(b[0])
    else if |b| == 2 then PairQuad(b[0], b[1])
    else Quad(b[0], b[1], b[2]) + Encode(b[3..])
  }

  /** The first byte of a group: six bits of the first character, two of the second. */
  function Byte0(i0: nat, i1: nat): byte
    requires i0 < 64 && i1 < 64
  {
    (i0 * 4 + i1 / 16) as byte
  }

  function Byte1(i1: nat, i2: nat): byte
    requires i1 < 64 && i2 < 64
  {
    ((i1 % 16) * 16 + i2 / 4) as byte
  }

  function Byte2(i2: nat, i3: nat): byte
    requires i2 < 64 && i3 < 64
  {
    ((i2 % 4) * 64 + i3) as byte
  }

  /** `b64decode(s)` for padded input made of the alphabet; None where the input is not of
      that form. */
  function Decode(s: string): (r: Option<seq<byte>>)
    ensures r.Some? ==> 3 * |s| - 8 <= 4 * |r.value| <= 3 * |s|
    decreases |s|
  {
    if |s| == 0 then Some([])
    else if |s| < 4 then None
    else
      var i0, i1, i2, i3 := Index(s[0]), Index(s[1]), Index(s[2]), Index(s[3]);
      if i0.None? || i1.None? then None
      else if |s| == 4 && s[2] == '=' && s[3] == '=' then
        Some([Byte0(i0.value, i1.value)])
      else if |s| == 4 && i2.Some? && s[3] == '=' then
        Some([Byte0(i0.value, i1.value), Byte1(i1.value, i2.value)])
      else if i2.Some? && i3.Some? then
        match Decode(s[4..])
        case None => None
        case Some(rest) =>
          Some([Byte0(i0.value, i1.value), Byte1(i1.value, i2.value), Byte2(i2.value, i3.value)] + rest)
      else None
  }

  /** A final group of one byte: two characters and `==`. */
  lemma DecodeFinalOne(s: string, i0: nat, i1: nat)
    requires i0 < 64 && i1 < 64 && s == [Alphabet(i0), Alphabet(i1), '=', '=']
    ensures Decode(s) == Some([Byte0(i0, i1)])
  {
    IndexOfAlphabet(i0);
    IndexOfAlphabet(i1);
  }

  /** A final group of two bytes: three characters and `=`. */
  lemma DecodeFinalTwo(s: string, i0: nat, i1: nat, i2: nat)
    requires i0 < 64 && i1 < 64 && i2 < 64 && s == [Alphabet(i0), Alphabet(i1), Alphabet(i2), '=']
    ensures Decode(s) == Some([Byte0(i0, i1), Byte1(i1, i2)])
  {
    IndexOfAlphabet(i0);
    IndexOfAlphabet(i1);
    IndexOfAlphabet(i2);
    assert s[2] != '=';
  }

  /** Unused low bits of a final group are dropped, not checked, as `b64decode` does:
      a one-byte group decodes as the canonical group whose second character has them
      cleared ("AB==" as "AA=="). */
  lemma DecodeDropsUnusedBits(i0: nat, i1: nat)
    requires i0 < 64 && i1 < 64
    ensures Decode([Alphabet(i0), Alphabet(i1), '=', '='])
         == Decode([Alphabet(i0), Alphabet(i1 / 16 * 16), '=', '='])
         == Some([Byte0(i0, i1)])
  {
    DecodeFinalOne([Alphabet(i0), Alphabet(i1), '=', '='], i0, i1);
    DecodeFinalOne([Alphabet(i0), Alphabet(i1 / 16 * 16), '=', '='], i0, i1 / 16 * 16);
    assert Byte0(i0, i1 / 16 * 16) == Byte0(i0, i1);
  }

  /** A full group of four characters followed by the rest of the encoding. */
  lemma DecodeFull(s: string, rest: string, i0: nat, i1: nat, i2: nat, i3: nat, tail: seq<byte>)
    requires i0 < 64 && i1 < 64 && i2 < 64 && i3 < 64
    requires s == [Alphabet(i0), Alphabet(i1), Alphabet(i2), Alphabet(i3)] + rest
    requires Decode(rest) == Some(tail)
    ensures Decode(s) == Some([Byte0(i0, i1), Byte1(i1, i2), Byte2(i2, i3)] + tail)
  {
    IndexOfAlphabet(i0);
    IndexOfAlphabet(i1);
    IndexOfAlphabet(i2);
    IndexOfAlphabet(i3);
    assert s[4..] == rest;
    if |s| == 4 {
      assert rest == [] && tail == [];
    }
  }

  /** The six-bit pieces of one byte reassemble to it. */
  lemma BitsOne(x: nat)
    requires x < 256
    ensures x / 4 < 64 && (x % 4) * 16 < 64 && Byte0(x / 4, (x % 4) * 16) as nat == x
  {
  }

  /** The six-bit pieces of two bytes reassemble to them. */
  lemma BitsTwo(x: nat, y: nat)
    requires x < 256 && y < 256
    ensures var i0, i1, i2 := x / 4, (x % 4) * 16 + y / 16, (y % 16) * 4;
      && i0 < 64 && i1 < 64 && i2 < 64
      && Byte0(i0, i1) as nat == x && Byte1(i1, i2) as nat == y
  {
    var i1 := (x % 4) * 16 + y / 16;
    assert i1 / 16 == x % 4 && i1 % 16 == y / 16;
  }

  /** The six-bit pieces of three bytes reassemble to them. */
  lemma BitsThree(x: nat, y: nat, z: nat)
    requires x < 256 && y < 256 && z < 256
    ensures var i0, i1 := x / 4, (x % 4) * 16 + y / 16;
      var i2, i3 := (y % 16) * 4 + z / 64, z % 64;
      && i0 < 64 && i1 < 64 && i2 < 64 && i3 < 64
      && Byte0(i0, i1) as nat == x && Byte1(i1, i2) as nat == y && Byte2(i2, i3) as nat == z
  {
    var i1 := (x % 4) * 16 + y / 16;
    var i2 := (y % 16) * 4 + z / 64;
    assert i1 / 16 == x % 4 && i1 % 16 == y / 16;
    assert i2 / 4 == y % 16 && i2 % 4 == z / 64;
  }

  lemma DecodeSingleQuad(b0: byte)
    ensures Decode(SingleQuad(b0)) == Some([b0])
  {
    var x := b0 as nat;
    BitsOne(x);
    DecodeFinalOne(SingleQuad(b0), x / 4, (x % 4) * 16);
  }

  lemma DecodePairQuad(b0: byte, b1: byte)
    ensures Decode(PairQuad(b0, b1)) == Some([b0, b1])
  {
    var x, y := b0 as nat, b1 as nat;
    BitsTwo(x, y);
    DecodeFinalTwo(PairQuad(b0, b1), x / 4, (x % 4) * 16 + y / 16, (y % 16) * 4);
  }

  lemma DecodeQuad(b0: byte, b1: byte, b2: byte, rest: string, tail: seq<byte>)
    requires Decode(rest) == Some(tail)
    ensures Decode(Quad(b0, b1, b2) + rest) == Some([b0, b1, b2] + tail)
  {
    var x, y, z := b0 as nat, b1 as nat, b2 as nat;
    BitsThree(x, y, z);
    DecodeFull(Quad(b0, b1, b2) + rest, rest, x / 4, (x % 4) * 16 + y / 16,
               (y % 16) * 4 + z / 64, z % 64, tail);
  }

  /** `b64decode(b64encode(b)) == b`. */
  lemma {:induction false} DecodeEncode(b: seq<byte>)
    ensures Decode(Encode(b)) == Some(b)
    decreases |b|
  {
    if |b| == 1 {
      DecodeSingleQuad(b[0]);
      assert [b[0]] == b;
    } else if |b| == 2 {
      DecodePairQuad(b[0], b[1]);
      assert [b[0], b[1]] == b;
    } else if |b| >= 3 {
      DecodeEncode(b[3..]);
      DecodeQuad(b[0], b[1], b[2], Encode(b[3..]), b[3..]);
      assert [b[0], b[1], b[2]] + b[3..] == b;
    }
  }

  /** Every character of an encoding is in the alphabet or is the padding `=`. */
  lemma {:induction false} EncodeAlphabet(b: seq<byte>)
    ensures forall k :: 0 <= k < |Encode(b)| ==> Index(Encode(b)[k]).Some? || Encode(b)[k] == '='
    decreases |b|
  {
    if |b| >= 3 {
      EncodeAlphabet(b[3..]);
      var s := Encode(b);
      forall k | 4 <= k < |s| ensures Index(s[k]).Some? || s[k] == '=' {
        assert s[k] == Encode(b[3..])[k - 4];
      }
      IndexOfAlphabet(b[0] as nat / 4);
      IndexOfAlphabet((b[0] as nat % 4) * 16 + b[1] as nat / 16);
      IndexOfAlphabet((b[1] as nat % 16) * 4 + b[2] as nat / 64);
      IndexOfAlphabet(b[2] as nat % 64);
    } else if |b| == 2 {
      IndexOfAlphabet(b[0] as nat / 4);
      IndexOfAlphabet((b[0] as nat % 4) * 16 + b[1] as nat / 16);
      IndexOfAlphabet((b[1] as nat % 16) * 4);
    } else if |b| == 1 {
      IndexOfAlphabet(b[0] as nat / 4);
      IndexOfAlphabet((b[0] as nat % 4) * 16);
    }
  }
}
