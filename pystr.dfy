/**
 * The Python built-ins on strings and integers that the application relies on:
 * `str(n)`, `f"{n:02}"`, `int(s)` and `int(s, 16)`, `str.strip()`, `str.lower()`,
 * `str.split(sep)`, `sub in s`, `s.startswith(p)` and prefix slicing `s[:n]`.
 * Strings are sequences of Unicode scalar values, as in Python 3.
 */
module PyStr {
  import opened Options

  // ---------------------------------------------------------------------------
  // Digits

  predicate IsDigit(c: char) { '0' <= c <= '9' }

  predicate IsHexDigit(c: char) { IsDigit(c) || 'a' <= c <= 'f' || 'A' <= c <= 'F' }

  /** A digit of `base` (10 or 16), as `int(s, base)` accepts it (ASCII digits only). */
  predicate IsBaseDigit(c: char, base: nat) {
    if base == 16 then IsHexDigit(c) else IsDigit(c)
  }

  function BaseDigitValue(c: char, base: nat): (v: nat)
    requires IsBaseDigit(c, base)
    ensures v < (if base == 16 then 16 else 10)
  {
    if IsDigit(c) then c as int - '0' as int
    else if 'a' <= c <= 'f' then c as int - 'a' as int + 10
    else c as int - 'A' as int + 10
  }

  function DigitChar(d: nat): (c: char)
    requires d < 10
    ensures IsDigit(c) && BaseDigitValue(c, 10) == d
  {
    ('0' as int + d) as char
  }

  predicate DigitsOrUnderscores(s: string, base: nat) {
    forall i :: 0 <= i < |s| ==> IsBaseDigit(s[i], base) || s[i] == '_'
  }

  /** The number a run of digits of `base` denotes, underscores being ignored. */
  function GroupValue(s: string, base: nat): nat
    requires DigitsOrUnderscores(s, base)
    decreases |s|
  {
    if s == [] then 0
    else
      var c := s[|s| - 1];
      if c == '_' then GroupValue(s[..|s| - 1], base)
      else (if base == 16 then 16 else 10) * GroupValue(s[..|s| - 1], base) + BaseDigitValue(c, base)
  }

  // ---------------------------------------------------------------------------
  // Decimal formatting: str(n) and f"{n:02}"

  /** `str(n)` for a non-negative integer: decimal digits, no leading zero. */
  function NatToString(n: nat): (s: string)
    ensures |s| >= 1
    ensures forall i :: 0 <= i < |s| ==> IsDigit(s[i])
    ensures DigitsOrUnderscores(s, 10) && GroupValue(s, 10) == n
    ensures s[0] == '0' <==> n == 0
    ensures n < 10 <==> |s| == 1
    decreases n
  {
    if n < 10 then [DigitChar(n)]
    else
      var s := NatToString(n / 10) + [DigitChar(n % 10)];
      assert s[..|s| - 1] == NatToString(n / 10);
      s
  }

  /** `str(i)` for any integer. */
  function IntToString(i: int): (s: string)
    ensures |s| >= 1
    ensures s[0] == '-' <==> i < 0
    ensures forall k :: 0 <= k < |s| ==> IsDigit(s[k]) || (k == 0 && s[k] == '-')
  {
    if i < 0 then "-" + NatToString(-i) else NatToString(i)
  }

  /** Two different integers never print the same: `str` is injective. */
  lemma {:induction false} NatToStringInjective(m: nat, n: nat)
    requires NatToString(m) == NatToString(n)
    ensures m == n
  {
    // both strings denote their argument
  }

  lemma IntToStringInjective(a: int, b: int)
    requires IntToString(a) == IntToString(b)
    ensures a == b
  {
    if a < 0 {
      assert IntToString(a)[1..] == NatToString(-a);
      assert IntToString(b)[1..] == NatToString(-b);
      NatToStringInjective(-a, -b);
    } else {
      NatToStringInjective(a, b);
    }
  }

  /** The decimal text of an integer holds digits and at most a leading minus sign. */
  lemma IntToStringNoChar(i: int, c: char)
    requires !IsDigit(c) && (c == '-' ==> i >= 0)
    ensures NoChar(IntToString(i), c)
  {
  }

  /** `f"{n:02}"` for a non-negative integer: at least two digits, zero-padded. */
  function Pad2(n: nat): (s: string)
    ensures |s| >= 2
    ensures forall i :: 0 <= i < |s| ==> IsDigit(s[i])
    ensures DigitsOrUnderscores(s, 10) && GroupValue(s, 10) == n
    ensures n < 100 ==> |s| == 2
  {
    if n < 10 then
      var s := "0" + NatToString(n);
      assert s[..1] == "0";
      s
    else NatToString(n)
  }

  // ---------------------------------------------------------------------------
  // Whitespace and str.strip()

  /** Python's `str.isspace()` for one character. */
  predicate IsSpace(c: char) {
    || ('\t' <= c <= '\r')
    || ('\U{1C}' <= c <= '\U{1F}')
    || c == ' ' || c == '\U{85}' || c == '\U{A0}' || c == '\U{1680}'
    || ('\U{2000}' <= c <= '\U{200A}')
    || c == '\U{2028}' || c == '\U{2029}' || c == '\U{202F}' || c == '\U{205F}' || c == '\U{3000}'
  }

  /** The number of leading whitespace characters. */
  function LeadingSpaces(s: string): (k: nat)
    ensures k <= |s|
    ensures forall i :: 0 <= i < k ==> IsSpace(s[i])
    ensures k < |s| ==> !IsSpace(s[k])
    decreases |s|
  {
    if s != [] && IsSpace(s[0]) then 1 + LeadingSpaces(s[1..]) else 0
  }

  /** The length of `s` without its trailing whitespace. */
  function TrailingStart(s: string): (k: nat)
    ensures k <= |s|
    ensures forall i :: k <= i < |s| ==> IsSpace(s[i])
    ensures k > 0 ==> !IsSpace(s[k - 1])
    decreases |s|
  {
    if s != [] && IsSpace(s[|s| - 1]) then TrailingStart(s[..|s| - 1]) else |s|
  }

  /** `s.strip()`. */
  function Strip(s: string): (r: string)
    ensures r != [] ==> !IsSpace(r[0]) && !IsSpace(r[|r| - 1])
  {
    var a := s[LeadingSpaces(s)..];
    a[..TrailingStart(a)]
  }

  /** Stripping only removes characters: whatever holds of every character of `s` holds of
      every character of `s.strip()`. */
  lemma StripKeepsAll(s: string, p: char -> bool)
    requires forall i :: 0 <= i < |s| ==> p(s[i])
    ensures |Strip(s)| <= |s| && forall i :: 0 <= i < |Strip(s)| ==> p(Strip(s)[i])
  {
    var j := LeadingSpaces(s);
    var a := s[j..];
    assert forall i :: 0 <= i < |a| ==> a[i] == s[j + i];
  }

  lemma StripNoSpaceEnds(s: string)
    requires s != [] && !IsSpace(s[0]) && !IsSpace(s[|s| - 1])
    ensures Strip(s) == s
  {
    assert LeadingSpaces(s) == 0;
    assert s[0..] == s;
  }

  // ---------------------------------------------------------------------------
  // int(s) and int(s, 16)

  /** Digits of `base` with single underscores only between digits. */
  predicate WellFormedDigits(b: string, base: nat) {
    && |b| > 0
    && IsBaseDigit(b[0], base)
    && IsBaseDigit(b[|b| - 1], base)
    && DigitsOrUnderscores(b, base)
    && forall i :: 0 <= i < |b| - 1 ==> !(b[i] == '_' && b[i + 1] == '_')
  }

  /** What `int(s, base)` accepts after the sign: for base 16 an optional `0x`/`0X` prefix,
      followed by at most one underscore. */
  function DigitPart(u: string, base: nat): string {
    if base == 16 && |u| >= 2 && u[0] == '0' && (u[1] == 'x' || u[1] == 'X') then
      var b := u[2..];
      if |b| > 0 && b[0] == '_' then b[1..] else b
    else u
  }

  /** `int(s, base)` for base 10 or 16 (None where Python raises ValueError): surrounding
      whitespace, one optional sign, for base 16 an optional `0x` prefix, then digits with
      single underscores between them. */
  function ParseInt(s: string, base: nat): (r: Option<int>)
    requires base == 10 || base == 16
    ensures r.Some? ==> Strip(s) != []
  {
    var t := Strip(s);
    var signed := |t| > 0 && (t[0] == '-' || t[0] == '+');
    var u := if signed then t[1..] else t;
    var b := DigitPart(u, base);
    if WellFormedDigits(b, base) then
      var v: int := GroupValue(b, base);
      Some(if signed && t[0] == '-' then -v else v)
    else None
  }

  /** `int(str(n)) == n`: the decimal text of an integer parses back to it. */
  lemma ParseIntOfIntToString(n: int)
    ensures ParseInt(IntToString(n), 10) == Some(n)
  {
    if n < 0 {
      ParseNegativeText(-n);
    } else {
      ParseNatText(n);
    }
  }

  lemma ParseNatText(m: nat)
    ensures ParseInt(NatToString(m), 10) == Some(m)
  {
    var s := NatToString(m);
    assert IsDigit(s[0]) && IsDigit(s[|s| - 1]);
    StripNoSpaceEnds(s);
    assert !(s[0] == '-' || s[0] == '+');
    ParseDigits(s, 10);
    assert GroupValue(s, 10) == m;
  }

  lemma ParseNegativeText(m: nat)
    requires m > 0
    ensures ParseInt("-" + NatToString(m), 10) == Some(-(m as int))
  {
    var u := NatToString(m);
    var s := "-" + u;
    assert s[0] == '-' && s[1..] == u;
    ParseNegativeDigits(s, m);
  }

  /** A minus sign followed by decimal digits without a leading zero. */
  lemma ParseNegativeDigits(s: string, m: nat)
    requires |s| >= 2 && s[0] == '-'
    requires forall i :: 1 <= i < |s| ==> IsDigit(s[i])
    requires |s| >= 3 ==> s[1] != '0'
    requires DigitsOrUnderscores(s[1..], 10) && GroupValue(s[1..], 10) == m
    ensures ParseInt(s, 10) == Some(-(m as int))
  {
    var u := s[1..];
    assert IsDigit(s[|s| - 1]);
    StripNoSpaceEnds(s);
    assert forall i :: 0 <= i < |u| ==> u[i] == s[i + 1];
    ParseDigits(u, 10);
    ParseMinus(s, 10);
  }

  /** A stripped text made of a minus sign and a well-formed digit part. */
  lemma ParseMinus(s: string, base: nat)
    requires base == 10 || base == 16
    requires Strip(s) == s && |s| > 0 && s[0] == '-'
    requires DigitPart(s[1..], base) == s[1..] && WellFormedDigits(s[1..], base)
    ensures ParseInt(s, base) == Some(-(GroupValue(s[1..], base) as int))
  {
  }

  lemma ParseDigits(u: string, base: nat)
    requires base == 10 || base == 16
    requires |u| > 0 && (forall i :: 0 <= i < |u| ==> IsDigit(u[i]))
    requires |u| >= 2 ==> u[0] != '0'
    ensures DigitPart(u, base) == u && WellFormedDigits(u, base)
  {
  }

  /** A string of ASCII digits, nothing else, is what `int(s, 16)` accepts most simply. */
  lemma ParseHexOfHexDigits(s: string)
    requires |s| > 0 && forall i :: 0 <= i < |s| ==> IsHexDigit(s[i])
    ensures ParseInt(s, 16).Some?
  {
    StripNoSpaceEnds(s);
    if |s| >= 2 {
      assert IsHexDigit(s[1]);
    }
    assert DigitPart(s, 16) == s;
    assert WellFormedDigits(s, 16);
  }

  // ---------------------------------------------------------------------------
  // str.lower() (ASCII letters), `in`, startswith, split, slicing

  function LowerChar(c: char): char {
    if 'A' <= c <= 'Z' then (c as int + 32) as char else c
  }

  /** `s.lower()`, restricted to the ASCII letters. */
  function Lower(s: string): (r: string)
    ensures |r| == |s| && forall i :: 0 <= i < |s| ==> r[i] == LowerChar(s[i])
  {
    seq(|s|, i requires 0 <= i < |s| => LowerChar(s[i]))
  }

  predicate StartsWith(s: string, prefix: string) {
    |prefix| <= |s| && s[..|prefix|] == prefix
  }

  /** `sub in s`. */
  predicate Contains(s: string, sub: string)
    decreases |s|
  {
    StartsWith(s, sub) || (s != [] && Contains(s[1..], sub))
  }

  lemma {:induction false} ContainsAt(s: string, sub: string, k: nat)
    requires k + |sub| <= |s| && s[k..k + |sub|] == sub
    ensures Contains(s, sub)
    decreases k
  {
    if k > 0 {
      assert s[1..][k - 1..k - 1 + |sub|] == s[k..k + |sub|];
      ContainsAt(s[1..], sub, k - 1);
    }
  }

  lemma {:induction false} ContainsWitness(s: string, sub: string) returns (k: nat)
    requires Contains(s, sub)
    ensures k + |sub| <= |s| && s[k..k + |sub|] == sub
    decreases |s|
  {
    if StartsWith(s, sub) {
      k := 0;
    } else {
      var j := ContainsWitness(s[1..], sub);
      assert s[1..][j..j + |sub|] == s[j + 1..j + 1 + |sub|];
      k := j + 1;
    }
  }

  /** A text containing `sub` is at least as long as `sub`. */
  lemma {:induction false} ContainsLength(s: string, sub: string)
    requires Contains(s, sub)
    ensures |sub| <= |s|
  {
    var k := ContainsWitness(s, sub);
  }

  predicate NoChar(s: string, c: char) {
    forall i :: 0 <= i < |s| ==> s[i] != c
  }

  /** `s.split(sep)` for a one-character separator: the pieces between the occurrences. */
  function Split(s: string, sep: char): (parts: seq<string>)
    ensures |parts| >= 1
    ensures forall k :: 0 <= k < |parts| ==> NoChar(parts[k], sep)
    ensures NoChar(s, sep) ==> parts == [s]
    ensures sep in s ==> |parts| >= 2
    decreases |s|
  {
    if s == [] then [""]
    else
      var rest := Split(s[1..], sep);
      if s[0] == sep then [""] + rest
      else
        assert NoChar(s, sep) ==> rest == [s[1..]] && [s[0]] + s[1..] == s;
        [[s[0]] + rest[0]] + rest[1..]
  }

  function Join(parts: seq<string>, sep: char): string
    requires |parts| >= 1
    decreases |parts|
  {
    if |parts| == 1 then parts[0] else parts[0] + [sep] + Join(parts[1..], sep)
  }

  /** Splitting loses nothing: joining the pieces with the separator gives `s` back. */
  lemma {:induction false} JoinSplit(s: string, sep: char)
    ensures Join(Split(s, sep), sep) == s
    decreases |s|
  {
    if s != [] {
      JoinSplit(s[1..], sep);
      var rest := Split(s[1..], sep);
      if s[0] != sep {
        if |rest| > 1 {
          assert ([[s[0]] + rest[0]] + rest[1..])[1..] == rest[1..];
        }
      }
    }
  }

  /** The first piece of `x + [sep] + y` is `x` whenever `x` has no separator. */
  lemma {:induction false} SplitAfterFirst(x: string, y: string, sep: char)
    requires NoChar(x, sep)
    ensures Split(x + [sep] + y, sep) == [x] + Split(y, sep)
    decreases |x|
  {
    if x == [] {
      assert [] + [sep] + y == [sep] + y;
      assert ([sep] + y)[1..] == y;
    } else {
      assert (x + [sep] + y)[1..] == x[1..] + [sep] + y;
      SplitAfterFirst(x[1..], y, sep);
      assert [x[0]] + x[1..] == x;
    }
  }

  /** Where the text after the last `c` in `s` starts: just past that `c`, or 0. */
  function AfterStart(s: string, c: char): (k: nat)
    ensures k <= |s|
    ensures forall i :: k <= i < |s| ==> s[i] != c
    ensures k > 0 ==> s[k - 1] == c
    decreases |s|
  {
    if s == [] then 0
    else if s[|s| - 1] == c then |s|
    else AfterStart(s[..|s| - 1], c)
  }

  /** `s.endswith(r)`, character by character. */
  predicate EndsWith(s: string, r: string) {
    |r| <= |s| && forall i :: 0 <= i < |r| ==> s[|s| - |r| + i] == r[i]
  }

  /** The text after the last `c` in `s` (all of `s` when there is none). */
  function AfterLast(s: string, c: char): (r: string)
    ensures NoChar(r, c)
    ensures EndsWith(s, r)
    ensures |r| < |s| ==> s[|s| - |r| - 1] == c
  {
    var k := AfterStart(s, c);
    assert forall i :: 0 <= i < |s[k..]| ==> s[k..][i] == s[k + i];
    s[k..]
  }

  /** A suffix without `c` that starts at the beginning or right after a `c` is the text
      after the last `c`. */
  lemma AfterLastUnique(s: string, c: char, k: nat)
    requires k <= |s| && NoChar(s[k..], c) && (k == 0 || s[k - 1] == c)
    ensures AfterLast(s, c) == s[k..]
  {
  }

  /** The last piece of `Split(s, c)` is a suffix of `s` that starts at the beginning or right
      after a `c`; `k` is where it starts. */
  lemma {:induction false} LastPieceSuffix(s: string, c: char) returns (k: nat)
    ensures var parts := Split(s, c);
      k <= |s| && parts[|parts| - 1] == s[k..] && (k == 0 || s[k - 1] == c)
    decreases |s|
  {
    if s == [] {
      k := 0;
    } else {
      var t := s[1..];
      var rest := Split(t, c);
      var k' := LastPieceSuffix(t, c);
      if s[0] == c {
        k := k' + 1;
        assert t[k'..] == s[k..];
      } else if |rest| > 1 {
        k := k' + 1;
        assert t[k'..] == s[k..];
      } else {
        JoinSplit(t, c);
        assert [s[0]] + t == s;
        k := 0;
      }
    }
  }

  /** `s.split(c)[-1]` is the text after the last `c`. */
  lemma LastPieceIsAfterLast(s: string, c: char)
    ensures var parts := Split(s, c); parts[|parts| - 1] == AfterLast(s, c)
  {
    var parts := Split(s, c);
    var k := LastPieceSuffix(s, c);
    assert NoChar(parts[|parts| - 1], c);
    AfterLastUnique(s, c, k);
  }

  /** `s[:n]`, with Python's meaning for a negative or too large `n`. */
  function TakePrefix<T>(s: seq<T>, n: int): (r: seq<T>)
    ensures |r| <= |s| && r == s[..|r|]
    ensures n >= 0 ==> |r| == if n < |s| then n else |s|
    ensures n < 0 ==> |r| == if |s| + n > 0 then |s| + n else 0
  {
    if n >= 0 then (if n < |s| then s[..n] else s)
    else (if |s| + n > 0 then s[..|s| + n] else [])
  }
}
