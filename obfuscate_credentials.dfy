/**
 * The credential obfuscation used for distribution: `api_id:api_hash` is UTF-8 encoded,
 * XORed with a 32-byte random key repeated to the data's length, and both the result and
 * the key are Base64 encoded. The generated `get_credentials()` undoes the three steps
 * and splits the text at its first colon. This is obfuscation, not encryption.
 */
module ObfuscateCredentials {
  import opened Options
  import opened PyStr
  import opened Bytes
  import Base64
  import Utf8
  import opened Arith

  /** `secrets.token_bytes(32)`: the length of the random key. */
  const KeyLength := 32

  /** `f"{api_id}:{api_hash}".encode()`. */
  function Plaintext(apiId: int, apiHash: string): (b: seq<byte>)
    ensures Utf8.Decode(b) == Some(IntToString(apiId) + ":" + apiHash)
  {
    Utf8.DecodeEncode(IntToString(apiId) + ":" + apiHash);
    Utf8.Encode(IntToString(apiId) + ":" + apiHash)
  }

  /** `key * n`. */
  function Repeat(key: seq<byte>, n: nat): (r: seq<byte>)
    ensures |r| == n * |key|
  {
    if n == 0 then [] else key + Repeat(key, n - 1)
  }

  /** Index `i` of a repetition of `key` is the key byte at `i mod |key|`. */
  lemma {:induction false} RepeatAt(key: seq<byte>, n: nat, i: nat)
    requires i < n * |key|
    ensures Repeat(key, n)[i] == key[i % |key|]
  {
    var k := |key|;
    assert Repeat(key, n) == key + Repeat(key, n - 1);
    if i < k {
      ModSmall(i, k);
    } else {
      ShiftOne(i, k, n);
      RepeatAt(key, n - 1, i - k);
    }
  }

  lemma ModSmall(i: nat, k: nat)
    requires i < k
    ensures i % k == i
  {
  }

  lemma ShiftOne(i: nat, k: nat, n: nat)
    requires k <= i < n * k
    ensures n >= 1 && i - k < (n - 1) * k && (i - k) % k == i % k
  {
    Distrib(n, -1, k);
    var q, r := i / k, i % k;
    Distrib(q, -1, k);
    DivModUnique(i - k, k, q - 1, r);
  }

  lemma EnoughRepeats(k: nat, n: nat)
    requires k > 0
    ensures n < (n / k + 1) * k
  {
    assert n == (n / k) * k + n % k;
  }

  /** `(key * (n // len(key) + 1))[:n]`: the key repeated and cut to `n` bytes. */
  function ExtendedKey(key: seq<byte>, n: nat): (r: seq<byte>)
    requires |key| > 0
    ensures |r| == n
    ensures forall i :: 0 <= i < n ==> r[i] == key[i % |key|]
  {
    var m := n / |key| + 1;
    EnoughRepeats(|key|, n);
    var rep := Repeat(key, m);
    forall i | 0 <= i < n ensures rep[i] == key[i % |key|] {
      RepeatAt(key, m, i);
    }
    rep[..n]
  }

  /** `bytes(a ^ b for a, b in zip(data, key))`: as long as the shorter of the two. */
  function XorZip(data: seq<byte>, key: seq<byte>): (r: seq<byte>)
    ensures |r| == if |data| <= |key| then |data| else |key|
    ensures forall i :: 0 <= i < |r| ==> r[i] == Xor(data[i], key[i])
  {
    var n := if |data| <= |key| then |data| else |key|;
    seq(n, i requires 0 <= i < n => Xor(data[i], key[i]))
  }

  /** XORing twice with a key at least as long as the data gives the data back. */
  lemma XorZipTwice(data: seq<byte>, key: seq<byte>)
    requires |key| >= |data|
    ensures XorZip(XorZip(data, key), key) == data
  {
    var r := XorZip(XorZip(data, key), key);
    forall i | 0 <= i < |data| ensures r[i] == data[i] {
      XorInvolutive(data[i], key[i]);
    }
  }

  /** `obfuscate(api_id, api_hash)`, the random key being given as `key`; the pair is the
      Base64 text of the XORed bytes and of the key. */
  function Obfuscate(apiId: int, apiHash: string, key: seq<byte>): (r: (string, string))
    requires |key| == KeyLength
    ensures Base64.Decode(r.1) == Some(key)
    ensures Base64.Decode(r.0).Some? && |Base64.Decode(r.0).value| == |Plaintext(apiId, apiHash)|
  {
    var data := Plaintext(apiId, apiHash);
    Base64.DecodeEncode(key);
    Base64.DecodeEncode(XorZip(data, ExtendedKey(key, |data|)));
    (Base64.Encode(XorZip(data, ExtendedKey(key, |data|))), Base64.Encode(key))
  }

  /** `s.split(c, 1)` unpacked into two names: None when `c` does not occur (the unpacking
      raises ValueError), otherwise the text before the first `c` and everything after it. */
  function SplitFirst(s: string, c: char): (r: Option<(string, string)>)
    ensures r.None? <==> NoChar(s, c)
    ensures r.Some? ==> NoChar(r.value.0, c) && s == r.value.0 + [c] + r.value.1
    decreases |s|
  {
    if s == [] then None
    else if s[0] == c then Some(([], s[1..]))
    else match SplitFirst(s[1..], c)
      case None => None
      case Some((x, y)) => Some(([s[0]] + x, y))
  }

  /** The first `c` is found however many more follow. */
  lemma {:induction false} SplitFirstOf(x: string, y: string, c: char)
    requires NoChar(x, c)
    ensures SplitFirst(x + [c] + y, c) == Some((x, y))
    decreases |x|
  {
    if x == [] {
      assert x + [c] + y == [c] + y;
      assert ([c] + y)[1..] == y;
    } else {
      assert (x + [c] + y)[1..] == x[1..] + [c] + y;
      SplitFirstOf(x[1..], y, c);
      assert [x[0]] + x[1..] == x;
    }
  }

  /** The generated `get_credentials()` for the embedded `_O` and `_K`; each failure is the
      exception Python raises there. */
  function GetCredentials(o: string, k: string): (r: Result<(int, string)>)
    ensures Base64.Decode(o).None? || Base64.Decode(k).None? ==> r.Raised?
    ensures r.Ok? ==> Base64.Decode(k).Some? && |Base64.Decode(k).value| > 0
  {
    match Base64.Decode(o)
    case None => Raised("binascii.Error")
    case Some(data) =>
      match Base64.Decode(k)
      case None => Raised("binascii.Error")
      case Some(key) =>
        if |key| == 0 then Raised("ZeroDivisionError")
        else
          match Utf8.Decode(XorZip(data, ExtendedKey(key, |data|)))
          case None => Raised("UnicodeDecodeError")
          case Some(text) =>
            match SplitFirst(text, ':')
            case None => Raised("not enough values to unpack (expected 2, got 1)")
            case Some((idText, hash)) =>
              match ParseInt(idText, 10)
              case None => Raised("invalid literal for int() with base 10")
              case Some(id) => Ok((id, hash))
  }

  /** What `obfuscate` embeds decodes to the key and to the plaintext XORed byte by byte
      with the key repeated. */
  lemma ObfuscatedBytes(apiId: int, apiHash: string, key: seq<byte>)
    requires |key| == KeyLength
    ensures var data := Plaintext(apiId, apiHash);
      var (o, k) := Obfuscate(apiId, apiHash, key);
      && Base64.Decode(k) == Some(key)
      && Base64.Decode(o).Some?
      && |Base64.Decode(o).value| == |data|
      && forall i :: 0 <= i < |data| ==>
           Base64.Decode(o).value[i] == Xor(data[i], key[i % KeyLength])
  {
    var data := Plaintext(apiId, apiHash);
    Base64.DecodeEncode(XorZip(data, ExtendedKey(key, |data|)));
    Base64.DecodeEncode(key);
  }

  /** `get_credentials()` of what `obfuscate(api_id, api_hash)` produced returns exactly
      `(api_id, api_hash)`, whatever the key, even when the hash itself holds colons. */
  lemma {:induction false} RoundTrip(apiId: int, apiHash: string, key: seq<byte>)
    requires |key| == KeyLength
    ensures var (o, k) := Obfuscate(apiId, apiHash, key);
      GetCredentials(o, k) == Ok((apiId, apiHash))
  {
    var text := IntToString(apiId) + ":" + apiHash;
    var data := Plaintext(apiId, apiHash);
    var ek := ExtendedKey(key, |data|);
    var obf := XorZip(data, ek);
    Base64.DecodeEncode(obf);
    Base64.DecodeEncode(key);
    XorZipTwice(data, ek);
    assert |obf| == |data|;
    Utf8.DecodeEncode(text);
    IntToStringNoChar(apiId, ':');
    SplitFirstOf(IntToString(apiId), apiHash, ':');
    ParseIntOfIntToString(apiId);
  }

  /** A key that decodes to no bytes makes the key repetition divide by zero. */
  lemma EmptyKeyRaises(o: string)
    requires Base64.Decode(o).Some?
    ensures GetCredentials(o, "").Raised?
  {
    assert Base64.Decode("") == Some([]);
  }
}
