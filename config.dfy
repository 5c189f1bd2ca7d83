/**
 * Telegram API credentials: where `load_telegram_credentials` takes them from (the
 * environment, after the optional `.env` file has been loaded, then the generated
 * obfuscated module) and the format check of `validate_credentials`.
 */
module TelegramConfig {
  import opened Options
  import opened PyStr
  import opened Bytes
  import ObfuscateCredentials

  /** `validate_credentials(api_id, api_hash)`: a positive id and a 32-character hash that
      `int(api_hash, 16)` accepts. */
  function ValidateCredentials(apiId: int, apiHash: string): (ok: bool)
    ensures apiId <= 0 ==> !ok
    ensures |apiHash| != 32 ==> !ok
  {
    if apiId <= 0 then false
    else if |apiHash| != 32 then false
    else ParseInt(apiHash, 16).Some?
  }

  /** The characters `int(s, 16)` can accept anywhere in its argument. */
  predicate HexLiteralChar(c: char) {
    IsHexDigit(c) || IsSpace(c) || c == '+' || c == '-' || c == 'x' || c == 'X' || c == '_'
  }

  /** After the sign: the `0x` prefix, one underscore and hex digits or underscores. */
  lemma DigitPartChars(u: string)
    requires DigitsOrUnderscores(DigitPart(u, 16), 16)
    ensures forall i :: 0 <= i < |u| ==> HexLiteralChar(u[i])
  {
    var b := DigitPart(u, 16);
    if |u| >= 2 && u[0] == '0' && (u[1] == 'x' || u[1] == 'X') {
      var b2 := u[2..];
      if |b2| > 0 && b2[0] == '_' {
        forall i | 3 <= i < |u| ensures HexLiteralChar(u[i]) {
          assert u[i] == b[i - 3];
        }
      } else {
        forall i | 2 <= i < |u| ensures HexLiteralChar(u[i]) {
          assert u[i] == b[i - 2];
        }
      }
    }
  }

  /** Every character of a string `int(s, 16)` accepts is a hex digit, whitespace, a sign,
      `x`/`X` or `_`. */
  lemma HexLiteralChars(s: string)
    requires ParseInt(s, 16).Some?
    ensures forall i :: 0 <= i < |s| ==> HexLiteralChar(s[i])
  {
    var t := Strip(s);
    StrippedHexChars(t);
    forall i | 0 <= i < |s| ensures HexLiteralChar(s[i]) {
      StripCovers(s, i);
    }
  }

  /** The stripped text `int(t, 16)` accepts: an optional sign, then the digit part. */
  lemma StrippedHexChars(t: string)
    requires var signed := |t| > 0 && (t[0] == '-' || t[0] == '+');
      DigitsOrUnderscores(DigitPart(if signed then t[1..] else t, 16), 16)
    ensures forall i :: 0 <= i < |t| ==> HexLiteralChar(t[i])
  {
    var signed := |t| > 0 && (t[0] == '-' || t[0] == '+');
    var u := if signed then t[1..] else t;
    DigitPartChars(u);
    forall i | 0 <= i < |t| ensures HexLiteralChar(t[i]) {
      if signed && i > 0 {
        assert t[i] == u[i - 1];
      } else if !signed {
        assert t[i] == u[i];
      }
    }
  }

  /** Each character of `s` is whitespace or a character of `s.strip()`. */
  lemma StripCovers(s: string, i: nat)
    requires i < |s|
    ensures IsSpace(s[i]) || s[i] in Strip(s)
  {
    var lead := LeadingSpaces(s);
    var a := s[lead..];
    var trail := TrailingStart(a);
    if lead <= i && i - lead < trail {
      assert s[i] == a[i - lead] == Strip(s)[i - lead];
    } else if lead <= i {
      assert s[i] == a[i - lead];
    }
  }

  /** A positive id with 32 hexadecimal digits passes. */
  lemma HexHashIsValid(apiId: int, apiHash: string)
    requires apiId > 0 && |apiHash| == 32
    requires forall i :: 0 <= i < |apiHash| ==> IsHexDigit(apiHash[i])
    ensures ValidateCredentials(apiId, apiHash)
  {
    ParseHexOfHexDigits(apiHash);
  }

  /** A hash holding any character `int(s, 16)` cannot accept fails, whatever the id. */
  lemma ForeignCharIsInvalid(apiId: int, apiHash: string, i: nat)
    requires i < |apiHash| && !HexLiteralChar(apiHash[i])
    ensures !ValidateCredentials(apiId, apiHash)
  {
    if apiId > 0 && |apiHash| == 32 && ParseInt(apiHash, 16).Some? {
      HexLiteralChars(apiHash);
    }
  }

  /** The check is `int()`'s, not a hex-digit test: a `0x` prefix and thirty digits (a
      32-character string with only 30 hex digits) also pass. */
  lemma PrefixedHashIsValid(apiId: int, digits: string)
    requires apiId > 0 && |digits| == 30
    requires forall i :: 0 <= i < |digits| ==> IsHexDigit(digits[i])
    ensures ValidateCredentials(apiId, "0x" + digits)
  {
    var s := "0x" + digits;
    assert IsHexDigit(s[|s| - 1]);
    StripNoSpaceEnds(s);
    assert s[2..] == digits;
    assert IsHexDigit(digits[0]) && IsHexDigit(digits[|digits| - 1]);
    assert DigitPart(s, 16) == digits;
  }

  /** The environment variables `TELEGRAM_API_ID` and `TELEGRAM_API_HASH`, as `os.getenv`
      returns them once `.env` has been loaded. */
  datatype Environment = Environment(apiId: Option<string>, apiHash: Option<string>)

  /** The message of the ValueError raised when neither source holds credentials. */
  const CredentialsNotFound := "Telegram credentials not found. "
    + "Set TELEGRAM_API_ID and TELEGRAM_API_HASH environment variables "
    + "or create a .env file. See .env.example for template."

  /** `load_telegram_credentials()`. `embedded` is the pair `(_O, _K)` of the generated
      credentials module, or None when it cannot be imported. */
  function LoadCredentials(env: Environment, embedded: Option<(string, string)>): (r: Result<(int, string)>)
    ensures embedded.None? && r.Ok? ==> env.apiHash.Some? && r.value.1 == env.apiHash.value
  {
    if env.apiId.Some? && env.apiId.value != "" && env.apiHash.Some? && env.apiHash.value != "" then
      match ParseInt(env.apiId.value, 10)
      case None => Raised("invalid literal for int() with base 10")
      case Some(id) => Ok((id, env.apiHash.value))
    else match embedded
      case Some((o, k)) => ObfuscateCredentials.GetCredentials(o, k)
      case None => Raised(CredentialsNotFound)
  }

  /** Both variables set: they win over the embedded module, and the id is read back. */
  lemma EnvironmentWins(apiId: int, apiHash: string, embedded: Option<(string, string)>)
    requires apiHash != ""
    ensures LoadCredentials(Environment(Some(IntToString(apiId)), Some(apiHash)), embedded)
            == Ok((apiId, apiHash))
  {
    ParseIntOfIntToString(apiId);
  }

  /** A set but non-numeric id raises instead of falling back. */
  lemma NonNumericIdRaises(idText: string, apiHash: string, embedded: Option<(string, string)>)
    requires idText != "" && apiHash != "" && ParseInt(idText, 10).None?
    ensures LoadCredentials(Environment(Some(idText), Some(apiHash)), embedded).Raised?
  {
  }

  /** With either variable missing or empty, the embedded module made by `obfuscate` gives
      back the credentials it was made from. */
  lemma EmbeddedFallback(env: Environment, apiId: int, apiHash: string, key: seq<byte>)
    requires |key| == ObfuscateCredentials.KeyLength
    requires env.apiId.None? || env.apiId == Some("") || env.apiHash.None? || env.apiHash == Some("")
    ensures LoadCredentials(env, Some(ObfuscateCredentials.Obfuscate(apiId, apiHash, key)))
            == Ok((apiId, apiHash))
  {
    ObfuscateCredentials.RoundTrip(apiId, apiHash, key);
  }

  /** Neither source available (a variable missing or empty, no embedded module): ValueError. */
  lemma NothingRaises(env: Environment)
    requires env.apiId.None? || env.apiId == Some("") || env.apiHash.None? || env.apiHash == Some("")
    ensures LoadCredentials(env, None) == Raised(CredentialsNotFound)
  {
  }
}
