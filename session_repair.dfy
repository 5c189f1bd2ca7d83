/**
 * Connecting the Telegram client with one repair attempt for a corrupt or incompatible
 * session database: the same rule in the background worker and in the client wrapper.
 * The connect calls, the file test and the unlink are inputs.
 */
module SessionRepair {
  import opened Options
  import opened PyStr
  import TelegramConfig

  const NoSuchColumn := "no such column"
  const DatabaseLocked := "database is locked"
  const DiskImageMalformed := "database disk image is malformed"

  /** The error text names one of the three SQLite failures of a stale session file; a text
      shorter than every marker never does. */
  function IsCorruptSession(error: string): (r: bool)
    ensures r ==> |NoSuchColumn| <= |error|
  {
    if Contains(error, NoSuchColumn) then ContainsLength(error, NoSuchColumn); true
    else if Contains(error, DatabaseLocked) then ContainsLength(error, DatabaseLocked); true
    else if Contains(error, DiskImageMalformed) then ContainsLength(error, DiskImageMalformed); true
    else false
  }

  /** A marker anywhere in the text, with any prefix (such as the exception class) and
      any suffix, triggers the repair. */
  lemma MarkerTriggersRepair(prefix: string, marker: string, suffix: string)
    requires marker == NoSuchColumn || marker == DatabaseLocked || marker == DiskImageMalformed
    ensures IsCorruptSession(prefix + marker + suffix)
  {
    var s := prefix + marker + suffix;
    assert s[|prefix|..|prefix| + |marker|] == marker;
    ContainsAt(s, marker, |prefix|);
  }

  /** What one connect-with-repair did: clients built, connect calls, whether the session
      file was deleted, and the exception it raises, if any. */
  datatype Repair = Repair(clientsBuilt: nat, connectCalls: nat, sessionDeleted: bool, raised: Option<string>)

  /** `firstError`/`secondError`: what the first and the retried `connect()` raise
      (None on success); `sessionExists`, `unlinkSucceeds`: the session file's state. */
  function ConnectWithRepair(firstError: Option<string>, sessionExists: bool, unlinkSucceeds: bool,
                             secondError: Option<string>): (r: Repair)
    ensures r.connectCalls <= 2 && r.clientsBuilt == r.connectCalls
    ensures firstError.None? ==> r == Repair(1, 1, false, None)
    ensures firstError.Some? && !IsCorruptSession(firstError.value) ==> r == Repair(1, 1, false, firstError)
    ensures r.connectCalls == 2 <==> firstError.Some? && IsCorruptSession(firstError.value)
    ensures r.sessionDeleted ==> r.connectCalls == 2 && sessionExists && unlinkSucceeds
    ensures r.connectCalls == 2 ==> r.raised == secondError
  {
    match firstError
    case None => Repair(1, 1, false, None)
    case Some(e) =>
      if IsCorruptSession(e) then Repair(2, 2, sessionExists && unlinkSucceeds, secondError)
      else Repair(1, 1, false, firstError)
  }

  /** What starting a client meets: the outcome of `load_telegram_credentials` (the id and
      hash, or the ValueError of `TelegramConfig.LoadCredentials`), then the connect attempts
      of `ConnectWithRepair`. */
  datatype ConnectInputs = ConnectInputs(credentials: Result<(int, string)>,
                                         firstError: Option<string>, sessionExists: bool,
                                         unlinkSucceeds: bool, secondError: Option<string>)

  /** The exception that loading the credentials and then connecting with one repair
      raises, if any: the client comes up exactly when the credentials load and either the
      first connect succeeds or it failed on a stale session and the retry succeeds. */
  function StartupError(inputs: ConnectInputs): (e: Option<string>)
    ensures inputs.credentials.Raised? ==> e == Some(inputs.credentials.message)
    ensures e.None? <==> (inputs.credentials.Ok? &&
      (inputs.firstError.None? || (IsCorruptSession(inputs.firstError.value) && inputs.secondError.None?)))
  {
    if inputs.credentials.Raised? then Some(inputs.credentials.message)
    else ConnectWithRepair(inputs.firstError, inputs.sessionExists,
                           inputs.unlinkSucceeds, inputs.secondError).raised
  }

  /** Without credentials in the environment (a variable missing or empty) and without the
      embedded module, starting fails with the ValueError of `load_telegram_credentials`,
      whatever the server would do. */
  lemma NoCredentialsNoStartup(env: TelegramConfig.Environment, firstError: Option<string>,
                               sessionExists: bool, unlinkSucceeds: bool, secondError: Option<string>)
    requires env.apiId.None? || env.apiId == Some("") || env.apiHash.None? || env.apiHash == Some("")
    ensures StartupError(ConnectInputs(TelegramConfig.LoadCredentials(env, None), firstError,
                                       sessionExists, unlinkSucceeds, secondError))
            == Some(TelegramConfig.CredentialsNotFound)
  {
    TelegramConfig.NothingRaises(env);
  }
}
