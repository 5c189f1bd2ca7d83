/**
 * The Telegram client wrapper's authentication state machine. The remote answers (does the
 * session authorise, did the QR code get scanned, was the password right) are inputs of the
 * operations that wait for them.
 */
module TdlibClient {
  import opened Options
  import opened Telethon
  import opened SessionRepair
  import AsyncWorker

  datatype AuthState = WaitPhone | WaitCode | WaitPassword | WaitQrScan | Ready | AuthError

  /** The string each state is in the source. */
  function Name(s: AuthState): string {
    match s
    case WaitPhone => "wait_phone"
    case WaitCode => "wait_code"
    case WaitPassword => "wait_password"
    case WaitQrScan => "wait_qr_scan"
    case Ready => "ready"
    case AuthError => "error"
  }

  /** Distinct states have distinct names, so the callback's string identifies the state. */
  lemma NameInjective(a: AuthState, b: AuthState)
    requires Name(a) == Name(b)
    ensures a == b
  {
  }

  /** How `qr_login_obj.wait(120)` ends. */
  datatype QrWait = Scanned | PasswordNeeded | WaitFailed(message: string)

  /** `get_file_size`: the file's size, else the video's, else the document's, else 0. */
  function FileSize(m: Message): (size: int)
    ensures m.file.Some? ==> size == m.file.value.size
    ensures m.file.None? && m.video.Some? ==> size == m.video.value.size
    ensures m.file.None? && m.video.None? && m.document.Some? ==> size == m.document.value.size
    ensures m.file.None? && m.video.None? && m.document.None? ==> size == 0
  {
    if m.file.Some? then m.file.value.size
    else if m.video.Some? then m.video.value.size
    else if m.document.Some? then m.document.value.size
    else 0
  }

  /** The client reads the video before the document, the worker the document before the
      video: they agree unless a message without a file wrapper carries both with different
      sizes. */
  lemma SizeOrdersAgreeUnlessBoth(m: Message)
    ensures FileSize(m) != AsyncWorker.StreamSize(m) <==>
      && m.file.None? && m.document.Some? && m.video.Some?
      && m.document.value.size != m.video.value.size
  {
  }

  class Client {
    var state: AuthState
    var hasClient: bool
    var connected: bool
    /** `_qr_login_obj` is set. */
    var qrPending: bool
    var callbackSet: bool
    /** The states passed to the auth callback, in order. */
    var notified: seq<AuthState>

    /** The last state announced to the callback is the current one, and a client that was
        never built is not connected. */
    predicate Valid()
      reads this
    {
      && (notified != [] ==> notified[|notified| - 1] == state)
      && (!hasClient ==> !connected)
      && (!callbackSet ==> notified == [])
    }

    constructor()
      ensures Valid()
      ensures state == WaitQrScan && !hasClient && !connected && !qrPending && !callbackSet && notified == []
    {
      state := WaitQrScan;
      hasClient := false;
      connected := false;
      qrPending := false;
      callbackSet := false;
      notified := [];
    }

    method IsAuthorized() returns (r: bool)
      ensures r <==> state == Ready
    {
      r := state == Ready;
    }

    method SetAuthCallback()
      modifies this
      requires Valid()
      ensures Valid()
      ensures callbackSet && notified == old(notified) && state == old(state)
      ensures hasClient == old(hasClient) && connected == old(connected) && qrPending == old(qrPending)
    {
      callbackSet := true;
    }

    /** `_update_auth_state`: store the state, then hand exactly that state to the callback. */
    method UpdateAuthState(s: AuthState)
      modifies this
      requires Valid()
      ensures Valid()
      ensures state == s
      ensures notified == old(notified) + (if callbackSet then [s] else [])
      ensures hasClient == old(hasClient) && connected == old(connected) && qrPending == old(qrPending)
      ensures callbackSet == old(callbackSet)
    {
      state := s;
      if callbackSet {
        notified := notified + [s];
      }
    }

    /** `initialize`: load the credentials, then build the client and connect, repairing a
        corrupt session once. The result is the exception it raises, if any; when loading the
        credentials raises, no client is built and nothing changes. */
    method Initialize(inputs: ConnectInputs) returns (raised: Option<string>)
      modifies this
      requires Valid()
      ensures Valid()
      ensures inputs.credentials.Raised? ==>
        raised == Some(inputs.credentials.message) && hasClient == old(hasClient) && connected == old(connected)
      ensures inputs.credentials.Ok? ==>
        raised == ConnectWithRepair(inputs.firstError, inputs.sessionExists,
                                    inputs.unlinkSucceeds, inputs.secondError).raised
      ensures inputs.credentials.Ok? ==> hasClient && (connected <==> raised.None?)
      ensures raised == StartupError(inputs)
      ensures state == old(state) && notified == old(notified) && qrPending == old(qrPending)
      ensures callbackSet == old(callbackSet)
    {
      if inputs.credentials.Raised? {
        return Some(inputs.credentials.message);
      }
      var repair := ConnectWithRepair(inputs.firstError, inputs.sessionExists,
                                      inputs.unlinkSucceeds, inputs.secondError);
      hasClient := true;
      raised := repair.raised;
      connected := raised.None?;
    }

    /** `check_authorization`: connect if needed (a failure there propagates), then ask the
        server; `authorized` is its answer or the exception it raised. */
    method CheckAuthorization(inputs: ConnectInputs, authorized: Result<bool>) returns (r: Result<bool>)
      modifies this
      requires Valid()
      ensures Valid()
      ensures r.Raised? ==> !(old(hasClient) && old(connected)) && state == old(state) && notified == old(notified)
      ensures r.Raised? <==> !(old(hasClient) && old(connected)) && StartupError(inputs).Some?
      ensures r == Ok(true) <==> r.Ok? && authorized == Ok(true)
      ensures r == Ok(true) ==> state == Ready
      ensures r == Ok(false) ==> state == WaitQrScan
      ensures old(hasClient) && old(connected) ==> r.Ok?
      ensures !(old(hasClient) && old(connected)) && inputs.credentials.Raised? ==>
        r == Raised(inputs.credentials.message) && hasClient == old(hasClient) && connected == old(connected)
      ensures r.Ok? ==> notified == old(notified) + (if callbackSet then [state] else [])
      ensures qrPending == old(qrPending) && callbackSet == old(callbackSet)
    {
      if !(hasClient && connected) {
        var raised := Initialize(inputs);
        if raised.Some? {
          return Raised(raised.value);
        }
      }
      if authorized == Ok(true) {
        UpdateAuthState(Ready);
        return Ok(true);
      }
      UpdateAuthState(WaitQrScan);
      return Ok(false);
    }

    /** `check_authorization` as written: its guard reads `is_connected` without calling it,
        and a bound method is always true, so only a missing client is initialized. A client
        whose connect raised stays disconnected; asking it raises, which is caught as
        "not authorized". */
    method CheckAuthorizationAsWritten(inputs: ConnectInputs, authorized: Result<bool>) returns (r: Result<bool>)
      modifies this
      requires Valid()
      ensures Valid()
      ensures r.Raised? ==> !old(hasClient) && state == old(state) && notified == old(notified)
      ensures r.Raised? <==> !old(hasClient) && StartupError(inputs).Some?
      ensures old(hasClient) ==> r.Ok? && hasClient && connected == old(connected)
      ensures old(hasClient) && !old(connected) ==> r == Ok(false)
      ensures r == Ok(true) <==> r.Ok? && connected && authorized == Ok(true)
      ensures r == Ok(true) ==> state == Ready
      ensures r == Ok(false) ==> state == WaitQrScan
      ensures !old(hasClient) && inputs.credentials.Raised? ==>
        r == Raised(inputs.credentials.message) && !hasClient && !connected
      ensures r.Ok? ==> notified == old(notified) + (if callbackSet then [state] else [])
      ensures qrPending == old(qrPending) && callbackSet == old(callbackSet)
    {
      if !hasClient {
        var raised := Initialize(inputs);
        if raised.Some? {
          return Raised(raised.value);
        }
      }
      if connected && authorized == Ok(true) {
        UpdateAuthState(Ready);
        return Ok(true);
      }
      // a disconnected client raises on the query; the exception is caught
      UpdateAuthState(WaitQrScan);
      return Ok(false);
    }

    /** `request_qr_code`: connect if there is no client, then ask for a login token. */
    method RequestQrCode(inputs: ConnectInputs, qr: Result<string>) returns (r: Result<string>)
      modifies this
      requires Valid()
      ensures Valid()
      ensures r.Ok? ==> qr.Ok? && r == qr && qrPending
      ensures old(hasClient) ==> r == qr
      ensures !old(hasClient) && StartupError(inputs).Some? ==> r == Raised(StartupError(inputs).value)
      ensures !old(hasClient) && StartupError(inputs).None? ==> r == qr && hasClient && connected
      ensures !old(hasClient) && inputs.credentials.Raised? ==>
        r == Raised(inputs.credentials.message) && !hasClient && !connected
      ensures r.Raised? ==> qrPending == old(qrPending)
      ensures state == old(state) && notified == old(notified) && callbackSet == old(callbackSet)
    {
      if !hasClient {
        var raised := Initialize(inputs);
        if raised.Some? {
          return Raised(raised.value);
        }
      }
      if qr.Raised? {
        return qr;
      }
      qrPending := true;
      return qr;
    }

    /** `wait_for_qr_scan`. */
    method WaitForQrScan(outcome: QrWait) returns (r: Result<AuthState>)
      modifies this
      requires Valid()
      ensures Valid()
      ensures !old(qrPending) ==> r == Raised("QR Login not initiated") && state == old(state) && notified == old(notified)
      ensures old(qrPending) && outcome == Scanned ==> r == Ok(Ready) && state == Ready
      ensures old(qrPending) && outcome == PasswordNeeded ==> r == Ok(WaitPassword) && state == WaitPassword
      ensures old(qrPending) && outcome.WaitFailed? ==> r == Raised(outcome.message) && state == AuthError
      ensures old(qrPending) ==> notified == old(notified) + (if callbackSet then [state] else [])
      ensures qrPending == old(qrPending) && hasClient == old(hasClient) && connected == old(connected)
      ensures callbackSet == old(callbackSet)
    {
      if !qrPending {
        return Raised("QR Login not initiated");
      }
      match outcome
      case Scanned =>
        UpdateAuthState(Ready);
        r := Ok(Ready);
      case PasswordNeeded =>
        UpdateAuthState(WaitPassword);
        r := Ok(WaitPassword);
      case WaitFailed(message) =>
        UpdateAuthState(AuthError);
        r := Raised(message);
    }

    /** `send_password`; `signInError` is what `sign_in` raised, if anything. Every exception
        is caught. */
    method SendPassword(signInError: Option<string>) returns (ok: bool)
      modifies this
      requires Valid()
      ensures Valid()
      ensures ok <==> signInError.None?
      ensures ok ==> state == Ready && notified == old(notified) + (if callbackSet then [Ready] else [])
      ensures !ok ==> state == old(state) && notified == old(notified)
      ensures qrPending == old(qrPending) && hasClient == old(hasClient) && connected == old(connected)
      ensures callbackSet == old(callbackSet)
    {
      if signInError.Some? {
        return false;
      }
      UpdateAuthState(Ready);
      return true;
    }

    /** `logout`: a connected client is logged out and dropped; the state always returns to
        waiting for a QR scan. */
    method Logout()
      modifies this
      requires Valid()
      ensures Valid()
      ensures state == WaitQrScan
      ensures notified == old(notified) + (if callbackSet then [WaitQrScan] else [])
      ensures old(hasClient) && old(connected) ==> !hasClient && !connected
      ensures !(old(hasClient) && old(connected)) ==> hasClient == old(hasClient) && connected == old(connected)
      ensures qrPending == old(qrPending) && callbackSet == old(callbackSet)
    {
      if hasClient && connected {
        hasClient := false;
        connected := false;
      }
      UpdateAuthState(WaitQrScan);
    }

    /** `logout` as written: `self._client and self._client.is_connected` is true for any
        client, because the method is not called, so every client is dropped. */
    method LogoutAsWritten()
      modifies this
      requires Valid()
      ensures Valid()
      ensures state == WaitQrScan && !hasClient && !connected
      ensures notified == old(notified) + (if callbackSet then [WaitQrScan] else [])
      ensures qrPending == old(qrPending) && callbackSet == old(callbackSet)
    {
      if hasClient {
        hasClient := false;
        connected := false;
      }
      UpdateAuthState(WaitQrScan);
    }
  }

  /** A first `initialize` whose connect raises an error that is not a stale session: the
      client object is built but not connected. */
  method ClientAfterFailedConnect() returns (c: Client)
    ensures fresh(c) && c.Valid()
    ensures c.hasClient && !c.connected && c.state == WaitQrScan && !c.callbackSet && !c.qrPending
  {
    c := new Client();
    assert !IsCorruptSession("timeout");
    var raised := c.Initialize(ConnectInputs(Ok((1, "h")), Some("timeout"), false, false, None));
  }

  /** After that failed connect, with a server that would now connect and authorize: as
      written, `check_authorization` answers False without reconnecting, where the evidently
      intended `is_connected()` test reconnects and answers True. */
  method FailedConnectThenCheck() returns (asWritten: Result<bool>, intended: Result<bool>)
    ensures asWritten == Ok(false) && intended == Ok(true)
  {
    var good := ConnectInputs(Ok((1, "h")), None, false, false, None);
    var c := ClientAfterFailedConnect();
    asWritten := c.CheckAuthorizationAsWritten(good, Ok(true));
    var d := ClientAfterFailedConnect();
    intended := d.CheckAuthorization(good, Ok(true));
  }

  /** After that failed connect, as written `logout` drops the disconnected client, so a
      later `request_qr_code` builds a new one; with the `is_connected()` test the client is
      kept. The results say whether a client remains. */
  method FailedConnectThenLogout() returns (asWritten: bool, intended: bool)
    ensures !asWritten && intended
  {
    var c := ClientAfterFailedConnect();
    c.LogoutAsWritten();
    asWritten := c.hasClient;
    var d := ClientAfterFailedConnect();
    d.Logout();
    intended := d.hasClient;
  }
}
