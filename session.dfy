/**
  The bearer-token session: the module-level token fields, the token file
  (`tokens.json`), authentication, the start-up refresh decision and the single
  re-authentication and retry of an authorized request on a 401 reply.
*/
module SessionAuth {
  import opened Common

  /** Re-authenticate at start-up when the token expires within five minutes. */
  const RefreshMarginMs: int := 5 * 60 * 1000

  /**
    The in-memory expiry: `null` before any token is known, a `Date` at some instant
    in milliseconds, or an invalid `Date` (built from a missing or unparsable value).
  */
  datatype Expiry = NoExpiry | At(ms: int) | InvalidDate

  /**
    The token file: missing, present but unreadable as JSON, or holding the tokens and
    the expiry string (`None` when that string does not parse as a date).
  */
  datatype TokenFile =
    | Absent
    | Unreadable
    | Saved(accessToken: string, refreshToken: string, expiryMs: Option<int>)

  /**
    The token endpoint's answer: the token pair with its `expireDate` (`None` when that
    value does not parse as a date), or an error of any kind.
  */
  datatype AuthReply = Granted(accessToken: string, refreshToken: string, expireDate: Option<int>) | Denied

  /**
    One transport attempt: a reply, an HTTP error response with its status, or an error
    without a response (network failure, timeout).
  */
  datatype Transport<T> = Response(data: T) | ErrorStatus(status: int) | NoResponse

  /** The Date a stored or received expiry value turns into. */
  function DateOf(ms: Option<int>): (d: Expiry)
    ensures d.At? <==> ms.Some?
    ensures d.At? ==> d.ms == ms.value
    ensures d != NoExpiry
  {
    if ms.Some? then At(ms.value) else InvalidDate
  }

  /**
    The start-up test: the token is empty, or the time left is under the margin. A `null`
    expiry counts as no time left; an invalid date gives `NaN`, which is never below it.
  */
  function ShouldReauthenticate(accessToken: string, expiry: Expiry, now: int): (due: bool)
    ensures accessToken == "" ==> due
    ensures expiry == NoExpiry ==> due
    ensures expiry.At? ==> (due <==> accessToken == "" || expiry.ms - now < RefreshMarginMs)
    ensures expiry == InvalidDate ==> (due <==> accessToken == "")
  {
    accessToken == "" ||
    match expiry
    case NoExpiry => 0 < RefreshMarginMs
    case At(ms) => ms - now < RefreshMarginMs
    case InvalidDate => false
  }

  /** Once a refresh is due it stays due as time passes. */
  lemma RefreshStaysDue(accessToken: string, expiry: Expiry, now: int, later: int)
    requires now <= later && ShouldReauthenticate(accessToken, expiry, now)
    ensures ShouldReauthenticate(accessToken, expiry, later)
  {
  }

  /** The session state of the authentication module and its token file. */
  class Session {
    var accessToken: string
    var refreshToken: string
    var expiry: Expiry
    var file: TokenFile

    /** Process start: empty tokens, no expiry, whatever token file is on disk. */
    constructor (file: TokenFile)
      ensures accessToken == "" && refreshToken == "" && expiry == NoExpiry
      ensures this.file == file
    {
      accessToken, refreshToken, expiry := "", "", NoExpiry;
      this.file := file;
    }

    /**
      `loadTokens`: a missing file changes nothing; a saved one overwrites all three
      fields; an unreadable one makes the load throw (`ok` false) and changes nothing.
    */
    method LoadTokens() returns (ok: bool)
      modifies this
      ensures file == old(file)
      ensures ok <==> !old(file).Unreadable?
      ensures old(file).Saved? ==>
        accessToken == old(file).accessToken && refreshToken == old(file).refreshToken &&
        expiry == DateOf(old(file).expiryMs)
      ensures !old(file).Saved? ==>
        accessToken == old(accessToken) && refreshToken == old(refreshToken) && expiry == old(expiry)
    {
      match file
      case Absent => ok := true;
      case Unreadable => ok := false;
      case Saved(a, r, e) =>
        accessToken, refreshToken, expiry := a, r, DateOf(e);
        ok := true;
    }

    /**
      `authenticate` with `saveTokens`: a denied request changes nothing and raises nothing.
      A granted one sets the three fields; the file is rewritten only when the expiry is
      a valid date, since formatting an invalid one throws after the fields are already
      set, and `authenticate` swallows that error as well.
    */
    method Authenticate(reply: AuthReply)
      modifies this
      ensures reply.Denied? ==>
        accessToken == old(accessToken) && refreshToken == old(refreshToken) &&
        expiry == old(expiry) && file == old(file)
      ensures reply.Granted? ==>
        accessToken == reply.accessToken && refreshToken == reply.refreshToken &&
        expiry == DateOf(reply.expireDate)
      ensures reply.Granted? && reply.expireDate.Some? ==>
        file == Saved(reply.accessToken, reply.refreshToken, reply.expireDate)
      ensures reply.Granted? && reply.expireDate.None? ==> file == old(file)
    {
      match reply
      case Denied =>
      case Granted(a, r, e) =>
        accessToken, refreshToken, expiry := a, r, DateOf(e);
        if e.Some? {
          file := Saved(a, r, e);
        }
    }

    /**
      `initAuthentication`: load the token file, then authenticate exactly when the loaded
      session is missing its token or expires within the margin. `started` is false only
      when the load throws, in which case no authentication is attempted.
    */
    method InitAuthentication(now: int, reply: AuthReply) returns (started: bool, reauthenticated: bool)
      modifies this
      ensures started <==> !old(file).Unreadable?
      ensures var loadedToken := if old(file).Saved? then old(file).accessToken else old(accessToken);
              var loadedRefresh := if old(file).Saved? then old(file).refreshToken else old(refreshToken);
              var loadedExpiry := if old(file).Saved? then DateOf(old(file).expiryMs) else old(expiry);
              && (reauthenticated <==> started && ShouldReauthenticate(loadedToken, loadedExpiry, now))
              && (!reauthenticated || reply.Denied? ==>
                    accessToken == loadedToken && refreshToken == loadedRefresh &&
                    expiry == loadedExpiry && file == old(file))
      ensures reauthenticated && reply.Granted? ==>
        accessToken == reply.accessToken && refreshToken == reply.refreshToken &&
        expiry == DateOf(reply.expireDate) &&
        file == (if reply.expireDate.Some?
                 then Saved(reply.accessToken, reply.refreshToken, reply.expireDate)
                 else old(file))
    {
      started := LoadTokens();
      reauthenticated := false;
      if started && ShouldReauthenticate(accessToken, expiry, now) {
        Authenticate(reply);
        reauthenticated := true;
      }
    }

    /**
      `makeAuthorizedRequest`: one attempt with the current token; on an HTTP 401 only,
      authenticate once, put the new token in the header and try once more, returning
      whatever that second attempt gives. Every other outcome of the first attempt is
      returned (or rethrown) as it is. `bearers` lists the token sent on each attempt.
    */
    method AuthorizedRequest<T>(first: Transport<T>, reauth: AuthReply, retry: Transport<T>)
      returns (result: Transport<T>, bearers: seq<string>)
      modifies this
      ensures 1 <= |bearers| <= 2 && bearers[0] == old(accessToken)
      ensures first != ErrorStatus(401) ==>
        result == first && |bearers| == 1 &&
        accessToken == old(accessToken) && refreshToken == old(refreshToken) &&
        expiry == old(expiry) && file == old(file)
      ensures first == ErrorStatus(401) ==>
        result == retry && |bearers| == 2 && bearers[1] == accessToken &&
        (reauth.Denied? ==>
           accessToken == old(accessToken) && refreshToken == old(refreshToken) &&
           expiry == old(expiry) && file == old(file)) &&
        (reauth.Granted? ==>
           accessToken == reauth.accessToken && refreshToken == reauth.refreshToken &&
           expiry == DateOf(reauth.expireDate) &&
           file == (if reauth.expireDate.Some?
                    then Saved(reauth.accessToken, reauth.refreshToken, reauth.expireDate)
                    else old(file)))
    {
      bearers := [accessToken];
      if first.ErrorStatus? && first.status == 401 {
        Authenticate(reauth);
        bearers := bearers + [accessToken];
        result := retry;
      } else {
        result := first;
      }
    }
  }

  /**
    A session saved by a successful authentication with a valid expiry is restored as it
    was by the token load of the next process.
  */
  method RestoredAfterRestart(s: Session, reply: AuthReply) returns (next: Session)
    requires reply.Granted? && reply.expireDate.Some?
    modifies s
    ensures next.accessToken == s.accessToken == reply.accessToken
    ensures next.refreshToken == s.refreshToken == reply.refreshToken
    ensures next.expiry == s.expiry == At(reply.expireDate.value)
  {
    s.Authenticate(reply);
    next := new Session(s.file);
    var loaded := next.LoadTokens();
  }
}
