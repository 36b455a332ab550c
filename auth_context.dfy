/**
 * The session store: the signed-in user, the token and user kept in the browser's
 * storage, the `Authorization` header attached to every outgoing call, and the
 * `loading` gate that holds views back until the stored session has been checked.
 *
 * The functions below specify each operation on a `SessionState` value; the class
 * `Session` performs the operations in place and is proved to follow them.
 */
module AuthContext {
  import opened Wrappers
  import opened Entities
  import opened Remote

  /** Storage keys. */
  const TokenKey := "token"
  const UserKey := "user"

  /** Notification texts and fallback messages. */
  const LoggedOutText := "Logged out successfully"
  const LoggedInText := "Logged in successfully!"
  const LoginFallback := "Login failed"
  const RegisteredText := "Registered successfully! Please login."
  const RegisterFallback := "Registration failed"

  /**
   * The foreign calls the store depends on: the JWT decoder, `JSON.parse` of the stored
   * user and `JSON.stringify` of a user. `None` stands for a call that throws.
   */
  datatype Codecs = Codecs(decodeToken: string -> Option<Claims>,
                           parseUser: string -> Option<User>,
                           stringifyUser: User -> string)

  /** Everything the store's operations read or change. */
  datatype SessionState = SessionState(user: Option<User>, storage: map<string, string>,
                                       authHeader: Option<string>, loading: bool)

  /** The value of the `Authorization` header for `token`. */
  function Bearer(token: string): (h: string)
    ensures |h| == |token| + 7 && h[..7] == "Bearer " && h[7..] == token
  {
    "Bearer " + token
  }

  /** `localStorage.getItem(key)` as an `if` tests it: a missing or empty entry is false. */
  function StoredValue(storage: map<string, string>, key: string): (r: Option<string>)
    ensures r.Some? <==> key in storage && storage[key] != ""
    ensures r.Some? ==> r.value == storage[key]
  {
    if key in storage && storage[key] != "" then Some(storage[key]) else None
  }

  /**
   * `decoded.exp * 1000 < Date.now()`: `exp` is in seconds, the clock in milliseconds.
   * A token without `exp` gives `NaN`, which is never less than the clock.
   */
  predicate Expired(claims: Claims, now: int)
    ensures Expired(claims, now) ==> claims.exp.Some?
  {
    claims.exp.Some? && claims.exp.value * 1000 < now
  }

  /** The stored token is present, decodes, and has not expired at `now`. */
  predicate TokenLive(storage: map<string, string>, now: int, codecs: Codecs)
    ensures TokenLive(storage, now, codecs) ==> TokenKey in storage && storage[TokenKey] != ""
  {
    var token := StoredValue(storage, TokenKey);
    && token.Some?
    && codecs.decodeToken(token.value).Some?
    && !Expired(codecs.decodeToken(token.value).value, now)
  }

  /**
   * Start-up must sign out: a token is stored, and either it is not live or the stored
   * user fails to parse.
   */
  predicate ForcedLogout(storage: map<string, string>, now: int, codecs: Codecs)
    ensures ForcedLogout(storage, now, codecs) ==> TokenKey in storage && storage[TokenKey] != ""
    ensures StoredValue(storage, TokenKey).Some? && !TokenLive(storage, now, codecs) ==> ForcedLogout(storage, now, codecs)
  {
    && StoredValue(storage, TokenKey).Some?
    && (|| !TokenLive(storage, now, codecs)
        || (StoredValue(storage, UserKey).Some? && codecs.parseUser(storage[UserKey]).None?))
  }

  /**
   * The header and the cached user never run ahead of storage: a header carries the
   * stored token, and a signed-in user has a stored copy and a stored token.
   */
  predicate Consistent(s: SessionState)
  {
    && (s.authHeader.Some? ==> TokenKey in s.storage && s.authHeader.value == Bearer(s.storage[TokenKey]))
    && (s.user.Some? ==> UserKey in s.storage && TokenKey in s.storage)
  }

  /** `logout`: the token, the header, the user and the stored user are all gone. */
  function LoggedOut(s: SessionState): (r: SessionState)
    ensures r.user.None? && r.authHeader.None?
    ensures TokenKey !in r.storage && UserKey !in r.storage
    ensures forall k | k != TokenKey && k != UserKey ::
              (k in r.storage <==> k in s.storage) && (k in r.storage ==> r.storage[k] == s.storage[k])
    ensures r.loading == s.loading
    ensures Consistent(r)
  {
    s.(user := None, authHeader := None, storage := s.storage - {TokenKey, UserKey})
  }

  /** Start-up once the stored token is known to be live. */
  function Resumed(s: SessionState, token: string, codecs: Codecs): SessionState
  {
    match StoredValue(s.storage, UserKey)
    case None => s.(authHeader := Some(Bearer(token)))
    case Some(json) =>
      match codecs.parseUser(json)
      case None => LoggedOut(s)
      case Some(u) => s.(user := Some(u), authHeader := Some(Bearer(token)))
  }

  /**
   * The start-up check at clock reading `now`: with no stored token only `loading`
   * changes; a token that is expired or fails to decode forces a logout; a live token
   * is attached as the header and the stored user, if any, is restored (a stored user
   * that fails to parse forces a logout too). `loading` is false on every path.
   */
  function Restored(s: SessionState, now: int, codecs: Codecs): (r: SessionState)
    ensures !r.loading
    ensures StoredValue(s.storage, TokenKey).None? ==> r == s.(loading := false)
    ensures ForcedLogout(s.storage, now, codecs) ==> r == LoggedOut(s).(loading := false)
    ensures StoredValue(s.storage, TokenKey).Some? && !ForcedLogout(s.storage, now, codecs) ==>
              && r.authHeader == Some(Bearer(s.storage[TokenKey]))
              && r.storage == s.storage
              && r.user == (if StoredValue(s.storage, UserKey).Some?
                            then codecs.parseUser(s.storage[UserKey]) else s.user)
    ensures Consistent(s) ==> Consistent(r)
  {
    match StoredValue(s.storage, TokenKey)
    case None => s.(loading := false)
    case Some(token) =>
      var after :=
        match codecs.decodeToken(token)
        case None => LoggedOut(s)
        case Some(claims) => if Expired(claims, now) then LoggedOut(s) else Resumed(s, token, codecs);
      after.(loading := false)
  }

  /**
   * `login`: on success the token and the serialized user are stored, the user is
   * signed in and the header carries the new token; on failure nothing changes.
   */
  function AfterLogin(s: SessionState, reply: Reply<LoginData>, codecs: Codecs): (r: SessionState)
    ensures reply.Err? ==> r == s
    ensures reply.Ok? ==>
              && r.user == Some(reply.data.user)
              && r.authHeader == Some(Bearer(reply.data.token))
              && r.storage == s.storage[TokenKey := reply.data.token][UserKey := codecs.stringifyUser(reply.data.user)]
              && r.loading == s.loading
    ensures Consistent(s) ==> Consistent(r)
  {
    match reply
    case Err(_) => s
    case Ok(data) =>
      s.(storage := s.storage[TokenKey := data.token][UserKey := codecs.stringifyUser(data.user)],
         user := Some(data.user),
         authHeader := Some(Bearer(data.token)))
  }

  /** The toast `login` shows: the server's `error`, else "Login failed". */
  function LoginNotice(reply: Reply<LoginData>): (n: Notice)
    ensures reply.Ok? ==> n == Success(LoggedInText)
    ensures reply.Err? ==> n == Failure(ServerError(reply.failure, LoginFallback))
    ensures n.text != ""
  {
    match reply
    case Ok(_) => Success(LoggedInText)
    case Err(e) => Failure(ServerError(e, LoginFallback))
  }

  /** The toast `register` shows: the first `errors[].msg`, else "Registration failed". */
  function RegisterNotice(reply: Reply<()>): (n: Notice)
    ensures reply.Ok? ==> n == Success(RegisteredText)
    ensures reply.Err? ==> n == Failure(OrElse(FirstIssue(reply.failure), RegisterFallback))
    ensures n.text != ""
  {
    match reply
    case Ok(_) => Success(RegisteredText)
    case Err(e) => Failure(OrElse(FirstIssue(e), RegisterFallback))
  }

  /** The promise an awaited call settles to: the original error is re-thrown. */
  function Settled<T>(reply: Reply<T>): (r: Reply<()>)
    ensures r.Ok? <==> reply.Ok?
    ensures reply.Err? ==> r.failure == reply.failure
  {
    match reply
    case Ok(_) => Ok(())
    case Err(e) => Err(e)
  }

  class Session {
    const codecs: Codecs
    var user: Option<User>
    var storage: map<string, string>
    var authHeader: Option<string>
    var loading: bool

    function State(): SessionState
      reads this
    {
      SessionState(user, storage, authHeader, loading)
    }

    /** Mounting the provider over what storage holds from an earlier visit. */
    constructor (persisted: map<string, string>, codecs: Codecs)
      ensures this.codecs == codecs
      ensures State() == SessionState(None, persisted, None, true)
      ensures Consistent(State())
    {
      this.codecs := codecs;
      user, storage, authHeader, loading := None, persisted, None, true;
    }

    /** `logout`, which always shows its notification. */
    method Logout() returns (notice: Notice)
      modifies this
      ensures State() == LoggedOut(old(State()))
      ensures notice == Info(LoggedOutText)
    {
      storage := storage - {TokenKey};
      authHeader := None;
      user := None;
      storage := storage - {UserKey};
      notice := Info(LoggedOutText);
    }

    /** The start-up effect, run once with the clock reading `now`. */
    method Restore(now: int) returns (notice: Option<Notice>)
      modifies this
      ensures State() == Restored(old(State()), now, codecs)
      ensures notice == if ForcedLogout(old(storage), now, codecs) then Some(Info(LoggedOutText)) else None
    {
      var token := StoredValue(storage, TokenKey);
      var storedUser := StoredValue(storage, UserKey);
      notice := None;
      if token.Some? {
        match codecs.decodeToken(token.value) {
          case None =>
            var n := Logout();
            notice := Some(n);
          case Some(claims) =>
            if Expired(claims, now) {
              var n := Logout();
              notice := Some(n);
            } else if storedUser.Some? {
              match codecs.parseUser(storedUser.value) {
                case None =>
                  var n := Logout();
                  notice := Some(n);
                case Some(u) =>
                  user := Some(u);
                  authHeader := Some(Bearer(token.value));
              }
            } else {
              authHeader := Some(Bearer(token.value));
            }
        }
      }
      loading := false;
    }

    /** `login(email, password)` given the reply to `POST /auth/login`. */
    method Login(email: string, password: string, reply: Reply<LoginData>)
      returns (request: Request, settled: Reply<()>, notice: Notice)
      modifies this
      ensures request == PostLogin(email, password)
      ensures State() == AfterLogin(old(State()), reply, codecs)
      ensures settled == Settled(reply)
      ensures notice == LoginNotice(reply)
    {
      request := PostLogin(email, password);
      match reply {
        case Ok(data) =>
          storage := storage[TokenKey := data.token];
          storage := storage[UserKey := codecs.stringifyUser(data.user)];
          user := Some(data.user);
          authHeader := Some(Bearer(data.token));
        case Err(_) =>
      }
      settled := Settled(reply);
      notice := LoginNotice(reply);
    }

    /**
     * `register(userData)` given the reply to `POST /auth/register`. It has no frame:
     * user, storage, header and loading stay as they are on both outcomes.
     */
    method Register(userData: RegisterData, reply: Reply<()>)
      returns (request: Request, settled: Reply<()>, notice: Notice)
      ensures request == PostRegister(userData)
      ensures settled.Ok? <==> reply.Ok?
      ensures reply.Err? ==> settled == reply
      ensures notice.Success? <==> reply.Ok?
      ensures reply.Err? ==> notice.text == OrElse(FirstIssue(reply.failure), RegisterFallback)
      ensures notice == RegisterNotice(reply)
    {
      request := PostRegister(userData);
      settled := Settled(reply);
      notice := RegisterNotice(reply);
    }
  }

  // ---------------------------------------------------------------------------
  // Properties relating several operations

  /** Logging out twice leaves the same state as logging out once. */
  lemma LogoutIdempotent(s: SessionState)
    ensures LoggedOut(LoggedOut(s)) == LoggedOut(s)
  {
  }

  /** A token that fails to decode is treated exactly like an expired one. */
  lemma DecodeFailureIsExpiry(s: SessionState, now: int, broken: Codecs, expired: Codecs, claims: Claims)
    requires StoredValue(s.storage, TokenKey).Some?
    requires broken.decodeToken(s.storage[TokenKey]).None?
    requires expired.decodeToken(s.storage[TokenKey]) == Some(claims) && Expired(claims, now)
    ensures Restored(s, now, broken) == Restored(s, now, expired)
    ensures Restored(s, now, broken) == LoggedOut(s).(loading := false)
  {
  }

  /** An expired stored token leaves no user, no header and nothing in the two storage keys. */
  lemma ExpiredTokenSignsOut(s: SessionState, now: int, codecs: Codecs)
    requires StoredValue(s.storage, TokenKey).Some?
    requires !TokenLive(s.storage, now, codecs)
    ensures var r := Restored(s, now, codecs);
      r.user.None? && r.authHeader.None? && TokenKey !in r.storage && UserKey !in r.storage
  {
  }

  /** Once expired, a token stays expired at every later clock reading. */
  lemma ExpiryIsPermanent(claims: Claims, now: int, later: int)
    requires Expired(claims, now) && now <= later
    ensures Expired(claims, later)
  {
  }

  /** A failed login changes nothing, whatever the state was. */
  lemma FailedLoginKeepsSession(s: SessionState, e: ErrorBody, codecs: Codecs)
    ensures AfterLogin(s, Err(e), codecs) == s
  {
  }

  /**
   * The session survives a reload: after a successful login, a fresh provider over the
   * same storage restores the same user and the same header, provided the token is
   * live at the new clock reading and the user's serialization parses back to it.
   */
  lemma {:induction false} LoginSurvivesReload(s: SessionState, data: LoginData, now: int, codecs: Codecs)
    requires data.token != ""
    requires codecs.stringifyUser(data.user) != ""
    requires codecs.parseUser(codecs.stringifyUser(data.user)) == Some(data.user)
    requires codecs.decodeToken(data.token).Some? && !Expired(codecs.decodeToken(data.token).value, now)
    ensures var stored := AfterLogin(s, Ok(data), codecs).storage;
      var r := Restored(SessionState(None, stored, None, true), now, codecs);
      r.user == Some(data.user) && r.authHeader == Some(Bearer(data.token)) && r.storage == stored && !r.loading
  {
    var stored := AfterLogin(s, Ok(data), codecs).storage;
    assert stored[TokenKey] == data.token;
    assert stored[UserKey] == codecs.stringifyUser(data.user);
    assert TokenLive(stored, now, codecs);
  }

  /** A user action on the store after start-up. */
  datatype Action = LoginWith(reply: Reply<LoginData>) | LogoutAction

  /** The store after the actions, in order. */
  function Run(s: SessionState, actions: seq<Action>, codecs: Codecs): SessionState
    decreases |actions|
  {
    if actions == [] then s
    else
      var next := match actions[0]
        case LoginWith(reply) => AfterLogin(s, reply, codecs)
        case LogoutAction => LoggedOut(s);
      Run(next, actions[1..], codecs)
  }

  /**
   * From the mounted provider, start-up followed by any logins and logouts keeps the
   * header and the cached user in step with storage.
   */
  lemma {:induction false} ConsistentFromMount(persisted: map<string, string>, now: int, codecs: Codecs,
                                               actions: seq<Action>)
    ensures Consistent(Run(Restored(SessionState(None, persisted, None, true), now, codecs), actions, codecs))
  {
    RunKeepsConsistent(Restored(SessionState(None, persisted, None, true), now, codecs), actions, codecs);
  }

  lemma {:induction false} RunKeepsConsistent(s: SessionState, actions: seq<Action>, codecs: Codecs)
    requires Consistent(s)
    ensures Consistent(Run(s, actions, codecs))
    decreases |actions|
  {
    if actions != [] {
      var next := match actions[0]
        case LoginWith(reply) => AfterLogin(s, reply, codecs)
        case LogoutAction => LoggedOut(s);
      RunKeepsConsistent(next, actions[1..], codecs);
    }
  }
}
