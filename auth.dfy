/** The HTTP handlers of the Go authentication package over the in-memory account
    table `users`: Register, Login, Protected and Logout. The password hasher,
    the password checker and the token generator are not part of this model: a
    handler receives what they would have returned. */
module Auth {
  import opened Common
  import opened Session

  /** The outcome a handler reports, one per HTTP status it writes. */
  datatype Verdict = Ok | MethodNotAllowed | NotAcceptable | Conflict | InternalServerError | Unauthorized

  function StatusCode(v: Verdict): (code: int)
    ensures 200 <= code < 600
    ensures code == 200 <==> v == Ok
  {
    match v
    case Ok => 200
    case MethodNotAllowed => 405
    case NotAcceptable => 406
    case Conflict => 409
    case InternalServerError => 500
    case Unauthorized => 401
  }

  const Post := "POST"
  const MinUsernameLength := 4
  const MinPasswordLength := 8

  /** A handler's verdict together with the account table it leaves behind. */
  datatype Step = Step(verdict: Verdict, users: Users)

  /** Every account has both tokens or neither: a session is set and cleared as a pair. */
  ghost predicate SessionsPaired(users: Users) {
    forall u :: u in users ==> (users[u].sessionToken == "" <==> users[u].csrfToken == "")
  }

  /** The table after `users[u] = m`, with every other account the same. */
  ghost predicate OnlyChanged(before: Users, after: Users, u: string) {
    && after.Keys == before.Keys + {u}
    && forall v :: v in before && v != u ==> after[v] == before[v]
  }

  /** `Register`. `hashed` is what `HashedPassword(password)` returns: Some(hash),
      or None for a non-nil error. Lengths are Go's `len`, in UTF-8 bytes. */
  function RegisterStep(users: Users, r: Request, hashed: Option<string>): (s: Step)
    ensures r.httpMethod != Post ==> s == Step(MethodNotAllowed, users)
    ensures (r.httpMethod == Post && (Utf8Length(r.username) < MinUsernameLength
             || Utf8Length(r.password) < MinPasswordLength)) ==> s == Step(NotAcceptable, users)
    ensures s.verdict == Conflict <==> (r.httpMethod == Post && Utf8Length(r.username) >= MinUsernameLength
             && Utf8Length(r.password) >= MinPasswordLength && r.username in users)
    ensures s.verdict == InternalServerError ==> hashed.None?
    ensures s.verdict != Ok ==> s.users == users
    ensures s.verdict == Ok <==> (r.httpMethod == Post && Utf8Length(r.username) >= MinUsernameLength
             && Utf8Length(r.password) >= MinPasswordLength && r.username !in users && hashed.Some?)
    ensures s.verdict == Ok ==> (OnlyChanged(users, s.users, r.username)
             && s.users[r.username] == LoginModel(hashed.value, "", ""))
  {
    if r.httpMethod != Post then Step(MethodNotAllowed, users)
    else if Utf8Length(r.username) < MinUsernameLength || Utf8Length(r.password) < MinPasswordLength then
      Step(NotAcceptable, users)
    else if r.username in users then Step(Conflict, users)
    else if hashed.None? then Step(InternalServerError, users)
    else Step(Ok, users[r.username := LoginModel(hashed.value, "", "")])
  }

  /** `Login`. `checkPassword` stands for `CheckPassword` and `sessionToken`,
      `csrfToken` for the two values `GenerateToken(32)` returns. */
  function LoginStep(users: Users, r: Request, checkPassword: (string, string) -> bool,
                     sessionToken: string, csrfToken: string): (s: Step)
    ensures r.httpMethod != Post ==> s == Step(MethodNotAllowed, users)
    ensures s.verdict != Ok ==> s.users == users
    ensures s.verdict == Ok || s.verdict == Unauthorized || s.verdict == MethodNotAllowed
    ensures s.verdict == Ok <==> (r.httpMethod == Post && r.username in users
             && checkPassword(r.password, users[r.username].hashedPassword))
    ensures s.verdict == Ok ==> (OnlyChanged(users, s.users, r.username)
             && s.users[r.username] == LoginModel(users[r.username].hashedPassword, sessionToken, csrfToken))
  {
    if r.httpMethod != Post then Step(MethodNotAllowed, users)
    else if r.username !in users || !checkPassword(r.password, users[r.username].hashedPassword) then
      Step(Unauthorized, users)
    else
      var user := users[r.username];
      Step(Ok, users[r.username := user.(sessionToken := sessionToken, csrfToken := csrfToken)])
  }

  /** `Protected`: a POST that passes `Authorize`. It never changes the table. */
  function ProtectedVerdict(users: Users, r: Request): (v: Verdict)
    ensures v == Ok <==> r.httpMethod == Post && Authorize(users, r) == None
    ensures v != Ok ==> (v == MethodNotAllowed <==> r.httpMethod != Post)
    ensures v != Ok && r.httpMethod == Post ==> v == Unauthorized
  {
    if r.httpMethod != Post then MethodNotAllowed
    else if Authorize(users, r).Some? then Unauthorized
    else Ok
  }

  /** `Logout`: whatever the method, an authorized request clears both tokens of
      the account it names and keeps the hash. */
  function LogoutStep(users: Users, r: Request): (s: Step)
    ensures s.verdict == Ok <==> Authorize(users, r) == None
    ensures s.verdict != Ok ==> s == Step(Unauthorized, users)
    ensures s.verdict == Ok ==> (OnlyChanged(users, s.users, r.username)
             && s.users[r.username] == LoginModel(users[r.username].hashedPassword, "", ""))
  {
    if Authorize(users, r).Some? then Step(Unauthorized, users)
    else
      var user := users[r.username];
      Step(Ok, users[r.username := user.(sessionToken := "", csrfToken := "")])
  }

  /** Every handler that changes the table keeps the tokens paired (Login, as long as
      the generator hands out two non-empty tokens). */
  lemma {:induction false} HandlersKeepSessionsPaired(users: Users, r: Request, hashed: Option<string>,
                                                      checkPassword: (string, string) -> bool,
                                                      sessionToken: string, csrfToken: string)
    requires SessionsPaired(users)
    ensures SessionsPaired(RegisterStep(users, r, hashed).users)
    ensures SessionsPaired(LogoutStep(users, r).users)
    ensures sessionToken != "" && csrfToken != "" ==>
              SessionsPaired(LoginStep(users, r, checkPassword, sessionToken, csrfToken).users)
  {
    var reg := RegisterStep(users, r, hashed).users;
    forall u | u in reg ensures (reg[u].sessionToken == "" <==> reg[u].csrfToken == "") {
      if u != r.username || r.username in users { }
    }
    var out := LogoutStep(users, r).users;
    forall u | u in out ensures (out[u].sessionToken == "" <==> out[u].csrfToken == "") {
    }
    if sessionToken != "" && csrfToken != "" {
      var lin := LoginStep(users, r, checkPassword, sessionToken, csrfToken).users;
      forall u | u in lin ensures (lin[u].sessionToken == "" <==> lin[u].csrfToken == "") {
      }
    }
  }

  /** An unknown user and a wrong password produce the same verdict and the same
      (unchanged) table, so Login does not reveal which usernames exist. */
  lemma LoginFailuresIndistinguishable(users: Users, unknown: Request, wrong: Request,
                                       checkPassword: (string, string) -> bool,
                                       sessionToken: string, csrfToken: string)
    requires unknown.httpMethod == Post && unknown.username !in users
    requires wrong.httpMethod == Post && wrong.username in users
    requires !checkPassword(wrong.password, users[wrong.username].hashedPassword)
    ensures LoginStep(users, unknown, checkPassword, sessionToken, csrfToken)
         == LoginStep(users, wrong, checkPassword, sessionToken, csrfToken)
         == Step(Unauthorized, users)
  {
  }

  /** A request carrying the tokens a successful Login handed out. */
  function SessionRequest(httpMethod: string, username: string, sessionToken: string, csrfToken: string): Request {
    Request(httpMethod, username, "", Some(sessionToken), csrfToken)
  }

  /** The life of one account: Register, Login with the same credentials, a request
      carrying the issued tokens passes Authorize and Protected, Logout succeeds, and
      afterwards the same tokens are refused. `checkPassword` is assumed to accept a
      password against its own hash, as a password hasher must. */
  lemma {:induction false} AccountLifecycle(users: Users, username: string, password: string, hash: string,
                                            checkPassword: (string, string) -> bool,
                                            sessionToken: string, csrfToken: string)
    requires username !in users
    requires Utf8Length(username) >= MinUsernameLength && Utf8Length(password) >= MinPasswordLength
    requires checkPassword(password, hash)
    requires sessionToken != "" && csrfToken != ""
    ensures var creds := Request(Post, username, password, None, "");
            var registered := RegisterStep(users, creds, Some(hash));
            var loggedIn := LoginStep(registered.users, creds, checkPassword, sessionToken, csrfToken);
            var req := SessionRequest(Post, username, sessionToken, csrfToken);
            var loggedOut := LogoutStep(loggedIn.users, req);
            && registered.verdict == Ok
            && loggedIn.verdict == Ok
            && Authorize(loggedIn.users, req) == None
            && ProtectedVerdict(loggedIn.users, req) == Ok
            && loggedOut.verdict == Ok
            && Authorize(loggedOut.users, req) == Some(ErrUnauthorized)
            && loggedOut.users[username].hashedPassword == hash
  {
    var creds := Request(Post, username, password, None, "");
    var registered := RegisterStep(users, creds, Some(hash));
    assert registered.users[username] == LoginModel(hash, "", "");
    var loggedIn := LoginStep(registered.users, creds, checkPassword, sessionToken, csrfToken);
    assert loggedIn.users[username] == LoginModel(hash, sessionToken, csrfToken);
    var req := SessionRequest(Post, username, sessionToken, csrfToken);
    var loggedOut := LogoutStep(loggedIn.users, req);
    EmptyTokenNeverAuthorizes(loggedOut.users, req);
  }

  /** Last login wins: after a second Login that issues a different session token,
      a request with the first session's tokens is refused. */
  lemma {:induction false} ReloginInvalidatesPreviousSession(users: Users, creds: Request,
                                                             checkPassword: (string, string) -> bool,
                                                             first: string, firstCsrf: string,
                                                             second: string, secondCsrf: string)
    requires LoginStep(users, creds, checkPassword, first, firstCsrf).verdict == Ok
    requires first != second
    ensures var once := LoginStep(users, creds, checkPassword, first, firstCsrf).users;
            var twice := LoginStep(once, creds, checkPassword, second, secondCsrf);
            && twice.verdict == Ok
            && Authorize(twice.users, SessionRequest(Post, creds.username, first, firstCsrf)) == Some(ErrUnauthorized)
  {
    var once := LoginStep(users, creds, checkPassword, first, firstCsrf).users;
    assert once[creds.username].hashedPassword == users[creds.username].hashedPassword;
    var twice := LoginStep(once, creds, checkPassword, second, secondCsrf);
    assert twice.users[creds.username].sessionToken == second;
  }

  /** The account table of the package, updated in place by the handlers. */
  class AccountTable {
    var users: Users

    constructor ()
      ensures users == map[]
    {
      users := map[];
    }

    method Register(r: Request, hashed: Option<string>) returns (v: Verdict)
      modifies this
      ensures Step(v, users) == RegisterStep(old(users), r, hashed)
    {
      if r.httpMethod != Post {
        return MethodNotAllowed;
      }
      if Utf8Length(r.username) < MinUsernameLength || Utf8Length(r.password) < MinPasswordLength {
        return NotAcceptable;
      }
      if r.username in users {
        return Conflict;
      }
      if hashed.None? {
        return InternalServerError;
      }
      users := users[r.username := LoginModel(hashed.value, "", "")];
      v := Ok;
    }

    method Login(r: Request, checkPassword: (string, string) -> bool, sessionToken: string, csrfToken: string)
      returns (v: Verdict)
      modifies this
      ensures Step(v, users) == LoginStep(old(users), r, checkPassword, sessionToken, csrfToken)
    {
      if r.httpMethod != Post {
        return MethodNotAllowed;
      }
      if r.username !in users || !checkPassword(r.password, users[r.username].hashedPassword) {
        return Unauthorized;
      }
      var user := users[r.username];
      user := user.(sessionToken := sessionToken);
      user := user.(csrfToken := csrfToken);
      users := users[r.username := user];
      v := Ok;
    }

    method Protected(r: Request) returns (v: Verdict)
      ensures v == ProtectedVerdict(users, r)
    {
      if r.httpMethod != Post {
        return MethodNotAllowed;
      }
      if Authorize(users, r).Some? {
        return Unauthorized;
      }
      v := Ok;
    }

    method Logout(r: Request) returns (v: Verdict)
      modifies this
      ensures Step(v, users) == LogoutStep(old(users), r)
    {
      if Authorize(users, r).Some? {
        return Unauthorized;
      }
      var user := users[r.username];
      user := user.(sessionToken := "");
      user := user.(csrfToken := "");
      users := users[r.username := user];
      v := Ok;
    }
  }
}
