/** The session check of the Go authentication package: a request is authorized
    when it names a registered user and carries that user's current session token
    in the `session_token` cookie and current CSRF token in the `X-CSRF-Token`
    header (the double-submit pattern). */
module Session {
  import opened Common

  /** One row of the account table: the password hash and the two tokens of the
      current session, both "" while nobody is logged in. */
  datatype LoginModel = LoginModel(hashedPassword: string, sessionToken: string, csrfToken: string)

  type Users = map<string, LoginModel>

  /** The parts of an HTTP request the handlers read: the HTTP method, the form fields
      `username` and `password` ("" when absent, as `FormValue` returns), the
      `session_token` cookie (None when the request has no such cookie) and the
      `X-CSRF-Token` header ("" when absent, as `Header.Get` returns). */
  datatype Request = Request(httpMethod: string, username: string, password: string,
                             sessionCookie: Option<string>, csrfHeader: string)

  /** The single error value `Authorize` returns. */
  datatype AuthError = ErrUnauthorized

  /** `Authorize`: None stands for a nil error. It reads the table and changes
      nothing: the table is a value here. */
  function Authorize(users: Users, r: Request): (err: Option<AuthError>)
    ensures err == None <==>
      && r.username in users
      && r.sessionCookie.Some? && r.sessionCookie.value != ""
      && r.sessionCookie.value == users[r.username].sessionToken
      && r.csrfHeader != "" && r.csrfHeader == users[r.username].csrfToken
  {
    if r.username !in users then Some(ErrUnauthorized)
    else
      var user := users[r.username];
      if r.sessionCookie.None? || r.sessionCookie.value == "" || r.sessionCookie.value != user.sessionToken then
        Some(ErrUnauthorized)
      else if r.csrfHeader != user.csrfToken || r.csrfHeader == "" then
        Some(ErrUnauthorized)
      else None
  }

  /** A request naming an unregistered user is refused whatever it carries. */
  lemma UnknownUserUnauthorized(users: Users, r: Request)
    requires r.username !in users
    ensures Authorize(users, r) == Some(ErrUnauthorized)
  {
  }

  /** An account whose session token or CSRF token is empty (nobody logged in, or
      just logged out) can never be authorized: empty values are refused before they
      are compared. */
  lemma EmptyTokenNeverAuthorizes(users: Users, r: Request)
    requires r.username in users
    requires users[r.username].sessionToken == "" || users[r.username].csrfToken == ""
    ensures Authorize(users, r) == Some(ErrUnauthorized)
  {
  }

  /** The three checks are independent: starting from an authorized request,
      replacing the cookie or the header by a value other than the stored token
      (including an absent cookie or an empty header) makes it unauthorized. */
  lemma {:induction false} FlipOneCheck(users: Users, r: Request, cookie: Option<string>, header: string)
    requires Authorize(users, r) == None
    ensures cookie != r.sessionCookie ==>
      Authorize(users, r.(sessionCookie := cookie)) == Some(ErrUnauthorized)
    ensures header != r.csrfHeader ==>
      Authorize(users, r.(csrfHeader := header)) == Some(ErrUnauthorized)
    ensures Authorize(users - {r.username}, r) == Some(ErrUnauthorized)
  {
  }
}
