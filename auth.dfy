// The single-password gate in front of the API: the middleware, the login
// endpoint and the authentication check. The password comes from the
// environment; the cookie value is derived from the password alone.

module Auth {
  import opened Wrappers
  import opened Strings

  const AuthCookieName: string := "auth_token"
  const AuthSalt: string := "photomato_secure_salt_"

  const StatusOK: int := 200
  const StatusUnauthorized: int := 401

  /** The prefix of the routes that stay reachable without the cookie. */
  const AuthRoutes: string := "/api/v1/auth/"

  /** getPassword: the password counts only when PHOTOMATO_AUTH_ENABLED is
      exactly "true"; the empty password means the gate is open. */
  function GetPassword(authEnabled: string, password: string): (p: string)
    ensures authEnabled != "true" ==> p == ""
    ensures authEnabled == "true" ==> p == password
  {
    if authEnabled != "true" then "" else password
  }

  /** generateToken: the cookie value derived from the salted password. The
      SHA-256 digest is replaced by the salted string itself, which keeps the
      one property the gate relies on: different passwords, different tokens. */
  function Token(password: string): (t: string)
    ensures HasPrefix(t, AuthSalt)
  {
    AuthSalt + password
  }

  lemma TokenInjective(a: string, b: string)
    ensures Token(a) == Token(b) ==> a == b
  {
    if Token(a) == Token(b) {
      assert a == Token(a)[|AuthSalt|..];
      assert b == Token(b)[|AuthSalt|..];
    }
  }

  /** Whether the middleware hands the request on or answers 401. */
  datatype Decision = Pass | Unauthorized

  /** AuthMiddleware for a request whose auth_token cookie is `cookie` (None
      when the request has none) and whose URL path is `path`. */
  function Middleware(password: string, cookie: Option<string>, path: string): (d: Decision)
    ensures password == "" ==> d == Pass
    ensures password != "" ==>
      (d == Pass <==> cookie == Some(Token(password)) || HasPrefix(path, AuthRoutes))
  {
    if password == "" then Pass
    else if cookie.None? || cookie.value != Token(password) then
      if HasPrefix(path, AuthRoutes) || HasPrefix(path, "/api/v1/file") || HasPrefix(path, "/api/v1/thumb") then
        if HasPrefix(path, AuthRoutes) then Pass else Unauthorized
      else Unauthorized
    else Pass
  }

  /** The file and thumbnail routes are not exempt: with a password set they
      need the cookie like every other API route. */
  lemma FilesNeedTheCookie(password: string, cookie: Option<string>, path: string)
    requires password != "" && cookie != Some(Token(password))
    requires HasPrefix(path, "/api/v1/file") || HasPrefix(path, "/api/v1/thumb")
    ensures Middleware(password, cookie, path) == Unauthorized
  {
    assert path[8] != AuthRoutes[8];
  }

  /** The answer of handleLogin to a well-formed POST: the status and the
      cookie it sets, if any. */
  datatype LoginResult = LoginResult(status: int, cookie: Option<string>)

  function Login(password: string, attempt: string): (r: LoginResult)
    ensures password == "" ==> r == LoginResult(StatusOK, None)
    ensures password != "" && attempt != password ==> r == LoginResult(StatusUnauthorized, None)
    ensures r.cookie.Some? <==> password != "" && attempt == password
  {
    if password == "" then LoginResult(StatusOK, None)
    else if attempt != password then LoginResult(StatusUnauthorized, None)
    else LoginResult(StatusOK, Some(Token(password)))
  }

  /** Logging in with the right password yields a cookie that the middleware
      accepts on every path; no other attempt yields a cookie at all. */
  lemma LoginOpensTheGate(password: string, attempt: string, path: string)
    ensures Login(password, attempt).status == StatusOK <==> password == "" || attempt == password
    ensures Login(password, attempt).status == StatusOK ==>
      Middleware(password, Login(password, attempt).cookie, path) == Pass
  {
  }

  /** A cookie set for one password does not open the gate for another. */
  lemma StaleCookieRejected(previous: string, password: string, attempt: string, path: string)
    requires previous != "" && attempt == previous && password != "" && password != previous
    requires !HasPrefix(path, AuthRoutes)
    ensures Middleware(password, Login(previous, attempt).cookie, path) == Unauthorized
  {
    TokenInjective(previous, password);
  }

  /** The JSON answer of handleAuthCheck with its status. */
  datatype CheckResult = CheckResult(status: int, authenticated: bool, public: bool)

  function AuthCheck(password: string, cookie: Option<string>): (r: CheckResult)
    ensures r.authenticated <==> r.status == StatusOK
    ensures r.public <==> password == ""
  {
    if password == "" then CheckResult(StatusOK, true, true)
    else if cookie.None? || cookie.value != Token(password) then CheckResult(StatusUnauthorized, false, false)
    else CheckResult(StatusOK, true, false)
  }

  /** The check reports authenticated exactly when the middleware would let
      the same cookie through on a route outside /api/v1/auth/. */
  lemma CheckAgreesWithMiddleware(password: string, cookie: Option<string>, path: string)
    requires !HasPrefix(path, AuthRoutes)
    ensures AuthCheck(password, cookie).authenticated <==> Middleware(password, cookie, path) == Pass
  {
  }
}
