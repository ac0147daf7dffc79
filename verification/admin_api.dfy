/**
 * The serverless admin endpoints `api/admin/login.ts` and
 * `api/admin/session.ts`: decision tables over the request verb, the
 * posted password and the session cookie, on top of `AdminAuth`. CORS
 * headers are left out; the clock readings, `NODE_ENV` and whether a
 * password is required are parameters.
 */
module AdminApi {
  import opened Wrappers
  import opened Json
  import AdminAuth

  const METHOD_NOT_ALLOWED := "Method not allowed"
  const PASSWORD_REQUIRED := "Password is required"
  const INVALID_PASSWORD := "Invalid password"

  /** The JSON bodies the two handlers send; `Empty` is `res.end()`. */
  datatype Body =
    | Empty
    | Error(message: string)
    | LoggedIn(expiresIn: int, passwordRequired: bool)
    | SessionState(authenticated: bool)

  /** A reply: status, body, and the `Set-Cookie` header when one is set. */
  datatype Response = Response(status: nat, body: Body, setCookie: Option<string>)

  /** `req.body?.password ?? ""`: a missing body or field, or `null`, reads as the empty string. */
  function PostedPassword(body: JsVal): (pw: JsVal)
    ensures !pw.Undefined? && !pw.Null?
    ensures body.Obj? && "password" in body.fields && !body.fields["password"].Undefined? && !body.fields["password"].Null?
            ==> pw == body.fields["password"]
  {
    var v := if body.Obj? then Get(body.fields, "password") else Undefined;
    if v.Undefined? || v.Null? then Str("") else v
  }

  /** `isPasswordValid(password)`: a value that is not a string never equals the password string. */
  predicate Accepted(env: AdminAuth.Env, pw: JsVal) {
    pw.Str? && AdminAuth.IsPasswordValid(env, Some(pw.s))
  }

  /**
   * The login handler. `t1` and `t2` are the two `Date.now()` readings of
   * `createSessionToken`; `production` is `NODE_ENV === "production"`.
   */
  function Login(c: AdminAuth.Codec, env: AdminAuth.Env, verb: string, body: JsVal,
                 passwordRequired: bool, production: bool, t1: int, t2: int): (r: Response)
    ensures verb == "OPTIONS" ==> r == Response(200, Empty, None)
    ensures verb != "OPTIONS" && verb != "POST" ==> r == Response(405, Error(METHOD_NOT_ALLOWED), None)
    ensures r.setCookie.Some? <==> r.status == 200 && verb == "POST"
    ensures r.setCookie.Some? ==>
      r.setCookie.value == AdminAuth.SerializeAdminSessionCookie(AdminAuth.CreateSessionToken(c, env, t1, t2), production)
      && r.body == LoggedIn(AdminAuth.ADMIN_SESSION_TTL_MS, passwordRequired)
    ensures verb == "POST" && passwordRequired ==>
      && (r.status == 400 <==> !Truthy(PostedPassword(body)))
      && (r.status == 401 <==> Truthy(PostedPassword(body)) && !Accepted(env, PostedPassword(body)))
    ensures r.status == 400 ==> r.body == Error(PASSWORD_REQUIRED)
    ensures r.status == 401 ==> r.body == Error(INVALID_PASSWORD)
  {
    if verb == "OPTIONS" then Response(200, Empty, None)
    else if verb != "POST" then Response(405, Error(METHOD_NOT_ALLOWED), None)
    else
      var pw := PostedPassword(body);
      if passwordRequired && !Truthy(pw) then Response(400, Error(PASSWORD_REQUIRED), None)
      else if passwordRequired && !Accepted(env, pw) then Response(401, Error(INVALID_PASSWORD), None)
      else
        var token := AdminAuth.CreateSessionToken(c, env, t1, t2);
        Response(200, LoggedIn(AdminAuth.ADMIN_SESSION_TTL_MS, passwordRequired),
                 Some(AdminAuth.SerializeAdminSessionCookie(token, production)))
  }

  /**
   * When a password is required, a login succeeds exactly when the posted
   * value is the admin password as a string and that password is not empty.
   */
  lemma LoginNeedsThePassword(c: AdminAuth.Codec, env: AdminAuth.Env, body: JsVal, production: bool, t1: int, t2: int)
    ensures Login(c, env, "POST", body, true, production, t1, t2).status == 200 <==>
      PostedPassword(body) == Str(AdminAuth.AdminPassword(env)) && AdminAuth.AdminPassword(env) != ""
  {
  }

  /** When no password is required, every POST logs in, whatever it carries. */
  lemma LoginOpenWithoutPassword(c: AdminAuth.Codec, env: AdminAuth.Env, body: JsVal, production: bool, t1: int, t2: int)
    ensures Login(c, env, "POST", body, false, production, t1, t2).status == 200
  {
  }

  /** The `admin_session` entry of a `Cookie` header, as the session handler reads it. */
  function CookieToken(c: AdminAuth.Codec, header: Option<string>): (token: Option<string>)
    ensures token.Some? <==> AdminAuth.ADMIN_COOKIE_NAME in AdminAuth.ParseCookies(c, header)
    ensures token.Some? ==> token.value == AdminAuth.ParseCookies(c, header)[AdminAuth.ADMIN_COOKIE_NAME]
  {
    var cookies := AdminAuth.ParseCookies(c, header);
    if AdminAuth.ADMIN_COOKIE_NAME in cookies then Some(cookies[AdminAuth.ADMIN_COOKIE_NAME]) else None
  }

  /** The session handler: whether the cookie's token verifies at `now`. */
  function Session(c: AdminAuth.Codec, env: AdminAuth.Env, verb: string, header: Option<string>, now: int): (r: Response)
    ensures verb == "OPTIONS" ==> r == Response(200, Empty, None)
    ensures verb != "OPTIONS" && verb != "GET" ==> r == Response(405, Error(METHOD_NOT_ALLOWED), None)
    ensures verb == "GET" ==>
      && (r.status == 200 <==> AdminAuth.VerifySessionToken(c, env, CookieToken(c, header), now))
      && r.body == SessionState(r.status == 200)
      && (r.status == 200 || r.status == 401)
    ensures r.setCookie.None?
  {
    if verb == "OPTIONS" then Response(200, Empty, None)
    else if verb != "GET" then Response(405, Error(METHOD_NOT_ALLOWED), None)
    else if AdminAuth.VerifySessionToken(c, env, CookieToken(c, header), now) then Response(200, SessionState(true), None)
    else Response(401, SessionState(false), None)
  }

  /** A request without a session cookie, or with an empty one, is never authenticated. */
  lemma NoCookieNoSession(c: AdminAuth.Codec, env: AdminAuth.Env, header: Option<string>, now: int)
    requires CookieToken(c, header).None? || CookieToken(c, header) == Some("")
    ensures Session(c, env, "GET", header, now) == Response(401, SessionState(false), None)
  {
  }

  /**
   * The login round trip: the cookie the login sets, read back by
   * `parseCookies` and sent again, makes the session check pass at every
   * clock value up to the token's expiry, and fail after it.
   */
  lemma LoginThenSession(c: AdminAuth.Codec, env: AdminAuth.Env, body: JsVal, passwordRequired: bool,
                         production: bool, t1: int, t2: int, now: int)
    requires AdminAuth.Lawful(c)
    requires Login(c, env, "POST", body, passwordRequired, production, t1, t2).status == 200
    ensures var setCookie := Login(c, env, "POST", body, passwordRequired, production, t1, t2).setCookie.value;
      var token := CookieToken(c, Some(setCookie));
      token.Some? &&
      var echo := Some(AdminAuth.ADMIN_COOKIE_NAME + "=" + token.value);
      (Session(c, env, "GET", echo, now).status == 200 <==> now <= t2 + AdminAuth.ADMIN_SESSION_TTL_MS)
  {
    var token := AdminAuth.CreateSessionToken(c, env, t1, t2);
    AdminAuth.CreatedTokenParts(c, env, t1, t2);
    AdminAuth.SetCookieReadsBack(c, token, production);
    AdminAuth.SessionCookieEcho(c, token);
    if now <= t2 + AdminAuth.ADMIN_SESSION_TTL_MS {
      AdminAuth.CreatedTokenVerifies(c, env, t1, t2, now);
    } else {
      AdminAuth.CreatedTokenExpires(c, env, t1, t2, now);
    }
  }
}
