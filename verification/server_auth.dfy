/**
 * The stateful admin gate of `server/auth.ts`: the server keeps the HMAC
 * hashes of the session tokens it has issued, a request is authenticated
 * when the hash of its `admin_session` cookie is among them, and two
 * middlewares decide between the next handler, an error reply and a
 * redirect. The token source (`crypto.randomBytes`) and the hash are
 * parameters; the `Cookie` header parser is the one of `AdminAuth`, which
 * this file repeats word for word.
 */
module ServerAuth {
  import opened Wrappers
  import AdminAuth

  const SECRET_FALLBACK := "secret"
  const NOT_CONFIGURED := "Admin password is not configured"
  const UNAUTHORIZED := "Unauthorized"
  const LOGIN_PATH := "/admin/login"

  /** The hashes of the live session tokens (`activeSessions`). */
  type Sessions = set<string>

  /** `ADMIN_SESSION_SECRET || ADMIN_PASSWORD || "secret"`: an empty variable counts as unset. */
  function SessionSecret(env: AdminAuth.Env): (secret: string)
    ensures secret != ""
    ensures env.sessionSecret.Some? && env.sessionSecret.value != "" ==> secret == env.sessionSecret.value
    ensures secret == SECRET_FALLBACK || Some(secret) == env.sessionSecret || Some(secret) == env.adminPassword
  {
    if env.sessionSecret.Some? && env.sessionSecret.value != "" then env.sessionSecret.value
    else if env.adminPassword.Some? && env.adminPassword.value != "" then env.adminPassword.value
    else SECRET_FALLBACK
  }

  /** The fallback chain skips empty variables, unlike the stateless module's `??` chain. */
  lemma SecretSkipsEmpty(env: AdminAuth.Env)
    requires env.sessionSecret == Some("") && env.adminPassword.Some? && env.adminPassword.value != ""
    ensures SessionSecret(env) == env.adminPassword.value
    ensures AdminAuth.SessionSecret(env) == ""
  {
  }

  /** `hashToken`: the hex HMAC-SHA256 of the token under the session secret; `hmacHex` is the digest. */
  function HashToken(hmacHex: (string, string) -> string, env: AdminAuth.Env, token: string): string {
    hmacHex(SessionSecret(env), token)
  }

  /** `isAdminConfigured`: `Boolean(ADMIN_PASSWORD)`, so an empty password is not a configuration. */
  predicate IsAdminConfigured(env: AdminAuth.Env) {
    env.adminPassword.Some? && env.adminPassword.value != ""
  }

  /** `getSessionToken`: the `admin_session` entry of the request's cookies, if any. */
  function SessionToken(c: AdminAuth.Codec, header: Option<string>): (token: Option<string>)
    ensures token.Some? <==> AdminAuth.ADMIN_COOKIE_NAME in AdminAuth.ParseCookies(c, header)
    ensures header.None? ==> token.None?
  {
    var cookies := AdminAuth.ParseCookies(c, header);
    if AdminAuth.ADMIN_COOKIE_NAME in cookies then Some(cookies[AdminAuth.ADMIN_COOKIE_NAME]) else None
  }

  /**
   * `isAdminAuthenticated`: a non-empty session token whose hash is live.
   * There is no expiry check on the server; the cookie's Max-Age is the only limit.
   */
  function IsAdminAuthenticated(c: AdminAuth.Codec, hmacHex: (string, string) -> string, env: AdminAuth.Env,
                                sessions: Sessions, header: Option<string>): (ok: bool)
    ensures ok <==> exists t :: SessionToken(c, header) == Some(t) && t != "" && HashToken(hmacHex, env, t) in sessions
    ensures AdminAuth.ADMIN_COOKIE_NAME !in AdminAuth.ParseCookies(c, header) ==> !ok
  {
    match SessionToken(c, header)
    case None => false
    case Some(t) => t != "" && HashToken(hmacHex, env, t) in sessions
  }

  /** The options `setAdminSession` hands to `res.cookie`, and the `res.clearCookie` of `clearAdminSession`. */
  datatype CookieOut =
    | SetCookie(name: string, value: string, httpOnly: bool, sameSite: string, secure: bool, maxAgeMs: int, path: string)
    | ClearCookie(name: string, path: string)

  /** `crypto.randomBytes(32).toString("hex")`: 64 lower-case hexadecimal digits. */
  predicate HexToken(t: string) {
    |t| == 64 && forall k :: 0 <= k < |t| ==> '0' <= t[k] <= '9' || 'a' <= t[k] <= 'f'
  }

  /**
   * `setAdminSession`: the fresh token is a parameter; its hash joins the
   * live set and the token goes out in an HttpOnly, SameSite=Lax cookie for
   * seven days, Secure in production.
   */
  function SetAdminSession(hmacHex: (string, string) -> string, env: AdminAuth.Env, sessions: Sessions,
                           token: string, production: bool): (r: (Sessions, CookieOut))
    ensures r.0 == sessions + {HashToken(hmacHex, env, token)}
    ensures r.1.SetCookie? && r.1.name == AdminAuth.ADMIN_COOKIE_NAME && r.1.value == token
    ensures r.1.httpOnly && r.1.sameSite == "lax" && r.1.path == "/"
    ensures r.1.secure <==> production
    ensures r.1.maxAgeMs == AdminAuth.ADMIN_SESSION_TTL_MS
  {
    (sessions + {HashToken(hmacHex, env, token)},
     SetCookie(AdminAuth.ADMIN_COOKIE_NAME, token, true, "lax", production, AdminAuth.ADMIN_SESSION_TTL_MS, "/"))
  }

  /**
   * `clearAdminSession`: forgets the hash of the request's non-empty session
   * token, if any, and always clears the cookie at path `/`.
   */
  function ClearAdminSession(c: AdminAuth.Codec, hmacHex: (string, string) -> string, env: AdminAuth.Env,
                             sessions: Sessions, header: Option<string>): (r: (Sessions, CookieOut))
    ensures r.1 == ClearCookie(AdminAuth.ADMIN_COOKIE_NAME, "/")
    ensures r.0 <= sessions
    ensures forall h :: h in sessions && h !in r.0 ==>
      exists t :: SessionToken(c, header) == Some(t) && t != "" && h == HashToken(hmacHex, env, t)
  {
    var out := ClearCookie(AdminAuth.ADMIN_COOKIE_NAME, "/");
    match SessionToken(c, header)
    case Some(t) => if t != "" then (sessions - {HashToken(hmacHex, env, t)}, out) else (sessions, out)
    case None => (sessions, out)
  }

  /** What a middleware does with the request. */
  datatype Gate = Next | Deny(status: nat, error: string) | Redirect(location: string)

  /** `requireAdminApi`: fails closed with 500 when unconfigured, then 401 unless authenticated. */
  function RequireAdminApi(c: AdminAuth.Codec, hmacHex: (string, string) -> string, env: AdminAuth.Env,
                           sessions: Sessions, header: Option<string>): (g: Gate)
    ensures !IsAdminConfigured(env) ==> g == Deny(500, NOT_CONFIGURED)
    ensures IsAdminConfigured(env) ==> (g.Next? <==> IsAdminAuthenticated(c, hmacHex, env, sessions, header))
    ensures g.Next? || g.Deny?
    ensures g.Deny? && g.status != 500 ==> g == Deny(401, UNAUTHORIZED)
  {
    if !IsAdminConfigured(env) then Deny(500, NOT_CONFIGURED)
    else if IsAdminAuthenticated(c, hmacHex, env, sessions, header) then Next
    else Deny(401, UNAUTHORIZED)
  }

  /** `redirectIfUnauthenticated`: fails open when unconfigured, otherwise sends strangers to the login page. */
  function RedirectIfUnauthenticated(c: AdminAuth.Codec, hmacHex: (string, string) -> string, env: AdminAuth.Env,
                                     sessions: Sessions, header: Option<string>): (g: Gate)
    ensures g.Next? <==> !IsAdminConfigured(env) || IsAdminAuthenticated(c, hmacHex, env, sessions, header)
    ensures !g.Next? ==> g == Redirect(LOGIN_PATH)
  {
    if !IsAdminConfigured(env) then Next
    else if IsAdminAuthenticated(c, hmacHex, env, sessions, header) then Next
    else Redirect(LOGIN_PATH)
  }

  /** The API gate is the stricter one: whatever it lets through, the page gate lets through too. */
  lemma ApiGateStricter(c: AdminAuth.Codec, hmacHex: (string, string) -> string, env: AdminAuth.Env,
                        sessions: Sessions, header: Option<string>)
    ensures RequireAdminApi(c, hmacHex, env, sessions, header).Next? ==>
      RedirectIfUnauthenticated(c, hmacHex, env, sessions, header).Next?
    ensures !IsAdminConfigured(env) ==>
      RedirectIfUnauthenticated(c, hmacHex, env, sessions, header).Next?
      && !RequireAdminApi(c, hmacHex, env, sessions, header).Next?
  {
  }

  /** Hexadecimal tokens are token-shaped text, so URI decoding keeps them. */
  lemma HexIsTokenText(t: string)
    requires HexToken(t)
    ensures AdminAuth.TokenText(t) && t != ""
  {
    forall k | 0 <= k < |t|
      ensures AdminAuth.IsUrlSafeChar(t[k])
    {
    }
  }

  /** The token cookie a browser sends back after `setAdminSession` authenticates the request. */
  lemma SetThenAuthenticated(c: AdminAuth.Codec, hmacHex: (string, string) -> string, env: AdminAuth.Env,
                             sessions: Sessions, token: string, production: bool)
    requires AdminAuth.DecodesTokens(c) && HexToken(token)
    ensures var after := SetAdminSession(hmacHex, env, sessions, token, production).0;
      IsAdminAuthenticated(c, hmacHex, env, after, Some(AdminAuth.ADMIN_COOKIE_NAME + "=" + token))
  {
    HexIsTokenText(token);
    AdminAuth.SessionCookieEcho(c, token);
    var header := Some(AdminAuth.ADMIN_COOKIE_NAME + "=" + token);
    assert SessionToken(c, header) == Some(token);
  }

  /** Issuing a session logs nobody out: authentication survives every later `setAdminSession`. */
  lemma SetKeepsOthers(c: AdminAuth.Codec, hmacHex: (string, string) -> string, env: AdminAuth.Env,
                       sessions: Sessions, token: string, production: bool, header: Option<string>)
    requires IsAdminAuthenticated(c, hmacHex, env, sessions, header)
    ensures IsAdminAuthenticated(c, hmacHex, env, SetAdminSession(hmacHex, env, sessions, token, production).0, header)
  {
    var t :| SessionToken(c, header) == Some(t) && t != "" && HashToken(hmacHex, env, t) in sessions;
  }

  /**
   * After `clearAdminSession` on a request, that request is no longer
   * authenticated, and any other request stays authenticated exactly when
   * its token's hash differs from the cleared one.
   */
  lemma ClearRevokesOnlyThisSession(c: AdminAuth.Codec, hmacHex: (string, string) -> string, env: AdminAuth.Env,
                                    sessions: Sessions, header: Option<string>, other: Option<string>)
    requires SessionToken(c, header).Some? && SessionToken(c, header).value != ""
    requires SessionToken(c, other).Some?
    ensures var after := ClearAdminSession(c, hmacHex, env, sessions, header).0;
      !IsAdminAuthenticated(c, hmacHex, env, after, header)
      && (HashToken(hmacHex, env, SessionToken(c, other).value) != HashToken(hmacHex, env, SessionToken(c, header).value) ==>
            (IsAdminAuthenticated(c, hmacHex, env, after, other) <==> IsAdminAuthenticated(c, hmacHex, env, sessions, other)))
  {
  }

  /** Logging out a request without a session cookie changes nothing on the server. */
  lemma ClearWithoutCookieKeepsSessions(c: AdminAuth.Codec, hmacHex: (string, string) -> string, env: AdminAuth.Env,
                                        sessions: Sessions, header: Option<string>)
    requires AdminAuth.ADMIN_COOKIE_NAME !in AdminAuth.ParseCookies(c, header)
    ensures ClearAdminSession(c, hmacHex, env, sessions, header).0 == sessions
  {
  }

  /** Configured and freshly logged in, the API gate passes the echoed cookie through. */
  lemma LoginOpensApi(c: AdminAuth.Codec, hmacHex: (string, string) -> string, env: AdminAuth.Env,
                      sessions: Sessions, token: string, production: bool)
    requires AdminAuth.DecodesTokens(c) && HexToken(token) && IsAdminConfigured(env)
    ensures var after := SetAdminSession(hmacHex, env, sessions, token, production).0;
      RequireAdminApi(c, hmacHex, env, after, Some(AdminAuth.ADMIN_COOKIE_NAME + "=" + token)) == Next
  {
    SetThenAuthenticated(c, hmacHex, env, sessions, token, production);
  }
}
