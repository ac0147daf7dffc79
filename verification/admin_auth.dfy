/**
 * The stateless admin session of `shared/adminAuth.ts`: a token
 * `payload.signature` whose payload carries the issue and expiry times and
 * whose signature is an HMAC of the payload segment under the session
 * secret; the `Cookie` header parser; and the `Set-Cookie` serialisers.
 * HMAC-SHA256, base64url, JSON and `decodeURIComponent` are function values
 * in a `Codec`, and `Lawful` states the only facts about them the proofs use.
 */
module AdminAuth {
  import opened Wrappers
  import opened Json
  import Text
  import Seqs

  const ADMIN_COOKIE_NAME := "admin_session"
  /** Seven days in milliseconds. */
  const ADMIN_SESSION_TTL_MS: int := 1000 * 60 * 60 * 24 * 7
  const DEFAULT_PASSWORD := "admin"

  /** The environment variables the module reads; an unset variable is `None`. */
  datatype Env = Env(sessionSecret: Option<string>, adminPassword: Option<string>)

  /** `ADMIN_PASSWORD ?? "admin"`. */
  function AdminPassword(env: Env): (pw: string)
    ensures env.adminPassword.Some? ==> pw == env.adminPassword.value
    ensures env.adminPassword.None? ==> pw == DEFAULT_PASSWORD
  {
    env.adminPassword.GetOr(DEFAULT_PASSWORD)
  }

  /** `ADMIN_SESSION_SECRET ?? ADMIN_PASSWORD ?? "admin"`: an empty variable is still used. */
  function SessionSecret(env: Env): (secret: string)
    ensures env.sessionSecret.Some? ==> secret == env.sessionSecret.value
  {
    env.sessionSecret.GetOr(env.adminPassword.GetOr(DEFAULT_PASSWORD))
  }

  /** Without a dedicated secret, tokens are signed with the admin password, default included. */
  lemma SecretFallsBackToPassword(env: Env)
    requires env.sessionSecret.None?
    ensures SessionSecret(env) == AdminPassword(env)
  {
  }

  /** A missing or empty password is refused even when the configured password is empty. */
  function IsPasswordValid(env: Env, password: Option<string>): (ok: bool)
    ensures ok <==> password.Some? && password.value != "" && password.value == AdminPassword(env)
    ensures password == Some("") ==> !ok
  {
    if password.None? || password.value == "" then false
    else password.value == AdminPassword(env)
  }

  /** `{iat, exp}`, milliseconds since the epoch as JavaScript numbers. */
  datatype Payload = Payload(iat: real, exp: real)

  /** The JSON object a payload is serialised from. */
  function PayloadJs(p: Payload): JsVal {
    Obj(map["iat" := Num(p.iat), "exp" := Num(p.exp)])
  }

  /**
   * The primitives the module calls but does not define:
   * `encode` is `base64url(JSON.stringify(p))`, `parse` is `JSON.parse` of
   * the base64url-decoded text (`None` when it throws), `hmac` is the
   * base64url HMAC-SHA256 digest of a message under a key, `bytes` is
   * `Buffer.from(s, "base64url")`, and `decodeUri` is `decodeURIComponent`.
   */
  datatype Codec = Codec(
    encode: Payload -> string,
    parse: string -> Option<JsVal>,
    hmac: (string, string) -> string,
    bytes: string -> seq<bv8>,
    decodeUri: string -> string)

  /** The base64url alphabet. */
  predicate IsUrlSafeChar(ch: char) {
    'A' <= ch <= 'Z' || 'a' <= ch <= 'z' || '0' <= ch <= '9' || ch == '-' || ch == '_'
  }

  /** A non-empty base64url text. */
  predicate UrlSafe(s: string) {
    |s| > 0 && forall k :: 0 <= k < |s| ==> IsUrlSafeChar(s[k])
  }

  /** A token-shaped text: base64url characters and dots. */
  predicate TokenText(s: string) {
    forall k :: 0 <= k < |s| ==> IsUrlSafeChar(s[k]) || s[k] == '.'
  }

  /**
   * The laws the proofs rely on: decoding an encoded payload gives its JSON
   * object back; encodings and digests are non-empty base64url; and URI
   * decoding leaves token-shaped text alone (it has no `%`).
   */
  ghost predicate Lawful(c: Codec) {
    && (forall p :: c.parse(c.encode(p)) == Some(PayloadJs(p)))
    && (forall p :: UrlSafe(c.encode(p)))
    && (forall key, msg :: UrlSafe(c.hmac(key, msg)))
    && DecodesTokens(c)
  }

  /** URI decoding leaves token-shaped text alone: it holds no `%`. */
  ghost predicate DecodesTokens(c: Codec) {
    forall s :: TokenText(s) ==> c.decodeUri(s) == s
  }

  /**
   * `decodePayload`: the parsed value must be an object whose `iat` and `exp`
   * are numbers; anything else, or a parse failure, gives `null`.
   */
  function DecodePayload(c: Codec, encoded: string): (r: Option<Payload>)
    ensures r.Some? <==> c.parse(encoded).Some? && HasTimes(c.parse(encoded).value)
    ensures r.Some? ==> Get(c.parse(encoded).value.fields, "iat") == Num(r.value.iat)
    ensures r.Some? ==> Get(c.parse(encoded).value.fields, "exp") == Num(r.value.exp)
  {
    match c.parse(encoded)
    case None => None
    case Some(v) =>
      if HasTimes(v) then Some(Payload(Get(v.fields, "iat").x, Get(v.fields, "exp").x))
      else None
  }

  /** A non-null object whose `iat` and `exp` are numbers. */
  predicate HasTimes(v: JsVal) {
    v.Obj? && Get(v.fields, "iat").Num? && Get(v.fields, "exp").Num?
  }

  /** Decoding inverts encoding. */
  lemma DecodeEncoded(c: Codec, p: Payload)
    requires Lawful(c)
    ensures DecodePayload(c, c.encode(p)) == Some(p)
  {
    assert c.parse(c.encode(p)) == Some(PayloadJs(p));
  }

  /** `sign`: the digest of a payload segment under the session secret. */
  function Sign(c: Codec, env: Env, encoded: string): string {
    c.hmac(SessionSecret(env), encoded)
  }

  /**
   * `createSessionToken`, with the two readings of `Date.now()` as `t1` and
   * `t2`: the payload issued at `t1` and expiring a TTL after `t2`, a dot,
   * and the payload segment's signature.
   */
  function CreateSessionToken(c: Codec, env: Env, t1: int, t2: int): string {
    var encoded := c.encode(IssuedPayload(t1, t2));
    encoded + "." + Sign(c, env, encoded)
  }

  function IssuedPayload(t1: int, t2: int): Payload {
    Payload(t1 as real, (t2 + ADMIN_SESSION_TTL_MS) as real)
  }

  /**
   * A created token is two dot-separated segments: the first decodes to the
   * payload issued at `t1`, whose lifetime is at least the TTL when the clock
   * does not run backwards, and the second is the first one's signature.
   */
  lemma CreatedTokenParts(c: Codec, env: Env, t1: int, t2: int)
    requires Lawful(c)
    ensures var parts := Text.Split(CreateSessionToken(c, env, t1, t2), '.');
      && |parts| == 2
      && DecodePayload(c, parts[0]) == Some(Payload(t1 as real, (t2 + ADMIN_SESSION_TTL_MS) as real))
      && parts[1] == Sign(c, env, parts[0])
    ensures t1 <= t2 ==> IssuedPayload(t1, t2).exp >= IssuedPayload(t1, t2).iat + ADMIN_SESSION_TTL_MS as real
    ensures TokenText(CreateSessionToken(c, env, t1, t2))
  {
    var encoded := c.encode(IssuedPayload(t1, t2));
    TokenSegments(c, env, encoded);
    DecodeEncoded(c, IssuedPayload(t1, t2));
  }

  lemma TokenSegments(c: Codec, env: Env, encoded: string)
    requires Lawful(c) && UrlSafe(encoded)
    ensures Text.Split(encoded + "." + Sign(c, env, encoded), '.') == [encoded, Sign(c, env, encoded)]
    ensures TokenText(encoded + "." + Sign(c, env, encoded))
  {
    var sig := Sign(c, env, encoded);
    assert UrlSafe(sig);
    NoDotInUrlSafe(encoded);
    NoDotInUrlSafe(sig);
    Text.SplitAfterFirst(encoded, '.', sig);
  }

  lemma NoDotInUrlSafe(s: string)
    requires UrlSafe(s)
    ensures '.' !in s
  {
  }

  /**
   * `verifySessionToken` at clock value `now`: a missing or empty token, an
   * empty first or second segment, a signature whose bytes differ from the
   * expected digest, an undecodable payload, or `now > exp` all give false.
   */
  function VerifySessionToken(c: Codec, env: Env, token: Option<string>, now: int): (ok: bool)
    ensures token.None? || token == Some("") ==> !ok
  {
    if token.None? || token.value == "" then false
    else
      var parts := Text.Split(token.value, '.');
      var encoded := parts[0];
      if encoded == "" || |parts| < 2 || parts[1] == "" then false
      else if c.bytes(parts[1]) != c.bytes(Sign(c, env, encoded)) then false
      else
        match DecodePayload(c, encoded)
        case None => false
        case Some(p) => !(now as real > p.exp)
  }

  /**
   * A token `a.b` followed by any further `.`-segments verifies exactly when
   * both segments are non-empty, `b`'s bytes equal the digest of `a`, `a`
   * decodes to a payload, and the clock has not passed its expiry.
   */
  lemma VerifyCharacterised(c: Codec, env: Env, a: string, b: string, rest: string, now: int)
    requires '.' !in a && '.' !in b
    requires rest == "" || rest[0] == '.'
    ensures VerifySessionToken(c, env, Some(a + "." + b + rest), now) <==>
      && a != "" && b != ""
      && c.bytes(b) == c.bytes(Sign(c, env, a))
      && DecodePayload(c, a).Some?
      && now as real <= DecodePayload(c, a).value.exp
  {
    var t := a + "." + b + rest;
    assert t == a + ['.'] + (b + rest);
    Text.SplitAfterFirst(a, '.', b + rest);
    if rest == "" {
      assert b + rest == b;
    } else {
      assert b + rest == b + ['.'] + rest[1..];
      Text.SplitAfterFirst(b, '.', rest[1..]);
    }
  }

  /** A token without a dot has no signature segment and never verifies. */
  lemma VerifyNeedsSignature(c: Codec, env: Env, s: string, now: int)
    requires '.' !in s
    ensures !VerifySessionToken(c, env, Some(s), now)
  {
    assert Text.Split(s, '.') == [s];
  }

  /** A freshly created token verifies at every clock value up to its expiry. */
  lemma CreatedTokenVerifies(c: Codec, env: Env, t1: int, t2: int, now: int)
    requires Lawful(c)
    requires now <= t2 + ADMIN_SESSION_TTL_MS
    ensures VerifySessionToken(c, env, Some(CreateSessionToken(c, env, t1, t2)), now)
  {
    CreatedTokenShape(c, env, t1, t2);
    var a := c.encode(IssuedPayload(t1, t2));
    VerifyCharacterised(c, env, a, Sign(c, env, a), "", now);
  }

  /** ... and at no clock value after it. */
  lemma CreatedTokenExpires(c: Codec, env: Env, t1: int, t2: int, now: int)
    requires Lawful(c)
    requires now > t2 + ADMIN_SESSION_TTL_MS
    ensures !VerifySessionToken(c, env, Some(CreateSessionToken(c, env, t1, t2)), now)
  {
    CreatedTokenShape(c, env, t1, t2);
    var a := c.encode(IssuedPayload(t1, t2));
    VerifyCharacterised(c, env, a, Sign(c, env, a), "", now);
  }

  /** The created token in `a.b` form, ready for `VerifyCharacterised`. */
  lemma CreatedTokenShape(c: Codec, env: Env, t1: int, t2: int)
    requires Lawful(c)
    ensures var p := Payload(t1 as real, (t2 + ADMIN_SESSION_TTL_MS) as real);
      var a := c.encode(p);
      && CreateSessionToken(c, env, t1, t2) == a + "." + Sign(c, env, a) + ""
      && a != "" && Sign(c, env, a) != "" && '.' !in a && '.' !in Sign(c, env, a)
      && DecodePayload(c, a) == Some(p)
  {
    var p := IssuedPayload(t1, t2);
    var a := c.encode(p);
    assert UrlSafe(a) && UrlSafe(Sign(c, env, a));
    NoDotInUrlSafe(a);
    NoDotInUrlSafe(Sign(c, env, a));
    DecodeEncoded(c, p);
    assert a + "." + Sign(c, env, a) + "" == a + "." + Sign(c, env, a);
  }

  /** The name part of one `;`-piece: everything before its first `=`, untrimmed. */
  function RawName(piece: string): string {
    Text.Split(piece, '=')[0]
  }

  /** The value part: everything after the first `=`, rejoined, trimmed and URI-decoded. */
  function CookieValue(c: Codec, piece: string): string {
    var parts := Text.Split(piece, '=');
    c.decodeUri(Text.Trim(Text.Join(parts[1..], "=")))
  }

  /** A piece `name=value` with `=`-free name: the name, and the whole value (which may hold `=`). */
  lemma PieceParts(c: Codec, name: string, value: string)
    requires '=' !in name
    ensures RawName(name + "=" + value) == name
    ensures CookieValue(c, name + "=" + value) == c.decodeUri(Text.Trim(value))
  {
    Text.SplitAfterFirst(name, '=', value);
    assert name + "=" + value == name + ['='] + value;
    Text.JoinSplit(value, '=');
  }

  /** What one `;`-piece contributes: nothing when its raw name is empty, else the trimmed name and the value. */
  function Entry(c: Codec, piece: string): Option<(string, string)> {
    var name := RawName(piece);
    if name == "" then None else Some((Text.Trim(name), CookieValue(c, piece)))
  }

  /** The cookies after the first `n` entries: a later entry with the same name overwrites. */
  function CookiesUpTo(entries: seq<Option<(string, string)>>, n: nat): map<string, string>
    requires n <= |entries|
  {
    if n == 0 then map[]
    else
      var acc := CookiesUpTo(entries, n - 1);
      match entries[n - 1]
      case None => acc
      case Some((name, value)) => acc[name := value]
  }

  /** `parseCookies`: an absent or empty header gives no cookies. */
  function ParseCookies(c: Codec, header: Option<string>): (cookies: map<string, string>)
    ensures header.None? || header == Some("") ==> cookies == map[]
  {
    if header.None? || header.value == "" then map[]
    else
      var pieces := Text.Split(header.value, ';');
      CookiesUpTo(Seqs.Map(pieces, piece => Entry(c, piece)), |pieces|)
  }

  /** The keys are the names of the entries that are present. */
  lemma {:induction false} CookieKeys(entries: seq<Option<(string, string)>>, n: nat, key: string)
    requires n <= |entries|
    ensures key in CookiesUpTo(entries, n) <==>
      exists i :: 0 <= i < n && entries[i].Some? && entries[i].value.0 == key
  {
    if n > 0 {
      CookieKeys(entries, n - 1, key);
    }
  }

  /** Each name holds the value of the last entry that carries it. */
  lemma {:induction false} CookieLastWins(entries: seq<Option<(string, string)>>, n: nat, i: nat)
    requires i < n <= |entries|
    requires entries[i].Some?
    requires forall j :: i < j < n && entries[j].Some? ==> entries[j].value.0 != entries[i].value.0
    ensures entries[i].value.0 in CookiesUpTo(entries, n)
    ensures CookiesUpTo(entries, n)[entries[i].value.0] == entries[i].value.1
  {
    if i < n - 1 {
      CookieLastWins(entries, n - 1, i);
    }
  }

  /** The `Cookie` header a browser sends back for the session cookie carries the token unchanged. */
  lemma SessionCookieEcho(c: Codec, token: string)
    requires DecodesTokens(c) && TokenText(token)
    ensures var cookies := ParseCookies(c, Some(ADMIN_COOKIE_NAME + "=" + token));
      ADMIN_COOKIE_NAME in cookies && cookies[ADMIN_COOKIE_NAME] == token
  {
    var header := ADMIN_COOKIE_NAME + "=" + token;
    CookieNameFacts();
    NoSemicolonInPair(ADMIN_COOKIE_NAME, token);
    assert Text.Split(header, ';') == [header];
    EchoEntry(c, token);
    var entries := Seqs.Map([header], piece => Entry(c, piece));
    assert entries == [Some((ADMIN_COOKIE_NAME, token))];
  }

  lemma EchoEntry(c: Codec, token: string)
    requires DecodesTokens(c) && TokenText(token)
    ensures Entry(c, ADMIN_COOKIE_NAME + "=" + token) == Some((ADMIN_COOKIE_NAME, token))
  {
    CookieNameFacts();
    PieceParts(c, ADMIN_COOKIE_NAME, token);
    TokenUntrimmed(token);
  }

  lemma CookieNameFacts()
    ensures TokenText(ADMIN_COOKIE_NAME) && '=' !in ADMIN_COOKIE_NAME
    ensures Text.Trim(ADMIN_COOKIE_NAME) == ADMIN_COOKIE_NAME
  {
    TokenUntrimmed(ADMIN_COOKIE_NAME);
  }

  lemma NoSemicolonInPair(name: string, value: string)
    requires TokenText(name) && TokenText(value)
    ensures ';' !in name + "=" + value
  {
    var s := name + "=" + value;
    forall k | 0 <= k < |s|
      ensures s[k] != ';'
    {
      if k < |name| {
        assert s[k] == name[k];
      } else if k > |name| {
        assert s[k] == value[k - |name| - 1];
      }
    }
  }

  /** Token-shaped text has no surrounding whitespace. */
  lemma TokenUntrimmed(s: string)
    requires TokenText(s)
    ensures Text.Trim(s) == s
  {
    assert forall k :: 0 <= k < |s| ==> !Text.IsJsSpace(s[k]);
  }

  /** `serializeAdminSessionCookie`: the attribute pieces joined with `"; "`. */
  function SerializeAdminSessionCookie(token: string, secure: bool): string {
    Text.Join(SessionCookieParts(ADMIN_COOKIE_NAME + "=" + token, "Max-Age=604800", secure), "; ")
  }

  /** `serializeClearAdminSessionCookie`: an empty value that expires at once. */
  function SerializeClearAdminSessionCookie(secure: bool): string {
    Text.Join(SessionCookieParts(ADMIN_COOKIE_NAME + "=", "Max-Age=0", secure), "; ")
  }

  /** The pieces both serialisers share; `Secure` is appended only over HTTPS. */
  function SessionCookieParts(pair: string, maxAge: string, secure: bool): (parts: seq<string>)
    ensures |parts| == if secure then 6 else 5
    ensures parts[0] == pair && parts[4] == maxAge
    ensures secure ==> parts[5] == "Secure"
  {
    [pair, "HttpOnly", "Path=/", "SameSite=Lax", maxAge] + (if secure then ["Secure"] else [])
  }

  /** `Max-Age` is the TTL in whole seconds. */
  lemma MaxAgeIsTtl()
    ensures ADMIN_SESSION_TTL_MS / 1000 == 604800
  {
  }

  /** Reading the issued `Set-Cookie` string with `parseCookies` gives the token back under the cookie name. */
  lemma SetCookieReadsBack(c: Codec, token: string, secure: bool)
    requires DecodesTokens(c) && TokenText(token)
    ensures var cookies := ParseCookies(c, Some(SerializeAdminSessionCookie(token, secure)));
      ADMIN_COOKIE_NAME in cookies && cookies[ADMIN_COOKIE_NAME] == token
  {
    SerializedReadsBack(c, token, "Max-Age=604800", secure);
  }

  /** The clearing `Set-Cookie` string reads back as an empty session cookie. */
  lemma ClearCookieReadsEmpty(c: Codec, secure: bool)
    requires DecodesTokens(c)
    ensures var cookies := ParseCookies(c, Some(SerializeClearAdminSessionCookie(secure)));
      ADMIN_COOKIE_NAME in cookies && cookies[ADMIN_COOKIE_NAME] == ""
  {
    assert ADMIN_COOKIE_NAME + "=" == ADMIN_COOKIE_NAME + "=" + "";
    SerializedReadsBack(c, "", "Max-Age=0", secure);
  }

  lemma SerializedReadsBack(c: Codec, value: string, maxAge: string, secure: bool)
    requires DecodesTokens(c) && TokenText(value)
    requires ';' !in maxAge && '_' !in maxAge
    ensures var cookies := ParseCookies(c, Some(Text.Join(SessionCookieParts(ADMIN_COOKIE_NAME + "=" + value, maxAge, secure), "; ")));
      ADMIN_COOKIE_NAME in cookies && cookies[ADMIN_COOKIE_NAME] == value
  {
    var parts := SessionCookieParts(ADMIN_COOKIE_NAME + "=" + value, maxAge, secure);
    var header := Text.Join(parts, "; ");
    var pieces := SerializedPieces(value, maxAge, secure);
    var entries := Seqs.Map(pieces, piece => Entry(c, piece));
    assert ParseCookies(c, Some(header)) == CookiesUpTo(entries, |entries|);
    assert entries[0] == Some((ADMIN_COOKIE_NAME, value)) by {
      EchoEntry(c, value);
    }
    forall j | 0 < j < |entries| && entries[j].Some?
      ensures entries[j].value.0 != ADMIN_COOKIE_NAME
    {
      assert entries[j] == Entry(c, pieces[j]);
      OtherNames(c, pieces[j]);
    }
    CookieLastWins(entries, |entries|, 0);
  }

  /** The `;`-pieces of a serialised cookie: the name/value pair, then attributes free of `_`. */
  lemma SerializedPieces(value: string, maxAge: string, secure: bool) returns (pieces: seq<string>)
    requires TokenText(value)
    requires ';' !in maxAge && '_' !in maxAge
    ensures var parts := SessionCookieParts(ADMIN_COOKIE_NAME + "=" + value, maxAge, secure);
      Text.Join(parts, "; ") != "" && Text.Split(Text.Join(parts, "; "), ';') == pieces
    ensures |pieces| >= 1 && pieces[0] == ADMIN_COOKIE_NAME + "=" + value
    ensures forall j :: 0 < j < |pieces| ==> '_' !in pieces[j]
  {
    var parts := SessionCookieParts(ADMIN_COOKIE_NAME + "=" + value, maxAge, secure);
    CookieNameFacts();
    NoSemicolonInPair(ADMIN_COOKIE_NAME, value);
    AttributesClean(parts);
    pieces := JoinedPieces(parts);
  }

  lemma JoinedPieces(parts: seq<string>) returns (pieces: seq<string>)
    requires |parts| >= 1 && |parts[0]| > 0
    requires forall k :: 0 <= k < |parts| ==> ';' !in parts[k]
    requires forall k :: 1 <= k < |parts| ==> '_' !in " " + parts[k]
    ensures Text.Join(parts, "; ") != "" && Text.Split(Text.Join(parts, "; "), ';') == pieces
    ensures |pieces| == |parts| && pieces[0] == parts[0]
    ensures forall j :: 0 < j < |pieces| ==> '_' !in pieces[j]
  {
    var header := Text.Join(parts, "; ");
    Text.SplitJoinSpaced("", parts);
    assert "" + header == header && "" + parts[0] == parts[0];
    pieces := [parts[0]] + Text.Spaced(parts[1..]);
    assert Text.Split(header, ';') == pieces;
  }

  /** The attribute pieces hold no `;`, and none but the first holds `_`. */
  lemma AttributesClean(parts: seq<string>)
    requires |parts| >= 5 && parts[1] == "HttpOnly" && parts[2] == "Path=/" && parts[3] == "SameSite=Lax"
    requires forall k :: 4 <= k < |parts| ==> ';' !in parts[k] && '_' !in parts[k]
    requires ';' !in parts[0]
    ensures forall k :: 0 <= k < |parts| ==> ';' !in parts[k]
    ensures forall k :: 1 <= k < |parts| ==> '_' !in " " + parts[k]
  {
  }

  /** A piece without `_` cannot name the session cookie, whose name has one. */
  lemma OtherNames(c: Codec, piece: string)
    requires '_' !in piece
    ensures Entry(c, piece).Some? ==> Entry(c, piece).value.0 != ADMIN_COOKIE_NAME
  {
    var name := RawName(piece);
    Text.SplitFirstKeeps(piece, '=', '_');
    Text.TrimKeeps(name, '_');
    NotSessionName(Text.Trim(name));
  }

  /** A name without `_` is not the session cookie's name. */
  lemma NotSessionName(name: string)
    requires '_' !in name
    ensures name != ADMIN_COOKIE_NAME
  {
    assert ADMIN_COOKIE_NAME[5] == '_';
  }
}
