/**
 * Session tokens, the authentication middleware and the cookie options
 * (server/src/middleware/auth.ts). Signing and verification are modelled
 * by a token value that records what was signed, with which key and until
 * when, so a token verifies exactly when it was signed with the same key
 * and has not expired. Times are in seconds, as in a token's `iat`/`exp`.
 */
module Auth {
  import opened Common
  import opened Types
  import opened ErrorHandler

  /** The claims `generateToken` signs. */
  datatype Payload = Payload(userId: Id, tokenVersion: int)

  /** A cookie's token: one this server signed, or any other text. */
  datatype Token = Signed(payload: Payload, key: string, issuedAt: int, expiresAt: int) | Raw(text: string)

  /** `JWT_EXPIRATION = '7d'`, in seconds. */
  const TokenLifetime := 7 * 24 * 60 * 60

  const SecretMissing := "JWT_SECRET is not configured"

  /** `env.jwtSecret || ''`: the configured secret, or the empty string when there is none. */
  function JwtSecret(configured: Option<string>): (s: string)
    ensures SomeTruthy(configured) ==> s == configured.value
    ensures !SomeTruthy(configured) ==> s == ""
  {
    OrElse(configured, "")
  }

  /** The environment object as shipped defines no `jwtSecret`, so the secret in force is empty. */
  const ShippedJwtSecret := JwtSecret(None)

  /** `generateToken`, signing at time `now`; an empty secret is a thrown configuration error. */
  function GenerateToken(userId: Id, tokenVersion: int, secret: string, now: int): (r: Result<Token, string>)
    ensures r.Err? <==> secret == ""
    ensures r.Err? ==> r.error == SecretMissing
    ensures r.Ok? ==> r.value == Signed(Payload(userId, tokenVersion), secret, now, now + TokenLifetime)
  {
    if secret == "" then Err(SecretMissing)
    else Ok(Signed(Payload(userId, tokenVersion), secret, now, now + TokenLifetime))
  }

  /** `jwt.verify`: the payload of a token signed with this key that has not yet expired. */
  function JwtVerify(token: Token, secret: string, now: int): (p: Option<Payload>)
    ensures p.Some? <==> token.Signed? && token.key == secret && now < token.expiresAt
    ensures p.Some? ==> p.value == token.payload
  {
    match token
    case Signed(payload, key, _, expiresAt) => if key == secret && now < expiresAt then Some(payload) else None
    case Raw(_) => None
  }

  /**
   * `verifyToken`: an empty secret is re-thrown as the configuration error;
   * every other failure (malformed, wrong key, expired) is `null`.
   */
  function VerifyToken(token: Token, secret: string, now: int): (r: Result<Option<Payload>, string>)
    ensures r.Err? <==> secret == ""
    ensures r.Err? ==> r.error == SecretMissing
    ensures r.Ok? ==> r.value == JwtVerify(token, secret, now)
  {
    if secret == "" then Err(SecretMissing) else Ok(JwtVerify(token, secret, now))
  }

  /** A token verifies, until it expires, with the same secret it was generated with. */
  lemma VerifyGenerated(userId: Id, tokenVersion: int, secret: string, issued: int, now: int)
    requires secret != "" && now < issued + TokenLifetime
    ensures VerifyToken(GenerateToken(userId, tokenVersion, secret, issued).value, secret, now) ==
      Ok(Some(Payload(userId, tokenVersion)))
  {
  }

  /** Seven days after it was issued a token no longer verifies, and no token verifies under another secret. */
  lemma GeneratedTokenLimits(userId: Id, tokenVersion: int, secret: string, other: string, issued: int, now: int)
    requires secret != "" && other != ""
    ensures now >= issued + TokenLifetime ==>
      VerifyToken(GenerateToken(userId, tokenVersion, secret, issued).value, secret, now) == Ok(None)
    ensures other != secret ==>
      VerifyToken(GenerateToken(userId, tokenVersion, secret, issued).value, other, now) == Ok(None)
  {
  }

  // ---------------------------------------------------------------------
  // authMiddleware

  /** `!token`: no cookie, or an empty one. */
  predicate MissingToken(cookie: Option<Token>) {
    cookie.None? || cookie.value == Raw("")
  }

  /**
   * The decision of `authMiddleware`: the user id to attach, or the error
   * handed to `next`. The configuration error thrown by `verifyToken` is not
   * an AppError, so the catch turns it into the invalid-token 401.
   */
  function AuthDecision(cookie: Option<Token>, users: map<Id, User>, secret: string, now: int): (r: Result<Id, AppError>)
    ensures MissingToken(cookie) ==> r == Err(NewAppError(401, MissingAuthToken))
    ensures !MissingToken(cookie) ==>
      (r.Ok? <==> secret != "" && JwtVerify(cookie.value, secret, now).Some? &&
                  var p := JwtVerify(cookie.value, secret, now).value;
                  p.userId in users && users[p.userId].tokenVersion == p.tokenVersion)
    ensures !MissingToken(cookie) && r.Err? ==> r == Err(NewAppError(401, InvalidAuthToken))
    ensures r.Ok? ==> r.value == cookie.value.payload.userId
  {
    if MissingToken(cookie) then Err(NewAppError(401, MissingAuthToken))
    else
      match VerifyToken(cookie.value, secret, now)
      case Err(_) => Err(NewAppError(401, InvalidAuthToken))
      case Ok(None) => Err(NewAppError(401, InvalidAuthToken))
      case Ok(Some(decoded)) =>
        if decoded.userId !in users || users[decoded.userId].tokenVersion != decoded.tokenVersion then
          Err(NewAppError(401, InvalidAuthToken))
        else Ok(decoded.userId)
  }

  /** The parts of an Express request the middleware reads and writes. */
  class Request {
    /** `req.cookies?.authToken` */
    var authToken: Option<Token>
    /** `req.userId` */
    var userId: Option<Id>
    /** `req.userRole`, which the role checks read */
    var userRole: Option<Role>

    constructor (authToken: Option<Token>)
      ensures this.authToken == authToken && userId == None && userRole == None
    {
      this.authToken := authToken;
      userId := None;
      userRole := None;
    }
  }

  /** `authMiddleware`: the result is the error passed to `next`, None for a plain `next()`. */
  method AuthMiddleware(req: Request, users: map<Id, User>, secret: string, now: int) returns (nextError: Option<AppError>)
    modifies req`userId
    ensures AuthDecision(req.authToken, users, secret, now).Ok? ==>
      nextError == None && req.userId == Some(AuthDecision(req.authToken, users, secret, now).value)
    ensures AuthDecision(req.authToken, users, secret, now).Err? ==>
      nextError == Some(AuthDecision(req.authToken, users, secret, now).error) && req.userId == old(req.userId)
  {
    var decision := AuthDecision(req.authToken, users, secret, now);
    if decision.Err? {
      return Some(decision.error);
    }
    req.userId := Some(decision.value);
    nextError := None;
  }

  /**
   * The two refusal messages read undefined keys, so a missing token and an
   * invalid one produce the same response: 401 with no error text.
   */
  lemma RefusalsLookAlike(cookie: Option<Token>, users: map<Id, User>, secret: string, now: int, name: string)
    requires AuthDecision(cookie, users, secret, now).Err?
    ensures HandleError(Thrown(name, Some(AuthDecision(cookie, users, secret, now).error))) ==
      HandleError(Thrown(name, Some(AuthDecision(None, users, secret, now).error)))
    ensures HandleError(Thrown(name, Some(AuthDecision(cookie, users, secret, now).error))) ==
      ErrorResponse(401, ErrorBody(false, Undefined))
  {
  }

  /** A user's fresh token admits them until it expires. */
  lemma FreshTokenAdmits(users: map<Id, User>, id: Id, secret: string, issued: int, now: int)
    requires id in users && secret != "" && now < issued + TokenLifetime
    ensures var t := GenerateToken(id, users[id].tokenVersion, secret, issued).value;
      AuthDecision(Some(t), users, secret, now) == Ok(id)
  {
  }

  /** Raising a user's token version invalidates every token issued before. */
  lemma VersionBumpRevokes(users: map<Id, User>, id: Id, secret: string, issued: int, now: int)
    requires id in users && secret != ""
    ensures var t := GenerateToken(id, users[id].tokenVersion, secret, issued).value;
      var bumped := users[id := users[id].(tokenVersion := users[id].tokenVersion + 1)];
      AuthDecision(Some(t), bumped, secret, now) == Err(NewAppError(401, InvalidAuthToken))
  {
  }

  /** With the secret as shipped, no token can be generated and every request is refused with 401. */
  lemma ShippedSecretRefusesAll(cookie: Option<Token>, users: map<Id, User>, userId: Id, tokenVersion: int, now: int)
    ensures GenerateToken(userId, tokenVersion, ShippedJwtSecret, now) == Err(SecretMissing)
    ensures AuthDecision(cookie, users, ShippedJwtSecret, now).Err?
    ensures AuthDecision(cookie, users, ShippedJwtSecret, now).error.statusCode == 401
  {
  }

  // ---------------------------------------------------------------------
  // Cookies

  datatype SameSite = Strict | Lax

  datatype CookieOptions = CookieOptions(httpOnly: bool, secure: bool, sameSite: SameSite, maxAge: Option<int>, path: string)

  const AuthCookieName := "authToken"

  /** `7 * 24 * 60 * 60 * 1000`: the cookie lives seven days, in milliseconds. */
  const CookieMaxAge := 7 * 24 * 60 * 60 * 1000

  /** The options of `setAuthCookie` for a given `NODE_ENV`. */
  function SetAuthCookieOptions(nodeEnv: string): (o: CookieOptions)
    ensures o.httpOnly && o.path == "/api" && o.maxAge == Some(604800000)
    ensures o.secure <==> nodeEnv == "production"
    ensures o.sameSite == Strict <==> nodeEnv == "production"
  {
    var isProduction := nodeEnv == "production";
    CookieOptions(true, isProduction, if isProduction then Strict else Lax, Some(CookieMaxAge), "/api")
  }

  /** The options of `clearAuthCookie` for a given `NODE_ENV`. */
  function ClearAuthCookieOptions(nodeEnv: string): (o: CookieOptions)
    ensures o.httpOnly && o.path == "/api" && o.maxAge.None?
    ensures o.secure <==> nodeEnv == "production"
    ensures o.sameSite == Strict <==> nodeEnv == "production"
  {
    var isProduction := nodeEnv == "production";
    CookieOptions(true, isProduction, if isProduction then Strict else Lax, None, "/api")
  }

  /** Clearing uses the very options of setting, minus the lifetime, so the browser matches the cookie. */
  lemma ClearMatchesSet(nodeEnv: string)
    ensures ClearAuthCookieOptions(nodeEnv) == SetAuthCookieOptions(nodeEnv).(maxAge := None)
  {
  }
}
