/**
 * The decisions of `backend/server.js`: the frontend address, the CORS
 * `origin` callback, and where the Google OAuth callback redirects. The
 * rest of the file wires middleware and routes together and is not
 * modelled.
 */
module Server {
  import opened Wrappers
  import Text
  import Jwt

  const DefaultFrontend := "http://localhost:5173"

  /** `(FRONTEND_URL || default).replace(/\/$/, "")`: one trailing '/' is dropped. */
  function Frontend(env: Option<string>): string {
    var url := if Truthy(env) then env.value else DefaultFrontend;
    if |url| > 0 && url[|url| - 1] == '/' then url[..|url| - 1] else url
  }

  function AllowedOrigins(frontend: string): seq<string> {
    [frontend, "https://www.linkedin.com", "https://linkedin.com"]
  }

  /**
   * The CORS `origin` callback: a falsy origin, a listed one, or one on
   * localhost over http or https is allowed; any other is refused.
   */
  predicate OriginAllowed(frontend: string, origin: Option<string>) {
    || !Truthy(origin)
    || origin.value in AllowedOrigins(frontend)
    || Text.StartsWith(origin.value, "http://localhost:")
    || Text.StartsWith(origin.value, "https://localhost:")
  }

  /**
   * The claims the callback signs for the Google identity: the identity
   * as it is, without a record id.
   */
  function CallbackClaims(oauthUser: Jwt.Claims): Jwt.Claims {
    Jwt.Claims(None, oauthUser.email, oauthUser.fullName, oauthUser.googleId,
               oauthUser.googleAccessToken, oauthUser.googleRefreshToken)
  }

  /**
   * The redirect target of `/oauth/callback`; `sign` is `jwt.sign` with
   * the secret and the 30-day expiry, None when it throws.
   */
  function CallbackRedirect(frontend: string, oauthUser: Jwt.Claims, sign: Jwt.Claims -> Option<string>): string {
    match sign(CallbackClaims(oauthUser))
    case Some(token) => frontend + "/auth/callback?token=" + token
    case None => frontend + "/auth/callback?error=authentication_failed"
  }

  /**
   * The handlers a request path reaches: the routers mounted under
   * "/api/auth", "/api/profile" and "/api/apply", and within the apply
   * router its two POST routes.
   */
  datatype Endpoint = AuthRoute(sub: string) | ProfileRoute(sub: string) | ApplyPost | RewritePost

  /** The path below `prefix` when `path` lies under that mount point. */
  function Below(path: string, prefix: string): Option<string> {
    if path == prefix then Some("/")
    else if Text.StartsWith(path, prefix + "/") then Some(path[|prefix|..])
    else None
  }

  /** Where a path is dispatched; None is Express's 404. */
  function Route(path: string): Option<Endpoint> {
    match Below(path, "/api/auth")
    case Some(sub) => Some(AuthRoute(sub))
    case None =>
      match Below(path, "/api/profile")
      case Some(sub) => Some(ProfileRoute(sub))
      case None =>
        match Below(path, "/api/apply")
        case Some(sub) =>
          if sub == "/" then Some(ApplyPost)
          else if sub == "/rewrite" then Some(RewritePost)
          else None
        case None => None
  }

  // ---------------------------------------------------------------------
  // Properties
  // ---------------------------------------------------------------------

  /**
   * The frontend address loses exactly one trailing '/' when it has one
   * and is otherwise the configured address, or the default.
   */
  lemma FrontendStripsOneSlash(env: Option<string>)
    ensures var url := if Truthy(env) then env.value else DefaultFrontend;
      && (Text.StartsWith(url, Frontend(env)) && |url| - 1 <= |Frontend(env)| <= |url|)
      && (|url| > 0 && url[|url| - 1] == '/' <==> Frontend(env) + "/" == url)
      && (Frontend(env) != url ==> Frontend(env) + "/" == url)
  {
    var url := if Truthy(env) then env.value else DefaultFrontend;
    var f := Frontend(env);
    assert url[..|f|] == f;
    if f + "/" == url {
      assert url[|url| - 1] == (f + "/")[|f|];
    }
  }

  /** A missing or empty origin is allowed. */
  lemma NoOriginAllowed(frontend: string, origin: Option<string>)
    ensures !Truthy(origin) ==> OriginAllowed(frontend, origin)
  {
  }

  /**
   * A present origin is allowed exactly when it equals the frontend or
   * one of the two LinkedIn origins, or starts with "http://localhost:"
   * or "https://localhost:".
   */
  lemma OriginAllowedIff(frontend: string, origin: string)
    requires origin != ""
    ensures OriginAllowed(frontend, Some(origin)) <==>
      || origin == frontend || origin == "https://www.linkedin.com" || origin == "https://linkedin.com"
      || (|origin| >= 17 && origin[..17] == "http://localhost:")
      || (|origin| >= 18 && origin[..18] == "https://localhost:")
  {
  }

  /**
   * The callback signs the identity without a record id and sends the
   * browser to the frontend's callback page with the token, or with the
   * error marker when signing fails.
   */
  lemma CallbackTarget(frontend: string, oauthUser: Jwt.Claims, sign: Jwt.Claims -> Option<string>)
    ensures CallbackClaims(oauthUser).userId.None?
    ensures CallbackClaims(oauthUser) == oauthUser.(userId := None)
    ensures sign(CallbackClaims(oauthUser)).Some? ==>
      CallbackRedirect(frontend, oauthUser, sign) == frontend + "/auth/callback?token=" + sign(CallbackClaims(oauthUser)).value
    ensures sign(CallbackClaims(oauthUser)).None? ==>
      CallbackRedirect(frontend, oauthUser, sign) == frontend + "/auth/callback?error=authentication_failed"
    ensures Text.StartsWith(CallbackRedirect(frontend, oauthUser, sign), frontend + "/auth/callback?")
  {
    var p := frontend + "/auth/callback?";
    var r := CallbackRedirect(frontend, oauthUser, sign);
    match sign(CallbackClaims(oauthUser))
    case Some(token) =>
      assert r == p + ("token=" + token);
      Text.StartsWithAppend(p, "token=" + token);
    case None =>
      assert r == p + "error=authentication_failed";
      Text.StartsWithAppend(p, "error=authentication_failed");
  }
}
