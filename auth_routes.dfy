/**
 * `backend/routes/authRoutes.js`: the identity a Google sign-in yields,
 * `GET /session`, `POST /logout` and `GET /me`. The Google strategy's
 * redirect dance and passport's session plumbing are not modelled.
 */
module AuthRoutes {
  import opened Wrappers
  import Text
  import opened UserProfile
  import Jwt
  import Auth
  import ProfileStore

  /** What the Google strategy passes to the verify callback. */
  datatype GoogleAccount = GoogleAccount(id: string, emails: seq<string>, displayName: Option<string>)

  /**
   * The `oauthUser` built from a Google account: the lower-cased first
   * address, the display name or '', and both OAuth tokens. None when
   * the account lists no address (`profile.emails[0].value` throws and
   * the strategy reports the error).
   */
  function OAuthUser(account: GoogleAccount, accessToken: string, refreshToken: Option<string>): Option<Jwt.Claims> {
    if |account.emails| == 0 then None
    else Some(Jwt.Claims(
      userId := None,
      email := Some(Text.Lower(account.emails[0])),
      fullName := Some(if Truthy(account.displayName) then account.displayName.value else ""),
      googleId := Some(account.id),
      googleAccessToken := Some(accessToken),
      googleRefreshToken := refreshToken))
  }

  /** `req.session`: None when there is none. */
  datatype Session = Session(email: Option<string>)

  datatype SessionReply = Authenticated(email: string) | Anonymous

  /** `GET /session`. */
  function SessionStatus(session: Option<Session>): SessionReply {
    if session.Some? && Truthy(session.value.email) then Authenticated(session.value.email.value)
    else Anonymous
  }

  /** The request's session, which `POST /logout` clears. */
  class SessionHolder {
    var session: Option<Session>

    constructor(session: Option<Session>)
      ensures this.session == session
    {
      this.session := session;
    }

    /** `POST /logout`: the session is dropped, and the answer is the fixed message. */
    method Logout() returns (message: string)
      modifies this
      ensures session.None? && SessionStatus(session) == Anonymous
      ensures message == "Logged out successfully"
    {
      session := None;
      message := "Logged out successfully";
    }
  }

  /** What `GET /me` answers. */
  datatype MeReply =
    | MeRefused(status: int, error: string)
    | NoProfile(email: string)
    | HasProfile(user: Fields)

  /** The fields `/me` leaves out of a stored profile. */
  function Public(f: Fields): (r: Fields)
    ensures r.password.None? && r.googleAccessToken.None? && r.googleRefreshToken.None?
    ensures r.(password := f.password, googleAccessToken := f.googleAccessToken,
               googleRefreshToken := f.googleRefreshToken) == f
  {
    f.(password := None, googleAccessToken := None, googleRefreshToken := None)
  }

  /**
   * `GET /me`: without a bearer token 401 "No token provided"; any error
   * thrown, verification failures and a rejected lookup (`lookupFails`)
   * included, 401 "Invalid token", as is a token without an email;
   * otherwise the profile stored under the lower-cased email, or the
   * email alone.
   */
  function Me(header: Option<string>, verify: Jwt.Verifier, rs: seq<ProfileStore.Profile>, lookupFails: bool): MeReply {
    match Auth.BearerToken(header)
    case None => MeRefused(401, Auth.NoToken)
    case Some(token) =>
      match verify(token)
      case Rejected(_) => MeRefused(401, Auth.InvalidToken)
      case Verified(c) =>
        if !Truthy(c.email) || lookupFails then MeRefused(401, Auth.InvalidToken)
        else match ProfileStore.FindOne(rs, ProfileStore.ByEmail(Text.Lower(c.email.value)))
          case None => NoProfile(c.email.value)
          case Some(i) => HasProfile(Public(rs[i].fields))
  }

  // ---------------------------------------------------------------------
  // Properties
  // ---------------------------------------------------------------------

  /**
   * The identity's email is the lower-cased first address, its name is
   * never missing, and it carries no record id yet.
   */
  lemma OAuthUserShape(account: GoogleAccount, accessToken: string, refreshToken: Option<string>)
    ensures OAuthUser(account, accessToken, refreshToken).Some? <==> |account.emails| > 0
    ensures OAuthUser(account, accessToken, refreshToken).Some? ==>
      var u := OAuthUser(account, accessToken, refreshToken).value;
      && u.email == Some(Text.Lower(account.emails[0])) && Text.IsLower(u.email.value)
      && u.fullName.Some? && (!Truthy(account.displayName) ==> u.fullName == Some(""))
      && u.userId.None? && u.googleId == Some(account.id)
      && u.googleAccessToken == Some(accessToken) && u.googleRefreshToken == refreshToken
  {
    if |account.emails| > 0 {
      Text.LowerIsLower(account.emails[0]);
    }
  }

  /** `/session` reports a user exactly when the session holds a truthy email. */
  lemma SessionIff(session: Option<Session>)
    ensures SessionStatus(session).Authenticated? <==> session.Some? && Truthy(session.value.email)
    ensures SessionStatus(session).Authenticated? ==> SessionStatus(session).email == session.value.email.value
  {
  }

  /**
   * Every refusal of `/me` is a 401; it is "No token provided" exactly
   * when the bearer header is missing, and "Invalid token" exactly when
   * the token fails to verify, carries no email, or the lookup is
   * rejected.
   */
  lemma MeRefusals(header: Option<string>, verify: Jwt.Verifier, rs: seq<ProfileStore.Profile>, lookupFails: bool)
    ensures Me(header, verify, rs, lookupFails).MeRefused? ==> Me(header, verify, rs, lookupFails).status == 401
    ensures Me(header, verify, rs, lookupFails) == MeRefused(401, Auth.NoToken) <==> Auth.BearerToken(header).None?
    ensures Auth.BearerToken(header).Some? ==>
      var v := verify(Auth.BearerToken(header).value);
      (v.Rejected? || !Truthy(v.claims.email) || lookupFails) <==> Me(header, verify, rs, lookupFails) == MeRefused(401, Auth.InvalidToken)
  {
  }

  /**
   * With a verified email: a rejected lookup is refused as an invalid
   * token; no stored profile echoes the email as sent; a stored one is
   * the first record under the lower-cased email, returned without the
   * password and both Google tokens.
   */
  lemma MeFindsByEmail(header: Option<string>, verify: Jwt.Verifier, rs: seq<ProfileStore.Profile>, lookupFails: bool)
    requires Auth.BearerToken(header).Some?
    requires verify(Auth.BearerToken(header).value).Verified?
    requires Truthy(verify(Auth.BearerToken(header).value).claims.email)
    ensures var e := verify(Auth.BearerToken(header).value).claims.email.value;
      var q := ProfileStore.ByEmail(Text.Lower(e));
      && (lookupFails <==> Me(header, verify, rs, lookupFails) == MeRefused(401, Auth.InvalidToken))
      && (Me(header, verify, rs, lookupFails) == NoProfile(e) <==> !lookupFails && forall k :: 0 <= k < |rs| ==> !ProfileStore.Matches(rs[k], q))
      && (Me(header, verify, rs, lookupFails).HasProfile? ==>
            var u := Me(header, verify, rs, lookupFails).user;
            u.password.None? && u.googleAccessToken.None? && u.googleRefreshToken.None?)
      && (Me(header, verify, rs, lookupFails).HasProfile? ==>
            exists k :: && 0 <= k < |rs| && ProfileStore.Matches(rs[k], q)
                        && (forall k' :: 0 <= k' < k ==> !ProfileStore.Matches(rs[k'], q))
                        && Me(header, verify, rs, lookupFails).user == Public(rs[k].fields))
  {
    var e := verify(Auth.BearerToken(header).value).claims.email.value;
    var q := ProfileStore.ByEmail(Text.Lower(e));
    match ProfileStore.FindOne(rs, q)
    case None =>
    case Some(i) =>
      assert ProfileStore.Matches(rs[i], q);
  }
}
