/**
 * `backend/middleware/auth.js`: the middleware in front of the profile
 * and apply routes. It takes the token from an `Authorization: Bearer`
 * header (section 2.1 of RFC 6750, with the scheme matched
 * case-sensitively, as the code does), verifies it, and either stores the
 * claims on the request and passes it on, or answers with an error.
 */
module Auth {
  import opened Wrappers
  import Text
  import Jwt

  const Scheme := "Bearer "

  const NoToken := "No token provided"
  const InvalidToken := "Invalid token"
  const TokenExpired := "Token expired"
  const AuthenticationFailed := "Authentication failed"

  /** What the middleware decides. */
  datatype Decision = Admit(claims: Jwt.Claims) | Deny(status: int, error: string)

  /** The token of a header that starts with "Bearer ": the rest after those 7 characters. */
  function BearerToken(header: Option<string>): (r: Option<string>)
  {
    if Truthy(header) && Text.StartsWith(header.value, Scheme) then Some(header.value[|Scheme|..])
    else None
  }

  /** The answer for an error thrown by `jwt.verify`, by its name. */
  function Classify(errorName: string): (r: Decision)
  {
    if errorName == "JsonWebTokenError" then Deny(401, InvalidToken)
    else if errorName == "TokenExpiredError" then Deny(401, TokenExpired)
    else Deny(500, AuthenticationFailed)
  }

  /** The decision for a request's `Authorization` header. */
  function Check(header: Option<string>, verify: Jwt.Verifier): Decision {
    match BearerToken(header)
    case None => Deny(401, NoToken)
    case Some(token) =>
      match verify(token)
      case Verified(c) => Admit(c)
      case Rejected(name) => Classify(name)
  }

  /** The request as the middleware sees and changes it, and its response. */
  class Exchange {
    const authorization: Option<string>
    /** `req.user`. */
    var user: Option<Jwt.Claims>
    /** How often `next()` was called. */
    var nextCalls: nat
    /** The status and error the response was sent with, if any. */
    var response: Option<(int, string)>

    constructor(authorization: Option<string>)
      ensures this.authorization == authorization
      ensures user.None? && nextCalls == 0 && response.None?
    {
      this.authorization := authorization;
      user := None;
      nextCalls := 0;
      response := None;
    }
  }

  /**
   * `authMiddleware`: on success `req.user` is the decoded claims and
   * `next` runs once; on failure the response is sent and `next` is not
   * called.
   */
  method Authenticate(x: Exchange, verify: Jwt.Verifier)
    modifies x
    ensures match Check(x.authorization, verify)
      case Admit(c) =>
        x.user == Some(c) && x.nextCalls == old(x.nextCalls) + 1 && x.response == old(x.response)
      case Deny(status, error) =>
        x.user == old(x.user) && x.nextCalls == old(x.nextCalls) && x.response == Some((status, error))
  {
    var header := x.authorization;
    if !Truthy(header) || !Text.StartsWith(header.value, Scheme) {
      x.response := Some((401, NoToken));
      return;
    }
    var token := header.value[7..];
    match verify(token)
    case Verified(c) =>
      x.user := Some(c);
      x.nextCalls := x.nextCalls + 1;
    case Rejected(name) =>
      if name == "JsonWebTokenError" {
        x.response := Some((401, InvalidToken));
      } else if name == "TokenExpiredError" {
        x.response := Some((401, TokenExpired));
      } else {
        x.response := Some((500, AuthenticationFailed));
      }
  }

  // ---------------------------------------------------------------------
  // Properties
  // ---------------------------------------------------------------------

  /**
   * The token is the header without its "Bearer " prefix: putting the
   * prefix back gives the header, and a header built from a token yields
   * that token.
   */
  lemma BearerRoundTrip(header: Option<string>, token: string)
    ensures BearerToken(header).Some? ==> Scheme + BearerToken(header).value == header.value
    ensures BearerToken(Some(Scheme + token)) == Some(token)
  {
    assert (Scheme + token)[..|Scheme|] == Scheme;
    assert (Scheme + token)[|Scheme|..] == token;
    if BearerToken(header).Some? {
      assert header.value == header.value[..|Scheme|] + header.value[|Scheme|..];
    }
  }

  /** A header that is missing or lacks the prefix is answered 401 "No token provided", whatever the verifier. */
  lemma NoBearerDenied(header: Option<string>, verify: Jwt.Verifier)
    ensures (!Truthy(header) || !Text.StartsWith(header.value, Scheme)) <==> Check(header, verify) == Deny(401, NoToken)
  {
    if Truthy(header) && Text.StartsWith(header.value, Scheme) {
      var name := if verify(BearerToken(header).value).Rejected? then verify(BearerToken(header).value).errorName else "";
      assert Classify(name) != Deny(401, NoToken);
    }
  }

  /**
   * A request is admitted exactly when its token verifies, with the
   * claims the verifier decoded; an invalid token gives 401
   * "Invalid token", an expired one 401 "Token expired", any other
   * error 500.
   */
  lemma CheckClassifies(header: Option<string>, verify: Jwt.Verifier)
    ensures Check(header, verify).Admit? <==>
      BearerToken(header).Some? && verify(BearerToken(header).value).Verified?
    ensures Check(header, verify).Admit? ==>
      Check(header, verify).claims == verify(BearerToken(header).value).claims
    ensures BearerToken(header).Some? && verify(BearerToken(header).value).Rejected? ==>
      var name := verify(BearerToken(header).value).errorName;
      && (name == "JsonWebTokenError" <==> Check(header, verify) == Deny(401, InvalidToken))
      && (name == "TokenExpiredError" <==> Check(header, verify) == Deny(401, TokenExpired))
      && (name != "JsonWebTokenError" && name != "TokenExpiredError" <==> Check(header, verify).status == 500)
  {
  }

  /** Denials are 401 or 500 and carry one of the four messages. */
  lemma DenialsAreKnown(header: Option<string>, verify: Jwt.Verifier)
    ensures Check(header, verify).Deny? ==>
      var d := Check(header, verify);
      || (d.status == 401 && (d.error == NoToken || d.error == InvalidToken || d.error == TokenExpired))
      || (d.status == 500 && d.error == AuthenticationFailed)
  {
  }
}
