/**
 * `sendApplicationEmail` of `backend/services/mailer.js`: the credential
 * check, obtaining an access token (with write-through of a token the
 * provider hands back, and one explicit refresh grant when that fails,
 * section 6 of RFC 6749), the link footer, the header block of section
 * 3.6 of RFC 5322 joined with CRLF, unpadded base64url (section 5 of
 * RFC 4648), and the send with one retry after a 401.
 *
 * Google's OAuth client and the Gmail API are an oracle: a `Google` value
 * fixes what each call would answer. The user document is an `Account`
 * object whose token fields the method updates; every `user.save()` and
 * every call to Google is recorded as an `Event`.
 */
module Mailer {
  import opened Wrappers
  import Text
  import Base64
  import opened UserProfile

  // ---------------------------------------------------------------------
  // Messages
  // ---------------------------------------------------------------------

  /** Every error leaves the function wrapped with this prefix. */
  const Prefix := "Failed to send email: "
  const NotAuthenticated := "User not authenticated with Google. Please log in with Google to send emails."
  const NoRefreshToken := "Google OAuth token expired and no refresh token available. Please log in again with Google."
  const RefreshExpired := "Google OAuth token expired. Please log in again with Google."
  const CredentialsInvalid := "Invalid or expired Google OAuth credentials. Please log in again with Google."
  /** The retry's own message already carries the prefix. */
  const RetryFailed := Prefix + CredentialsInvalid

  // ---------------------------------------------------------------------
  // Tokens, the oracle and the trace
  // ---------------------------------------------------------------------

  /** The stored OAuth tokens; the empty string stands for an absent one. */
  datatype Tokens = Tokens(access: string, refresh: string)

  /** What `refreshAccessToken()` answers: new credentials, or an error. */
  datatype RefreshReply = Refreshed(access: string, refresh: string) | RefreshFailed

  /** What `gmail.users.messages.send` answers: success, or an error with a code. */
  datatype SendReply = Accepted | Rejected(code: int, message: string)

  /**
   * The answers Google and the database would give, in the order the
   * calls can happen: the token `getAccessToken()` yields (None when it
   * throws or yields nothing usable) and whether writing it through
   * succeeds, the explicit refresh after that and whether its write
   * succeeds, the first send, the refresh before the retry and whether
   * its write succeeds, and the retry.
   */
  datatype Google = Google(
    acquired: Option<string>,
    writeThroughSaved: bool,
    refresh: RefreshReply,
    refreshSaved: bool,
    send: SendReply,
    retryRefresh: RefreshReply,
    retrySaved: bool,
    retrySend: SendReply)

  /** A call to Google or a write of the user document, in order. */
  datatype Event =
    | Fetch                               // getAccessToken()
    | Persist(tokens: Tokens)             // user.save() with these tokens
    | PersistFailed(tokens: Tokens)       // user.save() with these tokens, rejected
    | Refresh                             // refreshAccessToken()
    | Send(raw: string, access: string)   // messages.send with this access token

  datatype Outcome = Done | Failed(message: string)

  /** The outcome, the events, and the tokens stored at the end. */
  datatype Run = Run(outcome: Outcome, trace: seq<Event>, tokens: Tokens)

  /** The tokens after a refresh: the new access token always, the refresh token only when one came. */
  function ApplyRefresh(t: Tokens, access: string, refresh: string): Tokens {
    Tokens(access, if refresh != "" then refresh else t.refresh)
  }

  // ---------------------------------------------------------------------
  // The steps, as functions
  // ---------------------------------------------------------------------

  /**
   * Obtaining an access token. A usable token that differs from the
   * stored one is written through; when no usable token comes, or the
   * write is rejected, the `tokenError` branch runs.
   */
  function Acquire(t: Tokens, g: Google): Run {
    if Truthy(g.acquired) then
      var token := g.acquired.value;
      if token == t.access then Run(Done, [Fetch], t)
      else
        var t' := t.(access := token);
        if g.writeThroughSaved then Run(Done, [Fetch, Persist(t')], t')
        else Recover(t, g, [Fetch, PersistFailed(t')])
    else Recover(t, g, [Fetch])
  }

  /**
   * The `tokenError` branch after the events `before`: without a refresh
   * token the call fails; otherwise one explicit refresh is tried and its
   * credentials written. A failed refresh or a rejected write leaves the
   * stored tokens as they were.
   */
  function Recover(t: Tokens, g: Google, before: seq<Event>): Run {
    if t.refresh == "" then Run(Failed(NoRefreshToken), before, t)
    else match g.refresh
      case Refreshed(a, r) =>
        var t' := ApplyRefresh(t, a, r);
        if g.refreshSaved then Run(Done, before + [Refresh, Persist(t')], t')
        else Run(Failed(RefreshExpired), before + [Refresh, PersistFailed(t')], t)
      case RefreshFailed => Run(Failed(RefreshExpired), before + [Refresh], t)
  }

  /**
   * Sending `raw`: on a 401 while a refresh token is stored, refresh once
   * and send once more; any other error is passed on as it is.
   */
  function Deliver(t: Tokens, g: Google, raw: string): Run {
    var first := Send(raw, t.access);
    match g.send
    case Accepted => Run(Done, [first], t)
    case Rejected(code, message) =>
      if code == 401 && t.refresh != "" then
        match g.retryRefresh
        case RefreshFailed => Run(Failed(RetryFailed), [first, Refresh], t)
        case Refreshed(a, r) =>
          var t' := ApplyRefresh(t, a, r);
          if !g.retrySaved then Run(Failed(RetryFailed), [first, Refresh, PersistFailed(t')], t)
          else
            var trace := [first, Refresh, Persist(t'), Send(raw, t'.access)];
            if g.retrySend.Accepted? then Run(Done, trace, t') else Run(Failed(RetryFailed), trace, t')
      else Run(Failed(message), [first], t)
  }

  /** The outer `catch`: every error message gets the prefix. */
  function Wrap(o: Outcome): Outcome {
    match o
    case Done => Done
    case Failed(m) => Failed(Prefix + m)
  }

  /** What the application is and who sends it. */
  datatype Message = Message(to: string, subject: string, bodyHtml: string, sender: Fields)

  /**
   * `sendApplicationEmail` for a stored user with tokens `t`, where `raw`
   * is the encoded message (`Raw` below; it depends on nothing the run
   * changes) and `testMode` is `TEST_MODE === 'true'`.
   */
  function SendApplication(t: Tokens, testMode: bool, g: Google, raw: string): Run {
    if t.access == "" then Run(Failed(Prefix + NotAuthenticated), [], t)
    else if testMode then Run(Done, [], t)
    else
      var a := Acquire(t, g);
      if a.outcome.Failed? then Run(Wrap(a.outcome), a.trace, a.tokens)
      else
        var d := Deliver(a.tokens, g, raw);
        Run(Wrap(d.outcome), a.trace + d.trace, d.tokens)
  }

  // ---------------------------------------------------------------------
  // The message
  // ---------------------------------------------------------------------

  datatype Link = Link(name: string, url: string)

  /** The labels, in the order the footer lists them. */
  const LinkOrder: seq<string> := ["Resume", "Portfolio", "GitHub", "LinkedIn"]

  /** The profile field a name shows. */
  function UrlOf(s: Fields, name: string): Option<string> {
    if name == "Resume" then s.resumeUrl
    else if name == "Portfolio" then s.portfolioUrl
    else if name == "GitHub" then s.githubUrl
    else s.linkedinUrl
  }

  /** The position of a name in `LinkOrder`. */
  function Rank(name: string): nat {
    if name == "Resume" then 0
    else if name == "Portfolio" then 1
    else if name == "GitHub" then 2
    else 3
  }

  /** One link when the URL is truthy, none otherwise. */
  function Candidate(name: string, url: Option<string>): seq<Link> {
    if Truthy(url) then [Link(name, url.value)] else []
  }

  /** The `links` array: Resume, Portfolio, GitHub, LinkedIn, each when its URL is truthy. */
  function Links(s: Fields): seq<Link> {
    Candidate("Resume", s.resumeUrl) + Candidate("Portfolio", s.portfolioUrl)
    + Candidate("GitHub", s.githubUrl) + Candidate("LinkedIn", s.linkedinUrl)
  }

  const FooterOpen := "\n            <div style=\"margin-top: 24px; padding-top: 24px; border-top: 2px solid #000000;\">\n                <p style=\"margin: 0 0 12px 0; font-weight: 700; font-size: 14px; color: #000000;\">My Links:</p>\n                <div style=\"display: flex; flex-wrap: wrap; gap: 8px;\">\n                    "
  const FooterClose := "\n                </div>\n            </div>\n        "
  const AnchorOpen := "\n                        <a href=\""
  const AnchorStyle := "\" style=\"display: inline-block; padding: 8px 16px; border: 2px solid #000000; background-color: #ffffff; color: #000000; text-decoration: none; font-weight: 600; font-size: 13px; transition: all 0.2s;\">\n                            "
  const AnchorClose := "\n                        </a>\n                    "

  /** One button of the footer. */
  function LinkHtml(l: Link): string {
    AnchorOpen + l.url + AnchorStyle + l.name + AnchorClose
  }

  /** `links.map(...).join('')`. */
  function LinkItems(links: seq<Link>): string {
    if links == [] then "" else LinkHtml(links[0]) + LinkItems(links[1..])
  }

  /** The footer, or the empty string when there are no links. */
  function LinksHtml(links: seq<Link>): string {
    if |links| > 0 then FooterOpen + LinkItems(links) + FooterClose else ""
  }

  function FinalHtml(bodyHtml: string, s: Fields): string {
    bodyHtml + LinksHtml(Links(s))
  }

  /** To, From, Reply-To, Subject and Content-Type. */
  function HeaderLines(email: string, m: Message): seq<string> {
    [ "To: " + m.to,
      "From: " + Interpolate(m.sender.fullName) + " <" + email + ">",
      "Reply-To: " + OrElse(m.sender.email, email),
      "Subject: " + m.subject,
      "Content-Type: text/html; charset=utf-8" ]
  }

  const CRLF := "\r\n"

  /** The message: the header lines, an empty line, the body, joined with CRLF. */
  function Compose(email: string, m: Message): string {
    Text.Join(HeaderLines(email, m) + ["", FinalHtml(m.bodyHtml, m.sender)], CRLF)
  }

  /** The `raw` field sent to Gmail. */
  function Raw(email: string, m: Message): string {
    Base64.EncodeRaw(Compose(email, m))
  }

  // ---------------------------------------------------------------------
  // Counting calls
  // ---------------------------------------------------------------------

  function Sends(trace: seq<Event>): nat {
    if trace == [] then 0 else (if trace[0].Send? then 1 else 0) + Sends(trace[1..])
  }

  function Refreshes(trace: seq<Event>): nat {
    if trace == [] then 0 else (if trace[0].Refresh? then 1 else 0) + Refreshes(trace[1..])
  }

  lemma CountsCons(e: Event, rest: seq<Event>)
    ensures Sends([e] + rest) == (if e.Send? then 1 else 0) + Sends(rest)
    ensures Refreshes([e] + rest) == (if e.Refresh? then 1 else 0) + Refreshes(rest)
  {
    assert ([e] + rest)[1..] == rest;
  }

  lemma {:induction false} CountsAppend(a: seq<Event>, b: seq<Event>)
    ensures Sends(a + b) == Sends(a) + Sends(b)
    ensures Refreshes(a + b) == Refreshes(a) + Refreshes(b)
  {
    if a != [] {
      assert (a + b)[0] == a[0] && (a + b)[1..] == a[1..] + b;
      CountsAppend(a[1..], b);
    } else {
      assert a + b == b;
    }
  }

  // ---------------------------------------------------------------------
  // What a run does
  // ---------------------------------------------------------------------

  /** Without a stored access token nothing is called, even when a refresh token is stored. */
  lemma NoAccessTokenNoCalls(t: Tokens, testMode: bool, g: Google, raw: string)
    requires t.access == ""
    ensures var r := SendApplication(t, testMode, g, raw);
      r.trace == [] && r.tokens == t && r.outcome == Failed(Prefix + NotAuthenticated)
  {
  }

  /** In test mode the call returns after the credential check: no call to Google, no write. */
  lemma TestModeSendsNothing(t: Tokens, g: Google, raw: string)
    requires t.access != ""
    ensures SendApplication(t, true, g, raw) == Run(Done, [], t)
  {
  }

  /**
   * A usable token that differs from the stored one is written through
   * before anything is sent: only the access token changes, and the first
   * send uses it.
   */
  lemma WriteThrough(t: Tokens, g: Google, raw: string)
    requires t.access != "" && Truthy(g.acquired) && g.acquired.value != t.access && g.writeThroughSaved
    ensures var r := SendApplication(t, false, g, raw);
      && |r.trace| >= 3
      && r.trace[0] == Fetch
      && r.trace[1] == Persist(Tokens(g.acquired.value, t.refresh))
      && r.trace[2] == Send(raw, g.acquired.value)
  {
  }

  /**
   * A rejected write-through is handled as a token error: nothing is
   * stored, and without a refresh token the call fails; with one, the
   * refreshed token is written and the first send uses it.
   */
  lemma RejectedWriteThrough(t: Tokens, g: Google, raw: string)
    requires t.access != "" && Truthy(g.acquired) && g.acquired.value != t.access && !g.writeThroughSaved
    ensures var r := SendApplication(t, false, g, raw);
      var rejected := PersistFailed(Tokens(g.acquired.value, t.refresh));
      && |r.trace| >= 2 && r.trace[0] == Fetch && r.trace[1] == rejected
      && (t.refresh == "" ==> r == Run(Failed(Prefix + NoRefreshToken), [Fetch, rejected], t))
      && (t.refresh != "" && g.refresh.Refreshed? && g.refreshSaved ==>
            var t' := ApplyRefresh(t, g.refresh.access, g.refresh.refresh);
            |r.trace| >= 5 && r.trace[2..5] == [Refresh, Persist(t'), Send(raw, g.refresh.access)])
      && (t.refresh != "" && !(g.refresh.Refreshed? && g.refreshSaved) ==>
            r.outcome == Failed(Prefix + RefreshExpired) && r.tokens == t)
  {
  }

  /** When no token comes and no refresh token is stored, the call fails with one fetch and nothing else. */
  lemma NoRefreshTokenFails(t: Tokens, g: Google, raw: string)
    requires t.access != "" && !Truthy(g.acquired) && t.refresh == ""
    ensures var r := SendApplication(t, false, g, raw);
      && r == Run(Failed(Prefix + NoRefreshToken), [Fetch], t)
      && Sends(r.trace) == 0 && Refreshes(r.trace) == 0
  {
  }

  lemma RecoverCounts(t: Tokens, g: Google, before: seq<Event>)
    ensures Sends(Recover(t, g, before).trace) == Sends(before)
    ensures Refreshes(Recover(t, g, before).trace) <= Refreshes(before) + 1
    ensures Recover(t, g, before).outcome.Failed? ==> Recover(t, g, before).tokens == t
  {
    if t.refresh != "" {
      var after := Recover(t, g, before).trace[|before|..];
      assert Recover(t, g, before).trace == before + after;
      CountsAppend(before, after);
      CountsCons(Refresh, []);
      if g.refresh.Refreshed? {
        var t' := ApplyRefresh(t, g.refresh.access, g.refresh.refresh);
        var p := if g.refreshSaved then Persist(t') else PersistFailed(t');
        assert after == [Refresh, p];
        CountsCons(p, []);
        CountsCons(Refresh, [p]);
      }
    }
  }

  lemma AcquireCounts(t: Tokens, g: Google)
    ensures Sends(Acquire(t, g).trace) == 0
    ensures Refreshes(Acquire(t, g).trace) <= 1
    ensures Acquire(t, g).outcome.Failed? ==> Acquire(t, g).tokens == t
  {
    CountsCons(Fetch, []);
    if Truthy(g.acquired) && g.acquired.value != t.access {
      var t' := t.(access := g.acquired.value);
      var p := if g.writeThroughSaved then Persist(t') else PersistFailed(t');
      CountsCons(p, []);
      CountsCons(Fetch, [p]);
      if !g.writeThroughSaved {
        RecoverCounts(t, g, [Fetch, p]);
      }
    } else if !Truthy(g.acquired) {
      RecoverCounts(t, g, [Fetch]);
    }
  }

  lemma DeliverCounts(t: Tokens, g: Google, raw: string)
    ensures 1 <= Sends(Deliver(t, g, raw).trace) <= 2
    ensures Refreshes(Deliver(t, g, raw).trace) <= 1
    ensures Sends(Deliver(t, g, raw).trace) == 2 <==>
      g.send.Rejected? && g.send.code == 401 && t.refresh != "" && g.retryRefresh.Refreshed? && g.retrySaved
  {
    var first := Send(raw, t.access);
    CountsCons(first, []);
    if g.send.Rejected? && g.send.code == 401 && t.refresh != "" {
      CountsCons(Refresh, []);
      CountsCons(first, [Refresh]);
      if g.retryRefresh.Refreshed? && !g.retrySaved {
        var p := PersistFailed(ApplyRefresh(t, g.retryRefresh.access, g.retryRefresh.refresh));
        CountsCons(p, []);
        CountsCons(Refresh, [p]);
        CountsCons(first, [Refresh, p]);
      } else if g.retryRefresh.Refreshed? {
        var t' := ApplyRefresh(t, g.retryRefresh.access, g.retryRefresh.refresh);
        var second := Send(raw, t'.access);
        CountsCons(second, []);
        CountsCons(Persist(t'), [second]);
        CountsCons(Refresh, [Persist(t'), second]);
        CountsCons(first, [Refresh, Persist(t'), second]);
      }
    }
  }

  /**
   * At most two sends and at most two refreshes. A second send happens
   * exactly after a first one rejected with 401 while a refresh token was
   * stored, a refresh that succeeded and a write of its credentials that
   * succeeded.
   */
  lemma CallBounds(t: Tokens, testMode: bool, g: Google, raw: string)
    ensures var r := SendApplication(t, testMode, g, raw);
      && Sends(r.trace) <= 2 && Refreshes(r.trace) <= 2
      && (Sends(r.trace) == 2 <==>
            && t.access != "" && !testMode && Acquire(t, g).outcome.Done?
            && g.send.Rejected? && g.send.code == 401
            && Acquire(t, g).tokens.refresh != "" && g.retryRefresh.Refreshed? && g.retrySaved)
  {
    var r := SendApplication(t, testMode, g, raw);
    if t.access != "" && !testMode {
      var a := Acquire(t, g);
      AcquireCounts(t, g);
      if a.outcome.Done? {
        var d := Deliver(a.tokens, g, raw);
        DeliverCounts(a.tokens, g, raw);
        CountsAppend(a.trace, d.trace);
      }
    }
  }

  /**
   * A send error other than a 401 with a refresh token stored is passed on
   * with the prefix and is not retried.
   */
  lemma OtherErrorsPropagate(t: Tokens, g: Google, raw: string)
    requires t.access != "" && Acquire(t, g).outcome.Done?
    requires g.send.Rejected?
    requires !(g.send.code == 401 && Acquire(t, g).tokens.refresh != "")
    ensures var r := SendApplication(t, false, g, raw);
      && r.outcome == Failed(Prefix + g.send.message)
      && Sends(r.trace) == 1
      && r.tokens == Acquire(t, g).tokens
  {
    var a := Acquire(t, g);
    AcquireCounts(t, g);
    DeliverCounts(a.tokens, g, raw);
    CountsAppend(a.trace, Deliver(a.tokens, g, raw).trace);
  }

  /** A failed retry reaches the caller with the prefix twice. */
  lemma RetryFailureMessage(t: Tokens, g: Google, raw: string)
    requires t.access != "" && Acquire(t, g).outcome.Done?
    requires g.send.Rejected? && g.send.code == 401 && Acquire(t, g).tokens.refresh != ""
    requires g.retryRefresh.RefreshFailed? || !g.retrySaved || !g.retrySend.Accepted?
    ensures SendApplication(t, false, g, raw).outcome
      == Failed(Prefix + Prefix + CredentialsInvalid)
  {
  }

  /**
   * The refresh token is never cleared: at the end it is the stored one or
   * one a refresh returned, and a stored one is never lost.
   */
  lemma RefreshTokenKept(t: Tokens, testMode: bool, g: Google, raw: string)
    ensures var r := SendApplication(t, testMode, g, raw);
      && (r.tokens.refresh == t.refresh
          || (g.refresh.Refreshed? && r.tokens.refresh == g.refresh.refresh)
          || (g.retryRefresh.Refreshed? && r.tokens.refresh == g.retryRefresh.refresh))
      && (t.refresh != "" ==> r.tokens.refresh != "")
  {
    if t.access != "" && !testMode {
      var a := Acquire(t, g);
      assert a.tokens.refresh == t.refresh || (g.refresh.Refreshed? && a.tokens.refresh == g.refresh.refresh);
      assert t.refresh != "" ==> a.tokens.refresh != "";
    }
  }

  /** Every send carries the same encoded message, whichever token it uses. */
  lemma SendsCarryMessage(t: Tokens, testMode: bool, g: Google, raw: string)
    ensures var r := SendApplication(t, testMode, g, raw);
      forall i :: 0 <= i < |r.trace| && r.trace[i].Send? ==> r.trace[i].raw == raw
  {
    if t.access != "" && !testMode {
      var a := Acquire(t, g);
      var d := Deliver(a.tokens, g, raw);
      forall i | 0 <= i < |a.trace| ensures !a.trace[i].Send? {
        AcquireCounts(t, g);
        if a.trace[i].Send? {
          SendAt(a.trace, i);
        }
      }
    }
  }

  /** A trace with a send at some position counts at least one send. */
  lemma {:induction false} SendAt(trace: seq<Event>, i: nat)
    requires i < |trace| && trace[i].Send?
    ensures Sends(trace) >= 1
  {
    if i > 0 {
      SendAt(trace[1..], i - 1);
    }
  }

  /** The encoded message decodes back to the UTF-8 bytes of the composed one, and is unpadded base64url. */
  lemma RawDecodes(email: string, m: Message)
    ensures Base64.DecodeRaw(Raw(email, m)) == Base64.Utf8(Compose(email, m))
    ensures '+' !in Raw(email, m) && '/' !in Raw(email, m) && '=' !in Raw(email, m)
  {
    Base64.RawRoundTrip(Compose(email, m));
    Base64.RawIsUrlSafe(Compose(email, m));
  }

  // ---------------------------------------------------------------------
  // What the message holds
  // ---------------------------------------------------------------------

  /**
   * The footer lists only links whose URL is truthy, each with its own
   * field's URL, every label whose URL is truthy, and in the order
   * Resume, Portfolio, GitHub, LinkedIn.
   */
  lemma LinksCorrect(s: Fields)
    ensures var l := Links(s);
      && (forall i :: 0 <= i < |l| ==>
            l[i].name in LinkOrder && UrlOf(s, l[i].name) == Some(l[i].url) && l[i].url != "")
      && (forall i, j :: 0 <= i < j < |l| ==> Rank(l[i].name) < Rank(l[j].name))
      && (forall name :: name in LinkOrder ==>
            (Truthy(UrlOf(s, name)) <==> exists i :: 0 <= i < |l| && l[i].name == name))
  {
    var l := Links(s);
    forall name | name in LinkOrder && Truthy(UrlOf(s, name))
      ensures exists i :: 0 <= i < |l| && l[i].name == name
    {
      var k := |Candidate("Resume", s.resumeUrl)|;
      var k2 := k + |Candidate("Portfolio", s.portfolioUrl)|;
      var k3 := k2 + |Candidate("GitHub", s.githubUrl)|;
      if name == "Resume" { assert l[0].name == name; }
      else if name == "Portfolio" { assert l[k].name == name; }
      else if name == "GitHub" { assert l[k2].name == name; }
      else { assert l[k3].name == name; }
    }
  }

  /** The body is sent as given exactly when the profile has no link to show. */
  lemma NoLinksKeepsBody(bodyHtml: string, s: Fields)
    ensures FinalHtml(bodyHtml, s) == bodyHtml <==> Links(s) == []
    ensures Links(s) == [] <==>
      !Truthy(s.resumeUrl) && !Truthy(s.portfolioUrl) && !Truthy(s.githubUrl) && !Truthy(s.linkedinUrl)
  {
    if Links(s) != [] {
      assert |FinalHtml(bodyHtml, s)| > |bodyHtml|;
    }
  }

  /**
   * The message is the header block, an empty line, and the body: the
   * layout of section 2.1 of RFC 5322.
   */
  lemma ComposeSeparatesBody(email: string, m: Message)
    ensures Compose(email, m)
      == Text.Join(HeaderLines(email, m), CRLF) + CRLF + CRLF + FinalHtml(m.bodyHtml, m.sender)
  {
    BlankLineSeparates(HeaderLines(email, m), FinalHtml(m.bodyHtml, m.sender), CRLF);
  }

  lemma BlankLineSeparates(h: seq<string>, b: string, sep: string)
    requires |h| >= 1
    ensures Text.Join(h + ["", b], sep) == Text.Join(h, sep) + sep + sep + b
  {
    Text.JoinAppend(h, ["", b], sep);
    assert ["", b][1..] == [b];
  }

  // ---------------------------------------------------------------------
  // The function as written: the user document as an object
  // ---------------------------------------------------------------------

  /** The loaded user document; the empty string stands for an absent token. */
  class Account {
    var email: string
    var accessToken: string
    var refreshToken: string

    constructor(email: string, accessToken: string, refreshToken: string)
      ensures this.email == email && this.accessToken == accessToken && this.refreshToken == refreshToken
    {
      this.email := email;
      this.accessToken := accessToken;
      this.refreshToken := refreshToken;
    }

    function Stored(): Tokens
      reads this
    {
      Tokens(accessToken, refreshToken)
    }

    /** Taking refreshed credentials: the access token always, the refresh token when one came. */
    method TakeCredentials(access: string, refresh: string)
      modifies this
      ensures Stored() == ApplyRefresh(old(Stored()), access, refresh)
      ensures email == old(email)
    {
      accessToken := access;
      if refresh != "" {
        refreshToken := refresh;
      }
    }
  }

  /**
   * The token step on the object: write-through, or one explicit refresh.
   * The object's fields are the stored document: a field changes only
   * when the write that carries it succeeds.
   */
  method ObtainToken(user: Account, g: Google) returns (outcome: Outcome, trace: seq<Event>)
    modifies user
    ensures Run(outcome, trace, user.Stored()) == Acquire(old(user.Stored()), g)
    ensures user.email == old(user.email)
  {
    trace := [Fetch];
    outcome := Done;
    var usable := false;
    if Truthy(g.acquired) {
      var token := g.acquired.value;
      if token == user.accessToken {
        usable := true;
      } else if g.writeThroughSaved {
        user.accessToken := token;
        trace := trace + [Persist(user.Stored())];
        usable := true;
      } else {
        trace := trace + [PersistFailed(user.Stored().(access := token))];
      }
    }
    if usable {
      return;
    }
    if user.refreshToken == "" {
      outcome := Failed(NoRefreshToken);
      return;
    }
    trace := trace + [Refresh];
    match g.refresh
    case Refreshed(a, r) =>
      var refreshed := ApplyRefresh(user.Stored(), a, r);
      if g.refreshSaved {
        user.TakeCredentials(a, r);
        trace := trace + [Persist(user.Stored())];
      } else {
        trace := trace + [PersistFailed(refreshed)];
        outcome := Failed(RefreshExpired);
      }
    case RefreshFailed =>
      outcome := Failed(RefreshExpired);
  }

  /** The send step on the object, with the one retry after a 401. */
  method DeliverRaw(user: Account, g: Google, raw: string) returns (outcome: Outcome, trace: seq<Event>)
    modifies user
    ensures Run(outcome, trace, user.Stored()) == Deliver(old(user.Stored()), g, raw)
    ensures user.email == old(user.email)
  {
    trace := [Send(raw, user.accessToken)];
    outcome := Done;
    match g.send
    case Accepted =>
    case Rejected(code, message) =>
      if code == 401 && user.refreshToken != "" {
        trace := trace + [Refresh];
        match g.retryRefresh
        case RefreshFailed =>
          outcome := Failed(RetryFailed);
        case Refreshed(a, r) =>
          if !g.retrySaved {
            trace := trace + [PersistFailed(ApplyRefresh(user.Stored(), a, r))];
            outcome := Failed(RetryFailed);
          } else {
            user.TakeCredentials(a, r);
            trace := trace + [Persist(user.Stored()), Send(raw, user.accessToken)];
            if !g.retrySend.Accepted? {
              outcome := Failed(RetryFailed);
            }
          }
      } else {
        outcome := Failed(message);
      }
  }

  /** The `links` array, pushed to in order. */
  method CollectLinks(s: Fields) returns (links: seq<Link>)
    ensures links == Links(s)
  {
    links := [];
    if Truthy(s.resumeUrl) { links := links + [Link("Resume", s.resumeUrl.value)]; }
    if Truthy(s.portfolioUrl) { links := links + [Link("Portfolio", s.portfolioUrl.value)]; }
    if Truthy(s.githubUrl) { links := links + [Link("GitHub", s.githubUrl.value)]; }
    if Truthy(s.linkedinUrl) { links := links + [Link("LinkedIn", s.linkedinUrl.value)]; }
  }

  /**
   * `sendApplicationEmail` with the user `findById` loaded (`null` when
   * none): the tokens of the object change as the run says, nothing else.
   */
  method SendApplicationEmail(user: Account?, testMode: bool, g: Google, m: Message)
    returns (outcome: Outcome, trace: seq<Event>)
    modifies user
    ensures user == null ==> outcome == Failed(Prefix + NotAuthenticated) && trace == []
    ensures user != null ==>
      && user.email == old(user.email)
      && Run(outcome, trace, user.Stored()) == SendApplication(old(user.Stored()), testMode, g, Raw(old(user.email), m))
  {
    if user == null || user.accessToken == "" {
      return Failed(Prefix + NotAuthenticated), [];
    }
    if testMode {
      return Done, [];
    }
    var acquired;
    acquired, trace := ObtainToken(user, g);
    if acquired.Failed? {
      return Wrap(acquired), trace;
    }
    var links := CollectLinks(m.sender);
    var finalHtml := m.bodyHtml + LinksHtml(links);
    var lines := HeaderLines(user.email, m) + ["", finalHtml];
    var raw := Base64.EncodeRaw(Text.Join(lines, CRLF));
    var sent, sendTrace := DeliverRaw(user, g, raw);
    outcome := Wrap(sent);
    trace := trace + sendTrace;
  }
}
