/**
 * The logic of the content script `extension/content.js`: the text
 * analysis of a LinkedIn post, the token sync on the profile web app,
 * the cached auth token, the requests the buttons send, the overlay's
 * wait-with-backoff loop and the injection of one button per post. The
 * DOM, the overlay's markup and the notifications are not modelled.
 */
module Content {
  import opened Wrappers
  import Text
  import EmailScan
  import ApplyRoutes
  import Server

  // ---------------------------------------------------------------------
  // Reading a post
  // ---------------------------------------------------------------------

  /** `extractEmail`: the first match of the e-mail pattern, or null. */
  function ExtractEmail(text: string): Option<string> {
    EmailScan.FirstMatch(text)
  }

  /**
   * What the three role patterns capture on a text, in the order they
   * are tried: the first group of a match, or None when the pattern does
   * not match. The patterns themselves are not modelled.
   */
  type Captures = seq<Option<string>>

  /** The role the first pattern with a non-empty capture yields, trimmed. */
  function RoleFrom(captures: Captures): Option<string> {
    if captures == [] then None
    else if Truthy(captures[0]) then Some(Text.Trim(captures[0].value))
    else RoleFrom(captures[1..])
  }

  /** `extractRole`: the patterns are tried in order and the first capture wins. */
  method ExtractRole(captures: Captures) returns (role: Option<string>)
    ensures role == RoleFrom(captures)
  {
    var k := 0;
    while k < |captures|
      invariant 0 <= k <= |captures|
      invariant RoleFrom(captures) == RoleFrom(captures[k..])
    {
      if Truthy(captures[k]) {
        return Some(Text.Trim(captures[k].value));
      }
      assert captures[k..][1..] == captures[k + 1..];
      k := k + 1;
    }
    return None;
  }

  const JobKeywords: seq<string> := [
    "hiring", "job", "position", "role", "opening", "opportunity",
    "apply", "candidate", "resume", "cv", "looking for", "seeking",
    "join our team", "we are hiring", "career"]

  /** Whether `t` contains one of `keywords`. */
  function AnyKeyword(t: string, keywords: seq<string>): bool {
    keywords != [] && (Text.Contains(t, keywords[0]) || AnyKeyword(t, keywords[1..]))
  }

  /** `isJobPost`: the lower-cased text contains one of the keywords. */
  function IsJobPost(text: string): bool {
    AnyKeyword(Text.Lower(text), JobKeywords)
  }

  // ---------------------------------------------------------------------
  // Token sync on the profile web app
  // ---------------------------------------------------------------------

  /** `initProfileTokenSync`'s state and the extension storage's `authToken`. */
  class TokenSync {
    var lastToken: Option<string>
    var stored: Option<string>
    /** How many storage writes (set or remove) were issued. */
    var writes: nat

    constructor(stored: Option<string>)
      ensures lastToken.None? && this.stored == stored && writes == 0
    {
      lastToken := None;
      this.stored := stored;
      writes := 0;
    }

    /**
     * `syncToken` with the page's current token (None when absent or when
     * reading it throws): storage is written only on a change, set for a
     * truthy token and removed otherwise.
     */
    method SyncToken(current: Option<string>)
      modifies this
      ensures current == old(lastToken) ==>
        lastToken == old(lastToken) && stored == old(stored) && writes == old(writes)
      ensures current != old(lastToken) ==>
        && lastToken == current && writes == old(writes) + 1
        && stored == (if Truthy(current) then current else None)
    {
      if current != lastToken {
        lastToken := current;
        if Truthy(current) {
          stored := current;
        } else {
          stored := None;
        }
        writes := writes + 1;
      }
    }
  }

  // ---------------------------------------------------------------------
  // The auth token on LinkedIn
  // ---------------------------------------------------------------------

  /** `getAuthToken`'s cache over the extension storage. */
  class AuthCache {
    var cached: Option<string>
    var stored: Option<string>

    constructor(stored: Option<string>)
      ensures cached.None? && this.stored == stored
    {
      cached := None;
      this.stored := stored;
    }

    /**
     * `getAuthToken`: a cached token is returned as it is, whatever the
     * storage now holds; otherwise the stored one is read and cached, or
     * null when it is falsy or there is no storage.
     */
    method GetAuthToken(hasStorage: bool) returns (token: Option<string>)
      modifies this
      ensures stored == old(stored)
      ensures Truthy(old(cached)) ==> token == old(cached) && cached == old(cached)
      ensures !Truthy(old(cached)) ==>
        token == cached == (if hasStorage && Truthy(stored) then stored else None)
    {
      if Truthy(cached) {
        return cached;
      }
      if !hasStorage {
        cached := None;
        return None;
      }
      cached := if Truthy(stored) then stored else None;
      return cached;
    }

    /** A 401 from the generate call clears the storage and the cache. */
    method Unauthorized()
      modifies this
      ensures cached.None? && stored.None?
    {
      stored := None;
      cached := None;
    }
  }

  // ---------------------------------------------------------------------
  // Requests from the buttons
  // ---------------------------------------------------------------------

  /** `null` for a falsy role, else the role trimmed. */
  function TrimmedRole(role: Option<string>): Option<string> {
    if Truthy(role) then Some(Text.Trim(role.value)) else None
  }

  /**
   * The body `handleQuickApply` posts to draft an application, or None
   * when it stops before the request: no address found, or the text is
   * blank.
   */
  function GenerateRequest(postText: string, captures: Captures): Option<ApplyRoutes.ApplyBody> {
    match ExtractEmail(postText)
    case None => None
    case Some(email) =>
      if Text.Trim(postText) == "" || Text.Trim(email) == "" then None
      else Some(ApplyRoutes.ApplyBody(
        postText := Some(Text.Trim(postText)),
        detectedEmail := Some(Text.Trim(email)),
        detectedRole := TrimmedRole(RoleFrom(captures)),
        emailBody := None))
  }

  /**
   * The body the send button posts, or None when the trimmed editor text
   * is empty and only an alert is shown. The post's own fields are sent
   * as they were detected.
   */
  function SendRequest(editor: string, postText: string, detectedEmail: Option<string>, detectedRole: Option<string>)
    : Option<ApplyRoutes.ApplyBody>
  {
    var body := Text.Trim(editor);
    if body == "" then None
    else Some(ApplyRoutes.ApplyBody(Some(postText), detectedEmail, detectedRole, Some(body)))
  }

  /** The rewrite button's `(currentEmail, prompt)`, or None for a blank prompt. */
  function RewriteRequest(promptInput: string, editor: string): Option<(string, string)> {
    var prompt := Text.Trim(promptInput);
    if prompt == "" then None else Some((editor, prompt))
  }

  /** The path of `API_BASE_URL`, which already ends in "/api". */
  const ApiPath := "/api"

  /** The send button's request path. */
  function SendPath(): string { ApiPath + "/apply" }

  /** The rewrite button's request path. */
  function RewritePath(): string { ApiPath + "/apply/rewrite" }

  /** The draft request's path as `handleQuickApply` builds it: "/api" a second time. */
  function DraftPathAsWritten(): string { ApiPath + "/api/apply" }

  /** The draft request's path as the send button builds it. */
  function DraftPath(): string { ApiPath + "/apply" }

  // ---------------------------------------------------------------------
  // Waiting for the overlay
  // ---------------------------------------------------------------------

  const MaxRetries := 15

  function Pow2(k: nat): nat {
    if k == 0 then 1 else 2 * Pow2(k - 1)
  }

  /** `Math.min(50 * Math.pow(2, retries), 500)`. */
  function Delay(retries: nat): nat {
    if 50 * Pow2(retries) < 500 then 50 * Pow2(retries) else 500
  }

  /** The sum of the first `n` delays. */
  function TotalDelay(n: nat): nat {
    if n == 0 then 0 else TotalDelay(n - 1) + Delay(n - 1)
  }

  /**
   * The wait loop of `openOverlay`. `ready(k)` says whether the wrapper
   * and the editor are both found on attempt `k`. The loop stops at the
   * first attempt that finds them, or after 15 attempts; between
   * attempts it waits the backoff delay.
   */
  method WaitForEditor(ready: nat -> bool) returns (found: bool, retries: nat, waits: seq<nat>)
    ensures retries <= MaxRetries && |waits| == retries
    ensures forall k :: 0 <= k < retries ==> waits[k] == Delay(k) && !ready(k)
    ensures found <==> retries < MaxRetries
    ensures found ==> ready(retries)
  {
    retries := 0;
    waits := [];
    found := false;
    while retries < MaxRetries
      invariant retries <= MaxRetries && |waits| == retries
      invariant forall k :: 0 <= k < retries ==> waits[k] == Delay(k) && !ready(k)
      invariant !found
    {
      if ready(retries) {
        found := true;
        break;
      }
      waits := waits + [Delay(retries)];
      retries := retries + 1;
    }
  }

  // ---------------------------------------------------------------------
  // Buttons in the feed
  // ---------------------------------------------------------------------

  /**
   * `processPosts` over the posts in the feed: `buttons[k]` counts the
   * Quick Apply buttons in post `k`, and `actionBar[k]` says whether the
   * post has an action bar to put one in.
   */
  method ProcessPosts(buttons: array<nat>, actionBar: seq<bool>)
    requires buttons.Length == |actionBar|
    modifies buttons
    ensures forall k :: 0 <= k < buttons.Length ==>
      buttons[k] == (if old(buttons[k]) == 0 && actionBar[k] then 1 else old(buttons[k]))
  {
    var k := 0;
    while k < buttons.Length
      invariant 0 <= k <= buttons.Length
      invariant forall j :: 0 <= j < k ==>
        buttons[j] == (if old(buttons[j]) == 0 && actionBar[j] then 1 else old(buttons[j]))
      invariant forall j :: k <= j < buttons.Length ==> buttons[j] == old(buttons[j])
    {
      if buttons[k] == 0 && actionBar[k] {
        buttons[k] := 1;
      }
      k := k + 1;
    }
  }

  /** The button counts after `processPosts`. */
  function Processed(buttons: seq<nat>, actionBar: seq<bool>): (r: seq<nat>)
    requires |buttons| == |actionBar|
  {
    seq(|buttons|, k requires 0 <= k < |buttons| => if buttons[k] == 0 && actionBar[k] then 1 else buttons[k])
  }

  // ---------------------------------------------------------------------
  // Properties
  // ---------------------------------------------------------------------

  /**
   * `extractEmail` returns the leftmost match, the longest one there, and
   * null exactly when nothing in the text matches.
   */
  lemma ExtractEmailIsFirstMatch(text: string)
    ensures ExtractEmail(text).None? <==> forall i: nat :: !EmailScan.MatchesAt(text, i)
    ensures ExtractEmail(text).Some? ==>
      exists i: nat, j: nat ::
        && EmailScan.IsMatch(text, i, j) && ExtractEmail(text).value == text[i..j]
        && (forall i': nat :: i' < i ==> !EmailScan.MatchesAt(text, i'))
        && (forall j': nat :: EmailScan.IsMatch(text, i, j') ==> j' <= j)
  {
    EmailScan.FirstMatchIsLeftmostLongest(text);
  }

  /**
   * The role is the trimmed first non-empty capture: every earlier
   * pattern captured nothing; with no capture at all it is null.
   */
  lemma {:induction false} RoleIsFirstCapture(captures: Captures)
    ensures RoleFrom(captures).None? <==> forall k :: 0 <= k < |captures| ==> !Truthy(captures[k])
    ensures RoleFrom(captures).Some? ==>
      exists k :: && 0 <= k < |captures| && Truthy(captures[k])
                  && RoleFrom(captures).value == Text.Trim(captures[k].value)
                  && forall j :: 0 <= j < k ==> !Truthy(captures[j])
  {
    if captures != [] {
      if Truthy(captures[0]) {
        assert RoleFrom(captures).value == Text.Trim(captures[0].value);
      } else {
        RoleIsFirstCapture(captures[1..]);
        SkipFalsyFirst(captures);
      }
    }
  }

  /** A falsy first capture leaves the role to the captures after it. */
  lemma SkipFalsyFirst(captures: Captures)
    requires captures != [] && !Truthy(captures[0])
    requires var rest := captures[1..];
      && (RoleFrom(rest).None? <==> forall k :: 0 <= k < |rest| ==> !Truthy(rest[k]))
      && (RoleFrom(rest).Some? ==>
            exists k :: && 0 <= k < |rest| && Truthy(rest[k])
                        && RoleFrom(rest).value == Text.Trim(rest[k].value)
                        && forall j :: 0 <= j < k ==> !Truthy(rest[j]))
    ensures RoleFrom(captures).None? <==> forall k :: 0 <= k < |captures| ==> !Truthy(captures[k])
    ensures RoleFrom(captures).Some? ==>
      exists k :: && 0 <= k < |captures| && Truthy(captures[k])
                  && RoleFrom(captures).value == Text.Trim(captures[k].value)
                  && forall j :: 0 <= j < k ==> !Truthy(captures[j])
  {
    var rest := captures[1..];
    assert RoleFrom(captures) == RoleFrom(rest);
    if RoleFrom(rest).None? {
      forall k | 0 <= k < |captures| ensures !Truthy(captures[k]) {
        if k > 0 {
          assert captures[k] == rest[k - 1];
        }
      }
    } else {
      var k :| && 0 <= k < |rest| && Truthy(rest[k])
               && RoleFrom(rest).value == Text.Trim(rest[k].value)
               && forall j :: 0 <= j < k ==> !Truthy(rest[j]);
      assert captures[k + 1] == rest[k];
      forall j | 0 <= j < k + 1 ensures !Truthy(captures[j]) {
        if j > 0 {
          assert captures[j] == rest[j - 1];
        }
      }
    }
  }

  /** A post is a job post exactly when its lower-cased text contains one of the keywords. */
  lemma {:induction false} IsJobPostIff(text: string)
    ensures IsJobPost(text) <==>
      exists k :: 0 <= k < |JobKeywords| && Text.Contains(Text.Lower(text), JobKeywords[k])
  {
    AnyKeywordIff(Text.Lower(text), JobKeywords);
  }

  lemma {:induction false} AnyKeywordIff(t: string, keywords: seq<string>)
    ensures AnyKeyword(t, keywords) <==> exists k :: 0 <= k < |keywords| && Text.Contains(t, keywords[k])
  {
    if keywords != [] {
      AnyKeywordIff(t, keywords[1..]);
      if AnyKeyword(t, keywords[1..]) {
        var k :| 0 <= k < |keywords[1..]| && Text.Contains(t, keywords[1..][k]);
        assert Text.Contains(t, keywords[k + 1]);
      }
      if exists k :: 0 <= k < |keywords| && Text.Contains(t, keywords[k]) {
        var k :| 0 <= k < |keywords| && Text.Contains(t, keywords[k]);
        if k > 0 {
          assert keywords[k] == keywords[1..][k - 1];
        }
      }
    }
  }

  /** The delays double from 50 ms and stop growing at 500 ms. */
  lemma DelaySchedule()
    ensures Delay(0) == 50 && Delay(1) == 100 && Delay(2) == 200 && Delay(3) == 400
    ensures forall k: nat :: k >= 4 ==> Delay(k) == 500
  {
    assert Pow2(3) == 8;
    forall k: nat | k >= 4 ensures Delay(k) == 500 {
      Pow2Grows(k);
    }
  }

  lemma {:induction false} Pow2Grows(k: nat)
    requires k >= 4
    ensures Pow2(k) >= 16
  {
    if k > 4 {
      Pow2Grows(k - 1);
    } else {
      assert Pow2(4) == 16 by { assert Pow2(3) == 8; }
    }
  }

  /** Every delay is between 50 and 500 ms, so all waits together take at most 6250 ms. */
  lemma {:induction false} WaitBounded(n: nat)
    requires n <= MaxRetries
    ensures forall k: nat :: 50 <= Delay(k) <= 500
    ensures TotalDelay(n) <= 50 + 100 + 200 + 400 + 500 * 11
  {
    DelaySchedule();
    forall k: nat ensures 50 <= Delay(k) <= 500 {
      if k >= 4 { } else { assert k == 0 || k == 1 || k == 2 || k == 3; }
    }
    assert TotalDelay(4) == 750;
    if n > 4 {
      TotalDelayTail(n);
    }
  }

  lemma {:induction false} TotalDelayTail(n: nat)
    requires 4 <= n
    requires forall k: nat :: k >= 4 ==> Delay(k) == 500
    requires TotalDelay(4) == 750
    ensures TotalDelay(n) == 750 + 500 * (n - 4)
  {
    if n > 4 {
      TotalDelayTail(n - 1);
    }
  }

  /** A non-blank string, trimmed, passes the server's "filled" test. */
  lemma TrimmedIsFilled(s: string)
    requires !Text.AllSpace(s)
    ensures ApplyRoutes.Filled(Some(Text.Trim(s)))
  {
    Text.TrimIdempotent(s);
  }

  /**
   * Whatever the text, a draft request the extension sends passes the
   * server's checks: it has no body to send, and a non-blank post text
   * and address. It is withheld exactly when no address is found or the
   * text is blank.
   */
  lemma GenerateRequestPassesChecks(postText: string, captures: Captures)
    ensures GenerateRequest(postText, captures).None? <==>
      ExtractEmail(postText).None? || Text.AllSpace(postText)
    ensures GenerateRequest(postText, captures).Some? ==>
      var b := GenerateRequest(postText, captures).value;
      && !ApplyRoutes.Filled(b.emailBody)
      && ApplyRoutes.Filled(b.postText) && ApplyRoutes.Filled(b.detectedEmail)
  {
    match ExtractEmail(postText)
    case None =>
    case Some(email) =>
      EmailScan.FirstMatchHasAt(postText);
      NotBlank(email);
      if !Text.AllSpace(postText) {
        TrimmedIsFilled(postText);
        TrimmedIsFilled(email);
      }
  }

  /** A string holding '@' is not all whitespace. */
  lemma NotBlank(s: string)
    requires '@' in s
    ensures !Text.AllSpace(s)
  {
    var i :| 0 <= i < |s| && s[i] == '@';
    assert !Text.IsSpace(s[i]);
  }

  /**
   * The send button posts only a non-blank body, and then the server
   * takes the send branch.
   */
  lemma SendRequestTakesSendBranch(editor: string, postText: string, detectedEmail: Option<string>,
                                   detectedRole: Option<string>)
    ensures SendRequest(editor, postText, detectedEmail, detectedRole).None? <==> Text.AllSpace(editor)
    ensures SendRequest(editor, postText, detectedEmail, detectedRole).Some? ==>
      ApplyRoutes.Filled(SendRequest(editor, postText, detectedEmail, detectedRole).value.emailBody)
  {
    if !Text.AllSpace(editor) {
      TrimmedIsFilled(editor);
    }
  }

  /**
   * The draft request as written goes to "/api/api/apply", which lies
   * under none of the three mount points: the server answers 404 and the
   * draft is never generated.
   */
  lemma DraftPathAsWrittenIsNotFound()
    ensures DraftPathAsWritten() == "/api/api/apply"
    ensures Server.Route(DraftPathAsWritten()).None?
  {
    var p := DraftPathAsWritten();
    assert p == "/api/api/apply";
    assert |p| == 14;
    assert !Text.StartsWith(p, "/api/auth/") by { assert p[6] != "/api/auth/"[6]; }
    assert !Text.StartsWith(p, "/api/profile/") by { assert p[5] != "/api/profile/"[5]; }
    assert !Text.StartsWith(p, "/api/apply/") by { assert p[8] != "/api/apply/"[8]; }
  }

  /**
   * With the corrected path every button reaches its handler: the draft
   * and send buttons the apply route, the rewrite button the rewrite
   * route.
   */
  lemma ButtonsReachTheirRoutes()
    ensures Server.Route(DraftPath()) == Some(Server.ApplyPost)
    ensures Server.Route(SendPath()) == Some(Server.ApplyPost)
    ensures Server.Route(RewritePath()) == Some(Server.RewritePost)
  {
    var a := "/api/apply";
    assert DraftPath() == SendPath() == a;
    assert a != "/api/auth" && a != "/api/profile";
    assert !Text.StartsWith(a, "/api/auth/") by { assert a[6] != "/api/auth/"[6]; }
    assert !Text.StartsWith(a, "/api/profile/") by { assert a[5] != "/api/profile/"[5]; }
    var r := RewritePath();
    assert r == "/api/apply/rewrite";
    assert r != "/api/auth" && r != "/api/profile" && r != "/api/apply";
    assert !Text.StartsWith(r, "/api/auth/") by { assert r[6] != "/api/auth/"[6]; }
    assert !Text.StartsWith(r, "/api/profile/") by { assert r[5] != "/api/profile/"[5]; }
    assert Text.StartsWith(r, "/api/apply/") by { assert r[..11] == "/api/apply/"; }
    assert r[10..] == "/rewrite";
  }

  /** A blank prompt issues no rewrite; otherwise the trimmed prompt is sent. */
  lemma RewriteNeedsPrompt(promptInput: string, editor: string)
    ensures RewriteRequest(promptInput, editor).None? <==> Text.AllSpace(promptInput)
    ensures RewriteRequest(promptInput, editor).Some? ==>
      var (current, prompt) := RewriteRequest(promptInput, editor).value;
      current == editor && prompt != "" && Text.IsTrimmed(prompt)
  {
  }

  /**
   * `processPosts` leaves at most one button in each post, adds one only
   * to a post without one that has an action bar, and a second pass
   * changes nothing.
   */
  lemma ProcessedAtMostOne(buttons: seq<nat>, actionBar: seq<bool>)
    requires |buttons| == |actionBar|
    requires forall k :: 0 <= k < |buttons| ==> buttons[k] <= 1
    ensures forall k :: 0 <= k < |buttons| ==> Processed(buttons, actionBar)[k] <= 1
    ensures forall k :: 0 <= k < |buttons| ==>
      (Processed(buttons, actionBar)[k] == 1 <==> buttons[k] == 1 || actionBar[k])
    ensures Processed(Processed(buttons, actionBar), actionBar) == Processed(buttons, actionBar)
  {
  }

  /** `ProcessPosts` computes `Processed`. */
  lemma ProcessPostsIsProcessed(before: seq<nat>, after: seq<nat>, actionBar: seq<bool>)
    requires |before| == |after| == |actionBar|
    requires forall k :: 0 <= k < |after| ==>
      after[k] == (if before[k] == 0 && actionBar[k] then 1 else before[k])
    ensures after == Processed(before, actionBar)
  {
  }
}
