/**
 * `generateApplicationEmail` of `backend/services/geminiClient.js`: the
 * test-mode template, the excerpt of the job post the prompt embeds, the
 * post-processing of the model's output into a subject and a markdown
 * body, and the wrapping of every failure.
 *
 * The chat-completion call is an oracle from the request's varying parts
 * to its answer; the fixed wording of the prompt is not modelled.
 */
module GeminiClient {
  import opened Wrappers
  import Text
  import opened UserProfile

  const FailurePrefix := "Email generation failed: "
  const MissingKey := "Groq API key not found"

  /** How much of the job post the prompt quotes. */
  const ExcerptLength := 2000

  datatype Draft = Draft(subject: string, bodyMarkdown: string)

  datatype Generation = Generated(draft: Draft) | GenerationFailed(message: string)

  /** The parts of the prompt that vary from call to call. */
  datatype Request = Request(profile: Fields, role: string, excerpt: string)

  /**
   * What the call answers: the first choice's content (None when the
   * response has none), or an error whose message is reported.
   */
  datatype Completion = Content(content: Option<string>) | CallFailed(message: string)

  type Model = Request -> Completion

  function DefaultSubject(role: string): string {
    "Application for - " + role
  }

  /** The body returned in test mode. */
  function TestBody(p: Fields, role: string): string {
    "Dear Hiring Manager,\n\nI am " + Interpolate(p.fullName) + ", currently working as a "
    + Interpolate(p.currentRole) + " with expertise in " + Interpolate(p.skills) + ". "
    + Interpolate(p.bio) + "\n\nI noticed your opening for the **" + role
    + "** and I have hands-on experience in this area through projects and roles aligned to this work."
    + "\n\nMy resume and portfolio are attached. If you'd like more details or to schedule a call, please contact me."
    + "\n\nBest regards,\n" + Interpolate(p.fullName)
  }

  /** The UTF-16 code units of one character: two outside the Basic Multilingual Plane. */
  function Units(c: char): nat {
    if c as int >= 0x1_0000 then 2 else 1
  }

  /** The length JavaScript reports: UTF-16 code units. */
  function Utf16Length(s: string): nat {
    if s == [] then 0 else Units(s[0]) + Utf16Length(s[1..])
  }

  /**
   * The longest prefix of `s` of at most `budget` code units. Where
   * JavaScript would cut a surrogate pair in two, the whole character
   * is left out.
   */
  function TakeUnits(s: string, budget: nat): string {
    if s == [] || Units(s[0]) > budget then []
    else [s[0]] + TakeUnits(s[1..], budget - Units(s[0]))
  }

  /** `jobPostText.substring(0, 2000)`: the first 2000 code units. */
  function Excerpt(text: string): string {
    TakeUnits(text, ExcerptLength)
  }

  // ---------------------------------------------------------------------
  // Post-processing
  // ---------------------------------------------------------------------

  /** `.map(l => l.trim()).filter(Boolean)`: the non-empty trimmed pieces, in order. */
  function TrimmedLines(parts: seq<string>): seq<string> {
    if parts == [] then []
    else (if Text.Trim(parts[0]) == "" then [] else [Text.Trim(parts[0])]) + TrimmedLines(parts[1..])
  }

  /**
   * The non-empty trimmed lines of the output. Splitting on "\n" and
   * trimming gives the same lines as splitting on /\r?\n/ and trimming,
   * since a carriage return is whitespace.
   */
  function OutputLines(raw: string): seq<string> {
    TrimmedLines(Text.Split(raw, '\n'))
  }

  /**
   * The subject is the first line, or the default one; the body is the
   * output with the first occurrence of the subject removed, trimmed, or
   * failing that the remaining lines; then the fences are removed.
   */
  function PostProcess(raw: string, role: string): Draft {
    var lines := OutputLines(raw);
    var subject := if |lines| > 0 then lines[0] else DefaultSubject(role);
    var rest := Text.Trim(Text.ReplaceFirst(raw, subject, ""));
    var body := if rest == "" && |lines| > 1 then Text.Join(lines[1..], "\n") else rest;
    Draft(subject, Text.Trim(Text.RemoveFences(body, true)))
  }

  /**
   * The whole call: the template in test mode, an error without a key,
   * else the model's answer post-processed; every error is wrapped.
   */
  function Generate(p: Fields, text: string, role: string, testMode: bool, hasKey: bool, model: Model): Generation {
    if testMode then Generated(Draft(DefaultSubject(role), TestBody(p, role)))
    else if !hasKey then GenerationFailed(FailurePrefix + MissingKey)
    else match model(Request(p, role, Excerpt(text)))
      case CallFailed(m) => GenerationFailed(FailurePrefix + m)
      case Content(c) => Generated(PostProcess(OrElse(c, ""), role))
  }

  // ---------------------------------------------------------------------
  // Properties
  // ---------------------------------------------------------------------

  /**
   * The prompt quotes a prefix of the post of at most 2000 code units:
   * all of a shorter post, and otherwise exactly 2000 units, or 1999
   * when the next character is a surrogate pair the cut would split.
   */
  lemma ExcerptIsPrefix(text: string)
    ensures |Excerpt(text)| <= |text| && Excerpt(text) == text[..|Excerpt(text)|]
    ensures Utf16Length(Excerpt(text)) <= ExcerptLength
    ensures Utf16Length(text) <= ExcerptLength ==> Excerpt(text) == text
    ensures Utf16Length(text) > ExcerptLength ==>
      && |Excerpt(text)| < |text|
      && Utf16Length(Excerpt(text)) >= ExcerptLength - 1
      && (Utf16Length(Excerpt(text)) == ExcerptLength || Units(text[|Excerpt(text)|]) == 2)
  {
    TakeUnitsCorrect(text, ExcerptLength);
  }

  /**
   * `TakeUnits` keeps a prefix within the budget and stops only where
   * the next character would not fit; a string within budget is kept whole.
   */
  lemma {:induction false} TakeUnitsCorrect(s: string, budget: nat)
    ensures var r := TakeUnits(s, budget);
      && |r| <= |s| && r == s[..|r|] && Utf16Length(r) <= budget
      && (|r| < |s| ==> Utf16Length(r) + Units(s[|r|]) > budget)
      && (Utf16Length(s) <= budget ==> r == s)
  {
    if s != [] && Units(s[0]) <= budget {
      var rest := TakeUnits(s[1..], budget - Units(s[0]));
      TakeUnitsCorrect(s[1..], budget - Units(s[0]));
      assert TakeUnits(s, budget) == [s[0]] + rest;
      assert s[..1 + |rest|] == [s[0]] + s[1..][..|rest|];
      if |rest| < |s[1..]| {
        assert s[1 + |rest|] == s[1..][|rest|];
      }
    }
  }

  /** Once a common prefix holds 2000 code units, the rest of the post is never quoted. */
  lemma {:induction false} TakeUnitsPrefix(c: string, s: string, budget: nat)
    requires c <= s && Utf16Length(c) >= budget
    ensures TakeUnits(s, budget) == TakeUnits(c, budget)
  {
    if c != [] && Units(c[0]) <= budget {
      assert s[0] == c[0];
      assert c[1..] <= s[1..];
      TakeUnitsPrefix(c[1..], s[1..], budget - Units(c[0]));
    }
  }

  /** Two posts that share a prefix of 2000 code units give the same result. */
  lemma OnlyExcerptMatters(p: Fields, c: string, t1: string, t2: string, role: string, testMode: bool,
                           hasKey: bool, model: Model)
    requires c <= t1 && c <= t2 && Utf16Length(c) >= ExcerptLength
    ensures Generate(p, t1, role, testMode, hasKey, model) == Generate(p, t2, role, testMode, hasKey, model)
  {
    TakeUnitsPrefix(c, t1, ExcerptLength);
    TakeUnitsPrefix(c, t2, ExcerptLength);
  }

  /** Every failure, a missing key included, carries the prefix. */
  lemma FailuresPrefixed(p: Fields, text: string, role: string, testMode: bool, hasKey: bool, model: Model)
    ensures var r := Generate(p, text, role, testMode, hasKey, model);
      r.GenerationFailed? ==> Text.StartsWith(r.message, FailurePrefix)
    ensures !testMode && !hasKey ==>
      Generate(p, text, role, testMode, hasKey, model) == GenerationFailed(FailurePrefix + MissingKey)
  {
    var r := Generate(p, text, role, testMode, hasKey, model);
    if r.GenerationFailed? {
      var m :| r.message == FailurePrefix + m;
      assert (FailurePrefix + m)[..|FailurePrefix|] == FailurePrefix;
    }
  }

  /** In test mode the subject is "Application for - " and the role. */
  lemma TestModeSubject(p: Fields, text: string, role: string, hasKey: bool, model: Model)
    ensures Generate(p, text, role, true, hasKey, model).Generated?
    ensures Generate(p, text, role, true, hasKey, model).draft.subject == DefaultSubject(role)
  {
  }

  /** No line is kept exactly when every piece is whitespace. */
  lemma {:induction false} NoneKept(parts: seq<string>)
    ensures TrimmedLines(parts) == [] <==> forall k :: 0 <= k < |parts| ==> Text.AllSpace(parts[k])
  {
    if parts != [] {
      NoneKept(parts[1..]);
      assert forall k :: 1 <= k < |parts| ==> parts[k] == parts[1..][k - 1];
    }
  }

  /** The first line kept is the trimmed first piece that is not whitespace, the `k`th. */
  lemma {:induction false} FirstKept(parts: seq<string>) returns (k: nat)
    requires TrimmedLines(parts) != []
    ensures k < |parts| && TrimmedLines(parts)[0] == Text.Trim(parts[k])
    ensures forall j :: 0 <= j < k ==> Text.AllSpace(parts[j])
  {
    if Text.Trim(parts[0]) == "" {
      var k' := FirstKept(parts[1..]);
      SkipBlankFirst(parts, k');
      k := k' + 1;
    } else {
      k := 0;
      assert TrimmedLines(parts) == [Text.Trim(parts[0])] + TrimmedLines(parts[1..]);
    }
  }

  /** A blank first piece moves the first kept line one piece further. */
  lemma SkipBlankFirst(parts: seq<string>, k': nat)
    requires parts != [] && Text.Trim(parts[0]) == ""
    requires TrimmedLines(parts[1..]) != []
    requires k' < |parts[1..]| && TrimmedLines(parts[1..])[0] == Text.Trim(parts[1..][k'])
    requires forall j :: 0 <= j < k' ==> Text.AllSpace(parts[1..][j])
    ensures k' + 1 < |parts| && TrimmedLines(parts)[0] == Text.Trim(parts[k' + 1])
    ensures forall j :: 0 <= j < k' + 1 ==> Text.AllSpace(parts[j])
  {
    assert TrimmedLines(parts)[0] == Text.Trim(parts[k' + 1]) by {
      assert TrimmedLines(parts) == TrimmedLines(parts[1..]);
      assert parts[1..][k'] == parts[k' + 1];
    }
    forall j | 0 <= j < k' + 1 ensures Text.AllSpace(parts[j]) {
      if j == 0 {
        assert Text.Trim(parts[0]) == [];
      } else {
        assert parts[j] == parts[1..][j - 1];
      }
    }
  }

  /** Every line kept is non-empty, trimmed, and free of a character no piece holds. */
  lemma {:induction false} KeptAreLines(parts: seq<string>, c: char)
    requires forall k :: 0 <= k < |parts| ==> c !in parts[k]
    ensures forall y :: y in TrimmedLines(parts) ==> y != "" && c !in y && Text.IsTrimmed(y)
  {
    if parts != [] {
      KeptAreLines(parts[1..], c);
      Text.TrimKeepsOut(parts[0], c);
    }
  }

  /**
   * The subject is the first piece of the output, split at line breaks,
   * that is not blank, trimmed: one line, with no surrounding whitespace.
   * With no such piece it is "Application for - " and the role.
   */
  lemma SubjectIsFirstLine(raw: string, parts: seq<string>, role: string)
    requires parts == Text.Split(raw, '\n')
    ensures (forall k :: 0 <= k < |parts| ==> Text.AllSpace(parts[k])) ==>
      PostProcess(raw, role).subject == DefaultSubject(role)
    ensures !(forall k :: 0 <= k < |parts| ==> Text.AllSpace(parts[k])) ==>
      var subject := PostProcess(raw, role).subject;
      && subject != "" && '\n' !in subject && Text.IsTrimmed(subject)
      && exists k :: && 0 <= k < |parts| && subject == Text.Trim(parts[k])
                     && forall j :: 0 <= j < k ==> Text.AllSpace(parts[j])
  {
    var lines := TrimmedLines(parts);
    NoneKept(parts);
    if lines != [] {
      var k := FirstKept(parts);
      KeptAreLines(parts, '\n');
      assert lines[0] in lines;
    }
  }

  /** The body is trimmed and holds no code fence. */
  lemma BodyIsClean(raw: string, role: string)
    ensures Text.IsTrimmed(PostProcess(raw, role).bodyMarkdown)
    ensures Text.NoFence(PostProcess(raw, role).bodyMarkdown)
  {
    var lines := OutputLines(raw);
    var subject := if |lines| > 0 then lines[0] else DefaultSubject(role);
    var rest := Text.Trim(Text.ReplaceFirst(raw, subject, ""));
    var body := if rest == "" && |lines| > 1 then Text.Join(lines[1..], "\n") else rest;
    Text.RemoveFencesLeavesNoFence(body, true);
    Text.NoFenceTrim(Text.RemoveFences(body, true));
  }

  /** The pieces of a whitespace string are whitespace. */
  lemma {:induction false} SplitOfSpace(s: string, c: char)
    requires Text.AllSpace(s)
    ensures forall k :: 0 <= k < |Text.Split(s, c)| ==> Text.AllSpace(Text.Split(s, c)[k])
    decreases |s|
  {
    match Text.IndexOf(s, [c])
    case None =>
    case Some(i) =>
      SplitOfSpace(s[i + 1..], c);
      var r := Text.Split(s, c);
      assert r == [s[..i]] + Text.Split(s[i + 1..], c);
      forall k | 0 <= k < |r| ensures Text.AllSpace(r[k]) {
        if k > 0 { assert r[k] == Text.Split(s[i + 1..], c)[k - 1]; }
      }
  }

  /** Cutting a piece out of a whitespace string leaves whitespace. */
  lemma CutOfSpace(s: string, p: string)
    requires Text.AllSpace(s)
    ensures Text.AllSpace(Text.ReplaceFirst(s, p, ""))
  {
    match Text.IndexOf(s, p)
    case None =>
    case Some(i) =>
      var r := Text.ReplaceFirst(s, p, "");
      assert r == s[..i] + s[i + |p|..];
      forall k | 0 <= k < |r| ensures Text.IsSpace(r[k]) {
        if k >= i { assert r[k] == s[k + |p|]; }
      }
  }

  /** Output that is empty or only whitespace gives the default subject and an empty body. */
  lemma BlankOutput(raw: string, role: string)
    requires Text.AllSpace(raw)
    ensures PostProcess(raw, role) == Draft(DefaultSubject(role), "")
  {
    SplitOfSpace(raw, '\n');
    NoneKept(Text.Split(raw, '\n'));
    CutOfSpace(raw, DefaultSubject(role));
    assert Text.RemoveFences("", true) == "";
    assert Text.Trim("") == "" by { assert Text.AllSpace(""); }
  }
}
