/**
 * `backend/routes/applyRoutes.js`: `POST /api/apply`, which either sends
 * an edited application or drafts one, and `POST /api/apply/rewrite`,
 * which asks the model to rewrite a draft.
 *
 * The request has passed the authentication middleware, so the handler
 * gets the token's claims. Collaborators whose work is modelled
 * elsewhere or not at all are parameters: the mailer's answer for a
 * message (its run is `Mailer.SendApplication`), the markdown renderer,
 * and the chat-completion model. Body values that are not strings are
 * taken as absent.
 */
module ApplyRoutes {
  import opened Wrappers
  import Text
  import opened UserProfile
  import Jwt
  import ProfileStore
  import JobParser
  import Mailer
  import GeminiClient

  const ProfileNotFound := "Profile not found. Please set up your profile first."
  const NoRecipient := "No email found to send to."
  const PostTextRequired := "Post text is required."
  const EmailRequired := "Email address is required."
  const GenerationFailed := "Failed to generate email"
  const KeyNotConfigured := "Groq API key not configured"
  const RewriteFailed := "Failed to rewrite email"

  /** The role the subject falls back to when no role is known. */
  const LastResortRole := "Position"

  /** The JSON body of `POST /api/apply`. */
  datatype ApplyBody = ApplyBody(
    postText: Option<string>,
    detectedEmail: Option<string>,
    detectedRole: Option<string>,
    emailBody: Option<string>)

  /**
   * The JSON answer. `Crashed` is the 500 whose error is the message of
   * the TypeError the job parser throws (that text is the runtime's).
   */
  datatype Reply =
    | Sent(message: string)
    | Drafted(generatedEmail: string, subject: string)
    | Refused(status: int, error: string)
    | Crashed

  /** The reply, and the message handed to the mailer, if any. */
  datatype Handled = Handled(reply: Reply, mailed: Option<Mailer.Message>)

  /** The collaborators of one request. */
  datatype World = World(
    testMode: bool,
    hasKey: bool,
    model: GeminiClient.Model,
    render: string -> string,
    mail: Mailer.Message -> Mailer.Outcome)

  /**
   * `getProfile`: the document the claims resolve to, without its
   * password, or the error thrown when there is none.
   */
  function GetProfile(rs: seq<ProfileStore.Profile>, who: Jwt.Claims): (r: Option<Fields>)
  {
    match ProfileStore.Resolve(rs, who)
    case Some(i) => if i < |rs| then Some(WithoutPassword(rs[i].fields)) else None
    case None => None
  }

  /** `value && typeof value === 'string' && value.trim().length > 0`. */
  predicate Filled(o: Option<string>) {
    Truthy(o) && Text.Trim(o.value) != ""
  }

  /** `jobDetails.role || detectedRole || 'Position'`. */
  function RoleChain(role: string, detectedRole: Option<string>): string {
    if role != "" then role
    else if Truthy(detectedRole) then detectedRole.value
    else LastResortRole
  }

  /** The subject of a sent application. */
  function SendSubject(role: string, sender: Fields): string {
    "Application for " + role + " - " + Interpolate(sender.fullName)
  }

  /** `POST /api/apply`. */
  function Apply(rs: seq<ProfileStore.Profile>, who: Jwt.Claims, b: ApplyBody, w: World): Handled {
    match GetProfile(rs, who)
    case None => Handled(Refused(500, ProfileNotFound), None)
    case Some(profile) =>
      if Filled(b.emailBody) then SendBranch(profile, b, w)
      else Handled(DraftBranch(profile, b, w), None)
  }

  /** The branch that sends the edited body. */
  function SendBranch(profile: Fields, b: ApplyBody, w: World): Handled
    requires Filled(b.emailBody)
  {
    match JobParser.ExtractJobDetails(b.postText, b.detectedEmail, b.detectedRole)
    case None => Handled(Crashed, None)
    case Some(details) =>
      var finalEmail := Or(details.email, b.detectedEmail);
      if !Truthy(finalEmail) then Handled(Refused(400, NoRecipient), None)
      else
        var subject := SendSubject(RoleChain(details.role, b.detectedRole), profile);
        var m := Mailer.Message(finalEmail.value, subject, w.render(b.emailBody.value), profile);
        match w.mail(m)
        case Done => Handled(Sent("Application sent to " + finalEmail.value), Some(m))
        case Failed(e) => Handled(Refused(500, e), Some(m))
  }

  /** The branch that drafts an application and sends nothing. */
  function DraftBranch(profile: Fields, b: ApplyBody, w: World): Reply {
    if !Filled(b.postText) then Refused(400, PostTextRequired)
    else if !Filled(b.detectedEmail) then Refused(400, EmailRequired)
    else
      match JobParser.ExtractJobDetails(b.postText, b.detectedEmail, b.detectedRole)
      case None => Crashed
      case Some(details) =>
        var finalRole := RoleChain(details.role, b.detectedRole);
        DraftReply(GeminiClient.Generate(profile, b.postText.value, finalRole, w.testMode, w.hasKey, w.model), finalRole)
  }

  /**
   * The answer for what the generator returned: a failure or an empty body
   * is a 500; otherwise the markdown body with the generated subject, or
   * "Application for - <role>" when the subject is empty.
   */
  function DraftReply(g: GeminiClient.Generation, finalRole: string): (r: Reply)
    ensures !r.Crashed?
    ensures g.GenerationFailed? ==> r == Refused(500, g.message)
    ensures g.Generated? && g.draft.bodyMarkdown == "" ==> r == Refused(500, GenerationFailed)
    ensures g.Generated? && g.draft.bodyMarkdown != "" ==>
      && r.Drafted? && r.generatedEmail == g.draft.bodyMarkdown && r.subject != ""
      && (g.draft.subject != "" ==> r.subject == g.draft.subject)
      && (g.draft.subject == "" ==> r.subject == GeminiClient.DefaultSubject(finalRole))
  {
    match g
    case GenerationFailed(e) => Refused(500, e)
    case Generated(d) =>
      var subject := if d.subject != "" then d.subject else GeminiClient.DefaultSubject(finalRole);
      if d.bodyMarkdown == "" then Refused(500, GenerationFailed)
      else Drafted(d.bodyMarkdown, subject)
  }

  /** What `POST /api/apply/rewrite` answers. */
  datatype RewriteReply = Rewritten(text: string) | RewriteRefused(status: int, error: string)

  /** The varying parts of the rewrite prompt. */
  datatype RewriteRequest = RewriteRequest(instruction: Option<string>, currentEmail: Option<string>)

  /** `POST /api/apply/rewrite`; the fences are removed case-sensitively here. */
  function Rewrite(currentEmail: Option<string>, prompt: Option<string>, testMode: bool, hasKey: bool,
                   model: RewriteRequest -> GeminiClient.Completion): RewriteReply
  {
    if testMode then Rewritten(Interpolate(currentEmail) + "\n\n[Rewritten with: \"" + Interpolate(prompt) + "\"]")
    else if !hasKey then RewriteRefused(500, KeyNotConfigured)
    else match model(RewriteRequest(prompt, currentEmail))
      case CallFailed(_) => RewriteRefused(500, RewriteFailed)
      case Content(c) => Rewritten(Text.Trim(Text.RemoveFences(OrElse(c, ""), false)))
  }

  // ---------------------------------------------------------------------
  // Properties
  // ---------------------------------------------------------------------

  /**
   * The lookup is the one of the profile routes, and the profile handed
   * on never carries the password.
   */
  lemma ProfileWithoutPassword(rs: seq<ProfileStore.Profile>, who: Jwt.Claims)
    ensures GetProfile(rs, who).Some? <==> ProfileStore.Resolve(rs, who).Some?
    ensures GetProfile(rs, who).Some? ==>
      && GetProfile(rs, who).value.password.None?
      && GetProfile(rs, who).value == rs[ProfileStore.Resolve(rs, who).value].fields.(password := None)
  {
    ProfileStore.ResolvePriority(rs, who);
  }

  /** Without a profile nothing is sent and the answer is the 500 "Profile not found". */
  lemma NoProfileNoMail(rs: seq<ProfileStore.Profile>, who: Jwt.Claims, b: ApplyBody, w: World)
    requires ProfileStore.Resolve(rs, who).None?
    ensures Apply(rs, who, b, w) == Handled(Refused(500, ProfileNotFound), None)
  {
  }

  /** The `'Position'` fallback is never used: the job parser's role is never empty. */
  lemma PositionUnused(text: Option<string>, detectedEmail: Option<string>, detectedRole: Option<string>)
    requires JobParser.ExtractJobDetails(text, detectedEmail, detectedRole).Some?
    ensures var details := JobParser.ExtractJobDetails(text, detectedEmail, detectedRole).value;
      && RoleChain(details.role, detectedRole) == details.role
      && details.role == (if Truthy(detectedRole) then detectedRole.value else JobParser.DefaultRole)
  {
    JobParser.RoleNeverEmpty(text, detectedEmail, detectedRole);
    JobParser.ProvidedKept(text, detectedEmail, detectedRole);
  }

  /** `Apply` once the profile is found: the send branch for a non-blank body, else a draft. */
  lemma ApplyBranches(rs: seq<ProfileStore.Profile>, who: Jwt.Claims, b: ApplyBody, w: World)
    requires GetProfile(rs, who).Some?
    ensures Filled(b.emailBody) ==> Apply(rs, who, b, w) == SendBranch(GetProfile(rs, who).value, b, w)
    ensures !Filled(b.emailBody) ==>
      Apply(rs, who, b, w) == Handled(DraftBranch(GetProfile(rs, who).value, b, w), None)
  {
  }

  /**
   * The send branch mails exactly when a recipient is known; the message
   * goes to the parser's address, or to the detected one when that is
   * falsy, carries the rendered body and the profile, and its subject
   * names the role the parser settled on. The answer names the
   * recipient, or passes the mailer's error on as a 500.
   */
  lemma SendBranchMails(profile: Fields, b: ApplyBody, w: World)
    requires Filled(b.emailBody)
    ensures var h := SendBranch(profile, b, w);
      var details := JobParser.ExtractJobDetails(b.postText, b.detectedEmail, b.detectedRole);
      && (h.mailed.Some? <==> details.Some? && Truthy(Or(details.value.email, b.detectedEmail)))
      && (h.mailed.Some? ==>
            var m := h.mailed.value;
            && m.to != ""
            && m.to == Or(details.value.email, b.detectedEmail).value
            && m.bodyHtml == w.render(b.emailBody.value)
            && m.sender == profile
            && m.subject == SendSubject(details.value.role, profile)
            && (w.mail(m).Done? ==> h.reply == Sent("Application sent to " + m.to))
            && (w.mail(m).Failed? ==> h.reply == Refused(500, w.mail(m).message)))
      && (h.mailed.None? ==> h.reply == if details.None? then Crashed else Refused(400, NoRecipient))
  {
    match JobParser.ExtractJobDetails(b.postText, b.detectedEmail, b.detectedRole)
    case None =>
    case Some(details) =>
      PositionUnused(b.postText, b.detectedEmail, b.detectedRole);
      var finalEmail := Or(details.email, b.detectedEmail);
      if Truthy(finalEmail) {
        var m := Mailer.Message(finalEmail.value, SendSubject(details.role, profile), w.render(b.emailBody.value), profile);
        assert SendBranch(profile, b, w).mailed == Some(m);
      }
  }

  /**
   * A message goes to the mailer exactly when the profile exists, the
   * body is a non-blank string and a recipient is known.
   */
  lemma MailedOnlyWithBody(rs: seq<ProfileStore.Profile>, who: Jwt.Claims, b: ApplyBody, w: World)
    ensures Apply(rs, who, b, w).mailed.Some? <==>
      && GetProfile(rs, who).Some? && Filled(b.emailBody)
      && JobParser.ExtractJobDetails(b.postText, b.detectedEmail, b.detectedRole).Some?
      && Truthy(Or(JobParser.ExtractJobDetails(b.postText, b.detectedEmail, b.detectedRole).value.email, b.detectedEmail))
  {
    if GetProfile(rs, who).Some? {
      ApplyBranches(rs, who, b, w);
      if Filled(b.emailBody) {
        SendBranchMails(GetProfile(rs, who).value, b, w);
      }
    }
  }

  /**
   * With a blank body nothing is mailed. A missing post text or address
   * is refused with a 400 before the model is asked.
   */
  lemma DraftSendsNothing(rs: seq<ProfileStore.Profile>, who: Jwt.Claims, b: ApplyBody, w: World)
    requires GetProfile(rs, who).Some? && !Filled(b.emailBody)
    ensures Apply(rs, who, b, w).mailed.None?
    ensures !Filled(b.postText) ==> Apply(rs, who, b, w).reply == Refused(400, PostTextRequired)
    ensures Filled(b.postText) && !Filled(b.detectedEmail) ==>
      Apply(rs, who, b, w).reply == Refused(400, EmailRequired)
  {
  }

  /**
   * The send branch crashes exactly when the post text is missing and no
   * truthy address was given; the draft branch never does.
   */
  lemma CrashOnlyWhenSending(rs: seq<ProfileStore.Profile>, who: Jwt.Claims, b: ApplyBody, w: World)
    ensures Apply(rs, who, b, w).reply.Crashed? <==>
      GetProfile(rs, who).Some? && Filled(b.emailBody) && b.postText.None? && !Truthy(b.detectedEmail)
  {
    if GetProfile(rs, who).Some? {
      ApplyBranches(rs, who, b, w);
      if Filled(b.emailBody) {
        SendBranchMails(GetProfile(rs, who).value, b, w);
      } else {
        DraftNeverCrashes(GetProfile(rs, who).value, b, w);
      }
    }
  }

  /** With the post text and the address checked, the parser cannot throw. */
  lemma DraftNeverCrashes(profile: Fields, b: ApplyBody, w: World)
    ensures !DraftBranch(profile, b, w).Crashed?
  {
    if Filled(b.postText) && Filled(b.detectedEmail) {
      JobParser.ProvidedKept(b.postText, b.detectedEmail, b.detectedRole);
    }
  }

  /**
   * A draft is the model's post-processed answer for the parser's role:
   * its subject is the post-processed subject, never the fallback, and
   * the body is non-empty; no draft is produced from a blank answer.
   */
  lemma DraftIsPostProcessed(profile: Fields, b: ApplyBody, w: World)
    requires Filled(b.postText) && Filled(b.detectedEmail) && !w.testMode && w.hasKey
    ensures var role := JobParser.ExtractJobDetails(b.postText, b.detectedEmail, b.detectedRole).value.role;
      match w.model(GeminiClient.Request(profile, role, GeminiClient.Excerpt(b.postText.value)))
      case CallFailed(e) => DraftBranch(profile, b, w) == Refused(500, GeminiClient.FailurePrefix + e)
      case Content(c) =>
        var d := GeminiClient.PostProcess(OrElse(c, ""), role);
        && (d.bodyMarkdown != "" ==> DraftBranch(profile, b, w) == Drafted(d.bodyMarkdown, d.subject))
        && (Text.AllSpace(OrElse(c, "")) ==> DraftBranch(profile, b, w) == Refused(500, GenerationFailed))
  {
    JobParser.ProvidedKept(b.postText, b.detectedEmail, b.detectedRole);
    PositionUnused(b.postText, b.detectedEmail, b.detectedRole);
    var role := JobParser.ExtractJobDetails(b.postText, b.detectedEmail, b.detectedRole).value.role;
    match w.model(GeminiClient.Request(profile, role, GeminiClient.Excerpt(b.postText.value)))
    case CallFailed(e) =>
    case Content(c) =>
      var raw := OrElse(c, "");
      GeminiClient.SubjectIsFirstLine(raw, Text.Split(raw, '\n'), role);
      if Text.AllSpace(raw) {
        GeminiClient.BlankOutput(raw, role);
      }
  }

  /** A rewrite is trimmed and has no code fence; in test mode it extends the current email. */
  lemma RewriteIsClean(currentEmail: Option<string>, prompt: Option<string>, testMode: bool, hasKey: bool,
                       model: RewriteRequest -> GeminiClient.Completion)
    ensures var r := Rewrite(currentEmail, prompt, testMode, hasKey, model);
      !testMode && r.Rewritten? ==> Text.IsTrimmed(r.text) && Text.NoFence(r.text)
    ensures var r := Rewrite(currentEmail, prompt, testMode, hasKey, model);
      testMode ==> r.Rewritten? && Text.StartsWith(r.text, Interpolate(currentEmail))
    ensures !testMode && !hasKey ==>
      Rewrite(currentEmail, prompt, testMode, hasKey, model) == RewriteRefused(500, KeyNotConfigured)
  {
    var r := Rewrite(currentEmail, prompt, testMode, hasKey, model);
    if testMode {
      var e := Interpolate(currentEmail);
      assert r.text[..|e|] == e;
    } else if r.Rewritten? {
      match model(RewriteRequest(prompt, currentEmail))
      case Content(c) =>
        Text.RemoveFencesLeavesNoFence(OrElse(c, ""), false);
        Text.NoFenceTrim(Text.RemoveFences(OrElse(c, ""), false));
    }
  }
}
