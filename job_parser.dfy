/**
 * `extractJobDetails` of `backend/services/jobParser.js`: a recipient
 * address and a role for a job post, each taken from what the caller
 * detected when that is truthy, else the address from the first e-mail
 * pattern match in the text and the role "Potential Role".
 */
module JobParser {
  import opened Wrappers
  import EmailScan

  const DefaultRole := "Potential Role"

  /** The address (possibly still falsy) and the role. */
  datatype JobDetails = JobDetails(email: Option<string>, role: string)

  /**
   * The details for `text`, or None where `text.match` would throw a
   * TypeError: the text is missing and the address has to be scanned for.
   */
  function ExtractJobDetails(text: Option<string>, detectedEmail: Option<string>, detectedRole: Option<string>)
    : Option<JobDetails>
  {
    if !Truthy(detectedEmail) && text.None? then None
    else
      var email :=
        if Truthy(detectedEmail) then detectedEmail
        else match EmailScan.FirstMatch(text.value)
          case Some(found) => Some(found)
          case None => detectedEmail;
      var role := if Truthy(detectedRole) then detectedRole.value else DefaultRole;
      Some(JobDetails(email, role))
  }

  /**
   * A truthy address or role from the caller is returned unchanged, and
   * with a truthy address the text is not looked at (it may be missing).
   */
  lemma ProvidedKept(text: Option<string>, detectedEmail: Option<string>, detectedRole: Option<string>)
    ensures Truthy(detectedEmail) ==>
      && ExtractJobDetails(text, detectedEmail, detectedRole).Some?
      && ExtractJobDetails(text, detectedEmail, detectedRole).value.email == detectedEmail
      && ExtractJobDetails(text, detectedEmail, detectedRole) == ExtractJobDetails(None, detectedEmail, detectedRole)
    ensures Truthy(detectedRole) && ExtractJobDetails(text, detectedEmail, detectedRole).Some? ==>
      ExtractJobDetails(text, detectedEmail, detectedRole).value.role == detectedRole.value
  {
  }

  /** The role is never empty: a falsy one becomes "Potential Role". */
  lemma RoleNeverEmpty(text: Option<string>, detectedEmail: Option<string>, detectedRole: Option<string>)
    ensures ExtractJobDetails(text, detectedEmail, detectedRole).Some? ==>
      var role := ExtractJobDetails(text, detectedEmail, detectedRole).value.role;
      role != "" && (!Truthy(detectedRole) ==> role == DefaultRole)
  {
  }

  /**
   * With a falsy address and some match of the e-mail pattern in the
   * text, the result is the leftmost, longest match; when nothing
   * matches, the falsy address itself; and with no text at all, the
   * TypeError.
   */
  lemma MissingEmailScans(text: Option<string>, detectedEmail: Option<string>, detectedRole: Option<string>)
    requires !Truthy(detectedEmail)
    ensures text.None? <==> ExtractJobDetails(text, detectedEmail, detectedRole).None?
    ensures text.Some? ==>
      var email := ExtractJobDetails(text, detectedEmail, detectedRole).value.email;
      var s := text.value;
      && ((forall i: nat :: !EmailScan.MatchesAt(s, i)) ==> email == detectedEmail)
      && ((exists i: nat :: EmailScan.MatchesAt(s, i)) ==>
            exists i: nat, j: nat ::
              && EmailScan.IsMatch(s, i, j) && email == Some(s[i..j])
              && (forall i': nat :: i' < i ==> !EmailScan.MatchesAt(s, i'))
              && (forall j': nat :: EmailScan.IsMatch(s, i, j') ==> j' <= j))
  {
    if text.Some? {
      EmailScan.FirstMatchIsLeftmostLongest(text.value);
    }
  }
}
