/**
 * The profile document of `backend/models/UserProfile.js`: which fields
 * are required, which setters (`trim`, `lowercase`) rewrite a value when
 * it is assigned, and the `isLocked` default. Every write of the store
 * goes through `Normalize`, and `Valid` is the check Mongoose runs before
 * a document is written.
 */
module UserProfile {
  import opened Wrappers
  import Text

  /**
   * The schema fields of one document, or of a request body spread onto
   * one; `None` is a key that is absent. `lastUpdated` is a clock value
   * and is not part of the model.
   */
  datatype Fields = Fields(
    fullName: Option<string>,
    email: Option<string>,
    currentRole: Option<string>,
    bio: Option<string>,
    skills: Option<string>,
    resumeUrl: Option<string>,
    portfolioUrl: Option<string>,
    linkedinUrl: Option<string>,
    githubUrl: Option<string>,
    phone: Option<string>,
    password: Option<string>,
    googleId: Option<string>,
    googleAccessToken: Option<string>,
    googleRefreshToken: Option<string>,
    isLocked: Option<bool>)

  /** A body with no keys. */
  const NoFields := Fields(None, None, None, None, None, None, None, None, None, None, None, None, None, None, None)

  /** The `trim: true` setter. */
  function TrimSetter(o: Option<string>): (r: Option<string>)
    ensures r.Some? <==> o.Some?
    ensures r.Some? ==> Text.IsTrimmed(r.value)
  {
    match o
    case None => None
    case Some(s) => Some(Text.Trim(s))
  }

  /** The email setters, `trim: true` and `lowercase: true`. */
  function EmailSetter(o: Option<string>): (r: Option<string>)
    ensures r.Some? <==> o.Some?
    ensures r.Some? ==> Text.IsTrimmed(r.value) && Text.IsLower(r.value)
  {
    match o
    case None => None
    case Some(s) =>
      Text.LowerTrimCommute(s);
      Text.LowerIsLower(Text.Trim(s));
      Some(Text.Trim(Text.Lower(s)))
  }

  /**
   * The value each field holds after assignment: trimmed for the fields
   * declared with `trim`, trimmed and lower-cased for `email`, unchanged
   * for `bio`, `skills`, `password` and `isLocked`.
   */
  function Normalize(f: Fields): Fields {
    f.(fullName := TrimSetter(f.fullName),
       email := EmailSetter(f.email),
       currentRole := TrimSetter(f.currentRole),
       resumeUrl := TrimSetter(f.resumeUrl),
       portfolioUrl := TrimSetter(f.portfolioUrl),
       linkedinUrl := TrimSetter(f.linkedinUrl),
       githubUrl := TrimSetter(f.githubUrl),
       phone := TrimSetter(f.phone),
       googleId := TrimSetter(f.googleId),
       googleAccessToken := TrimSetter(f.googleAccessToken),
       googleRefreshToken := TrimSetter(f.googleRefreshToken))
  }

  /** A document as the setters leave it. */
  predicate IsNormal(f: Fields) {
    && (f.fullName.Some? ==> Text.IsTrimmed(f.fullName.value))
    && (f.email.Some? ==> Text.IsTrimmed(f.email.value) && Text.IsLower(f.email.value))
    && (f.currentRole.Some? ==> Text.IsTrimmed(f.currentRole.value))
    && (f.resumeUrl.Some? ==> Text.IsTrimmed(f.resumeUrl.value))
    && (f.portfolioUrl.Some? ==> Text.IsTrimmed(f.portfolioUrl.value))
    && (f.linkedinUrl.Some? ==> Text.IsTrimmed(f.linkedinUrl.value))
    && (f.githubUrl.Some? ==> Text.IsTrimmed(f.githubUrl.value))
    && (f.phone.Some? ==> Text.IsTrimmed(f.phone.value))
    && (f.googleId.Some? ==> Text.IsTrimmed(f.googleId.value))
    && (f.googleAccessToken.Some? ==> Text.IsTrimmed(f.googleAccessToken.value))
    && (f.googleRefreshToken.Some? ==> Text.IsTrimmed(f.googleRefreshToken.value))
  }

  /**
   * The setters leave every trimmed field trimmed and the email lower-case,
   * keep `bio`, `skills`, `password` and `isLocked` as given, and change
   * nothing more when applied a second time.
   */
  lemma NormalizeCorrect(f: Fields)
    ensures IsNormal(Normalize(f))
    ensures Normalize(f).bio == f.bio && Normalize(f).skills == f.skills
    ensures Normalize(f).password == f.password && Normalize(f).isLocked == f.isLocked
    ensures Normalize(Normalize(f)) == Normalize(f)
  {
    NormalIsFixed(Normalize(f));
  }

  /** A document the setters already shaped is left as it is. */
  lemma NormalIsFixed(f: Fields)
    requires IsNormal(f)
    ensures Normalize(f) == f
  {
    var g := Normalize(f);
    assert g.fullName == f.fullName by { TrimFixed(f.fullName); }
    assert g.email == f.email by { EmailFixed(f.email); }
    assert g.currentRole == f.currentRole by { TrimFixed(f.currentRole); }
    assert g.resumeUrl == f.resumeUrl by { TrimFixed(f.resumeUrl); }
    assert g.portfolioUrl == f.portfolioUrl by { TrimFixed(f.portfolioUrl); }
    assert g.linkedinUrl == f.linkedinUrl by { TrimFixed(f.linkedinUrl); }
    assert g.githubUrl == f.githubUrl by { TrimFixed(f.githubUrl); }
    assert g.phone == f.phone by { TrimFixed(f.phone); }
    assert g.googleId == f.googleId by { TrimFixed(f.googleId); }
    assert g.googleAccessToken == f.googleAccessToken by { TrimFixed(f.googleAccessToken); }
    assert g.googleRefreshToken == f.googleRefreshToken by { TrimFixed(f.googleRefreshToken); }
  }

  lemma TrimFixed(o: Option<string>)
    requires o.Some? ==> Text.IsTrimmed(o.value)
    ensures TrimSetter(o) == o
  {
    if o.Some? { Text.TrimIdempotent(o.value); }
  }

  lemma EmailFixed(o: Option<string>)
    requires o.Some? ==> Text.IsTrimmed(o.value) && Text.IsLower(o.value)
    ensures EmailSetter(o) == o
  {
    if o.Some? {
      Text.TrimIdempotent(o.value);
      assert Text.Lower(o.value) == o.value;
    }
  }

  /** The stored email is the given one, lower-cased and trimmed. */
  lemma StoredEmail(f: Fields)
    requires f.email.Some?
    ensures Normalize(f).email == Some(Text.Lower(Text.Trim(f.email.value)))
  {
    Text.LowerTrimCommute(f.email.value);
  }

  /** Mongoose's `required` check on a string: present and not empty. */
  predicate Present(o: Option<string>) {
    Truthy(o)
  }

  /** The required fields: fullName, email, currentRole, bio and skills. */
  predicate Valid(f: Fields) {
    Present(f.fullName) && Present(f.email) && Present(f.currentRole)
    && Present(f.bio) && Present(f.skills)
  }

  /** Some character of the value is not whitespace. */
  predicate HasText(o: Option<string>) {
    o.Some? && !Text.AllSpace(o.value)
  }

  /**
   * After the setters a document passes validation exactly when fullName,
   * email and currentRole hold a non-whitespace character and bio and
   * skills are non-empty (those two are not trimmed, so spaces count).
   */
  lemma ValidIff(f: Fields)
    ensures Valid(Normalize(f)) <==>
      HasText(f.fullName) && HasText(f.email) && HasText(f.currentRole)
      && Present(f.bio) && Present(f.skills)
  {
    TrimmedPresent(f.fullName);
    EmailPresent(f.email);
    TrimmedPresent(f.currentRole);
  }

  /** A trimmed value is present exactly when the value has text. */
  lemma TrimmedPresent(o: Option<string>)
    ensures Present(TrimSetter(o)) <==> HasText(o)
  {
  }

  /** A lower-cased, trimmed email is present exactly when the email has text. */
  lemma EmailPresent(o: Option<string>)
    ensures Present(EmailSetter(o)) <==> HasText(o)
  {
    if o.Some? {
      Text.LowerTrimCommute(o.value);
      assert Text.Trim(Text.Lower(o.value)) == [] <==> Text.Trim(o.value) == [];
    }
  }

  /** `isLocked` defaults to false when a document is created without it. */
  function WithDefaults(f: Fields): (r: Fields)
    ensures r.isLocked.Some?
    ensures f.isLocked.Some? ==> r.isLocked == f.isLocked
    ensures f.isLocked.None? ==> r.isLocked == Some(false)
    ensures r.(isLocked := f.isLocked) == f
  {
    if f.isLocked.None? then f.(isLocked := Some(false)) else f
  }

  /** `Object.assign(doc, patch)`: every key present in `patch` overwrites. */
  function Assign(doc: Fields, patch: Fields): Fields {
    Fields(
      Override(patch.fullName, doc.fullName),
      Override(patch.email, doc.email),
      Override(patch.currentRole, doc.currentRole),
      Override(patch.bio, doc.bio),
      Override(patch.skills, doc.skills),
      Override(patch.resumeUrl, doc.resumeUrl),
      Override(patch.portfolioUrl, doc.portfolioUrl),
      Override(patch.linkedinUrl, doc.linkedinUrl),
      Override(patch.githubUrl, doc.githubUrl),
      Override(patch.phone, doc.phone),
      Override(patch.password, doc.password),
      Override(patch.googleId, doc.googleId),
      Override(patch.googleAccessToken, doc.googleAccessToken),
      Override(patch.googleRefreshToken, doc.googleRefreshToken),
      if patch.isLocked.Some? then patch.isLocked else doc.isLocked)
  }

  /** A present key wins, whatever its value (unlike `||`). */
  function Override(a: Option<string>, b: Option<string>): Option<string> {
    if a.Some? then a else b
  }

  /** Assigning no keys changes nothing; assigning a key twice keeps the last value. */
  lemma AssignLaws(doc: Fields, p: Fields, q: Fields)
    ensures Assign(doc, NoFields) == doc
    ensures Assign(Assign(doc, p), q) == Assign(doc, Assign(p, q))
    ensures Assign(doc, p).email == (if p.email.Some? then p.email else doc.email)
  {
  }

  /** The response form of a document: `password` removed. */
  function WithoutPassword(f: Fields): (r: Fields)
    ensures r.password.None?
    ensures r.(password := f.password) == f
  {
    f.(password := None)
  }
}
