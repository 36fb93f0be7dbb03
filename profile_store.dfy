/**
 * The profile routes of `backend/routes/profileRoutes.js` over the profile
 * collection: `/save` (an upsert keyed by lower-cased email, then by
 * Google id), `/update` and `/get`, and the claim-priority lookup that
 * `/update`, `/get` and `getProfile` in `backend/routes/applyRoutes.js`
 * share. The collection is a sequence of records in insertion order; a
 * lookup returns the first record that matches, as `findOne` does.
 */
module ProfileStore {
  import opened Wrappers
  import Text
  import opened UserProfile
  import Jwt

  /** A stored document and its object id. */
  datatype Profile = Profile(id: nat, fields: Fields)

  /** The collection and the id the next created document receives. */
  datatype Db = Db(records: seq<Profile>, nextId: nat)

  // ---------------------------------------------------------------------
  // Lookups
  // ---------------------------------------------------------------------

  /** `findById(id)`, `findOne({email})`, `findOne({googleId})`. */
  datatype Query = ById(id: nat) | ByEmail(email: string) | ByGoogleId(googleId: string)

  /** Whether a document matches; the schema's setters also shape the query value. */
  predicate Matches(p: Profile, q: Query) {
    match q
    case ById(id) => p.id == id
    case ByEmail(e) => p.fields.email == EmailSetter(Some(e))
    case ByGoogleId(g) => p.fields.googleId == TrimSetter(Some(g))
  }

  /** The index of the first element satisfying `p`, or None. */
  function FirstWhere<T>(xs: seq<T>, p: T -> bool): (r: Option<nat>)
    ensures r.Some? ==> r.value < |xs| && p(xs[r.value])
    ensures r.Some? ==> forall k :: 0 <= k < r.value ==> !p(xs[k])
    ensures r.None? ==> forall k :: 0 <= k < |xs| ==> !p(xs[k])
  {
    if |xs| == 0 then None
    else if p(xs[0]) then Some(0)
    else match FirstWhere(xs[1..], p)
      case None => None
      case Some(i) => Some(i + 1)
  }

  /** The index of the first document that matches, or None. */
  function FindOne(rs: seq<Profile>, q: Query): (r: Option<nat>)
    ensures r.Some? ==> r.value < |rs| && Matches(rs[r.value], q)
    ensures r.Some? ==> forall k :: 0 <= k < r.value ==> !Matches(rs[k], q)
    ensures r.None? ==> forall k :: 0 <= k < |rs| ==> !Matches(rs[k], q)
  {
    FirstWhere(rs, p => Matches(p, q))
  }

  /**
   * The lookup of `/update`, `/get` and `getProfile`: only the
   * highest-priority claim present is used (userId, else the lower-cased
   * email, else googleId), and a miss does not fall back to the next one.
   */
  function Resolve(rs: seq<Profile>, c: Jwt.Claims): (r: Option<nat>)
    ensures r.Some? ==> r.value < |rs|
  {
    if c.userId.Some? then FindOne(rs, ById(c.userId.value))
    else if Truthy(c.email) then FindOne(rs, ByEmail(Text.Lower(c.email.value)))
    else if Truthy(c.googleId) then FindOne(rs, ByGoogleId(c.googleId.value))
    else None
  }

  /** The query `Resolve` runs for the given claims, if any. */
  function ResolveQuery(c: Jwt.Claims): Option<Query> {
    if c.userId.Some? then Some(ById(c.userId.value))
    else if Truthy(c.email) then Some(ByEmail(Text.Lower(c.email.value)))
    else if Truthy(c.googleId) then Some(ByGoogleId(c.googleId.value))
    else None
  }

  /**
   * What `Resolve` finds is the first document matching the one query
   * its highest-priority claim selects; with a userId claim that matches
   * no document nothing is found, whatever the email and googleId claims.
   */
  lemma ResolvePriority(rs: seq<Profile>, c: Jwt.Claims)
    ensures ResolveQuery(c).None? ==> Resolve(rs, c).None?
    ensures ResolveQuery(c).Some? && Resolve(rs, c).Some? ==>
      var i := Resolve(rs, c).value;
      i < |rs| && Matches(rs[i], ResolveQuery(c).value)
      && forall k :: 0 <= k < i ==> !Matches(rs[k], ResolveQuery(c).value)
    ensures ResolveQuery(c).Some? && Resolve(rs, c).None? ==>
      forall k :: 0 <= k < |rs| ==> !Matches(rs[k], ResolveQuery(c).value)
    ensures c.userId.Some? && (forall k :: 0 <= k < |rs| ==> rs[k].id != c.userId.value) ==>
      Resolve(rs, c).None?
  {
    match ResolveQuery(c)
    case None =>
    case Some(q) =>
      assert Resolve(rs, c) == FindOne(rs, q);
      if c.userId.Some? && (forall k :: 0 <= k < |rs| ==> rs[k].id != c.userId.value) {
        assert q == ById(c.userId.value);
        forall k | 0 <= k < |rs| ensures !Matches(rs[k], q) {
        }
      }
  }

  // ---------------------------------------------------------------------
  // POST /save
  // ---------------------------------------------------------------------

  /** Why `/save` answers 500. */
  datatype SaveError =
    | EmailMissing      // `profileData.email.toLowerCase()` on an absent email throws
    | ValidationFailed  // `save()` rejects a document without its required fields

  datatype SaveReply =
    | Saved(profile: Fields, token: Jwt.Claims)
    | SaveFailed(error: SaveError)

  /**
   * The decoded claims of a `Bearer` header whose token verifies and
   * carries a truthy googleId; any other header, and any token that fails
   * to verify, yields None and the save goes on without them.
   */
  function OAuthClaims(authorization: Option<string>, verify: Jwt.Verifier): (r: Option<Jwt.Claims>)
    ensures r.Some? ==> Truthy(r.value.googleId)
  {
    if Truthy(authorization) && Text.StartsWith(authorization.value, "Bearer ") then
      match verify(authorization.value[7..])
      case Verified(c) => if Truthy(c.googleId) then Some(c) else None
      case Rejected(_) => None
    else None
  }

  /** OAuth claims come only from a verified token with a googleId, read after "Bearer ". */
  lemma OAuthClaimsSource(authorization: Option<string>, verify: Jwt.Verifier)
    ensures OAuthClaims(authorization, verify).Some? ==>
      && Truthy(authorization) && Text.StartsWith(authorization.value, "Bearer ")
      && verify(authorization.value[7..]) == Jwt.Verified(OAuthClaims(authorization, verify).value)
      && Truthy(OAuthClaims(authorization, verify).value.googleId)
    ensures !Truthy(authorization) ==> OAuthClaims(authorization, verify).None?
  {
  }

  /** The body's email and fullName win; the token's fill them only when falsy. */
  function WithClaimDefaults(body: Fields, oauth: Option<Jwt.Claims>): (r: Fields)
    ensures Truthy(body.email) ==> r.email == body.email
    ensures Truthy(body.fullName) ==> r.fullName == body.fullName
    ensures oauth.Some? && !Truthy(body.email) && Truthy(oauth.value.email) ==> r.email == oauth.value.email
    ensures oauth.Some? && !Truthy(body.fullName) && Truthy(oauth.value.fullName) ==> r.fullName == oauth.value.fullName
    ensures r.(email := body.email, fullName := body.fullName) == body
  {
    match oauth
    case None => body
    case Some(c) =>
      var b := if !Truthy(body.email) && Truthy(c.email) then body.(email := c.email) else body;
      if !Truthy(b.fullName) && Truthy(c.fullName) then b.(fullName := c.fullName) else b
  }

  /** The Google fields copied from the token claims, when there are any. */
  function WithOAuth(f: Fields, oauth: Option<Jwt.Claims>): Fields {
    match oauth
    case None => f
    case Some(c) => f.(googleId := c.googleId, googleAccessToken := c.googleAccessToken,
                       googleRefreshToken := c.googleRefreshToken)
  }

  /** The document `/save` looks for: by email when truthy, then by googleId. */
  function SaveLookup(rs: seq<Profile>, data: Fields, oauth: Option<Jwt.Claims>): (r: Option<nat>)
    ensures r.Some? ==> r.value < |rs|
    ensures Truthy(data.email) && FindOne(rs, ByEmail(Text.Lower(data.email.value))).Some? ==>
      r == FindOne(rs, ByEmail(Text.Lower(data.email.value)))
    ensures (!Truthy(data.email) || FindOne(rs, ByEmail(Text.Lower(data.email.value))).None?) ==>
      r == (if oauth.Some? && Truthy(oauth.value.googleId) then FindOne(rs, ByGoogleId(oauth.value.googleId.value))
            else None)
  {
    var byEmail := if Truthy(data.email) then FindOne(rs, ByEmail(Text.Lower(data.email.value))) else None;
    if byEmail.None? && oauth.Some? && Truthy(oauth.value.googleId) then FindOne(rs, ByGoogleId(oauth.value.googleId.value))
    else byEmail
  }

  /** The claims of the token `/save` issues: exactly the id and the stored email. */
  function IssuedClaims(id: nat, doc: Fields): (c: Jwt.Claims)
    ensures c == Jwt.NoClaims.(userId := Some(id), email := doc.email)
  {
    Jwt.Claims(Some(id), doc.email, None, None, None, None)
  }

  /** The effect of `/save` on the collection and its reply. */
  function SaveSpec(db: Db, body: Fields, authorization: Option<string>, verify: Jwt.Verifier,
                    passwordHash: string): (Db, SaveReply)
  {
    var oauth := OAuthClaims(authorization, verify);
    var data := WithClaimDefaults(body, oauth);
    if data.email.None? then (db, SaveFailed(EmailMissing))
    else Upsert(db, data, oauth, passwordHash)
  }

  /** The email `/save` keys on: the body's if truthy, else the token's. */
  function SaveEmail(body: Fields, authorization: Option<string>, verify: Jwt.Verifier): Option<string> {
    WithClaimDefaults(body, OAuthClaims(authorization, verify)).email
  }

  /** Update the document the lookup finds, or create one, if it validates. */
  function Upsert(db: Db, data: Fields, oauth: Option<Jwt.Claims>, passwordHash: string): (Db, SaveReply)
    requires data.email.Some?
  {
    var found := SaveLookup(db.records, data, oauth);
    var doc := SavedDocument(Existing(db.records, found), data, oauth, passwordHash);
    if !Valid(doc) then (db, SaveFailed(ValidationFailed))
    else Commit(db, found, doc)
  }

  /** The fields of the document a lookup found, if any. */
  function Existing(rs: seq<Profile>, found: Option<nat>): Option<Fields> {
    if found.Some? && found.value < |rs| then Some(rs[found.value].fields) else None
  }

  /**
   * The document `/save` writes: the found one with the body and the
   * lower-cased email assigned onto it, or a new one from the body with
   * the default password hash; then the OAuth fields and the setters.
   */
  function SavedDocument(existing: Option<Fields>, data: Fields, oauth: Option<Jwt.Claims>,
                         passwordHash: string): (doc: Fields)
    requires data.email.Some?
    ensures IsNormal(doc)
    ensures doc.email == EmailSetter(Some(Text.Lower(data.email.value)))
    ensures existing.None? ==> doc.password == Some(passwordHash) && doc.isLocked.Some?
    ensures oauth.Some? ==>
      && doc.googleId == TrimSetter(oauth.value.googleId)
      && doc.googleAccessToken == TrimSetter(oauth.value.googleAccessToken)
      && doc.googleRefreshToken == TrimSetter(oauth.value.googleRefreshToken)
    ensures existing.Some? ==>
      var stored := existing.value;
      && doc.fullName == TrimSetter(Override(data.fullName, stored.fullName))
      && doc.currentRole == TrimSetter(Override(data.currentRole, stored.currentRole))
      && doc.bio == Override(data.bio, stored.bio)
      && doc.skills == Override(data.skills, stored.skills)
      && doc.resumeUrl == TrimSetter(Override(data.resumeUrl, stored.resumeUrl))
      && doc.portfolioUrl == TrimSetter(Override(data.portfolioUrl, stored.portfolioUrl))
      && doc.linkedinUrl == TrimSetter(Override(data.linkedinUrl, stored.linkedinUrl))
      && doc.githubUrl == TrimSetter(Override(data.githubUrl, stored.githubUrl))
      && doc.phone == TrimSetter(Override(data.phone, stored.phone))
      && doc.password == Override(data.password, stored.password)
      && doc.isLocked == (if data.isLocked.Some? then data.isLocked else stored.isLocked)
      && (oauth.None? ==>
            && doc.googleId == TrimSetter(Override(data.googleId, stored.googleId))
            && doc.googleAccessToken == TrimSetter(Override(data.googleAccessToken, stored.googleAccessToken))
            && doc.googleRefreshToken == TrimSetter(Override(data.googleRefreshToken, stored.googleRefreshToken)))
    ensures existing.None? ==>
      && doc.fullName == TrimSetter(data.fullName)
      && doc.currentRole == TrimSetter(data.currentRole)
      && doc.bio == data.bio && doc.skills == data.skills
      && doc.resumeUrl == TrimSetter(data.resumeUrl)
      && doc.portfolioUrl == TrimSetter(data.portfolioUrl)
      && doc.linkedinUrl == TrimSetter(data.linkedinUrl)
      && doc.githubUrl == TrimSetter(data.githubUrl)
      && doc.phone == TrimSetter(data.phone)
      && doc.isLocked == (if data.isLocked.Some? then data.isLocked else Some(false))
      && (oauth.None? ==>
            && doc.googleId == TrimSetter(data.googleId)
            && doc.googleAccessToken == TrimSetter(data.googleAccessToken)
            && doc.googleRefreshToken == TrimSetter(data.googleRefreshToken))
  {
    var email := Some(Text.Lower(data.email.value));
    match existing
    case Some(stored) =>
      var f := WithOAuth(Assign(stored, data.(email := email)), oauth);
      Normalize(f)
    case None =>
      var f := WithOAuth(data.(email := email, password := Some(passwordHash)), oauth);
      WithDefaults(Normalize(f))
  }

  /**
   * Writing the document: in place of the found one, keeping its id, or
   * appended under the next id. The reply carries the document without
   * its password and the claims of the token issued for it.
   */
  function Commit(db: Db, found: Option<nat>, doc: Fields): (r: (Db, SaveReply))
    requires found.Some? ==> found.value < |db.records|
    ensures r.1.Saved? && r.1.profile == WithoutPassword(doc)
    ensures found.Some? ==>
      && r.0.nextId == db.nextId
      && r.0.records == db.records[found.value := Profile(db.records[found.value].id, doc)]
      && r.1.token == IssuedClaims(db.records[found.value].id, doc)
    ensures found.None? ==>
      && r.0.nextId == db.nextId + 1
      && r.0.records == db.records + [Profile(db.nextId, doc)]
      && r.1.token == IssuedClaims(db.nextId, doc)
  {
    match found
    case Some(i) =>
      var id := db.records[i].id;
      (db.(records := db.records[i := Profile(id, doc)]), Saved(WithoutPassword(doc), IssuedClaims(id, doc)))
    case None =>
      (Db(db.records + [Profile(db.nextId, doc)], db.nextId + 1), Saved(WithoutPassword(doc), IssuedClaims(db.nextId, doc)))
  }

  /** The two steps of `SaveSpec`, one at a time. */
  lemma SaveUnfold(db: Db, body: Fields, authorization: Option<string>, verify: Jwt.Verifier, passwordHash: string)
    ensures var data := WithClaimDefaults(body, OAuthClaims(authorization, verify));
      SaveSpec(db, body, authorization, verify, passwordHash)
        == if data.email.None? then (db, SaveFailed(EmailMissing))
           else Upsert(db, data, OAuthClaims(authorization, verify), passwordHash)
  {
  }

  lemma UpsertUnfold(db: Db, data: Fields, oauth: Option<Jwt.Claims>, passwordHash: string)
    requires data.email.Some?
    ensures var found := SaveLookup(db.records, data, oauth);
      var doc := SavedDocument(Existing(db.records, found), data, oauth, passwordHash);
      Upsert(db, data, oauth, passwordHash)
        == if Valid(doc) then Commit(db, found, doc) else (db, SaveFailed(ValidationFailed))
  {
  }

  /**
   * Re-saving with an email some document already holds updates the first
   * such document in place, under its id: the collection does not grow
   * and no other document changes.
   */
  lemma SaveNoDuplicate(db: Db, body: Fields, authorization: Option<string>, verify: Jwt.Verifier,
                        passwordHash: string, k: nat)
    requires Truthy(SaveEmail(body, authorization, verify))
    requires k < |db.records|
    requires db.records[k].fields.email == EmailSetter(Some(Text.Lower(SaveEmail(body, authorization, verify).value)))
    ensures |SaveSpec(db, body, authorization, verify, passwordHash).0.records| == |db.records|
    ensures SaveSpec(db, body, authorization, verify, passwordHash).0.nextId == db.nextId
    ensures var found := FindOne(db.records, ByEmail(Text.Lower(SaveEmail(body, authorization, verify).value)));
      var (db', reply) := SaveSpec(db, body, authorization, verify, passwordHash);
      && found.Some? && found.value <= k
      && (reply.Saved? ==>
            db'.records == db.records[found.value := Profile(db.records[found.value].id, db'.records[found.value].fields)])
  {
    var oauth := OAuthClaims(authorization, verify);
    var data := WithClaimDefaults(body, oauth);
    var q := ByEmail(Text.Lower(data.email.value));
    SaveUnfold(db, body, authorization, verify, passwordHash);
    UpsertUnfold(db, data, oauth, passwordHash);
    assert Matches(db.records[k], q);
    var found := SaveLookup(db.records, data, oauth);
    assert found == FindOne(db.records, q);
  }

  /**
   * When no document holds the email, a token whose googleId some
   * document holds makes `/save` update the first such document in place,
   * under its id, writing the token's googleId; nothing is created.
   */
  lemma SaveByGoogleId(db: Db, body: Fields, authorization: Option<string>, verify: Jwt.Verifier,
                       passwordHash: string, k: nat)
    requires SaveEmail(body, authorization, verify).Some?
    requires Truthy(SaveEmail(body, authorization, verify)) ==>
      FindOne(db.records, ByEmail(Text.Lower(SaveEmail(body, authorization, verify).value))).None?
    requires OAuthClaims(authorization, verify).Some? && Truthy(OAuthClaims(authorization, verify).value.googleId)
    requires k < |db.records|
    requires Matches(db.records[k], ByGoogleId(OAuthClaims(authorization, verify).value.googleId.value))
    ensures |SaveSpec(db, body, authorization, verify, passwordHash).0.records| == |db.records|
    ensures SaveSpec(db, body, authorization, verify, passwordHash).0.nextId == db.nextId
    ensures var googleId := OAuthClaims(authorization, verify).value.googleId;
      var found := FindOne(db.records, ByGoogleId(googleId.value));
      var (db', reply) := SaveSpec(db, body, authorization, verify, passwordHash);
      && found.Some? && found.value <= k
      && (reply.Saved? ==>
            && db'.records == db.records[found.value := Profile(db.records[found.value].id, db'.records[found.value].fields)]
            && db'.records[found.value].fields.googleId == TrimSetter(googleId))
  {
    var oauth := OAuthClaims(authorization, verify);
    var data := WithClaimDefaults(body, oauth);
    SaveUnfold(db, body, authorization, verify, passwordHash);
    UpsertUnfold(db, data, oauth, passwordHash);
    var found := SaveLookup(db.records, data, oauth);
    assert found == FindOne(db.records, ByGoogleId(oauth.value.googleId.value));
  }

  /** A successful save stores the email it keys on, trimmed and lower-cased. */
  lemma SaveLowerCasesEmail(db: Db, body: Fields, authorization: Option<string>, verify: Jwt.Verifier,
                            passwordHash: string)
    ensures var reply := SaveSpec(db, body, authorization, verify, passwordHash).1;
      reply.Saved? ==>
        && SaveEmail(body, authorization, verify).Some?
        && reply.profile.email == Some(Text.Lower(Text.Trim(SaveEmail(body, authorization, verify).value)))
  {
    var oauth := OAuthClaims(authorization, verify);
    var data := WithClaimDefaults(body, oauth);
    SaveUnfold(db, body, authorization, verify, passwordHash);
    if data.email.Some? {
      var e := data.email.value;
      Text.LowerTrimCommute(e);
      Text.LowerIsLower(e);
      UpsertUnfold(db, data, oauth, passwordHash);
      var found := SaveLookup(db.records, data, oauth);
      var doc := SavedDocument(Existing(db.records, found), data, oauth, passwordHash);
      assert doc.email == Some(Text.Lower(Text.Trim(e)));
      if Valid(doc) {
        assert SaveSpec(db, body, authorization, verify, passwordHash).1.profile == WithoutPassword(doc);
      }
    }
  }

  /**
   * A successful save answers without the password and issues a token
   * carrying exactly the written document's id and its email; the
   * document stored under that id is the one the reply shows.
   */
  lemma SaveIssuesIdAndEmail(db: Db, body: Fields, authorization: Option<string>, verify: Jwt.Verifier,
                             passwordHash: string)
    ensures var (db', reply) := SaveSpec(db, body, authorization, verify, passwordHash);
      reply.Saved? ==>
        && reply.profile.password.None?
        && reply.token.userId.Some?
        && reply.token == Jwt.NoClaims.(userId := reply.token.userId, email := reply.profile.email)
        && (exists k :: 0 <= k < |db'.records| && db'.records[k].id == reply.token.userId.value
              && WithoutPassword(db'.records[k].fields) == reply.profile)
  {
    var oauth := OAuthClaims(authorization, verify);
    var data := WithClaimDefaults(body, oauth);
    SaveUnfold(db, body, authorization, verify, passwordHash);
    if data.email.Some? {
      UpsertUnfold(db, data, oauth, passwordHash);
      var found := SaveLookup(db.records, data, oauth);
      var doc := SavedDocument(Existing(db.records, found), data, oauth, passwordHash);
      if Valid(doc) {
        CommitIssues(db, found, doc);
      }
    }
  }

  lemma CommitIssues(db: Db, found: Option<nat>, doc: Fields)
    requires found.Some? ==> found.value < |db.records|
    ensures var (db', reply) := Commit(db, found, doc);
      && reply.Saved? && reply.token.userId.Some?
      && exists k :: 0 <= k < |db'.records| && db'.records[k] == Profile(reply.token.userId.value, doc)
  {
    var (db', reply) := Commit(db, found, doc);
    var k := if found.Some? then found.value else |db.records|;
    assert db'.records[k] == Profile(reply.token.userId.value, doc);
  }

  /** A failed save leaves the collection as it was. */
  lemma SaveFailureWritesNothing(db: Db, body: Fields, authorization: Option<string>, verify: Jwt.Verifier,
                                 passwordHash: string)
    ensures SaveSpec(db, body, authorization, verify, passwordHash).1.SaveFailed? ==>
      SaveSpec(db, body, authorization, verify, passwordHash).0 == db
    ensures SaveEmail(body, authorization, verify).None? ==>
      SaveSpec(db, body, authorization, verify, passwordHash) == (db, SaveFailed(EmailMissing))
  {
  }

  /**
   * A save changes at most one document, keeping its id, or appends one
   * under a fresh id: every other document is left exactly as it was.
   */
  lemma SaveChangesOneDocument(db: Db, body: Fields, authorization: Option<string>, verify: Jwt.Verifier,
                               passwordHash: string)
    ensures var db' := SaveSpec(db, body, authorization, verify, passwordHash).0;
      || db' == db
      || (exists i :: 0 <= i < |db.records| && db'.nextId == db.nextId
            && db'.records == db.records[i := Profile(db.records[i].id, db'.records[i].fields)])
      || (db'.nextId == db.nextId + 1 && |db'.records| == |db.records| + 1
            && db'.records[..|db.records|] == db.records && db'.records[|db.records|].id == db.nextId)
  {
    var oauth := OAuthClaims(authorization, verify);
    var data := WithClaimDefaults(body, oauth);
    SaveUnfold(db, body, authorization, verify, passwordHash);
    if data.email.Some? {
      UpsertUnfold(db, data, oauth, passwordHash);
      var found := SaveLookup(db.records, data, oauth);
      var doc := SavedDocument(Existing(db.records, found), data, oauth, passwordHash);
      if Valid(doc) {
        var db' := Commit(db, found, doc).0;
        if found.Some? {
          assert db'.records[found.value].fields == doc;
        } else {
          assert db'.records[..|db.records|] == db.records;
        }
      }
    }
  }

  // ---------------------------------------------------------------------
  // One document per email
  // ---------------------------------------------------------------------

  /** No two documents share an email. The schema does not enforce this. */
  ghost predicate UniqueEmails(rs: seq<Profile>) {
    forall i, j :: 0 <= i < j < |rs| ==> rs[i].fields.email != rs[j].fields.email
  }

  /** Replacing one document keeps emails distinct when its new email is its old one or held by no other. */
  lemma ReplaceKeepsUnique(rs: seq<Profile>, i: nat, p: Profile)
    requires UniqueEmails(rs) && i < |rs|
    requires p.fields.email == rs[i].fields.email
          || forall k :: 0 <= k < |rs| ==> rs[k].fields.email != p.fields.email
    ensures UniqueEmails(rs[i := p])
  {
    var rs' := rs[i := p];
    forall a, b | 0 <= a < b < |rs'| ensures rs'[a].fields.email != rs'[b].fields.email {
      if a != i && b != i {
        assert rs'[a] == rs[a] && rs'[b] == rs[b];
      }
    }
  }

  /** Appending a document whose email no document holds keeps emails distinct. */
  lemma AppendKeepsUnique(rs: seq<Profile>, p: Profile)
    requires UniqueEmails(rs)
    requires forall k :: 0 <= k < |rs| ==> rs[k].fields.email != p.fields.email
    ensures UniqueEmails(rs + [p])
  {
    var rs' := rs + [p];
    forall a, b | 0 <= a < b < |rs'| ensures rs'[a].fields.email != rs'[b].fields.email {
      assert rs'[a] == rs[a];
      if b < |rs| { assert rs'[b] == rs[b]; }
    }
  }

  /** No document holds the email a missed lookup asked for. */
  lemma MissedEmail(rs: seq<Profile>, e: string)
    requires FindOne(rs, ByEmail(e)).None?
    ensures forall k :: 0 <= k < |rs| ==> rs[k].fields.email != EmailSetter(Some(e))
  {
    forall k | 0 <= k < |rs| ensures rs[k].fields.email != EmailSetter(Some(e)) {
      assert !Matches(rs[k], ByEmail(e));
    }
  }

  /**
   * `/save` keeps the emails of the collection distinct: it creates a
   * document only for an email no document holds, and a document it
   * updates either was found by that very email or receives one no
   * document holds. The guarantee rests on this lookup alone.
   */
  lemma SaveKeepsEmailsUnique(db: Db, body: Fields, authorization: Option<string>,
                              verify: Jwt.Verifier, passwordHash: string)
    requires UniqueEmails(db.records)
    ensures UniqueEmails(SaveSpec(db, body, authorization, verify, passwordHash).0.records)
  {
    var oauth := OAuthClaims(authorization, verify);
    var data := WithClaimDefaults(body, oauth);
    SaveUnfold(db, body, authorization, verify, passwordHash);
    if data.email.Some? {
      var e := Text.Lower(data.email.value);
      UpsertUnfold(db, data, oauth, passwordHash);
      var found := SaveLookup(db.records, data, oauth);
      var doc := SavedDocument(Existing(db.records, found), data, oauth, passwordHash);
      if Valid(doc) {
        // A valid document has a truthy email, so the email lookup ran.
        assert Truthy(data.email);
        assert doc.email == EmailSetter(Some(e));
        var byEmail := FindOne(db.records, ByEmail(e));
        if byEmail.None? {
          MissedEmail(db.records, e);
        } else {
          assert found == byEmail;
          assert Matches(db.records[found.value], ByEmail(e));
        }
        match found
        case Some(i) =>
          ReplaceKeepsUnique(db.records, i, Profile(db.records[i].id, doc));
        case None =>
          AppendKeepsUnique(db.records, Profile(db.nextId, doc));
      }
    }
  }

  // ---------------------------------------------------------------------
  // Well-formed collections
  // ---------------------------------------------------------------------

  /** Ids are below `nextId` and distinct; every document went through the setters. */
  ghost predicate WellFormed(db: Db) {
    && (forall k :: 0 <= k < |db.records| ==> db.records[k].id < db.nextId)
    && (forall i, j :: 0 <= i < j < |db.records| ==> db.records[i].id != db.records[j].id)
    && (forall k :: 0 <= k < |db.records| ==> IsNormal(db.records[k].fields))
  }

  lemma ReplaceWellFormed(db: Db, i: nat, doc: Fields)
    requires WellFormed(db) && i < |db.records| && IsNormal(doc)
    ensures WellFormed(db.(records := db.records[i := Profile(db.records[i].id, doc)]))
  {
  }

  lemma AppendWellFormed(db: Db, doc: Fields)
    requires WellFormed(db) && IsNormal(doc)
    ensures WellFormed(Db(db.records + [Profile(db.nextId, doc)], db.nextId + 1))
  {
  }

  /** `/save` keeps the collection well formed: new ids are fresh, documents normal. */
  lemma SaveWellFormed(db: Db, body: Fields, authorization: Option<string>,
                       verify: Jwt.Verifier, passwordHash: string)
    requires WellFormed(db)
    ensures WellFormed(SaveSpec(db, body, authorization, verify, passwordHash).0)
  {
    var oauth := OAuthClaims(authorization, verify);
    var data := WithClaimDefaults(body, oauth);
    SaveUnfold(db, body, authorization, verify, passwordHash);
    if data.email.Some? {
      UpsertWellFormed(db, data, oauth, passwordHash);
    }
  }

  lemma UpsertWellFormed(db: Db, data: Fields, oauth: Option<Jwt.Claims>, passwordHash: string)
    requires WellFormed(db) && data.email.Some?
    ensures WellFormed(Upsert(db, data, oauth, passwordHash).0)
  {
    UpsertUnfold(db, data, oauth, passwordHash);
    var found := SaveLookup(db.records, data, oauth);
    var doc := SavedDocument(Existing(db.records, found), data, oauth, passwordHash);
    if Valid(doc) {
      var r := Commit(db, found, doc);
      match found
      case Some(i) =>
        assert r.0 == db.(records := db.records[i := Profile(db.records[i].id, doc)]);
        ReplaceWellFormed(db, i, doc);
      case None =>
        assert r.0 == Db(db.records + [Profile(db.nextId, doc)], db.nextId + 1);
        AppendWellFormed(db, doc);
    }
  }

  // ---------------------------------------------------------------------
  // PUT /update
  // ---------------------------------------------------------------------

  datatype UpdateReply =
    | Updated(profile: Fields)
    | NotFound            // 404 "Profile not found. Please save your profile first."
    | UpdateFailed        // 500: `save()` rejected the document

  /** The body with a truthy email lower-cased. */
  function LowerEmail(updates: Fields): (r: Fields)
    ensures Truthy(updates.email) ==> r.email == Some(Text.Lower(updates.email.value))
    ensures !Truthy(updates.email) ==> r == updates
    ensures r.(email := updates.email) == updates
  {
    if Truthy(updates.email) then updates.(email := Some(Text.Lower(updates.email.value))) else updates
  }

  /**
   * The Google identity from the token, copied only onto a document that
   * has no googleId; each token is copied only when truthy.
   */
  function AdoptGoogle(doc: Fields, c: Jwt.Claims): (r: Fields)
    ensures !(Truthy(c.googleId) && !Truthy(doc.googleId)) ==> r == doc
    ensures Truthy(c.googleId) && !Truthy(doc.googleId) ==>
      && r.googleId == c.googleId
      && r.googleAccessToken == (if Truthy(c.googleAccessToken) then c.googleAccessToken else doc.googleAccessToken)
      && r.googleRefreshToken == (if Truthy(c.googleRefreshToken) then c.googleRefreshToken else doc.googleRefreshToken)
    ensures r.(googleId := doc.googleId, googleAccessToken := doc.googleAccessToken,
               googleRefreshToken := doc.googleRefreshToken) == doc
  {
    if Truthy(c.googleId) && !Truthy(doc.googleId) then
      doc.(googleId := c.googleId,
           googleAccessToken := if Truthy(c.googleAccessToken) then c.googleAccessToken else doc.googleAccessToken,
           googleRefreshToken := if Truthy(c.googleRefreshToken) then c.googleRefreshToken else doc.googleRefreshToken)
    else doc
  }

  /** The effect of `/update` for a request authenticated with claims `c`. */
  function UpdateSpec(db: Db, c: Jwt.Claims, body: Fields): (Db, UpdateReply) {
    match Resolve(db.records, c)
    case None => (db, NotFound)
    case Some(i) =>
      var doc := UpdatedDocument(db.records[i].fields, c, body);
      if !Valid(doc) then (db, UpdateFailed)
      else (db.(records := db.records[i := Profile(db.records[i].id, doc)]), Updated(WithoutPassword(doc)))
  }

  /** The document `/update` writes: the Google identity adopted, the body assigned, the setters run. */
  function UpdatedDocument(stored: Fields, c: Jwt.Claims, body: Fields): (doc: Fields)
    ensures IsNormal(doc)
    ensures body.email.Some? ==> doc.email == EmailSetter(LowerEmail(body).email)
    ensures body.email.None? ==> doc.email == EmailSetter(stored.email)
  {
    var f := Assign(AdoptGoogle(stored, c), LowerEmail(body));
    NormalizeCorrect(f);
    Normalize(f)
  }

  lemma UpdateUnfold(db: Db, c: Jwt.Claims, body: Fields)
    ensures Resolve(db.records, c).Some? ==>
      var i := Resolve(db.records, c).value;
      var doc := UpdatedDocument(db.records[i].fields, c, body);
      UpdateSpec(db, c, body)
        == if Valid(doc) then (db.(records := db.records[i := Profile(db.records[i].id, doc)]), Updated(WithoutPassword(doc)))
           else (db, UpdateFailed)
  {
  }

  /** `/update` keeps the collection well formed. */
  lemma UpdateWellFormed(db: Db, c: Jwt.Claims, body: Fields)
    requires WellFormed(db)
    ensures WellFormed(UpdateSpec(db, c, body).0)
  {
    match Resolve(db.records, c)
    case None =>
    case Some(i) =>
      var doc := UpdatedDocument(db.records[i].fields, c, body);
      if Valid(doc) { ReplaceWellFormed(db, i, doc); }
  }

  /**
   * An update that resolves no document answers 404 and writes nothing;
   * one that does rewrites only that document, keeps its id, and answers
   * without the password.
   */
  lemma UpdateWritesOnlyTheResolved(db: Db, c: Jwt.Claims, body: Fields)
    ensures Resolve(db.records, c).None? ==> UpdateSpec(db, c, body) == (db, NotFound)
    ensures var (db', reply) := UpdateSpec(db, c, body);
      && |db'.records| == |db.records| && db'.nextId == db.nextId
      && (reply.Updated? ==>
            var i := Resolve(db.records, c).value;
            && db'.records[i].id == db.records[i].id
            && reply.profile == WithoutPassword(db'.records[i].fields)
            && reply.profile.password.None?
            && forall k :: 0 <= k < |db.records| && k != i ==> db'.records[k] == db.records[k])
      && (!reply.Updated? ==> db' == db)
  {
    match Resolve(db.records, c)
    case None =>
    case Some(i) =>
      var doc := UpdatedDocument(db.records[i].fields, c, body);
      var rs' := db.records[i := Profile(db.records[i].id, doc)];
      UpdateUnfold(db, c, body);
      if Valid(doc) {
        assert UpdateSpec(db, c, body) == (db.(records := rs'), Updated(WithoutPassword(doc)));
      } else {
        assert UpdateSpec(db, c, body) == (db, UpdateFailed);
      }
  }

  /**
   * The Google identity of the token reaches the document only when it had
   * no googleId; a googleId already stored is kept unless the body itself
   * carries one.
   */
  lemma UpdateKeepsGoogleId(db: Db, c: Jwt.Claims, body: Fields)
    requires Resolve(db.records, c).Some?
    requires Truthy(db.records[Resolve(db.records, c).value].fields.googleId)
    requires body.googleId.None?
    requires UpdateSpec(db, c, body).1.Updated?
    ensures var i := Resolve(db.records, c).value;
      UpdateSpec(db, c, body).0.records[i].fields.googleId
        == TrimSetter(db.records[i].fields.googleId)
  {
    var i := Resolve(db.records, c).value;
    var stored := db.records[i].fields;
    var doc := UpdatedDocument(stored, c, body);
    UpdatedRecords(db, c, body);
    var rs' := UpdateSpec(db, c, body).0.records;
    assert rs'[i] == Profile(db.records[i].id, doc);
    StoredGoogleIdKept(stored, c, body);
    assert rs'[i].fields.googleId == doc.googleId;
  }

  /** When `/update` succeeds, the resolved document is replaced by the updated one. */
  lemma UpdatedRecords(db: Db, c: Jwt.Claims, body: Fields)
    requires Resolve(db.records, c).Some? && UpdateSpec(db, c, body).1.Updated?
    ensures var i := Resolve(db.records, c).value;
      UpdateSpec(db, c, body).0.records
        == db.records[i := Profile(db.records[i].id, UpdatedDocument(db.records[i].fields, c, body))]
  {
    UpdateUnfold(db, c, body);
  }

  lemma StoredGoogleIdKept(stored: Fields, c: Jwt.Claims, body: Fields)
    requires Truthy(stored.googleId) && body.googleId.None?
    ensures UpdatedDocument(stored, c, body).googleId == TrimSetter(stored.googleId)
  {
    assert AdoptGoogle(stored, c) == stored;
    assert LowerEmail(body).googleId.None?;
  }

  /**
   * `/update` can give a second document an email another one holds: it
   * does not look the new email up. Two documents with distinct emails,
   * the second updated to the first one's email, end up sharing it.
   */
  lemma UpdateMayDuplicateEmail()
    ensures exists db: Db, c: Jwt.Claims, body: Fields ::
      UniqueEmails(db.records) && !UniqueEmails(UpdateSpec(db, c, body).0.records)
  {
    var db, c, body := DuplicateEmailExample();
  }

  lemma DuplicateEmailExample() returns (db: Db, c: Jwt.Claims, body: Fields)
    ensures UniqueEmails(db.records) && !UniqueEmails(UpdateSpec(db, c, body).0.records)
  {
    var f := NoFields.(fullName := Some("x"), currentRole := Some("x"), bio := Some("x"), skills := Some("x"));
    db := Db([Profile(0, f.(email := Some("a"))), Profile(1, f.(email := Some("b")))], 2);
    c := Jwt.NoClaims.(userId := Some(1));
    body := NoFields.(email := Some("a"));
    SampleDuplicates(f, db, c, body);
  }

  lemma SampleDuplicates(f: Fields, db: Db, c: Jwt.Claims, body: Fields)
    requires f == NoFields.(fullName := Some("x"), currentRole := Some("x"), bio := Some("x"), skills := Some("x"))
    requires db == Db([Profile(0, f.(email := Some("a"))), Profile(1, f.(email := Some("b")))], 2)
    requires c == Jwt.NoClaims.(userId := Some(1)) && body == NoFields.(email := Some("a"))
    ensures UniqueEmails(db.records) && !UniqueEmails(UpdateSpec(db, c, body).0.records)
  {
    assert UniqueEmails(db.records) by {
      assert db.records[0].fields.email != db.records[1].fields.email;
    }
    var rs' := UpdateSpec(db, c, body).0.records;
    assert !UniqueEmails(rs') by {
      SampleUpdate(f, c, body);
      assert rs'[0].fields.email == rs'[1].fields.email;
    }
  }

  /** The second of the two sample documents updated to the first one's email. */
  lemma SampleUpdate(f: Fields, c: Jwt.Claims, body: Fields)
    requires f == NoFields.(fullName := Some("x"), currentRole := Some("x"), bio := Some("x"), skills := Some("x"))
    requires c == Jwt.NoClaims.(userId := Some(1)) && body == NoFields.(email := Some("a"))
    ensures var db := Db([Profile(0, f.(email := Some("a"))), Profile(1, f.(email := Some("b")))], 2);
      UpdateSpec(db, c, body).0.records == [Profile(0, f.(email := Some("a"))), Profile(1, f.(email := Some("a")))]
  {
    var a, b := Profile(0, f.(email := Some("a"))), Profile(1, f.(email := Some("b")));
    var db := Db([a, b], 2);
    assert Resolve(db.records, c) == Some(1) by {
      assert db.records[1..] == [b];
      assert FindOne([b], ById(1)) == Some(0);
    }
    SampleTakesEmail(f, c, body);
    assert Valid(f.(email := Some("a")));
    UpdateUnfold(db, c, body);
  }

  lemma SampleTakesEmail(f: Fields, c: Jwt.Claims, body: Fields)
    requires f == NoFields.(fullName := Some("x"), currentRole := Some("x"), bio := Some("x"), skills := Some("x"))
    requires c == Jwt.NoClaims.(userId := Some(1)) && body == NoFields.(email := Some("a"))
    ensures UpdatedDocument(f.(email := Some("b")), c, body) == f.(email := Some("a"))
  {
    var g := f.(email := Some("a"));
    assert Text.Lower("a") == "a";
    assert Assign(AdoptGoogle(f.(email := Some("b")), c), LowerEmail(body)) == g;
    assert IsNormal(g) by {
      assert !Text.IsSpace('a') && !Text.IsSpace('x') && !Text.IsUpper('a');
    }
    NormalIsFixed(g);
  }

  // ---------------------------------------------------------------------
  // GET /get
  // ---------------------------------------------------------------------

  datatype GetReply = Found(profile: Fields) | EmptyObject

  /**
   * `/get`: the resolved document without its password, or `{}` (not an
   * error) when none resolves.
   */
  function Get(rs: seq<Profile>, c: Jwt.Claims): (r: GetReply)
    ensures r.EmptyObject? <==> Resolve(rs, c).None?
    ensures r.Found? ==> r.profile.password.None?
    ensures r.Found? ==> exists k :: 0 <= k < |rs| && r.profile == WithoutPassword(rs[k].fields)
    ensures r.Found? ==> Resolve(rs, c).Some? && r.profile == WithoutPassword(rs[Resolve(rs, c).value].fields)
  {
    match Resolve(rs, c)
    case None => EmptyObject
    case Some(i) => Found(WithoutPassword(rs[i].fields))
  }

  // ---------------------------------------------------------------------
  // The collection as the routes change it
  // ---------------------------------------------------------------------

  class Store {
    var records: seq<Profile>
    var nextId: nat

    function Snapshot(): Db
      reads this
    {
      Db(records, nextId)
    }

    ghost predicate Inv()
      reads this
    {
      WellFormed(Snapshot())
    }

    constructor()
      ensures records == [] && nextId == 0 && Inv()
    {
      records := [];
      nextId := 0;
    }

    /** POST /save, step by step as the route runs. */
    method Save(body: Fields, authorization: Option<string>, verify: Jwt.Verifier, passwordHash: string)
      returns (reply: SaveReply)
      requires Inv()
      modifies this
      ensures Inv()
      ensures (Snapshot(), reply) == SaveSpec(old(Snapshot()), body, authorization, verify, passwordHash)
    {
      ghost var db := Snapshot();
      SaveWellFormed(db, body, authorization, verify, passwordHash);
      SaveUnfold(db, body, authorization, verify, passwordHash);
      var oauth, data := ReadBearer(body, authorization, verify);
      if data.email.None? {
        return SaveFailed(EmailMissing);
      }
      reply := UpsertStep(data, oauth, passwordHash);
    }

    /** The update-or-create step of `/save`, once the email is known. */
    method UpsertStep(data: Fields, oauth: Option<Jwt.Claims>, passwordHash: string) returns (reply: SaveReply)
      requires data.email.Some?
      modifies this
      ensures (Snapshot(), reply) == Upsert(old(Snapshot()), data, oauth, passwordHash)
    {
      ghost var db := Snapshot();
      UpsertUnfold(db, data, oauth, passwordHash);
      var found := Lookup(records, data, oauth);
      var doc := BuildDocument(Existing(records, found), data, oauth, passwordHash);
      if !Valid(doc) {
        return SaveFailed(ValidationFailed);
      }
      reply := Write(found, doc);
    }

    /** Writes the document `/save` built and forms the reply. */
    method Write(found: Option<nat>, doc: Fields) returns (reply: SaveReply)
      requires found.Some? ==> found.value < |records|
      modifies this
      ensures (Snapshot(), reply) == Commit(old(Snapshot()), found, doc)
    {
      var id: nat;
      if found.Some? {
        id := Replace(found.value, doc);
      } else {
        id := Append(doc);
      }
      reply := Saved(WithoutPassword(doc), IssuedClaims(id, doc));
    }

    /** Writes `doc` in place of the `i`-th document, under its id. */
    method Replace(i: nat, doc: Fields) returns (id: nat)
      requires i < |records|
      modifies this
      ensures id == old(records[i].id)
      ensures records == old(records)[i := Profile(id, doc)] && nextId == old(nextId)
    {
      id := records[i].id;
      records := records[i := Profile(id, doc)];
    }

    /** Adds `doc` under the next id. */
    method Append(doc: Fields) returns (id: nat)
      modifies this
      ensures id == old(nextId)
      ensures records == old(records) + [Profile(id, doc)] && nextId == old(nextId) + 1
    {
      id := nextId;
      records := records + [Profile(id, doc)];
      nextId := nextId + 1;
    }

    /**
     * The first step of `/save`: the OAuth claims of a verified Bearer
     * token, and the email and fullName they supply when the body has none.
     */
    static method ReadBearer(body: Fields, authorization: Option<string>, verify: Jwt.Verifier)
      returns (oauth: Option<Jwt.Claims>, data: Fields)
      ensures oauth == OAuthClaims(authorization, verify)
      ensures data == WithClaimDefaults(body, oauth)
    {
      oauth := None;
      data := body;
      if Truthy(authorization) && Text.StartsWith(authorization.value, "Bearer ") {
        var verdict := verify(authorization.value[7..]);
        if verdict.Verified? && Truthy(verdict.claims.googleId) {
          oauth := Some(verdict.claims);
          if !Truthy(data.email) && Truthy(verdict.claims.email) {
            data := data.(email := verdict.claims.email);
          }
          if !Truthy(data.fullName) && Truthy(verdict.claims.fullName) {
            data := data.(fullName := verdict.claims.fullName);
          }
        }
      }
    }

    /** The lookup of `/save`: by email when truthy, then by googleId. */
    static method Lookup(rs: seq<Profile>, data: Fields, oauth: Option<Jwt.Claims>) returns (found: Option<nat>)
      ensures found == SaveLookup(rs, data, oauth)
    {
      found := None;
      if Truthy(data.email) {
        found := FindOne(rs, ByEmail(Text.Lower(data.email.value)));
      }
      if found.None? && oauth.Some? && Truthy(oauth.value.googleId) {
        found := FindOne(rs, ByGoogleId(oauth.value.googleId.value));
      }
    }

    /**
     * The document `/save` writes: the body assigned onto the stored one
     * with the email lower-cased, or a new one with the default password;
     * then the OAuth fields, the setters, and for a new one the defaults.
     */
    static method BuildDocument(existing: Option<Fields>, data: Fields, oauth: Option<Jwt.Claims>,
                                passwordHash: string) returns (doc: Fields)
      requires data.email.Some?
      ensures doc == SavedDocument(existing, data, oauth, passwordHash)
    {
      var email := Some(Text.Lower(data.email.value));
      if existing.Some? {
        doc := Assign(existing.value, data.(email := email));
      } else {
        doc := data.(email := email, password := Some(passwordHash));
      }
      if oauth.Some? {
        doc := doc.(googleId := oauth.value.googleId, googleAccessToken := oauth.value.googleAccessToken,
                    googleRefreshToken := oauth.value.googleRefreshToken);
      }
      doc := Normalize(doc);
      if existing.None? {
        doc := WithDefaults(doc);
      }
    }

    /** PUT /update for a request authenticated with claims `c`. */
    method Update(c: Jwt.Claims, body: Fields) returns (reply: UpdateReply)
      requires Inv()
      modifies this
      ensures Inv()
      ensures (Snapshot(), reply) == UpdateSpec(old(Snapshot()), c, body)
    {
      ghost var db := Snapshot();
      UpdateWellFormed(db, c, body);
      var found := Find(records, c);
      if found.None? {
        return NotFound;
      }
      var i := found.value;
      var doc := UpdateDocument(records[i].fields, c, body);
      UpdateUnfold(db, c, body);
      if !Valid(doc) {
        return UpdateFailed;
      }
      var _ := Replace(i, doc);
      reply := Updated(WithoutPassword(doc));
    }

    /** The lookup of the authenticated routes: by userId, else email, else googleId. */
    static method Find(rs: seq<Profile>, c: Jwt.Claims) returns (found: Option<nat>)
      ensures found == Resolve(rs, c)
    {
      found := None;
      if c.userId.Some? {
        found := FindOne(rs, ById(c.userId.value));
      } else if Truthy(c.email) {
        found := FindOne(rs, ByEmail(Text.Lower(c.email.value)));
      } else if Truthy(c.googleId) {
        found := FindOne(rs, ByGoogleId(c.googleId.value));
      }
    }

    /** The document `/update` writes, built as the route builds it. */
    static method UpdateDocument(stored: Fields, c: Jwt.Claims, body: Fields) returns (doc: Fields)
      ensures doc == UpdatedDocument(stored, c, body)
    {
      var updates := body;
      if Truthy(updates.email) {
        updates := updates.(email := Some(Text.Lower(updates.email.value)));
      }
      doc := stored;
      if Truthy(c.googleId) && !Truthy(doc.googleId) {
        doc := doc.(googleId := c.googleId);
        if Truthy(c.googleAccessToken) {
          doc := doc.(googleAccessToken := c.googleAccessToken);
        }
        if Truthy(c.googleRefreshToken) {
          doc := doc.(googleRefreshToken := c.googleRefreshToken);
        }
      }
      assert doc == AdoptGoogle(stored, c);
      doc := Normalize(Assign(doc, updates));
    }
  }
}
