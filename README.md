# QuickApply, modelled in Dafny

QuickApply lets a job seeker answer a LinkedIn hiring post from the post
itself. A browser extension puts a "Quick Apply" button into each post
and finds the recruiter's address and the role in the post's text. It
then asks the backend for a draft application, which is written by a
language model from the user's stored profile. The user can edit or
rewrite the draft and send it, and the backend mails it through the
user's Gmail account. A second extension script copies the web app's
login token into the extension's storage.

This project models the decisions of that core:

- the Express backend: the bearer-token middleware, the auth, profile
  and apply routes, the CORS and OAuth-callback logic of the server, the
  profile schema's setters and validation, the job parser, the mail
  composer with its token refresh and retry, and the post-processing of
  the model's answer;
- the extension: e-mail and role extraction, job-post detection, the
  token cache and the token sync, the editor wait loop, the request each
  button sends, and the button injection;
- `extension/profile-sync.js`: the debounced token push and the polling
  interval.

Modules follow the source files:

- `Text`: the JavaScript string operations the code relies on.
- `EmailScan`: the e-mail regular expression shared by the backend and
  the extension.
- `Base64`: UTF-8 and RFC 4648 encoding of the Gmail `raw` message.
- `UserProfile`: `backend/models/UserProfile.js`.
- `ProfileStore`: `backend/routes/profileRoutes.js` and the collection
  it writes.
- `Auth`, `Jwt`: `backend/middleware/auth.js` and the claims a token
  carries.
- `AuthRoutes`, `Server`, `ApplyRoutes`, `JobParser`, `GeminiClient` and
  `Mailer`: the backend files of the same names.
- `Content`, `ProfileSync`: the two extension scripts.

Mutable state is modelled with classes whose fields the methods update:

- the profile collection;
- the mail account's tokens;
- the extension's token cache and synced token;
- the session;
- the sync script's timers.

Each such method is proved equal to a step function on values, and the
properties are proved about those functions. JavaScript's falsy strings
are modelled as `Option<string>` in which `Some("")` counts as falsy. The
following are parameters, never computed here:

- the database's timing;
- JWT signing and verification;
- bcrypt;
- `marked`;
- the Groq model;
- the Gmail and Google token endpoints;
- the page's DOM.

## Model

| member | source | states |
|---|---|---|
| Text.Trim | backend/models/UserProfile.js:4-8 | `trim` yields a string with no leading or trailing whitespace, no longer than the input, and empty exactly when the input is all whitespace |
| Text.TrimIdempotent | backend/models/UserProfile.js:4-8 | trimming an already trimmed value changes nothing, so the `trim: true` setter is idempotent |
| Text.TrimIsSlice | backend/services/geminiClient.js:98 | the trimmed string is the contiguous piece of the input that follows its leading whitespace |
| Text.LowerIsLower | backend/models/UserProfile.js:9-14 | lower-casing leaves no upper-case letter and lower-casing twice is lower-casing once |
| Text.LowerTrimCommute | backend/models/UserProfile.js:9-14 | the `trim` and `lowercase` setters of `email` give the same value in either order |
| Text.IndexOf | backend/services/geminiClient.js:102 | `indexOf` reports a position where the pattern occurs and no earlier one, or that it occurs nowhere |
| Text.FoundCutsOne | backend/services/geminiClient.js:102 | when the subject occurs in the answer, `replace` with a string pattern removes exactly one copy of it, at its first occurrence |
| Text.Split | backend/services/geminiClient.js:98 | splitting at line breaks gives at least one piece and no piece holds the separator |
| Text.JoinSplit | backend/services/geminiClient.js:104-106 | splitting at a separator and joining with it again restores the input |
| Text.SplitJoin | backend/services/geminiClient.js:104-106 | joining pieces free of the separator and splitting again gives back the same pieces |
| Text.RemoveFencesLeavesNoFence | backend/services/geminiClient.js:108 | after the global ```` ```markdown ```` / ```` ``` ```` replacement no fence remains, with or without the `i` flag |
| Text.NoFenceTrim | backend/services/geminiClient.js:108 | trimming after fence removal cannot bring a fence back |
| EmailScan.MatchAtCorrect | backend/services/jobParser.js:14 | the end found at a start position is a match of `[a-zA-Z0-9._-]+@[a-zA-Z0-9._-]+\.[a-zA-Z0-9_-]+` and no match at that position is longer (greedy backtracking) |
| EmailScan.FindFromCorrect | backend/services/jobParser.js:14-15 | the scan returns the leftmost position that starts a match, and the longest match there |
| EmailScan.FirstMatchIsLeftmostLongest | backend/services/jobParser.js:15-19 | `text.match(regex)[0]` is the leftmost, longest match; it is null exactly when no position starts a match |
| EmailScan.FirstMatchHasAt | backend/services/jobParser.js:15-19 | a match is never empty and always holds an '@' |
| JobParser.ProvidedKept | backend/services/jobParser.js:8-31 | a truthy address or role from the caller is returned unchanged, and with a truthy address the text is never read |
| JobParser.RoleNeverEmpty | backend/services/jobParser.js:24-29 | the returned role is always truthy: a falsy one becomes "Potential Role" |
| JobParser.MissingEmailScans | backend/services/jobParser.js:13-21 | with a falsy address and some match in the text, the returned address is the leftmost, longest match; with no match it is the falsy address itself; with no text at all the parser throws |
| UserProfile.TrimSetter | backend/models/UserProfile.js:4-8 | the `trim` setter leaves a trimmed value, and a missing value stays missing |
| UserProfile.EmailSetter | backend/models/UserProfile.js:9-14 | the email setter leaves a trimmed, lower-case value |
| UserProfile.NormalizeCorrect | backend/models/UserProfile.js:4-63 | after the setters the trimmed fields are trimmed and the email is lower-case; `bio`, `skills`, `password` and `isLocked` are kept as given; running the setters again changes nothing |
| UserProfile.NormalIsFixed | backend/models/UserProfile.js:4-63 | a document already in normal form is unchanged by the setters |
| UserProfile.StoredEmail | backend/models/UserProfile.js:9-14 | the stored email is the given one trimmed and lower-cased |
| UserProfile.ValidIff | backend/models/UserProfile.js:4-27 | after the setters, validation passes exactly when fullName, email and currentRole hold a non-whitespace character and bio and skills are non-empty |
| UserProfile.WithDefaults | backend/models/UserProfile.js:64-67 | a created document without `isLocked` gets false; every other field is kept |
| UserProfile.AssignLaws | backend/routes/profileRoutes.js:139-140 | `Object.assign` with no keys is the identity; two assignments in a row equal one with the merged patch; a present key overwrites whatever was there |
| UserProfile.WithoutPassword | backend/routes/profileRoutes.js:91-98 | the response form has no password and differs from the document in nothing else |
| Auth.BearerRoundTrip | backend/middleware/auth.js:14-19 | the token is the header without its "Bearer " prefix, and a header built from a token yields that token |
| Auth.NoBearerDenied | backend/middleware/auth.js:14-17 | a missing header, or one without the prefix, gets 401 "No token provided" whatever the verifier does |
| Auth.CheckClassifies | backend/middleware/auth.js:19-52 | a request is admitted exactly when its token verifies, carrying the decoded claims; an invalid token gets 401 "Invalid token", an expired one 401 "Token expired", any other error 500 |
| Auth.DenialsAreKnown | backend/middleware/auth.js:14-51 | every denial is a 401 or a 500 and carries one of the middleware's four messages |
| Auth.Authenticate | backend/middleware/auth.js:11-52 | the middleware sets `req.user` to the claims and calls `next` once on success; on failure it sends the denial and does not call `next` |
| AuthRoutes.OAuthUserShape | backend/routes/authRoutes.js:25-31 | a Google account with an address gives an identity with the lower-cased first address, a name that is never missing, both tokens and no record id; an account without an address gives none |
| AuthRoutes.SessionIff | backend/routes/authRoutes.js:62-76 | `/session` reports a user exactly when the session holds a truthy email, and reports that email |
| AuthRoutes.SessionHolder.Logout | backend/routes/authRoutes.js:79-87 | after logout there is no session, `/session` reports anonymous, and the reply is the fixed message |
| AuthRoutes.Public | backend/routes/authRoutes.js:106 | the `/me` profile omits the password and both Google tokens and keeps every other field |
| AuthRoutes.MeRefusals | backend/routes/authRoutes.js:90-122 | every refusal of `/me` is a 401; "No token provided" exactly when the bearer header is missing; "Invalid token" exactly when the token fails, carries no email, or the `findOne` lookup is rejected |
| AuthRoutes.MeFindsByEmail | backend/routes/authRoutes.js:105-117 | with a verified email `/me` returns the first profile under the lower-cased email (no earlier document matches), without secrets, or the bare email exactly when the lookup succeeds and no profile matches; a rejected lookup gives 401 "Invalid token" |
| Server.FrontendStripsOneSlash | backend/server.js:19 | the frontend address is the configured one, or the default, with exactly one trailing '/' removed when there is one |
| Server.NoOriginAllowed | backend/server.js:31-48 | a request without an origin passes CORS |
| Server.OriginAllowedIff | backend/server.js:24-48 | an origin passes exactly when it is the frontend or one of the two LinkedIn origins, or starts with "http://localhost:" or "https://localhost:" |
| Server.CallbackTarget | backend/server.js:74-101 | the OAuth callback signs the Google identity without a record id and redirects to the frontend's callback page, to `?token=` and the signed token, or to exactly `?error=authentication_failed` when signing fails |
| ProfileStore.FindOne | backend/routes/profileRoutes.js:43-50 | `findOne` returns the first matching document, or none exactly when no document matches |
| ProfileStore.ResolvePriority | backend/routes/profileRoutes.js:112-118 | only the highest-priority claim is looked up (userId, else the lower-cased email, else googleId); a userId that matches nothing finds nothing, whatever the other claims |
| ProfileStore.OAuthClaimsSource | backend/routes/profileRoutes.js:16-41 | `/save` uses token claims only from a `Bearer` header whose token verifies and has a googleId |
| ProfileStore.WithClaimDefaults | backend/routes/profileRoutes.js:30-36 | the body's email and fullName win; the token's values fill them only when they are falsy |
| ProfileStore.SaveLookup | backend/routes/profileRoutes.js:43-50 | `/save` takes the first document under the lower-cased email when the email is truthy and one exists; otherwise the first document under the token's googleId when the token carries a truthy one, and otherwise none |
| ProfileStore.IssuedClaims | backend/routes/profileRoutes.js:85-89 | the issued token carries exactly the written document's id and email |
| ProfileStore.SavedDocument | backend/routes/profileRoutes.js:52-82 | the written document is in normal form with the lower-cased email; with a token, its googleId and both Google tokens replace whatever the body or the stored document held; on update every other field is the body's value where the body has the key and the stored value where it does not, each through its setter; on create the fields are the body's, the password is the default hash and `isLocked` defaults to false |
| ProfileStore.Commit | backend/routes/profileRoutes.js:52-98 | an update replaces the found document and keeps its id, a create appends under a fresh id; the reply holds the document without its password and the issued claims |
| ProfileStore.SaveNoDuplicate | backend/routes/profileRoutes.js:43-65 | saving with an email a document already holds writes to the first such document, under its id; no other document changes, and the collection does not grow |
| ProfileStore.SaveByGoogleId | backend/routes/profileRoutes.js:43-65 | when no document holds the email and the token carries a googleId some document holds, `/save` writes to the first document with that googleId, under its id, storing the token's googleId; no other document changes, and the collection does not grow |
| ProfileStore.SaveLowerCasesEmail | backend/routes/profileRoutes.js:43-82 | a successful save stores the email it keys on, trimmed and lower-cased |
| ProfileStore.SaveIssuesIdAndEmail | backend/routes/profileRoutes.js:85-98 | a successful save replies without the password, and its token carries the stored document's id and email |
| ProfileStore.SaveFailureWritesNothing | backend/routes/profileRoutes.js:99-102 | a failed save leaves the collection as it was |
| ProfileStore.SaveChangesOneDocument | backend/routes/profileRoutes.js:52-82 | a save changes at most one document under its id, or appends one under a fresh id; every other document is untouched |
| ProfileStore.SaveKeepsEmailsUnique | backend/routes/profileRoutes.js:43-82 | `/save` keeps the emails of the collection distinct |
| ProfileStore.SaveWellFormed | backend/routes/profileRoutes.js:52-82 | `/save` keeps the collection well formed: ids are distinct and below the next id, and every document is in normal form |
| ProfileStore.AdoptGoogle | backend/routes/profileRoutes.js:129-137 | the token's Google identity is copied only onto a document without a googleId, and each token only when it is truthy |
| ProfileStore.UpdateWellFormed | backend/routes/profileRoutes.js:106-148 | `/update` keeps the collection well formed |
| ProfileStore.UpdateWritesOnlyTheResolved | backend/routes/profileRoutes.js:112-148 | an update that resolves nothing answers 404 and writes nothing; otherwise it rewrites only the resolved document, keeps its id and replies without the password |
| ProfileStore.UpdateKeepsGoogleId | backend/routes/profileRoutes.js:129-140 | a googleId already stored survives `/update` unless the body itself carries one |
| ProfileStore.UpdateMayDuplicateEmail | backend/routes/profileRoutes.js:124-140 | there is a collection with distinct emails that `/update` leaves with two documents sharing one email |
| ProfileStore.Get | backend/routes/profileRoutes.js:156-179 | `/get` returns the document `Resolve` finds (userId, then email, then googleId) without its password, or `{}` exactly when nothing resolves |
| ProfileStore.Store.Save | backend/routes/profileRoutes.js:11-103 | the route, run step by step on the collection, has exactly the effect and the reply of the `/save` specification |
| ProfileStore.Store.Update | backend/routes/profileRoutes.js:106-153 | the route, run on the collection, has exactly the effect and the reply of the `/update` specification |
| Base64.NoPadRoundTrip | backend/services/mailer.js:132-136 | decoding the unpadded base64 of any byte string gives back those bytes |
| Base64.RawRoundTrip | backend/services/mailer.js:132-136 | the `raw` field is base64url without padding, and decoding it gives exactly the UTF-8 bytes of the message |
| Base64.RawIsUrlSafe | backend/services/mailer.js:132-136 | the `raw` field contains no '+', '/' or '=' |
| Base64.NoPadAlphabet | backend/services/mailer.js:132-136 | the unpadded standard encoding contains no '-' and no '_', so the URL-safe substitution can be undone |
| Mailer.NoAccessTokenNoCalls | backend/services/mailer.js:16-20 | without a stored access token the call fails before calling Google, even with a refresh token stored |
| Mailer.TestModeSendsNothing | backend/services/mailer.js:22-26 | in test mode the call returns after the credential check, with no call to Google and no write |
| Mailer.WriteThrough | backend/services/mailer.js:61-69 | a token that differs from the stored one is written before anything is sent; only the access token changes, and the first send uses it |
| Mailer.RejectedWriteThrough | backend/services/mailer.js:61-91 | a rejected write-through stores nothing and falls into the token-error branch: without a refresh token the call fails; with one, the refreshed credentials are written and the first send uses them; a failed refresh or rejected write fails with "token expired" and stores nothing |
| Mailer.NoRefreshTokenFails | backend/services/mailer.js:70-74 | when no token comes back and no refresh token is stored, the call fails after one fetch |
| Mailer.AcquireCounts | backend/services/mailer.js:43-91 | obtaining a token sends nothing, refreshes at most once, and on failure (rejected writes included) changes no stored token |
| Mailer.DeliverCounts | backend/services/mailer.js:139-175 | delivery sends once or twice and refreshes at most once; it sends twice exactly when the first send got a 401, a refresh token was stored, the refresh succeeded and its credentials were written |
| Mailer.CallBounds | backend/services/mailer.js:43-179 | a whole call sends at most twice and refreshes at most twice; a second send happens exactly after a 401 answered by a successful refresh whose write succeeded |
| Mailer.OtherErrorsPropagate | backend/services/mailer.js:168-179 | any send error other than a 401 with a refresh token stored reaches the caller with the prefix and is not retried |
| Mailer.RetryFailureMessage | backend/services/mailer.js:168-179 | a failed refresh, a rejected write of its credentials, or a failed retry reaches the caller with the error prefix twice |
| Mailer.RefreshTokenKept | backend/services/mailer.js:77-82 | the refresh token is never cleared: at the end it is the stored one or one a refresh returned |
| Mailer.SendsCarryMessage | backend/services/mailer.js:139-175 | every send carries the same encoded message, whichever token it uses |
| Mailer.RawDecodes | backend/services/mailer.js:119-136 | the encoded message decodes to the UTF-8 bytes of the composed message and is unpadded base64url |
| Mailer.LinksCorrect | backend/services/mailer.js:97-101 | the footer lists exactly the links whose URL is truthy, each with its own URL, in the order Resume, Portfolio, GitHub, LinkedIn |
| Mailer.NoLinksKeepsBody | backend/services/mailer.js:103-116 | the body is sent unchanged exactly when the profile has no link to show |
| Mailer.ComposeSeparatesBody | backend/services/mailer.js:119-129 | the message is the header lines, one empty line and the body, joined with CRLF, as in section 2.1 of RFC 5322 |
| Mailer.Account.TakeCredentials | backend/services/mailer.js:77-82 | taking refreshed credentials always replaces the access token, and replaces the refresh token only when one came |
| Mailer.ObtainToken | backend/services/mailer.js:43-91 | the token step updates the account's tokens exactly as the specification's acquire step says |
| Mailer.DeliverRaw | backend/services/mailer.js:139-175 | the send step, with its one retry after a 401, updates the tokens as the specification's deliver step says |
| Mailer.CollectLinks | backend/services/mailer.js:97-101 | pushing the links in turn builds exactly the specified link list |
| Mailer.SendApplicationEmail | backend/services/mailer.js:13-180 | without a user the call fails with "User not authenticated" and calls nothing; otherwise the account's tokens change as the specified run says and nothing else |
| GeminiClient.ExcerptIsPrefix | backend/services/geminiClient.js:73 | the prompt quotes a prefix of the post of at most 2000 UTF-16 code units: all of a post within that length, otherwise exactly 2000 units, or 1999 when the next character is a surrogate pair the cut would split |
| GeminiClient.OnlyExcerptMatters | backend/services/geminiClient.js:63-77 | two posts that share a prefix of 2000 UTF-16 code units give the same result |
| GeminiClient.FailuresPrefixed | backend/services/geminiClient.js:114-118 | every failure, a missing key included, carries "Email generation failed: " |
| GeminiClient.TestModeSubject | backend/services/geminiClient.js:15-29 | in test mode the subject is "Application for - " followed by the role |
| GeminiClient.NoneKept | backend/services/geminiClient.js:98 | no line survives the trim-and-filter exactly when every piece is whitespace |
| GeminiClient.FirstKept | backend/services/geminiClient.js:98-100 | the first kept line is the trimmed first piece that is not all whitespace, and every earlier piece is blank |
| GeminiClient.KeptAreLines | backend/services/geminiClient.js:98 | every kept line is non-empty and trimmed, and contains no line break |
| GeminiClient.SubjectIsFirstLine | backend/services/geminiClient.js:98-100 | the subject is the first non-blank line of the answer, trimmed, or "Application for - " and the role when there is none |
| GeminiClient.BodyIsClean | backend/services/geminiClient.js:102-113 | the returned body is trimmed and contains no code fence |
| GeminiClient.BlankOutput | backend/services/geminiClient.js:95-113 | an empty or all-whitespace answer gives the default subject and an empty body |
| ApplyRoutes.ProfileWithoutPassword | backend/routes/applyRoutes.js:14-30 | `getProfile` uses the profile routes' lookup and never hands on the password |
| ApplyRoutes.NoProfileNoMail | backend/routes/applyRoutes.js:14-30 | without a profile nothing is mailed and the answer is the 500 "Profile not found" error |
| ApplyRoutes.PositionUnused | backend/routes/applyRoutes.js:99 | the `'Position'` fallback is never used, because the parser's role is never empty |
| ApplyRoutes.ApplyBranches | backend/routes/applyRoutes.js:91-144 | once the profile is found, a non-blank string body takes the send branch and anything else drafts |
| ApplyRoutes.SendBranchMails | backend/routes/applyRoutes.js:91-115 | the send branch mails exactly when a recipient is known; the mail goes to `jobDetails.email || detectedEmail` (with `JobParser.ProvidedKept` and `JobParser.MissingEmailScans`, the provided address or the first address in the post) with the rendered body and the profile, its subject names the parser's role, and the reply names the recipient; otherwise it answers 400 |
| ApplyRoutes.MailedOnlyWithBody | backend/routes/applyRoutes.js:85-115 | a mail is sent exactly when the profile exists, the body is a non-blank string and a recipient is known |
| ApplyRoutes.DraftSendsNothing | backend/routes/applyRoutes.js:117-124 | a blank body sends nothing, and a missing post text or address gets a 400 before the model is asked |
| ApplyRoutes.CrashOnlyWhenSending | backend/routes/applyRoutes.js:91-93 | the send branch crashes exactly when the post text is missing and no truthy address was given; the draft branch never does |
| ApplyRoutes.DraftNeverCrashes | backend/routes/applyRoutes.js:118-127 | after the draft checks the parser cannot throw |
| ApplyRoutes.DraftReply | backend/routes/applyRoutes.js:136-150 | a generator failure or an empty body gives a 500; otherwise the reply carries the markdown body and the generated subject, or "Application for - <role>" when that subject is empty, so the subject is never empty |
| ApplyRoutes.DraftIsPostProcessed | backend/routes/applyRoutes.js:126-150 | a draft is the model's post-processed answer for the parser's role: its subject is never the fallback and its body is non-empty; a blank answer yields no draft |
| ApplyRoutes.RewriteIsClean | backend/routes/applyRoutes.js:34-82 | a rewrite is trimmed and holds no code fence; in test mode it extends the current email |
| Content.ExtractEmailIsFirstMatch | extension/content.js:431-435 | `extractEmail` returns the leftmost, longest match of the pattern, or null exactly when nothing in the text matches |
| Content.ExtractRole | extension/content.js:438-452 | the loop over the patterns returns the trimmed capture of the first pattern whose capture is non-empty, or null |
| Content.RoleIsFirstCapture | extension/content.js:438-452 | the role is the trimmed first non-empty capture, every earlier pattern having captured nothing; with no capture it is null |
| Content.IsJobPostIff | extension/content.js:455-462 | a post is a job post exactly when its lower-cased text contains one of the keywords |
| Content.TokenSync.SyncToken | extension/content.js:37-55 | storage is written only when the page's token changed: set for a truthy token and removed otherwise |
| Content.AuthCache.GetAuthToken | extension/content.js:74-90 | a cached token is returned whatever storage holds; otherwise the stored token is read and cached, or null when it is falsy or there is no storage |
| Content.AuthCache.Unauthorized | extension/content.js:547-551 | a 401 from the draft request clears both the storage and the cache |
| Content.DelaySchedule | extension/content.js:385 | the editor-wait delays double from 50 ms and stop growing at 500 ms |
| Content.WaitBounded | extension/content.js:370-390 | every wait is between 50 and 500 ms, so all waits together take at most 6250 ms |
| Content.WaitForEditor | extension/content.js:370-402 | the loop stops at the first attempt that finds the editor, or after 15 attempts, and reports which; it waits exactly the scheduled delays in between |
| Content.TrimmedIsFilled | extension/content.js:290-296 | a non-blank string, once trimmed, passes the server's "filled" test |
| Content.GenerateRequestPassesChecks | extension/content.js:509-532 | a draft request the extension sends has no body, a non-blank post text and an address, so it passes the server's checks; it is withheld exactly when no address is found or the text is blank |
| Content.SendRequestTakesSendBranch | extension/content.js:290-310 | the send button posts only a non-blank body, so the server takes the send branch |
| Content.RewriteNeedsPrompt | extension/content.js:250-258 | a blank prompt sends no rewrite; otherwise the trimmed prompt is sent |
| Content.DraftPathAsWrittenIsNotFound | extension/content.js:536 | the draft request as written goes to "/api/api/apply", which no router serves: the server answers 404 |
| Content.ButtonsReachTheirRoutes | extension/content.js:536 | with the corrected path the draft and send buttons reach the apply route and the rewrite button reaches the rewrite route |
| Content.ProcessedAtMostOne | extension/content.js:606-621 | processing leaves at most one button per post, adds one only to a post that has none and has an action bar, and a second pass changes nothing |
| Content.ProcessPosts | extension/content.js:606-621 | the loop gives a post one button when it had none and has an action bar, and leaves every other post's count as it was |
| ProfileSync.SameTokenIsIgnored | extension/profile-sync.js:48-52 | the token already seen changes nothing; a new one is remembered and arms the debounce timer without writing |
| ProfileSync.BurstIsDebounced | extension/profile-sync.js:15-37 | a burst of tokens before the timer fires writes nothing and leaves the last token pending, unless every token was the one already seen |
| ProfileSync.BurstWritesOnce | extension/profile-sync.js:15-37 | after a burst and the timer firing, storage is written at most once, with the last token: set when truthy, removed otherwise |
| ProfileSync.StopIsIdempotent | extension/profile-sync.js:86-91 | stopping leaves no interval running, and stopping twice is stopping once |
| ProfileSync.StartKeepsOneInterval | extension/profile-sync.js:78-84 | starting the poll always leaves exactly one interval running, the new one, even when started twice |
| ProfileSync.Sync.MaybeSync | extension/profile-sync.js:48-52 | the handler performs the `maybeSync` step on the script's state and leaves the timers alone |
| ProfileSync.Sync.Fire | extension/profile-sync.js:15-37 | the debounce timer's callback performs the write step and leaves the timers alone |
| ProfileSync.Sync.StopPolling | extension/profile-sync.js:86-91 | stopping performs the stop step on the timers and leaves the token state alone |
| ProfileSync.Sync.StartPolling | extension/profile-sync.js:78-84 | starting the poll performs the start step on the timers and leaves the token state alone |
| ProfileSync.Sync.Init | extension/profile-sync.js:93-108 | `init` syncs the page's token once and then starts the poll |

## Left out

- Lower-casing covers ASCII letters only; `toLowerCase` on other scripts is not modelled.
- `extractRole`'s regular expressions are not modelled as patterns. `Content.ExtractRole` takes each pattern's capture group (or its absence) as input.
- The DOM is not modelled: the overlay's markup, shadow root, event listeners, the `MutationObserver` and `chrome.runtime` messaging are left out. Post text, captures and storage are inputs.
- Real time is not modelled. Delays and the 3-second poll are numbers; timers fire as explicit steps.
- `marked`, the Groq chat API, Gmail, Google's token endpoints, `jsonwebtoken`, `bcrypt` and MongoDB are outside the model. They are parameters (oracle functions or recorded answers). The collection is a sequence of documents under numeric ids.
- Mailer.Acquire: models a rejected `user.save()` for each of the three writes (write-through, explicit refresh, refresh before the retry), as answers of the `Google` oracle. A rejected `findById` at the start of the call is not modelled: the method receives the loaded user, or null.
- AuthRoutes.Me: models a rejected `findOne` through its `lookupFails` parameter.
- ProfileStore.SaveSpec: assumes every `findOne`, `findById` and `save` of the profile routes and of `getProfile` succeeds. A database error there would reach the route's `catch` and give a 500 before or instead of the write; that path is not modelled.
- Strings are sequences of Unicode scalar values, so a lone surrogate cannot occur. Only the excerpt of the post counts UTF-16 code units, as JavaScript does (`GeminiClient.Utf16Length`). Every other index in the model falls on ASCII text (prefixes such as "Bearer ", the trailing '/'), or comes from a search in the same string.
- GeminiClient.ExcerptIsPrefix: allows 1999 code units where the 2000th unit is the first half of a surrogate pair. There JavaScript's `substring` keeps the lone half, while `GeminiClient.Excerpt` drops the whole character, because a Dafny `char` cannot hold a lone surrogate.
- Base64.Utf8: encodes a sequence of scalar values. The replacement of a lone surrogate by U+FFFD, which `Buffer.from` performs, cannot arise.
- ProfileStore.Matches: applies the schema's setters (trim, and lower-case for the email) to the value in a `findOne` filter, as Mongoose 5 and later do when they cast a query against the schema. `SaveNoDuplicate`, `SaveByGoogleId` and `SaveKeepsEmailsUnique` rest on this: " A@B.com " finds the stored "a@b.com" only because of it.
- Concurrency is not modelled: each request runs alone. Two overlapping `/save` calls with the same new email could both create a document, and the model does not capture that.
- Request-body values that are not strings are treated as absent. JavaScript's checks of `typeof` against numbers or objects are not modelled.
- Auth.BearerToken: matches the "Bearer " prefix case-sensitively, exactly as `startsWith` does. Other authorization schemes are not parsed.
- The wording of the model prompts is not modelled. Only the 2000-character excerpt and the role enter the model.
- The `TypeError` text JavaScript produces when the parser reads a missing post is one fixed error value.
- Server.Route: covers only the three router mounts and the two POST routes of the apply router. Express's other routing features (methods, trailing slashes, `passport` redirects, static files) are left out.
- `lastUpdated` and every other `Date.now()` value are not modelled.
- GeminiClient.PostProcess: the removal of the subject from the answer is stated through `Text.ReplaceFirst` and `Text.FoundCutsOne`. Nothing proves that the subject occurs in the raw answer. Proving it would need to relate the trimmed line back to its position in the untrimmed output.
- Passport's Google strategy, its sessions and the OAuth redirect dance are not modelled beyond the identity they yield (`AuthRoutes.OAuthUser`) and the callback redirect.
- The frontend pages, the popup and the background script are not modelled.

## Findings

| source | as written | input that shows it | evidently intended | confidence | as-written member | corrected member |
|---|---|---|---|---|---|---|
| extension/content.js:536 | the draft request goes to `${API_BASE_URL}/api/apply`, and `API_BASE_URL` already ends in `/api`, so the path is "/api/api/apply", which no router serves | any click on a Quick Apply button in a post with an address | `${API_BASE_URL}/apply`, as the send button uses | high; not executed | Content.DraftPathAsWrittenIsNotFound | Content.ButtonsReachTheirRoutes |

Three more observations, which are not defects of behaviour:

- A failed retry in `sendApplicationEmail` reaches the caller as "Failed to send email: Failed to send email: …" (`Mailer.RetryFailureMessage`).
- The `'Position'` fallback in `applyRoutes.js` can never be reached (`ApplyRoutes.PositionUnused`).
- `/update` does not look up the new email, so it can give two documents the same email, because the schema declares no unique index (`ProfileStore.UpdateMayDuplicateEmail`).
