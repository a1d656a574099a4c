# LMS core, modelled in Dafny

This project models the decision and normalisation core of a small learning
management system built on Next.js and Supabase. Instructors create, publish and
grade courses and assignments. Learners submit work. The model covers:

- the zod input schemas for courses, assignments, submissions and grades:
  trimming, blank-to-absent, length bounds, the late-deadline cross-field
  rule, and publish-versus-draft strength;
- the server-side authorization guards (`requireAuth`, `requireInstructor`,
  `requireLearner`, `requireCourseOwnership`) over a snapshot of the store;
- the request middleware: public-path matching, the redirect rules, and the
  copying of cookies into a 307 redirect;
- the auth callback route's redirect tree and the signup route's validation,
  error classification and success payload;
- the toast message helpers;
- the browser client's cookie handling (reading `document.cookie`, writing
  Set-Cookie strings) and its lazily created singleton;
- the two course actions the course tests pin down: creating a draft and
  publishing.

The course actions live in
`src/app/(instructor)/instructor/courses/[id]/actions.ts`. The table below
cites the test that pins each one, because that path does not fit a table
cell. The functions modelled are at these lines of the actions file:
`mapZodErrors` at 27-38, `createCourseInternal` at 88-112 (guard 93,
parse 95-103, payload 105-112), and `publishCourseInternal` at 213-245
(ownership 218, parse 220-233, already published 235-241, update 243-245).

Files:

| file | module | what it holds |
|---|---|---|
| `wrappers.dfy` | `Wrappers` | `Option`, `Result` |
| `strings.dfy` | `Strings` | `trim` (ECMAScript whitespace set), UTF-16 length, `startsWith`, `includes`, `indexOf`, `split`/`join` with their round trip, `filter(Boolean)`, `String(n)` |
| `schema.dfy` | `Schema` | the zod semantics used: `Value`, `Issue`, `Parsed` (valid, dirty or aborted), the shared field parsers, `.or(z.literal(''))`, `flatten().fieldErrors` |
| `db.dfy` | `Db` | row types and status enums from `src/lib/supabase/types.ts`, tables, and `.eq('id', k).maybeSingle()` |
| `course_validation.dfy` | `CourseValidation` | `src/lib/validations/course.ts` |
| `assignment_validation.dfy` | `AssignmentValidation` | `src/lib/validations/assignment.ts` |
| `submission_validation.dfy` | `SubmissionValidation` | `src/lib/validations/submission.ts` |
| `grade_validation.dfy` | `GradeValidation` | `src/lib/validations/grade.ts` |
| `guards.dfy` | `Guards` | `src/lib/auth/guards.ts` |
| `middleware.dfy` | `Middleware` | `src/middleware.ts` |
| `auth_callback.dfy` | `AuthCallback` | `src/app/api/auth/callback/route.ts` |
| `signup_route.dfy` | `SignupRoute` | `src/app/api/auth/signup/route.ts` |
| `toast.dfy` | `Toast` | `src/lib/utils/toast.ts` |
| `browser_client.dfy` | `BrowserClient` | `src/lib/supabase/client.ts` |
| `course_actions.dfy` | `CourseActions` | `createCourseInternal` and `publishCourseInternal` |

How things are represented:

- **zod outcomes.** Each field parse ends in one of zod's three states.
  - A *dirty* value still reaches later refinements, but transforms do not run on it.
  - An *aborted* field (wrong type or missing) stops the object-level refine.
  - An object is valid only when every field is.
- **Side effects as values.** Store queries, the auth service and the
  session are inputs that say what the call returned: a failure, nothing, or
  a row.
- **Foreign primitives as parameters.** These are URL and e-mail checks,
  `Date.parse`, `toISOString`, `toUTCString`, `encodeURIComponent`,
  `decodeURIComponent` and `toLowerCase`. Lemmas that need real-world facts
  about them take those facts as hypotheses:
  - `Coherent(dates)`: the empty string does not parse, and an ISO string
    reads back as its time;
  - `decode(encode(v)) == v`;
  - `toLowerCase` leaves the default message alone;
  - no `;` in written text.
- **Mutable state as classes.** The response cookie jar and `document.cookie`
  writes are classes updated in place, as is the module-level `client`
  variable.

## Model

| member | source | states |
|---|---|---|
| `Strings.Trim` | src/lib/validations/course.ts:5 | The result has no leading or trailing whitespace and is a contiguous slice of the input whose prefix and suffix around it are whitespace only (the `trim()` every string schema applies). |
| `Strings.TrimIdempotent` | src/lib/validations/course.ts:12 | Trimming twice equals trimming once. |
| `Strings.TrimEmptyIffBlank` | src/lib/validations/course.ts:12-13 | A trimmed string is empty exactly when the original is whitespace only. |
| `Strings.JoinSplit` | src/lib/supabase/client.ts:46-50 | `split(sep)` then `join(sep)` gives back the original string. |
| `Strings.SplitJoin` | src/lib/supabase/client.ts:45 | Splitting a join gives back the parts when no part holds the separator's first character. |
| `Strings.NonEmpty` | src/lib/supabase/client.ts:45 | `filter(Boolean)` keeps only non-empty strings, never lengthens the list, and keeps every non-empty string exactly as often as it occurs. |
| `Strings.NonEmptyAppend` | src/lib/supabase/client.ts:45 | Filtering a concatenation is the concatenation of the filtered parts, so order is kept. |
| `BrowserClient.NonEmptyKeeps` | src/lib/supabase/client.ts:45 | A list without empty strings passes `filter(Boolean)` unchanged. |
| `Schema.TrimmedString` | src/lib/validations/course.ts:3-7 | A string trimmed then bounded: valid iff a string whose trimmed UTF-16 length is in the bounds, with the trimmed value; aborted iff not a string, carrying `required_error` when missing. |
| `Schema.BooleanDefaultFalse` | src/lib/validations/assignment.ts:34 | Valid iff missing or boolean; missing reads as `false`. |
| `Schema.OrEmptyLiteral` | src/lib/validations/submission.ts:9-13 | `.or(z.literal(''))`: valid iff the first option is valid or the value is `''`; otherwise the first option's dirty result or "Invalid input". |
| `Schema.FieldErrors` | src/app/api/auth/signup/route.ts:54 | `flatten().fieldErrors` has a key exactly for each non-empty path some issue is attached to; its list is the messages of the issues on that path, in issue order. |
| `Schema.MessagesOn` | src/app/api/auth/signup/route.ts:54 | The messages on a path: empty iff no issue is on it, otherwise headed by the message of the first issue on it. |
| `Schema.FirstIssueOn` | src/app/api/auth/signup/route.ts:54 | The index of the first issue on a path: the issue there is on the path and no earlier one is. |
| `Db.MaybeSingle` | src/lib/auth/guards.ts:42-46 | `maybeSingle()`: a row is found iff the query succeeds and exactly one row matches, and it is that row; an error iff the query fails or more than one row matches; no matching row gives "no data". |
| `Db.MatchingSingle` | src/lib/auth/guards.ts:99-103 | When exactly one row carries the key, the lookup matches that row alone. |
| `CourseValidation.Title` | src/lib/validations/course.ts:3-7 | Accepted iff a string whose trimmed length is 1..200; the value is the trimmed string; issues only on `title`. |
| `CourseValidation.BlankTitleRejected` | src/lib/validations/course.ts:6 | A whitespace-only title is dirty with exactly the "제목을 입력해주세요." issue. |
| `CourseValidation.DraftDescription` | src/lib/validations/course.ts:9-19 | Accepted iff missing, blank, or trimmed length 10..5000; the value is absent for missing or blank and otherwise the trimmed text. |
| `CourseValidation.ShortDraftDescriptionRejected` | src/lib/validations/course.ts:13-15 | A description whose trimmed length is 1..9 is dirty with exactly the too-short issue. |
| `CourseValidation.PublishDescription` | src/lib/validations/course.ts:21-25 | Accepted iff a string whose trimmed length is 10..5000; the value is trimmed. |
| `CourseValidation.Thumbnail` | src/lib/validations/course.ts:27-34 | Accepted iff missing, blank, or its trimmed text passes the URL check; the value is absent or the trimmed text. |
| `CourseValidation.DraftSchema` | src/lib/validations/course.ts:36-40 | Ok iff every field is accepted; the value is the normalised draft; otherwise at least one issue. |
| `CourseValidation.PublishSchema` | src/lib/validations/course.ts:42-44 | Ok iff title, publish description and thumbnail are accepted; a rejected description always leaves an issue on `description`. |
| `CourseValidation.PublishWithoutDescriptionRejected` | src/lib/validations/course.ts:22 | Publishing with no description fails with the "설명을 입력해주세요." issue on `description`. |
| `CourseValidation.PublishImpliesDraft` | src/lib/validations/course.ts:42-44 | Whatever the publish schema accepts the draft schema accepts too, with the same title and thumbnail and the description present. |
| `CourseValidation.DraftIdempotent` | src/lib/validations/course.ts:9-34 | Validating a draft's own output again gives the same draft. |
| `AssignmentValidation.Title` | src/lib/validations/assignment.ts:3-7 | Same rule as the course title, with the assignment messages. |
| `AssignmentValidation.DueDate` | src/lib/validations/assignment.ts:27-32 | Accepted iff a string that parses as a date; the value is its ISO form; an unparsable string is dirty with the invalid-date issue; missing is aborted with the required message. |
| `AssignmentValidation.LateDeadline` | src/lib/validations/assignment.ts:36-51 | Missing or `''` gives no deadline; any other string must parse, and becomes its ISO form. |
| `AssignmentValidation.RefineIssues` | src/lib/validations/assignment.ts:61-71 | The object refine adds no issue iff the late rule holds, and otherwise one issue on `lateSubmissionDeadline`. |
| `AssignmentValidation.Combine` | src/lib/validations/assignment.ts:53-71 | Ok iff every field is valid and the late rule holds on the field values; when no field aborted and the rule fails, the last issue is the late-deadline issue. |
| `AssignmentValidation.DraftSchema` | src/lib/validations/assignment.ts:53-71 | Ok iff every field is accepted and the cross-field rule holds on the normalised values; the value is the normalised draft. |
| `AssignmentValidation.PublishSchema` | src/lib/validations/assignment.ts:73-91 | The same, with the required publish description. |
| `AssignmentValidation.AllowLateDefaultsToFalse` | src/lib/validations/assignment.ts:34 | An omitted `allowLateSubmission` yields `false`. |
| `AssignmentValidation.LateOffIgnoresDeadlineOrder` | src/lib/validations/assignment.ts:61-63 | With late submission off, acceptance depends only on the fields themselves. |
| `AssignmentValidation.IsoReadsBack` | src/lib/validations/assignment.ts:32 | Under `Coherent`, a normalised date is non-empty and parses back to the same time. |
| `AssignmentValidation.LateOrderMeansLater` | src/lib/validations/assignment.ts:63-65 | With late submission on, the refine holds iff a deadline is given and its time is strictly after the due time. |
| `AssignmentValidation.LateOnNeedsLaterDeadline` | src/lib/validations/assignment.ts:61-71 | With late submission on and well-formed fields, the draft is accepted iff a deadline exists and is strictly later than the due date. |
| `AssignmentValidation.LateNotAfterDueRejected` | src/lib/validations/assignment.ts:64-70 | A missing deadline, or one not strictly later (equal included), is rejected, and the error is on `lateSubmissionDeadline`. |
| `AssignmentValidation.PublishImpliesDraft` | src/lib/validations/assignment.ts:73-91 | Publish-valid implies draft-valid with the same values and the description present. |
| `SubmissionValidation.Content` | src/lib/validations/submission.ts:3-7 | Accepted iff a string whose trimmed length is 1..10000; the value is trimmed; missing is aborted with the required message. |
| `SubmissionValidation.OptionalUrl` | src/lib/validations/submission.ts:10-12 | `z.string().url().optional()`: valid iff missing or a string passing the URL check. |
| `SubmissionValidation.FileUrl` | src/lib/validations/submission.ts:9-13 | Accepted iff missing, `''`, or a string passing the URL check; the accepted value is the input string unchanged; any other string is dirty with the URL message. |
| `SubmissionValidation.CreateSchema` | src/lib/validations/submission.ts:15-18 | Ok iff content and `fileUrl` are accepted; content trimmed, `fileUrl` unchanged. |
| `SubmissionValidation.BlankContentRejected` | src/lib/validations/submission.ts:5-6 | Whitespace-only content is dirty with exactly the required message. |
| `SubmissionValidation.AcceptedOutputShape` | src/lib/validations/submission.ts:9-13 | Accepted content is trimmed, and an accepted file URL is exactly the string given. |
| `SubmissionValidation.BadFileUrlReportedOnFileUrl` | src/lib/validations/submission.ts:9-13 | With valid content and a bad file URL, the submission is rejected with issues only on `fileUrl`. |
| `GradeValidation.Score` | src/lib/validations/grade.ts:4-7 | Accepted iff a number with 0 ≤ score ≤ 100; a non-number aborts, missing with the required message; below 0 and above 100 are dirty with their own messages. |
| `GradeValidation.ScoreBoundsInclusive` | src/lib/validations/grade.ts:4-7 | 0, 100 and 99.5 are accepted; -0.5 and 100.5 are rejected; NaN aborts; +∞ is dirty. |
| `GradeValidation.OptionalFeedback` | src/lib/validations/grade.ts:8-11 | `z.string().max(5000).optional()`: valid iff missing or a string of UTF-16 length ≤ 5000; issues only on `feedback`. |
| `GradeValidation.Feedback` | src/lib/validations/grade.ts:8-12 | With `.or(z.literal(''))` added: accepted iff missing or a string of UTF-16 length ≤ 5000 (`''` included); the value is the string unchanged. |
| `GradeValidation.CreateSchema` | src/lib/validations/grade.ts:3-14 | Ok iff score and feedback are accepted and `requestResubmit` is missing or boolean; the value carries them, with `requestResubmit` defaulting to false. |
| `GradeValidation.ResubmitDefaultsToFalse` | src/lib/validations/grade.ts:13 | An omitted `requestResubmit` yields `false`. |
| `GradeValidation.UpdateSchema` | src/lib/validations/grade.ts:16-26 | Ok iff score and feedback are accepted, with the same values. |
| `GradeValidation.UpdateMatchesCreate` | src/lib/validations/grade.ts:16-26 | The update schema accepts exactly what the create schema accepts without `requestResubmit`, with the same score and feedback. |
| `Guards.RequireAuth` | src/lib/auth/guards.ts:20-37 | A lookup error gives 500 and takes precedence over a missing user, which gives 401; otherwise the user. |
| `Guards.RequireRole` | src/lib/auth/guards.ts:39-64 | Ok iff authenticated, the profile lookup succeeds, a profile exists and it has the role; 500 for a lookup error, 403 for no profile or the wrong role. |
| `Guards.RequireInstructor` | src/lib/auth/guards.ts:39-64 | The role guard for `instructor`; the granted profile belongs to the user; failure codes are only 500, 401 or 403. |
| `Guards.RequireLearner` | src/lib/auth/guards.ts:66-94 | The role guard for `learner`, with the learner-only message for the wrong role. |
| `Guards.NoOneIsBoth` | src/lib/auth/guards.ts:39-94 | No request passes both role guards. |
| `Guards.NullRoleRefusedByBoth` | src/lib/auth/guards.ts:39-94 | A profile with no role is refused with 403 by both guards. |
| `Guards.InstructorWithUniqueProfileGranted` | src/lib/auth/guards.ts:39-64 | A user with exactly one instructor profile row is granted, whatever `onboarded` says. |
| `Guards.RequireCourseOwnership` | src/lib/auth/guards.ts:96-121 | The instructor guard's error comes first; then 500 for a lookup error, 404 for no course, 403 for another instructor's course; on success the course has the requested id and the caller as instructor. |
| `Guards.OwnerOfUniqueCourseGranted` | src/lib/auth/guards.ts:96-121 | The owner of the one course row with that id is granted that row. |
| `Middleware.FirstSegment` | src/middleware.ts:59 | The first path segment holds no `/` and is a prefix of the string. |
| `Middleware.FirstSegmentIs` | src/middleware.ts:59 | For a `w` without `/`: the first segment is `w` iff the string is `w` or starts with `w/`. |
| `Middleware.PublicPathsInTurn` | src/middleware.ts:57-61 | Over the four entries of `PUBLIC_PATHS` (line 8): a path is public iff `/` admits it exactly, or one of `/signin`, `/signup`, `/onboarding` admits it as itself or a prefix followed by `/`. |
| `Middleware.PublicPathBySegment` | src/middleware.ts:57-61 | A path is public iff it is `/` or `/` followed by `signin`, `signup` or `onboarding`, either alone or before a `/`. |
| `Middleware.PublicPathNeedsSegmentBoundary` | src/middleware.ts:59 | `/signin2` is not public; `/signin/reset` is. |
| `Middleware.Decide` | src/middleware.ts:13-55 | The redirect decision as written: it only ever redirects to the four known targets; signed out it passes exactly the public paths and sends every other path to `/signin`. |
| `Middleware.DecideForProfile` | src/middleware.ts:40-54 | A user who is not onboarded is sent to `/onboarding` from every path outside it, before any role check. |
| `Middleware.NoProfileAlwaysOnboarding` | src/middleware.ts:36-38 | A signed-in user with no profile row is redirected to `/onboarding` on every path. |
| `Middleware.NotOnboardedConfinedToOnboarding` | src/middleware.ts:42-44 | A user who is not onboarded passes exactly on paths starting with `/onboarding`. |
| `Middleware.RoleAreas` | src/middleware.ts:46-54 | An onboarded instructor is sent to the instructor dashboard from paths starting with `/learner` (no segment boundary), an onboarded learner to the learner dashboard from `/instructor`; everything else, and every path for a role-less profile, passes. |
| `Middleware.ProfileRedirectSettles` | src/middleware.ts:42-54 | For a found profile, the target of any redirect is itself let through. |
| `Middleware.RedirectsSettleWithProfile` | src/middleware.ts:42-54 | Once a profile row is found, the target of any redirect is itself let through. |
| `Middleware.SignedOutRedirectSettles` | src/middleware.ts:22-28 | Signed out, every redirect goes to `/signin`, and that target is public, so it passes. |
| `Middleware.NoProfileRedirectLoops` | src/middleware.ts:36-38 | As written, a signed-in user with no profile row on `/onboarding` is redirected to `/onboarding` again. |
| `Middleware.DecideCorrected` | src/middleware.ts:36-44 | Agrees with `Decide` except when there is no profile row on `/onboarding` and below, where it lets the request through. |
| `Middleware.CorrectedRedirectsSettle` | src/middleware.ts:13-55 | With the correction, the target of every redirect is let through. |
| `Middleware.Lookup` | src/middleware.ts:70 | A cookie is found under a name iff one is stored under it, and the one found is stored and carries that name. |
| `Middleware.Upsert` | src/middleware.ts:70 | `cookies.set` keeps the length when the name is already stored and adds one entry otherwise. |
| `Middleware.UpsertKeepsUnique` | src/middleware.ts:70 | Setting a cookie keeps names unique. |
| `Middleware.UpsertFresh` | src/middleware.ts:70 | A cookie with a new name is appended at the end. |
| `Middleware.NameInUpsert` | src/middleware.ts:70 | After a set, every stored cookie is the new one or was stored before. |
| `Middleware.UpsertLookup` | src/middleware.ts:70 | After setting a cookie, looking up its name gives it, and every other name is unchanged. |
| `Middleware.UpsertAllLastWins` | src/middleware.ts:85-89 | After setting a list of cookies, each name maps to the last cookie of that name in the list. |
| `Middleware.CookieJar.constructor` | src/middleware.ts:15 | A new jar is empty. |
| `Middleware.Response.Next` | src/middleware.ts:15 | `NextResponse.next`: status 200, no location, an empty fresh cookie jar. |
| `Middleware.Response.Redirect` | src/middleware.ts:68 | `NextResponse.redirect`: the given status and location, an empty fresh cookie jar. |
| `Middleware.CookieJar.Set` | src/middleware.ts:70 | The jar's new entries are the upsert of the old entries with the cookie; names stay unique. |
| `Middleware.SetAll` | src/middleware.ts:85-89 | Setting the cookies one by one leaves the jar equal to upserting them all in order. |
| `Middleware.RedirectWithCookies` | src/middleware.ts:63-74 | A fresh 307 response to the request's origin with the new path and an empty query, whose cookies equal the original response's. |
| `Middleware.HandleRequest` | src/middleware.ts:13-55 | The response carries the refreshed cookies; it passes through (200) or redirects (307) to the target `Decide` gives, as the source does. |
| `Middleware.Respond` | src/middleware.ts:13-55 | The response holds the refreshed cookies and passes through (200) or redirects (307) to the outcome's path on the request's origin. |
| `Middleware.HandleRequestCorrected` | src/middleware.ts:13-55 | The same response built on `DecideCorrected`: no redirect for a user without a profile row on `/onboarding`. |
| `AuthCallback.VerificationMessage` | src/app/api/auth/callback/route.ts:14-18 | The expired-link message is used iff the error is `access_denied` and the description contains `expired`. |
| `AuthCallback.ExchangeMessage` | src/app/api/auth/callback/route.ts:34-38 | The expired-code message is used iff the exchange error's message contains `expired`. |
| `AuthCallback.Landing` | src/app/api/auth/callback/route.ts:46-63 | The landing page after an exchange is one of the two dashboards or `/onboarding`. |
| `AuthCallback.Callback` | src/app/api/auth/callback/route.ts:4-68 | The redirect keeps the origin and goes to one of four paths; it leaves `/signin` iff there is no error, there is a code, and the exchange succeeded. |
| `AuthCallback.ErrorWinsOverCode` | src/app/api/auth/callback/route.ts:11-23 | A non-empty `error` redirects to `/signin` with `error=email_verification_failed`, whatever the code. |
| `AuthCallback.FailedExchange` | src/app/api/auth/callback/route.ts:31-43 | A failed exchange redirects to `/signin` with `error=auth_failed` and the exchange message. |
| `AuthCallback.LandingAfterExchange` | src/app/api/auth/callback/route.ts:46-63 | After a successful exchange, a missing user, missing profile or profile that is not onboarded goes to `/onboarding`; otherwise the dashboard for the role, learner when the role is not instructor. |
| `AuthCallback.NothingToDo` | src/app/api/auth/callback/route.ts:66-67 | With neither error nor code (empty counts as absent), the redirect is a bare `/signin`. |
| `SignupRoute.Email` | src/app/api/auth/signup/route.ts:6 | Accepted iff a string passing the e-mail check. |
| `SignupRoute.SignupSchema` | src/app/api/auth/signup/route.ts:5-12 | Ok iff e-mail, password length 8..128 and name length 1..100 all hold; a body that is not an object has no field errors. |
| `SignupRoute.Classify` | src/app/api/auth/signup/route.ts:79-96 | `password` gives 400 `weak_password`; otherwise `already`, `registered` or `exists` gives 409 `email_already_exists`; anything else gives 503 `service_unavailable`. |
| `SignupRoute.Post` | src/app/api/auth/signup/route.ts:36-119 | An unparsable body gives 400; an invalid body gives 400 with the field errors; for a valid body, an auth error is answered by `Classify` on its lowercased message (or the default text), a reply without a user id gives 503 `service_unavailable`, and a thrown call gives 503 with the retry text; 201 iff the body is valid and the service returned a user with an id, and then `onboarded` is false and `needsEmailConfirmation` holds iff identities are absent or empty. |
| `SignupRoute.PasswordTakesPrecedence` | src/app/api/auth/signup/route.ts:79-86 | A message that mentions both `password` and `exists` is classified as a weak password. |
| `SignupRoute.MissingMessageIsServiceUnavailable` | src/app/api/auth/signup/route.ts:77 | A missing or empty error message falls back to the default text, which gives 503. |
| `SignupRoute.ValidationDetailsNameFields` | src/app/api/auth/signup/route.ts:47-59 | The validation details name `email`, `password` and `name` exactly when that field is wrong. |
| `Toast.VariantOf` | src/lib/utils/toast.ts:17-21 | The variant is `destructive` iff the intent is `error`. |
| `Toast.CreateActionMessage` | src/lib/utils/toast.ts:23-29 | The message holds exactly the given intent, title and description. |
| `Toast.ActionMessageFromError` | src/lib/utils/toast.ts:31-41 | Intent `error`, title `오류 발생`; description the error's truthy message, otherwise the fallback. |
| `Toast.ActionMessageFromSuccess` | src/lib/utils/toast.ts:43-48 | Intent `success`, the given description, and the given or default title. |
| `Toast.ToToastMessage` | src/lib/utils/toast.ts:50-56 | Title and description are copied; the variant follows the intent. |
| `Toast.ErrorToastsAreDestructive` | src/lib/utils/toast.ts:31-56 | A toast built from an error is destructive; one built from a success is default. |
| `Toast.DefaultFallbackUsed` | src/lib/utils/toast.ts:33 | Without a truthy message or a given fallback, the default Korean fallback is used. |
| `BrowserClient.FormatSameSite` | src/lib/supabase/client.ts:18-38 | Some iff `true` or one of `lax`, `strict`, `none`; `Strict` iff `true` or `strict`, `Lax` iff `lax`, `None` iff `none`. |
| `BrowserClient.FloorText` | src/lib/supabase/client.ts:78 | `String(Math.floor(maxAge))`: a finite number prints a decimal whose value is its floor; NaN and ±∞ print `NaN` and `[-]Infinity`; the text never holds a `;`. |
| `Strings.NatToString` | src/lib/supabase/client.ts:78 | The decimal digits of a natural number: all digits, reading back as the number, with no leading zero except for 0 itself. |
| `Strings.IntToString` | src/lib/supabase/client.ts:78 | The decimal text of an integer: digits with a leading `-` only for a negative number, reading back as the number, never holding `;`. |
| `BrowserClient.BuildSegments` | src/lib/supabase/client.ts:60-95 | The segments pushed one by one equal the specified layout: the pair, `Path`, then each optional attribute under its condition. |
| `BrowserClient.SetAllBrowserCookies` | src/lib/supabase/client.ts:54-99 | Outside a browser nothing is written; in a browser exactly one write per cookie in order, each its Set-Cookie string, earlier writes untouched. |
| `BrowserClient.SetCookieLayout` | src/lib/supabase/client.ts:60-97 | Split on `"; "`, the written string gives back its segments: `name=encoded value` first, `Path` next (default `/`), then the attributes Domain, Max-Age, Expires, SameSite, Secure in that order, each only when its option calls for it. |
| `BrowserClient.OptionalNames` | src/lib/supabase/client.ts:73-95 | The optional segments name exactly the attributes the options call for, in order. |
| `BrowserClient.AttributeNameIsPieceName` | src/lib/supabase/client.ts:47 | An attribute's name is read the same way a cookie's name is: the text before the first `=`. |
| `BrowserClient.ParsePiece` | src/lib/supabase/client.ts:46-50 | A piece parses iff its raw value decodes. The name holds no `=`; with an `=` the piece is `name=raw`; without one the name is the whole piece and the value the decoding of `''`. |
| `BrowserClient.ParsePieces` | src/lib/supabase/client.ts:45-51 | All pieces parse iff each does; one pair per piece, in order. |
| `BrowserClient.GetAllBrowserCookies` | src/lib/supabase/client.ts:40-52 | Nothing outside a browser or for an empty `document.cookie`. Otherwise: a result iff every non-empty `"; "` piece's raw value decodes, then one pair per such piece, in order, with a name free of `=` that the piece is or starts with before `=` and the raw value decoded. |
| `BrowserClient.PieceLayout` | src/lib/supabase/client.ts:46-50 | The name never holds `=`; with an `=` the piece is `name=raw` (later `=` stay in the value); without one the value is `''`. |
| `BrowserClient.ReadWhatWasWritten` | src/lib/supabase/client.ts:40-52 | A header of `name=encoded value` pairs joined by `"; "` reads back as exactly those pairs, when names hold no `=` or `;` and decoding undoes encoding. |
| `BrowserClient.Document.constructor` | src/lib/supabase/client.ts:97 | A new document has no cookie writes yet. |
| `BrowserClient.SupabaseBrowserClient.constructor` | src/lib/supabase/client.ts:101-119 | The client persists its session and refreshes tokens automatically; it has the cookie adapter iff it runs in a browser. |
| `BrowserClient.ClientCache.constructor` | src/lib/supabase/client.ts:123 | The module starts with no client. |
| `BrowserClient.ClientCache.CreateClient` | src/lib/supabase/client.ts:125-131 | Returns the cached client when there is one; otherwise a fresh one (session persisted, auto refresh, cookie adapter iff in a browser) that is then cached. |
| `BrowserClient.CreateClientTwice` | src/lib/supabase/client.ts:125-131 | Two calls return the same instance. |
| `CourseActions.FirstMessages` | __tests__/003.course.creation.spec.ts:94 | (`actions.ts` 27-38) `mapZodErrors`: a key for each field with an issue, holding that field's first message. |
| `CourseActions.CreateCourse` | __tests__/003.course.creation.spec.ts:57-63 | (`actions.ts` 88-112) A guard failure keeps its code; invalid input gives 422 with the field errors; otherwise the insert payload is a draft under the new id, owned by the caller, with the normalised fields. |
| `CourseActions.CreatedCourseIsCallersDraft` | __tests__/003.course.creation.spec.ts:61-63 | (`actions.ts` 105-112) A created course is a draft, owned by the signed-in user, with the trimmed title. |
| `CourseActions.PublishCourse` | __tests__/003.course.creation.spec.ts:130-133 | (`actions.ts` 213-245) The ownership guard's code on failure; 422 with field errors when the stored course fails the publish schema; no write when already published; otherwise the status write. |
| `CourseActions.PublishBlockedWithoutDescription` | __tests__/003.course.creation.spec.ts:91-94 | (`actions.ts` 220-233) An owned course with a null description cannot be published: 422 with an error on `description`. |
| `CourseActions.NoDescriptionFailsSchema` | __tests__/003.course.creation.spec.ts:91-94 | (`actions.ts` 220-233) A stored course with a null description fails the publish schema, and the mapped errors have a `description` key. |
| `CourseActions.PublishWritesOnlyValidOwnedDrafts` | __tests__/003.course.creation.spec.ts:130-133 | (`actions.ts` 218-245) A status write happens only for the caller's own course that is not yet published and whose stored fields pass the publish schema. |

## Left out

- I/O, async scheduling, the network and sessions are left out. Store queries, `getUser`, `getSession`, `signUp` and `exchangeCodeForSession` are inputs carrying their outcome.
- Console logging and `revalidatePath` calls have no effect on the modelled outcome.
- Foreign primitives are parameters, not definitions: the URL and e-mail checks, `Date.parse`, `toISOString`, `toUTCString`, `encodeURIComponent`, `decodeURIComponent` and `toLowerCase`.
- `GradeValidation.Score`: JavaScript numbers are IEEE doubles; the model reads a finite number as an exact `real`, plus NaN and ±∞, so rounding and `-0` are not modelled.
- Strings are sequences of Unicode scalar values, so lone UTF-16 surrogates cannot be expressed. UTF-16 length counts a supplementary character as two.
- `BrowserClient.FloorText`: `String` of a number of magnitude 10^21 or more uses exponent form; the model prints all digits.
- `BrowserClient.FormatSameSite`: keys inherited from `Object.prototype` (e.g. `"constructor"`), which `sameSiteMap[sameSite]` would find, are not modelled.
- `BrowserClient.SetAllBrowserCookies`: a non-`Date` `expires` goes through `new Date(expires)`. The model takes the resulting time, or its invalidity, as given.
- `BrowserClient.SetCookieLayout` needs the hypothesis that no written name, encoded value, path, domain or date text holds `;`. The source does not check this.
- `BrowserClient.GetAllBrowserCookies`: a `decodeURIComponent` failure throws in the source. The model returns `None` for it.
- The `createBrowserClient` library call itself is left out. `BrowserClient.SupabaseBrowserClient` records only the options passed to it.
- `Middleware.CookieJar` models what the middleware relies on in `NextResponse`'s jar: it is keyed by name, `set` replaces in place, and a new name is appended. Cookie attributes are carried but not interpreted.
- `Middleware.HandleRequest` follows the source's decision `Middleware.Decide`, including the redirect loop in Findings; `Middleware.HandleRequestCorrected` is the same handler on `Middleware.DecideCorrected`.
- `AuthCallback.Callback`: the query string is modelled as name/value pairs. `encodeURIComponent` and the default redirect status are left out.
- The server actions are left out beyond `createCourseInternal` and `publishCourseInternal`: update course, and the assignment, submission, grade and enrollment actions. Only the facts the course tests pin are modelled.
- `CourseActions.CreateCourse` stops at the insert payload. The insert response, its error codes and the revalidation are left out, as are the toast texts of both actions.
- `CourseActions.PublishCourse`: the status update's error path (500) is not modelled.
- The React components, pages and Supabase factories are UI or thin library wrappers and are not modelled.
- `src/lib/supabase/types.ts` supplies only the status enums and row fields.

## Findings

| source | as written | input that shows it | evidently intended | confidence | as-written member | corrected member |
|---|---|---|---|---|---|---|
| src/middleware.ts:36-38 | A signed-in user with no profile row is redirected to `/onboarding` on every path, `/onboarding` included. Each redirect is answered with the same redirect again. | A session whose user has no `profiles` row, requesting `/onboarding`. | Exempt `/onboarding` and below, as line 42 does for a profile that is not onboarded. | medium, not executed | `Middleware.NoProfileRedirectLoops` | `Middleware.DecideCorrected` |
