# AI interview app: request handling and screen flow in Dafny

This project models the decision logic of a job-application web app that
runs AI-generated interviews. It covers:

- the three API handlers that carry business rules:
  - candidate intake (`POST /api/candidates`);
  - question generation (`POST /api/generate-questions`);
  - job creation and listing (`POST`/`GET /api/jobs`);
- the client-side state machines:
  - the interview answer stepper;
  - the top-level screen flow;
  - the application-state hook with its cookie mirror.

The ORM is replaced by in-memory tables in a `Database` class (`Store`). Each
table is a sequence of records in insertion order. Keys come from per-table
counters. The clock is a parameter `now`. The language-model service is a
parameter function from the prompt's variable parts to a decoded `Reply`.
The question request made by the continue button is a parameter
`GenerationOutcome`.

Modules, one per source component:

| module | file | models |
|---|---|---|
| `JsText` | JsText.dfy | JavaScript truthiness and `||` on fields, the `\s`/`trim` whitespace class, `trim`, and case-insensitive `contains` |
| `EmailFormat` | EmailFormat.dfy | the e-mail pattern of the candidate endpoint |
| `Store` | Store.dfy | the job, candidate and interview tables and their lookups |
| `CandidatesRoute` | CandidatesRoute.dfy | `POST /api/candidates` |
| `JobsRoute` | JobsRoute.dfy | `POST`/`GET /api/jobs` |
| `GenerateQuestions` | GenerateQuestions.dfy | `POST /api/generate-questions` |
| `InterviewScreen` | InterviewScreen.dfy | the interview screen's answer stepper |
| `AppStateHook` | AppStateHook.dfy | `useAppState` |
| `AppShell` | AppShell.dfy | `App`'s screen choice and transitions |
| `Domain`, `Wrappers` | Domain.dfy, Wrappers.dfy | shared records and `Option` |

Notable behaviours the proofs make explicit:

- The last interview question never advances. A second send on it overwrites
  the stored answer (`InterviewScreen.LastAnswerOverwritten`).
- With at least one question, the "interview completed" branch of the screen
  is never reached (`InterviewScreen.QuestionAlwaysShown`). This holds in the
  model because every element of the question list is a question object. The
  source does not check that (see "## Left out").
- When only a nested `userData` object is sent, without `jobData`, its fields
  are ignored (`GenerateQuestions.LoneNestedUserDataIgnored`).
- A known e-mail returns the stored candidate even when the position differs.
  In that case no job and no interview is created.

## Model

| member | source | states |
|---|---|---|
| `JsText.Trim` | src/components/Interview.tsx:52 | `message.trim()` is falsy exactly when every character is JavaScript whitespace |
| `JsText.TrimStart` | src/components/Interview.tsx:52 | the result is a suffix of the input and only whitespace is removed; it is empty iff the input is blank, and otherwise starts with a non-whitespace character |
| `JsText.TrimEnd` | src/components/Interview.tsx:52 | the result is a prefix of the input and only whitespace is removed; it is empty iff the input is blank, and otherwise ends with a non-whitespace character |
| `JsText.ContainsIgnoringCaseInsensitive` | src/app/api/candidates/route.ts:70-71 | changing the case of ASCII letters in the title or in the position never changes whether the title contains the position |
| `JsText.InfixContainsIgnoringCase` | src/app/api/candidates/route.ts:70-71 | a title that contains the position verbatim always matches it |
| `EmailFormat.ValidEmailIffPattern` | src/app/api/candidates/route.ts:45-46 | the plain check (no whitespace, exactly one `@`, non-empty local part, a domain with a `.` neither first nor last) accepts exactly the strings the anchored regex `^[^\s@]+@[^\s@]+\.[^\s@]+$` matches |
| `EmailFormat.ValidEmailMatchesPattern` | src/app/api/candidates/route.ts:45-46 | every string the plain check accepts splits as local part, `@`, domain part, `.`, domain part, as the regex requires |
| `EmailFormat.PatternIsValidEmail` | src/app/api/candidates/route.ts:45-46 | every string the regex matches passes the plain check |
| `EmailFormat.Count` | src/app/api/candidates/route.ts:45 | the count is zero exactly when the character does not occur |
| `EmailFormat.IndexOf` | src/app/api/candidates/route.ts:45 | the result is the first occurrence, or the length when there is none |
| `Store.FindCandidateByEmail` | src/app/api/candidates/route.ts:54-56 | the result is a stored candidate with that e-mail; it is absent iff no stored candidate has that e-mail |
| `Store.FirstMatchingJob` | src/app/api/candidates/route.ts:67-75 | the result is the first job in table order that is active and whose title contains the position ignoring case; it is absent iff no job qualifies, so inactive jobs never match |
| `Store.Database.constructor` | src/lib/db.ts:9 | the store starts with empty tables and satisfies its invariant |
| `Store.Database.CreateJob` | src/app/api/jobs/route.ts:44-52 | exactly one job is appended, under a key no stored job has, with the given fields and the clock reading; the other tables are unchanged and the invariant is kept |
| `Store.Database.CreateCandidate` | src/app/api/candidates/route.ts:89-95 | exactly one candidate is appended; under the unique e-mail constraint the invariant, including e-mail uniqueness, is kept |
| `Store.Database.CreateInterview` | src/app/api/candidates/route.ts:98-105 | exactly one interview is appended; its foreign keys must name a stored candidate and job, so referential integrity is kept |
| `CandidatesRoute.Post` | src/app/api/candidates/route.ts:31-112 | the checks run in source order: missing field gives 400, then a malformed e-mail gives 400, and either way nothing changes. A known e-mail returns that record with 200 and nothing changes. Otherwise the first matching active job is reused, or exactly one job titled with the position, described as "Position for …" and active, is added. Then exactly one candidate and one PENDING interview linking both ids are added, and 201 is returned. The store invariant is preserved throughout |
| `JobsRoute.ActiveFlag` | src/app/api/jobs/route.ts:34 | `isActive` defaults to true only when omitted; a given value is kept |
| `JobsRoute.Post` | src/app/api/jobs/route.ts:31-55 | a falsy title gives 400 and inserts nothing; otherwise exactly one job is appended with the title, the unvalidated description, department and location, and the defaulted active flag, and 201 returns it |
| `JobsRoute.InsertNewestFirst` | src/app/api/jobs/route.ts:15-17 | inserting adds exactly the one job and keeps newest-first order |
| `JobsRoute.SortNewestFirst` | src/app/api/jobs/route.ts:15-17 | the result is a permutation of the jobs, ordered by `createdAt` descending |
| `JobsRoute.InterviewsFor` | src/app/api/jobs/route.ts:9-13 | the included interviews are exactly those referring to the job |
| `JobsRoute.ListJobs` | src/app/api/jobs/route.ts:7-18 | every job, inactive ones included, is listed once, newest first, each with exactly its interviews |
| `JobsRoute.Get` | src/app/api/jobs/route.ts:5-20 | the same listing, stated over the store's tables |
| `GenerateQuestions.Normalize` | src/app/api/generate-questions/route.ts:17-36 | when both nested objects are present they are used unchanged. Otherwise user fields come from the flat body only, and each job field is the flat value if truthy, else `jobData?.field` |
| `GenerateQuestions.OrNotSpecified` | src/app/api/generate-questions/route.ts:61-62 | a truthy value is printed as is; otherwise "Not specified" is printed |
| `GenerateQuestions.BuildPrompt` | src/app/api/generate-questions/route.ts:56-68 | the prompt carries title and description unchanged, falls back to "Not specified" for department and location, and names the candidate and e-mail |
| `GenerateQuestions.Handle` | src/app/api/generate-questions/route.ts:41-156 | missing user fields give 400 before any job check, and missing title or description gives 400; neither consults the model. A failed call gives 500. An unparseable reply gives 500 "Failed to parse generated questions". A non-array or a length other than 5 gives 500 "Invalid response format from AI". Success happens exactly for 5 elements. It returns exactly the reply's elements, with the normalised user and job data |
| `GenerateQuestions.HandleRequest` | src/app/api/generate-questions/route.ts:9-157 | a body that does not parse as JSON ends in the catch-all 500 "Failed to generate interview questions"; a parsed body is handled as `Handle` states |
| `GenerateQuestions.RejectedBeforeModelCall` | src/app/api/generate-questions/route.ts:41-53 | a request rejected by validation gets the same answer whatever the model would return |
| `GenerateQuestions.LoneNestedUserDataIgnored` | src/app/api/generate-questions/route.ts:17-46 | a nested `userData` without `jobData` is dropped, so a body without flat user fields gets the user-data 400 |
| `InterviewScreen.JsAssign` | src/components/Interview.tsx:54-55 | assigning a slot sets it and keeps every other slot; a slot past the end grows the array, leaving holes in between |
| `InterviewScreen.CurrentQuestion` | src/components/Interview.tsx:18 | the current question is null exactly when the index is not below the question count, and is otherwise the indexed question |
| `InterviewScreen.Send` | src/components/Interview.tsx:51-71 | a blank message or no current question changes nothing. Otherwise the untrimmed message goes into the current slot and every other slot is kept. The box is cleared. The index rises by one iff it was below the last question and otherwise stays. The stepper invariant (index in bounds; answers dense, filling up to the current slot or one past it, never more than the questions) is preserved |
| `InterviewScreen.BlankMessageIgnored` | src/components/Interview.tsx:52 | a whitespace-only message is never stored |
| `InterviewScreen.AnswersFromStart` | src/components/Interview.tsx:12-15 | after k non-blank answers from the initial state with n questions: the index is min(k, n-1); there are min(k, n) answers, answer i in slot i below the last question; the last slot holds the latest answer once it is reached; the invariant holds |
| `InterviewScreen.LastAnswerOverwritten` | src/components/Interview.tsx:61-67 | on the last question a further send keeps the index, replaces the last answer and leaves earlier answers unchanged |
| `InterviewScreen.QuestionAlwaysShown` | src/components/Interview.tsx:18 | with at least one question every state satisfying the invariant has a current question |
| `InterviewScreen.InterviewSession.constructor` | src/components/Interview.tsx:12-15 | the index starts at 0, with no answers and an empty message |
| `InterviewScreen.InterviewSession.SetMessage` | src/components/Interview.tsx:234 | typing replaces the message only |
| `InterviewScreen.InterviewSession.HandleSendMessage` | src/components/Interview.tsx:51-71 | the new state is `Send` of the old one |
| `InterviewScreen.InterviewSession.HandleKeyPress` | src/components/Interview.tsx:73-78 | Enter without Shift prevents the default and sends; any other key, Shift+Enter included, changes nothing |
| `AppStateHook.Parse` | src/hooks/useAppState.ts:19-24 | a cookie yields data exactly when it holds parseable user data |
| `AppStateHook.AppState.constructor` | src/hooks/useAppState.ts:14-15 | the hook starts on the welcome screen with no user data |
| `AppStateHook.AppState.LoadFromCookie` | src/hooks/useAppState.ts:18-30 | parseable cookie data populates `userData`; an unparseable or missing cookie leaves it; the screen stays |
| `AppStateHook.AppState.SaveUserData` | src/hooks/useAppState.ts:32-36 | both `userData` and the cookie become the given data |
| `AppStateHook.AppState.NavigateToScreen` | src/hooks/useAppState.ts:38-40 | only the screen changes |
| `AppStateHook.AppState.ClearUserData` | src/hooks/useAppState.ts:42-45 | `userData` becomes null and the cookie is removed |
| `AppShell.RenderScreen` | src/components/App.tsx:36-60 | the explanation screen is drawn iff it is selected and user data is present; the interview screen iff it is selected, user data is present and there is a question; every other case draws the welcome form |
| `AppShell.ErrorText` | src/components/App.tsx:30 | an `Error`'s message is shown as is, any other thrown value as "Failed to generate interview questions" |
| `AppShell.AppController.constructor` | src/components/App.tsx:10-13 | the app starts on the welcome form with no questions, no spinner and no error |
| `AppShell.AppController.HandleWelcomeSubmit` | src/components/App.tsx:15-18 | the data is saved to memory and cookie, the screen becomes the explanation, and that screen is drawn |
| `AppShell.AppController.StartGeneration` | src/components/App.tsx:21-22 | the spinner turns on and the error clears; the explanation screen shows both |
| `AppShell.AppController.FinishGeneration` | src/components/App.tsx:24-33 | on success the questions are stored and the screen becomes the interview. On failure the error text is recorded and the screen is kept. The spinner ends off either way |
| `AppShell.AppController.HandleExplanationContinue` | src/components/App.tsx:20-34 | success stores the questions, clears the error and moves to the interview, which is drawn when there is a question. Failure records the error and keeps screen and questions. The spinner ends off in both cases |

## Left out

- Database failures and the handlers' generic `catch` → 500 paths in the candidate and job routes, including a body that does not parse as JSON: the in-memory store does not fail, and request bodies arrive parsed. In the question route, an unparseable body is modelled by `GenerateQuestions.HandleRequest`.
- The race between the e-mail lookup and the insert of a candidate: concurrency is not modelled. The unique-e-mail and foreign-key constraints are preconditions of the store's insert methods, and the handler always meets them.
- `Store.FirstMatchingJob`: folds ASCII letters only; the database's full Unicode case-insensitive matching and collation are not modelled. With no `orderBy`, the database may return any qualifying row; the model takes the first in table order.
- `JobsRoute.ListJobs`: each included interview's embedded candidate record is not modelled. The database does not fix the order of jobs with equal `createdAt`, and the model states none either: its contract promises only newest-first order. The candidate listing `GET /api/candidates` is not part of this model.
- `GenerateQuestions.BuildPrompt`: only the prompt's variable parts are modelled, not its fixed instruction text.
- The model parameters and the model call itself are not modelled. Decoding the response envelope and `JSON.parse` of the reply are a parameter `Prompt -> Reply`. The model assumes that every element of a parsed array is a question object, which is truthy. The source checks only that the reply is an array of five. An array such as `[null, null, null, null, null]` would be accepted there. The interview screen would then show its completed branch at once, because `questions[i] || null` is null. The model cannot represent that case.
- JSON request bodies are modelled with string-valued or absent fields. Non-string values (numbers, `null`, objects where strings are expected) are not modelled.
- Cookie expiry and serialisation are not modelled. A cookie that parses to JSON that is not user data is folded into "unparseable". The question service that reads the cookies and calls the endpoint is I/O and appears only as the `GenerationOutcome` parameter.
- The camera stream, the recording toggle and the progress-bar percentage (floating point) of the interview screen are not modelled. Nor is the pure rendering of the welcome, explanation, job-card and job-list components.
- `AppShell.RenderScreen`: the `default` branch of the screen switch is unreachable because the screen type has three values.
- React's asynchronous state batching is not modelled: each handler's updates are applied in program order.
