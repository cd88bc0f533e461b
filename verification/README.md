# G1 quiz admin: request logic in Dafny

This project models the request-handling logic of the G1 driving-quiz
back office. That logic is a Next.js admin application with a small mobile API
on top of a MongoDB store. The model covers these pieces:

- **The admin gate** (`middleware.js`). It decides, from "is there a session?"
  and the request path, whether a request passes, goes to the login page
  `/log`, or goes to the zone root `/admin`. It also models the matcher that
  selects which paths reach the gate.
- **The statistics update** (`POST /api/user/stats`). It checks the bearer
  header and the body, then applies one transition to the user's `stats`:
  - a running average rounded half-up;
  - a streak that resets below 80 %;
  - two counters that each increase by one.
  
  It also appends one entry to the quiz history.
- **Quiz creation** (`POST /api/quiz/add`). Six ordered checks, the first
  failure deciding the message, and then a trimmed document appended to the
  `quizzes` collection.
- **Topic creation** (`POST /api/topics/add`). It collects the falsy required
  fields, in declared order, into a message built from camelCase → "Title
  Case" labels. Then come the steps check and the duplicate-title refusal,
  and then the stored document.
- **Registration** (`POST /api/user/register`). Presence, the e-mail pattern
  and password length, in that order. Then a uniqueness check on the
  lower-cased e-mail, and the initial record.
- **Login** (`POST /api/user/login`). Presence, a lookup by lower-cased
  e-mail restricted to role `"user"`, and strict password equality. The reply
  carries the token payload and the stored or default statistics.
- **Quiz listing** (`GET /api/quiz`). The query parameters choose a category
  filter, a limit, and either the random path or the deterministic path. The
  deterministic path keeps the active quizzes of the category, sorts them
  newest first, and truncates.

## How the model is put together

Request bodies are JSON values (`Js.Value`). This keeps the JavaScript
operators the routes rely on faithful:
- truthiness;
- `typeof x === "number"`;
- the `!x || !x.trim()` presence idiom, which throws a `TypeError` (a 500
  reply) when `x` is truthy but not a string;
- `===`;
- `.length`, counted in UTF-16 code units as JavaScript counts it;
- the conversion to a number that `password.length < 6` applies to whatever
  an object password carries as its `length` entry (ToNumber, with
  StringToNumber for text, as in section 7.1.4 of ECMA-262).

Numbers are exact reals, and `Math.round(x)` is `(x + 0.5).Floor`. Collections
are sequences, and `findOne` returns the first matching document.

Each route is a pure function. It takes the collection and the request and
returns the reply together with the new collection. The parts that cannot be
seen become parameters:
- the token verifier;
- the store's `$sample` stage;
- the case-insensitive title lookup;
- the id the store assigns;
- the clock.

Three facts about the code are easy to miss:
- The login page is `/log`.
- An invalid bearer token makes `jwt.verify` throw, so the statistics route
  answers 500 (`Stats.VerificationFailed`).
- The stored `avgScore` is not the rounded mean of the history. The rounded
  value is fed back into the next step, so the two drift apart
  (`StatsHistory.RoundedAverageDrifts`). What holds instead is the one-step
  recurrence, and that every counter is a function of the history
  (`StatsHistory.RecordKeepsConsistent`).

| file | module | what it holds |
|---|---|---|
| wrappers.dfy | Wrappers | `Option`, `Result` |
| text.dfy | Text | ECMAScript white space, `trim`, ASCII case mapping, `join` |
| numbers.dfy | Numbers | `Math.round`, `parseInt`, decimal numerals, StringToNumber |
| js.dfy | Js | JSON values and the operators applied to them |
| gate.dfy | Gate | the middleware decision and matcher |
| users.dfy | Users | user records, `findOne` |
| stats.dfy | Stats | the statistics route |
| stats_history.dfy | StatsHistory | statistics as a replay of the history |
| email.dfy | Email | the registration e-mail pattern |
| register.dfy | Register | the registration route |
| login.dfy | Login | the login route |
| accounts.dfy | Accounts | registration followed by login |
| quizzes.dfy | Quizzes | quiz documents |
| quiz_add.dfy | QuizAdd | the quiz creation route |
| quiz_list.dfy | QuizList | the quiz listing route |
| topic_label.dfy | TopicLabel | the missing-field label formatter |
| topic_add.dfy | TopicAdd | the topic creation route |

## Model

| member | source | states |
|---|---|---|
| Gate.Route | middleware.js:13-31 | a session selects exactly the signed-in branches, and the signed-in branch for "/log" is never taken because "/log" is already redirected by the prefix test |
| Gate.Proxy | middleware.js:13-31 | the only outcomes are pass, redirect "/log" and redirect "/admin"; with no session a request passes iff its path is "/log" and is otherwise sent to "/log"; with a session it passes iff the path starts with "/admin" as a raw string and is otherwise sent to "/admin" |
| Gate.Middleware | middleware.js:34-40 | a path the matcher does not select passes untouched; a selected path gets the gate's decision; every redirect goes from a selected path to a selected path |
| Gate.NoRedirectLoop | middleware.js:13-31 | a redirect target never equals the requested path, and the redirected request with the same session state passes, both at the gate and through the matcher |
| Gate.SignedInZoneOnInterceptedPaths | middleware.js:22-40 | on the paths the matcher selects, a signed-in request passes iff it is "/admin" or below "/admin/" |
| Gate.RawPrefixAdmitsLookalikes | middleware.js:22-24 | "/administrator" passes the signed-in prefix test although the matcher never selects it, so it also passes without a session |
| Gate.TypicalRequests | middleware.js:13-31 | anonymous "/admin" goes to "/log"; anonymous "/log" passes; signed-in "/log" goes to "/admin"; signed-in "/admin/quiz" passes |
| Stats.BearerToken | src/app/api/user/stats/route.ts:36-43 | a token exists iff the header is present and starts with the case-sensitive "Bearer "; the token is the header with exactly that prefix removed |
| Stats.ZeroQuestionsAccepted | src/app/api/user/stats/route.ts:54-59 | the route's type check accepts a totalQuestions of 0 |
| Stats.ReadSubmission | src/app/api/user/stats/route.ts:54-59 | a submission is read iff both fields are numbers and totalQuestions is not 0; it carries exactly the two numbers |
| Stats.MeanStep | src/app/api/user/stats/route.ts:92-95 | the new mean times the new count equals the old mean times the old count plus the new percentage |
| Stats.Reported | src/app/api/user/stats/route.ts:129-133 | the reply carries exactly the stored average, streak and quiz count |
| Stats.NextStats | src/app/api/user/stats/route.ts:85-109 | both counters increase by exactly one; the streak grows by one at 80 % or more and is 0 below, whatever it was; the new average lies within one half of the exact mean step (avg·n + pct)/(n+1) |
| Stats.AverageStaysInRange | src/app/api/user/stats/route.ts:92-106 | with 0 ≤ score ≤ totalQuestions and a stored average in 0..100, the new average stays in 0..100 |
| Stats.Record | src/app/api/user/stats/route.ts:101-123 | exactly one history entry is appended and the earlier ones are unchanged; the new entry is exactly the score, the question count, the percentage, the quiz type (defaulting to "general") and the request time; the stats become the transition of the current (or all-zero) stats; lastQuizDate is set; no other field of the record changes |
| Stats.Status | src/app/api/user/stats/route.ts:31-142 | each refusal has its own status: 401 for the header, 500 for a failed verification (the catch), 400 for the body, 404 for an unknown user |
| Stats.Post | src/app/api/user/stats/route.ts:31-136 | the checks run in order (header 401, verification 500, body 400, user 404), and every failure leaves the store unchanged; a request passing all four succeeds; on success only the caller's record is replaced, by the updated one, and the reply is that record's new avgScore, streak and totalQuizzes; the body check is the corrected one (see Findings) |
| Stats.ReplyMatchesStored | src/app/api/user/stats/route.ts:104-133 | the avgScore, streak and totalQuizzes of a 200 reply are those written to the caller's own record, and they are the statistics transition of what that record held before |
| StatsHistory.EmptyRecordConsistent | src/app/api/user/stats/route.ts:85-90 | a record with no history and absent or all-zero stats agrees with the replay of its empty history |
| StatsHistory.RecordKeepsConsistent | src/app/api/user/stats/route.ts:92-123 | if a record's stats are the replay of its history percentages, they still are after one update |
| StatsHistory.PostKeepsConsistent | src/app/api/user/stats/route.ts:31-136 | if every record of the store is consistent with its history, every record still is after the route runs, whatever the reply |
| StatsHistory.ReplayCounts | src/app/api/user/stats/route.ts:92-109 | replaying n percentages gives totalQuizzes = completedQuizzes = n |
| StatsHistory.CounterMatchesHistory | src/app/api/user/stats/route.ts:92-123 | for a consistent record, both counters equal the number of history entries |
| StatsHistory.ReplayStreak | src/app/api/user/stats/route.ts:98 | the replayed streak is the length of the longest run of percentages of at least 80 at the end of the history |
| StatsHistory.ExactAverageIsMean | src/app/api/user/stats/route.ts:92-95 | the unrounded recurrence computes the arithmetic mean of the percentages |
| StatsHistory.RoundedAverageDrifts | src/app/api/user/stats/route.ts:92-106 | for percentages 50, 51, 50 the stored average is 51 while the rounded mean is 50 |
| StatsHistory.TwoQuizExample | src/app/api/user/stats/route.ts:92-109 | scores 8/10 then 6/10 give stats (80, 1, 1, 1) then (70, 0, 2, 2) |
| Users.CurrentStats | src/app/api/user/stats/route.ts:85-90 | a record without stats is read as all zeros; otherwise its stats are used |
| Users.FindById | src/app/api/user/stats/route.ts:73-82 | the lookup finds a record with the id iff one exists |
| Email.PatternIsWellFormed | src/app/api/user/register/route.ts:18-24 | the pattern holds iff the e-mail has exactly one '@', no white space, a non-empty local part, and a '.' in the domain that is neither its first nor its last character |
| Email.MatchImpliesWellFormed | src/app/api/user/register/route.ts:18 | a split of the e-mail into the three runs of the pattern satisfies the characterisation |
| Email.WellFormedImpliesMatch | src/app/api/user/register/route.ts:18 | an e-mail with one '@', no white space and an inner dot after it matches the pattern |
| Email.Examples | src/app/api/user/register/route.ts:18 | "a@b.co" matches; "a@b." and "a@@b.c" do not |
| Register.Validate | src/app/api/user/register/route.ts:10-32 | the three checks run in order, and each error is returned iff the earlier checks pass and its own fails; success iff all three pass, carrying the e-mail string that matched the pattern |
| Register.Post | src/app/api/user/register/route.ts:46-74 | given the store-assigned id: a validated request conflicts (409) iff some record has the lower-cased e-mail; otherwise it answers 500 iff the name is not a string and succeeds iff it is; a refused request changes nothing; success appends exactly the new record |
| Register.NewUser | src/app/api/user/register/route.ts:58-74 | the new record carries the given id, e-mail, password and name, role "user", all-zero stats, empty progress with no current topic, no history, and the creation time |
| Register.NewRecordNormalised | src/app/api/user/register/route.ts:58-62 | the stored e-mail has no upper-case letter and equals the lower-cased request e-mail; the stored name is the trimmed request name |
| Register.CaseVariantsConflict | src/app/api/user/register/route.ts:46-59 | after a registration, a second one whose e-mail differs only in letter case is refused with 409 |
| Login.FindLogin | src/app/api/user/login/route.ts:27-30 | the lookup returns the first record with that e-mail and role "user", and finds nothing iff no record has both |
| Login.Post | src/app/api/user/login/route.ts:10-70 | 400 iff a field is falsy; 500 iff the e-mail is truthy but not a string; 401 iff no record matches or the password is not strictly equal; on success the token payload and reply carry the found record's id, e-mail, name and role, and its stats or the zero default |
| Login.OtherRolesRejected | src/app/api/user/login/route.ts:27-30 | if every record with the e-mail has another role, login fails whatever the password |
| Login.UnknownAndWrongPasswordAlike | src/app/api/user/login/route.ts:32-44 | adding a matching record whose password differs leaves the reply unchanged: an unknown user and a wrong password give the same 401 |
| Login.StructuredPasswordNeverMatches | src/app/api/user/login/route.ts:39 | an array or object password never logs in |
| Accounts.RegisteredUserLogsIn | src/app/api/user/login/route.ts:27-70 | after a successful registration, logging in with the same e-mail (any letter case) and the same string password succeeds, with a token for the new record and all-zero stats |
| Accounts.RegisteredUserConsistent | src/app/api/user/register/route.ts:64-69 | a freshly registered record is consistent with its empty history |
| QuizAdd.FirstUnfilled | src/app/api/quiz/add/route.ts:41-48 | every option before the returned position is a non-blank string, and the option at it is not |
| QuizAdd.CheckOptions | src/app/api/quiz/add/route.ts:33-48 | "exactly 4" iff options is not an array of four; for four options, the first unfilled one, counted from 1, is named when it is blank and gives 500 when it is not a string; success iff all four are filled, giving the four trimmed, non-empty options |
| QuizAdd.CheckDetails | src/app/api/quiz/add/route.ts:51-94 | the answer-index, explanation and category checks, each returned iff the earlier ones pass and it fails; a non-string explanation or image URL gives 500; success gives the trimmed explanation and the trimmed image URL or "" |
| QuizAdd.Validate | src/app/api/quiz/add/route.ts:26-94 | the six checks in source order: "question", "exactly 4", the answer index, the explanation and the category are each returned iff all earlier checks pass and their own fails; the first unfilled option, counted from 1, is named iff it is blank; each `.trim()` on a non-string gives 500; an accepted draft has a trimmed, non-empty question and explanation, four trimmed options, the index and the category as given, and a trimmed image URL or "" |
| QuizAdd.TrimAll | src/app/api/quiz/add/route.ts:90 | each option is replaced by its trimmed, non-empty text |
| QuizAdd.Status | src/app/api/quiz/add/route.ts:26-125 | every failed check answers 400; only a thrown error answers 500 |
| QuizAdd.Post | src/app/api/quiz/add/route.ts:26-98 | a refused request leaves the collection unchanged and reports the validation error; an accepted one appends one active document with the validated content and both timestamps set |
| QuizAdd.FractionalIndexAccepted | src/app/api/quiz/add/route.ts:51-60 | an answer index of 1.5 is accepted |
| QuizAdd.IndexFourRefused | src/app/api/quiz/add/route.ts:51-60 | an answer index of 4 is refused once the earlier checks pass |
| QuizAdd.BlankOptionPosition | src/app/api/quiz/add/route.ts:41-48 | with options "a", "  ", "", "d" the reply names option 2 |
| QuizList.PositiveLimit | src/app/api/quiz/route.ts:13 | an absent or digit-free limit means no limit; a limit is used only when parseInt reads a positive number, and then it is that number |
| QuizList.NumeralLimit | src/app/api/quiz/route.ts:13 | the decimal numeral of a positive n is read as limit n |
| QuizList.CategoryFilter | src/app/api/quiz/route.ts:30-32 | the query filters on a category iff the parameter is "traffic_signs" or "rules_of_road" |
| QuizList.PlanFor | src/app/api/quiz/route.ts:14-54 | random sampling is chosen iff random is exactly "true" and the limit is positive, with the limit as sample size; otherwise the deterministic path runs with the same category and limit |
| QuizList.Select | src/app/api/quiz/route.ts:28-32 | the matching documents are exactly the active ones of the category, each as often as in the store |
| QuizList.SortNewest | src/app/api/quiz/route.ts:47 | the result is newest first and a permutation of the input |
| QuizList.Truncate | src/app/api/quiz/route.ts:49-51 | with no limit everything is kept; otherwise the first min(limit, length) documents are kept |
| QuizList.ScanQuery | src/app/api/quiz/route.ts:46-54 | the results are matches drawn from the store (as a sub-multiset), newest first; with no limit all matches are returned, with a limit exactly min(limit, matches) of them; no match left out is newer than one returned |
| QuizList.SortedMembers | src/app/api/quiz/route.ts:28-47 | sorting the matches loses and adds no document |
| QuizList.PrefixKeepsNewest | src/app/api/quiz/route.ts:47-51 | a prefix of a newest-first list leaves out nothing newer than what it keeps |
| QuizList.Format | src/app/api/quiz/route.ts:57-65 | each entry carries the document's id and content, and imageUrl is the stored value or "" |
| QuizList.FormatAll | src/app/api/quiz/route.ts:57-65 | one entry per document, in order, each the document's formatted entry |
| QuizList.Get | src/app/api/quiz/route.ts:57-73 | count equals the number of returned quizzes, which are the found documents formatted in order |
| QuizList.UnknownCategoryIgnored | src/app/api/quiz/route.ts:30-32 | an unknown category gives the same reply as no category |
| QuizList.RandomNeedsLimit | src/app/api/quiz/route.ts:37 | random=true without a limit gives the deterministic reply |
| QuizList.FoundAreSelected | src/app/api/quiz/route.ts:28-54 | on either path, and given a sampler that draws from its input, every returned quiz is an active stored quiz of the requested known category |
| TopicAdd.Missing | src/app/api/topics/add/route.ts:45-60 | a key is reported iff it is required and its value is falsy, in declared order |
| TopicAdd.SignImageNeverReported | src/app/api/topics/add/route.ts:45-60 | "signImage" is never reported missing |
| TopicAdd.EmptyStepsPresent | src/app/api/topics/add/route.ts:60 | an empty steps array is not reported missing |
| TopicAdd.CheckStep | src/app/api/topics/add/route.ts:88 | a step throws iff it is null or undefined, and is complete iff it is an object with a truthy title and desc |
| TopicAdd.FirstIncomplete | src/app/api/topics/add/route.ts:87-94 | every step before the returned position is complete and the step at it is not |
| TopicAdd.Validate | src/app/api/topics/add/route.ts:27-94 | missing fields are reported first, and iff some required field is falsy; then "At least one step" iff steps is not a non-empty array; then the first incomplete step is named, counted from 1, or gives 500 when it is null; success iff all hold |
| TopicAdd.Document | src/app/api/topics/add/route.ts:120-136 | the stored topic copies the fields; signImage is the given value when truthy and "" otherwise |
| TopicAdd.Status | src/app/api/topics/add/route.ts:68-183 | a taken title answers 409, a thrown error 500, every other refusal 400 |
| TopicAdd.Post | src/app/api/topics/add/route.ts:107-156 | a validated request is refused with 409 iff the title is taken; every refusal leaves the collection unchanged; success appends exactly the new document |
| TopicLabel.SpaceBeforeCapitals | src/app/api/topics/add/route.ts:66 | the spaced key is at least as long as the key and starts with its first character when that is not a capital |
| TopicLabel.UpperFirst | src/app/api/topics/add/route.ts:67 | only the first character changes, upper-cased, unless it is a line terminator |
| TopicLabel.LabelLength | src/app/api/topics/add/route.ts:64-67 | a label is as long as its key plus the key's number of capitals |
| TopicLabel.LabelRoundTrip | src/app/api/topics/add/route.ts:64-67 | for a key with a lower-case first letter and no spaces, deleting the label's spaces and lower-casing its first letter gives the key back |
| TopicLabel.MainSignNameLabel | src/app/api/topics/add/route.ts:64-67 | "mainSignName" is labelled "Main Sign Name" |
| Text.Trim | src/app/api/quiz/add/route.ts:26 | the result is empty iff the string is all white space; otherwise it starts and ends with a character that is not white space |
| Text.TrimRemovesMargins | src/app/api/quiz/add/route.ts:89 | the trimmed string is a slice of the input with only white space cut from either side |
| Text.TrimIdempotent | src/app/api/quiz/add/route.ts:89 | trimming twice is trimming once |
| Text.ToLowerIdempotent | src/app/api/user/register/route.ts:47 | lower-casing an already lower-cased e-mail changes nothing |
| Numbers.RoundHalfUp | src/app/api/user/stats/route.ts:106 | the rounded value is within one half of x, with halves rounded up |
| Numbers.RoundWithin | src/app/api/user/stats/route.ts:106 | rounding a value between two integers stays between them |
| Numbers.ParseInt | src/app/api/quiz/route.ts:13 | a number is read only from text that contains a decimal digit, so all-white-space text reads as NaN |
| Numbers.ParseIntNatToString | src/app/api/quiz/route.ts:13 | parseInt reads back every decimal numeral |
| Text.Join | src/app/api/topics/add/route.ts:64-69 | no parts join to the empty text and one part to itself |
| Text.JoinSnoc | src/app/api/topics/add/route.ts:64-69 | joining one more part appends the separator and that part |
| Js.ReadText | src/app/api/quiz/add/route.ts:26 | the presence idiom reports a field missing iff it is falsy or white space only, and throws iff it is truthy and not a string; otherwise it yields the trimmed, non-empty text |
| QuizAdd.Document | src/app/api/quiz/add/route.ts:88-98 | the stored quiz is active, has both timestamps set to the request time, the store's id, and exactly the validated content |
| QuizAdd.Message | src/app/api/quiz/add/route.ts:26-74 | the reply text of each refusal, with the option position counted from 1 |
| QuizAdd.OptionMessageNamesPosition | src/app/api/quiz/add/route.ts:41-48 | two "Option i cannot be empty." replies with the same text name the same option |
| TopicAdd.Labels | src/app/api/topics/add/route.ts:64-68 | one label per missing key, in the same order, each the key's label |
| TopicAdd.Message | src/app/api/topics/add/route.ts:62-117 | the reply text of each refusal, listing the missing fields by label |
| TopicAdd.StepMessageNamesPosition | src/app/api/topics/add/route.ts:87-94 | two "Step i is missing title or description." replies with the same text name the same step |
| TopicLabel.Label | src/app/api/topics/add/route.ts:64-67 | a label is one character longer per capital of its key; a key's first character is shown upper-cased unless it is a capital, which is shown after a leading space, or a line terminator |
| QuizList.Found | src/app/api/quiz/route.ts:35-54 | the deterministic path returns the scan of the store; the random path returns what the sampler draws from the matches, with the limit as size |
| Users.FindFirst | src/app/api/user/login/route.ts:27-30 | `findOne` returns the first record in store order that matches, and nothing iff none does |
| Js.Truthy | src/app/api/topics/add/route.ts:60 | the falsy values are exactly undefined, null, false, 0 and the empty string |
| Js.StrictEquals | src/app/api/user/login/route.ts:39 | `===` holds only between equal values, holds for equal primitive values, and never holds when either side is an array or object |
| Js.ShorterThan | src/app/api/user/register/route.ts:27 | a string is short only when it has fewer code points than the bound, and always when twice its code points are fewer; an array iff it has fewer elements; undefined, null, booleans and numbers are never short; an object without a `length` entry is never short, and one whose entry converts to 0 is short under any positive bound |
| Js.ToNumber | src/app/api/user/register/route.ts:27 | null, false, [], blank text and a one-element array of null convert to 0, true to 1, a number to itself, text by StringToNumber; undefined, objects and arrays of two or more are NaN |
| Js.ZeroLikeLengthsAreShort | src/app/api/user/register/route.ts:27 | an object whose `length` is null, false, "", " ", [] or [null] is shorter than any positive bound |
| Js.NumeralLengthsConverted | src/app/api/user/register/route.ts:27 | a `length` of the decimal text of n, of [that text] or of [n] reads as n, and `true` as 1, so each is short under a larger bound |
| Js.NaNLengthsAreNotShort | src/app/api/user/register/route.ts:27 | a `length` that converts to NaN (an array of two, an object, undefined) or no `length` at all is never short |
| Js.Utf16Length | src/app/api/user/register/route.ts:27 | the length lies between the code-point count and twice it, and equals the count when every character is in the Basic Multilingual Plane |
| Register.NullLengthPasswordRefused | src/app/api/user/register/route.ts:27-32 | a password object whose `length` is null is refused with "Password must be at least 6 characters" and nothing is stored |
| Numbers.StringToNumber | src/app/api/user/register/route.ts:27 | white-space-only text converts to 0 |
| Numbers.StringToNumberNatToString | src/app/api/user/register/route.ts:27 | the decimal text of n converts to n, and with a leading minus sign to -n |
| Numbers.CommaIsNaN | src/app/api/user/register/route.ts:27 | no text holding a comma converts to a number, which is why an array of two or more elements is NaN |
| Numbers.FractionExample | src/app/api/user/register/route.ts:27 | "2.5e1" converts to 25 |
| Numbers.HexExample | src/app/api/user/register/route.ts:27 | "0x1F" converts to 31 |
| Numbers.NegativeInfinityExample | src/app/api/user/register/route.ts:27 | "-Infinity" converts to negative infinity, which is below every bound |
| Numbers.IncompleteExponentExample | src/app/api/user/register/route.ts:27 | "1e" converts to NaN |
| Numbers.NatToString | src/app/api/quiz/add/route.ts:44 | the numeral is non-empty, all decimal digits, with no leading zero |
| Js.AstralCharactersCountTwice | src/app/api/user/register/route.ts:27 | three emoji are six UTF-16 units long, so they pass a minimum length of 6 |
| Stats.Percentage | src/app/api/user/stats/route.ts:94 | the percentage times the question count is 100 times the score, and it lies in 0..100 when the score is within the count |
| Text.ToLower | src/app/api/user/register/route.ts:47 | the lower-cased text has the same length, maps each character, and holds no capital |
| Numbers.FramedNumeralInjective | src/app/api/quiz/add/route.ts:44 | a numeral between fixed texts determines its number |

## Left out

- Each route's separate `new Date()` calls (src/app/api/quiz/add/route.ts:95-96, src/app/api/topics/add/route.ts:134-135, src/app/api/user/stats/route.ts:111 and 119) are modelled as one reading `now` per request, so timestamps the source may set a millisecond apart are equal in the model.
- The database: connection failures, `insertOne` results, and the duplicate-key error with code 11000 on insert are not modelled. The store always answers, and a collection is a sequence.
- JSON parsing failures and every other path into a route's catch-all 500 are left out. The exceptions are the ones the model names: the `TypeError`s behind `ServerError`, and the verifier's error behind `VerificationFailed`.
- Token signing and verification, `getToken` and the secrets: signing becomes the payload datatype `Login.TokenPayload`; verification and the session check are parameters.
- The `$sample` stage of the listing is random; it is a parameter of `QuizList.Get`, and only `QuizList.FoundAreSelected` says anything about it.
- The case-insensitive title lookup of the topic route builds a regular expression from user input. It is the parameter `titleTaken` of `TopicAdd.Post`, so an invalid pattern throwing is not modelled either.
- Concurrency: the lost update between concurrent statistics submissions, and registration's check-then-insert race. Only sequential transitions are modelled.
- IEEE-754 arithmetic: percentages and averages are exact reals, so NaN, Infinity and rounding error do not arise.
- `parseInt` precision above 2^53 is not modelled.
- The model's case mapping covers ASCII letters only; `toLowerCase` (registration, login) and `toUpperCase` (topic labels) in the source map all of Unicode.
- Register.Validate: an array e-mail such as `["a@b.co"]` passes the pattern in the source, because the pattern test converts it to the string "a@b.co". Then, if the password is long enough, the following `toLowerCase` throws, giving 500; a password that is too short gets 400 first. The model reports it as an invalid e-mail, because it takes every non-string e-mail as failing the pattern.
- Stats.Post: the route uses the corrected body check `Stats.ReadSubmission`, which refuses a zero question count with 400. The source lets that request through and stores an Infinity or NaN percentage. Exact reals cannot carry Infinity or NaN, so the as-written behaviour is shown only by `Stats.ZeroQuestionsAccepted` (see Findings).
- Register.Post: requires that the store-assigned id is fresh, which is the store's guarantee rather than something the route checks.
- Js.ToNumber: a `length` entry that is an object with its own "toString" key (or an array holding one) makes the conversion throw a `TypeError` in the source, a 500 reply; the model reads every object as "[object Object]", which is NaN, so the password is not short.
- Numbers.StringToNumber: decimal text is read as an exact real, with no rounding to the nearest double and no overflow to Infinity. Only a `length` text within rounding distance of 6, such as "5.99999999999999999", compares differently from the source.
- QuizList.SortNewest: quizzes with equal `createdAt` come out in an order the model fixes; the store leaves that order unspecified.
- Gate.Middleware: the matcher pattern `/admin/:path*` is modelled as "/admin" or any path starting with "/admin/", so paths with empty segments are taken as matched.
- QuizAdd.Post: the image URL is trimmed after the store connection in the source, so its `TypeError` would come after a connection failure; since the store always answers, the order does not show.
- The next-auth route, the admin layout and pages, and the topic listing route (`GET /api/topics`) are outside this model: they hold no decisions beyond what is modelled here.
- `console` logging and HTTP framing are not modelled.

## Findings

| source | as written | input that shows it | evidently intended | confidence | as-written member | corrected member |
|---|---|---|---|---|---|---|
| src/app/api/user/stats/route.ts:54-59 | the body check only tests that score and totalQuestions are numbers, so a totalQuestions of 0 is accepted | score 5, totalQuestions 0: the percentage is 5/0·100, which is Infinity in JavaScript, and it is stored in the history and the average | a quiz with no questions is refused with 400, like other invalid data | not executed | Stats.ZeroQuestionsAccepted | Stats.ReadSubmission |
