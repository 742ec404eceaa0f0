# Quiz app core in Dafny

This project models the quiz engine of a small web quiz application. The
application is an Express/MongoDB server plus browser page scripts. The model
covers five parts:

- the quiz page's attempt state machine: answers, current question,
  countdown, submission, results headline and review marks
- scoring of an attempt, as done on the server (indices recorded) and on the
  page for trivia quizzes (option texts recorded)
- the server's handlers over an in-memory store: token check, signup,
  login, quiz creation with defaults, submission with the attempt counter,
  saving a trivia result, result history and the leaderboard
- the dashboard: statistics, the category filter, and the Open Trivia DB
  adapter (request URL, category names, Fisher–Yates shuffle of options,
  recovery of the correct index by `indexOf`)
- the create-quiz form (question cards, renumbering, validation) and the
  sign-in page's password-strength meter and signup checks

Modules follow the program:

| module | file |
|---|---|
| `Text`, `TimeFormat` | string helpers and `mm:ss` formatting |
| `QuizTypes`, `Scoring` | shared document shapes and scoring |
| `QuizSession` | public/quiz.js |
| `ServerAuth`, `ResultOrder`, `Server` | server.js |
| `Dashboard`, `Trivia` | public/dashboard.js |
| `QuizForm` | public/create-quiz.js |
| `AuthPage` | public/auth.js |

State the source changes in place is a class. `QuizSession.Session` holds
the page's attempt variables. `Server.Store` holds the three collections as
sequences. `QuizForm.QuestionEditor` holds the cards and `questionCount`.
The Fisher–Yates loop works in place on an `array`. The loops of the source
(the scoring `map` with its `correctAnswers++`, the trivia `results.map`, the
card `forEach` and the renumbering) are `while` loops proved against
specification functions. The password meter's four `score += 25` steps are
straight-line `if`s and stay so.

Modelling conventions:

- A string field that the source treats as falsy when absent, `null` or
  `''` is a plain string, with `""` standing for all three.
- A number that may be absent is an `Option<int>`.
- A document id is the document's position in its collection. No handler
  deletes anything.
- `Math.round(a / b)` is the exact rational rounding `RoundDiv`, with halves
  rounded up.
- `Date.now()`, the answer to `confirm()`, bcrypt's `hash`/`compare`,
  `jwt.verify`, HTML-entity decoding and the shuffle's random draws are
  parameters.

## Model

| member | source | states |
|---|---|---|
| Text.Trim | public/create-quiz.js:93-94 | `trim()` result has no leading or trailing whitespace and is no longer than the input |
| Text.TrimEmptyIff | public/create-quiz.js:97 | a trimmed field is empty exactly when it held only whitespace |
| Text.TrimIsSlice | public/create-quiz.js:93-94 | `trim()` keeps a slice of the input and cuts off only whitespace on both sides |
| Text.IndexOf | public/dashboard.js:285 | `indexOf` gives -1 exactly when absent, otherwise a position holding the value with no earlier one |
| Text.NatToString | public/quiz.js:342-346 | `String(n)` is a non-empty digit string with no leading zero; its digits read back as `n` (`ParseNatToString`) |
| Text.ParseNatToString | public/quiz.js:342-346 | reading the digits of `String(n)` gives back `n` |
| Text.Split | server.js:43 | `split(' ')` gives at least one part and no part contains the separator |
| Text.SplitJoin | server.js:43 | splitting `a + d + b` with `d` not in `a` gives `a` followed by the parts of `b` |
| Text.SplitFirst | server.js:43 | the first part of a split runs from the start up to the first separator or the end |
| Text.PadStart2 | public/quiz.js:120 | `padStart(2, '0')` keeps the digits as a suffix, pads only with zeros, and has length at least 2 |
| Text.ToUpper | public/dashboard.js:256 | lower-case ASCII letters map to their capitals, every other character is kept |
| Text.Capitalize | public/dashboard.js:256 | first character upper-cased, the rest unchanged, length unchanged |
| TimeFormat.FormatTime | public/quiz.js:342-346 | `mins:secs` with digit fields, `mins*60 + secs == seconds`, `secs < 60`, and the minutes field unpadded (`String(seconds / 60)`); the dashboard's `formatTime` (public/dashboard.js:209-213) is the same function |
| TimeFormat.SecondsField | public/quiz.js:344-345 | seconds field has exactly two digits and reads back as `seconds % 60` |
| TimeFormat.TimerText | public/quiz.js:117-120 | timer text has both fields padded to two or more digits (the minutes are `padStart(2, '0')` of `String(remaining / 60)`), `min*60 + sec == remaining`, `sec < 60` |
| TimeFormat.ParseClock | public/quiz.js:342-346 | reads `m:ss` back; a text without a colon is refused |
| TimeFormat.ParseClockParts | public/quiz.js:342-346 | only two fields are accepted: digit minutes and two-digit seconds below 60 |
| TimeFormat.ParseClockOf | public/quiz.js:342-346 | `m + ":" + ss` with digit fields and seconds below 60 reads back as `m*60 + ss` |
| TimeFormat.FormatTimeRoundTrip | public/quiz.js:342-346 | parsing `formatTime(s)` gives back `s` |
| TimeFormat.TimerTextRoundTrip | public/quiz.js:117-120 | parsing the timer text gives back the remaining seconds |
| Scoring.CorrectUpTo | server.js:217-229 | the running count over the first `k` questions is at most `k` |
| Scoring.CorrectUpToIsCardinality | server.js:217-229 | the count is the number of questions whose answer slot holds the key's index |
| Scoring.RoundDiv | server.js:232 | `Math.round(a/b)`: the result is within one half of `a/b`, halves rounded up |
| Scoring.RoundingUnique | server.js:232 | two integers within one half of `a/b` are the same integer |
| Scoring.RoundDivUnique | server.js:232 | there is only one integer within one half of `a/b`, so the rounding is determined |
| Scoring.Percent | server.js:232 | `Math.round(c / n * 100)` is `RoundDiv(100c, n)`, which lies within one half of `100c/n` |
| Scoring.PercentBounds | server.js:232 | the score is within 0..100; no right answers give 0 and all right give 100 |
| Scoring.PercentMonotone | server.js:232 | more right answers never give a lower score |
| Scoring.ScoreSubmission | server.js:217-232 | server scoring: one index record per question, `isCorrect` iff the slot holds the key's index (missing and `null` never match), count, `round(100*c/n)` in 0..100 |
| Scoring.ScoreLocally | public/quiz.js:222-236 | page scoring: the same verdicts and count as the server, with the chosen option's text or `'No answer'` and the key's option text recorded |
| Scoring.LocalOutcome | public/quiz.js:224-233 | the page's row for a question: its text, the chosen option's text or `'No answer'`, the key's option text, and right iff the slot holds the key's index |
| Scoring.TwoQuestionExample | server.js:217-232 | key [1,0]: answers [1,0] → 2 right, 100; [0,0] → 1 right, 50; [null,0] → 1 right |
| QuizSession.Select | public/quiz.js:169-170 | writing slot `i` sets it and leaves every other slot alone |
| QuizSession.SelectIdempotent | public/quiz.js:169-170 | choosing the same option twice is the same as once |
| QuizSession.SelectLastWins | public/quiz.js:169-170 | the last choice on a question replaces earlier ones |
| QuizSession.SelectCommutes | public/quiz.js:169-170 | choices on different questions commute, and so does the resulting count |
| QuizSession.Unanswered | public/quiz.js:199 | the unanswered count is at most the number of questions |
| QuizSession.UnansweredZeroIff | public/quiz.js:199-207 | the count is 0 exactly when every slot is answered, which is when no confirmation is asked |
| QuizSession.UnansweredAllNone | public/quiz.js:92 | a fresh answers array has every question unanswered |
| QuizSession.Session.Initialize | public/quiz.js:86-101 | one `null` per question, index 0, `timeRemaining == timeLimit`, timer running |
| QuizSession.Session.SelectAnswer | public/quiz.js:169-170 | only the current slot changes; index and timer unchanged |
| QuizSession.Session.Prev | public/quiz.js:184-189 | the index drops by one unless at 0; answers and timer untouched |
| QuizSession.Session.Next | public/quiz.js:191-196 | the index rises by one unless at the last question; answers and timer untouched |
| QuizSession.SubmissionOf | public/quiz.js:213-262 | what a submission carries: for a trivia quiz the count of answers equal to the key, `round(100c/n)` in 0..100 and one text line per question; for a stored quiz the answers unchanged; and the elapsed seconds |
| QuizSession.Session.Submit | public/quiz.js:210-236 | the timer is cancelled first; the result is `SubmissionOf` the current answers with `timeTaken == floor((now-start)/1000)` |
| QuizSession.Session.Tick | public/quiz.js:106-113 | a live tick decrements by one and auto-submits exactly when the result is ≤ 0, cancelling the timer, and the auto-submission is `SubmissionOf` the answers; a cancelled timer does nothing |
| QuizSession.TickTwice | public/quiz.js:295-298 | a countdown auto-submits at most once |
| QuizSession.Session.SubmitClicked | public/quiz.js:198-208 | reports the number of `null` slots; submits iff none are unanswered or the user confirms, and then the submission is `SubmissionOf` the answers; otherwise the timer is untouched |
| QuizSession.Session.Exit | public/quiz.js:406-414 | a confirmed exit cancels the timer; nothing else changes |
| QuizSession.Session.StartReview | public/quiz.js:349-354 | review starts at question 0 with the answers kept |
| QuizSession.HeadlineFor | public/quiz.js:313-322 | "Excellent Work" iff ≥ 80, "Good Job" iff 60..79, "Keep Practicing" iff < 60 |
| QuizSession.IncorrectCount | public/quiz.js:304 | `total - correct` is the number of questions not answered right |
| QuizSession.ReviewMarks | public/quiz.js:372-382 | the key's option is marked right, and the user's option is marked wrong iff answered and not the key's |
| QuizSession.MarkAt | public/quiz.js:372-382 | one option's mark: right iff it is the key's option, wrong iff it is the user's answer and not the key's |
| QuizSession.NoteFor | public/quiz.js:392-397 | "not attempted" iff unanswered, "correct" iff answered and the stored verdict is right |
| ServerAuth.SecondWord | server.js:43 | `split(' ')[1]` exists iff the header has a space; it is the text from just after the first space up to the next space or the end |
| ServerAuth.AccessToken | server.js:42-43 | no header, or a header without a space, gives no token; a token is non-empty |
| ServerAuth.BearerHeader | server.js:43 | the header `Bearer <token>` yields that token |
| ServerAuth.Authenticate | server.js:41-56 | 401 iff there is no token, 403 iff verification fails, otherwise the verified claims |
| ResultOrder.Precedes | server.js:309 | the two sort orders: `completedAt` descending; `score` descending, then `timeTaken` ascending (line 323) |
| ResultOrder.Insert | server.js:309 | inserting into an ordered list keeps it ordered and adds exactly that element |
| ResultOrder.Sort | server.js:309 | the store's sort gives an ordered permutation of its input |
| ResultOrder.Find | server.js:308-322 | `.find({ userId })` and `.find({ quizId })`: exactly the results the filter selects, with their multiplicities |
| ResultOrder.Take | server.js:324 | `.limit(n)` is a prefix of length `min(n, len)` |
| ResultOrder.PrecedesTotal | server.js:323 | any two results are comparable in either order |
| ResultOrder.PrecedesTransitive | server.js:323 | the orders are transitive |
| ResultOrder.PrefixPrecedesRest | server.js:323-324 | what a limit leaves out of an ordered list ranks no higher than anything it keeps |
| ResultOrder.Top | server.js:323-324 | `sort(...).limit(n)`: `min(n, len)` ordered elements, a sub-multiset of the input, and each kept one precedes every one left out |
| Server.FindUser | server.js:69 | `findOne({email})` returns the first user with that email, or none exists |
| Server.DefaultCategory | server.js:185 | a missing category becomes `'General'`; a given one is kept |
| Server.DefaultDescription | server.js:184 | a missing description is stored as the empty text; a given one is kept |
| Server.DefaultTimeLimit | server.js:186 | a missing limit or 0 becomes 600; any other value is kept |
| Server.Store.Signup | server.js:61-103 | 400 for a missing field, 400 for a registered email, otherwise exactly one user with role `'user'` and hashed password is added and the token's claims name it |
| Server.Store.Login | server.js:106-142 | 400 without email or password; the same 401 for an unknown email and for a wrong password; success iff the stored hash matches |
| Server.Store.LoginNamesTheAccount | server.js:115-124 | with unique emails a login succeeds as the one account holding the email |
| Server.Store.GetQuiz | server.js:160-171 | 404 iff the id is unknown, otherwise that quiz |
| Server.Store.CreateQuiz | server.js:174-203 | 400 without title or questions; otherwise exactly one quiz is added with the defaults, the creator, and `totalAttempts = 0` |
| Server.Store.SubmitQuiz | server.js:206-266 | 404 with nothing changed for an unknown quiz; otherwise server scoring, exactly one result, and `totalAttempts + 1` on that quiz only |
| Server.Store.SaveApiQuiz | server.js:269-302 | 400 without title or with no score (0 accepted); otherwise one result with the `'api-quiz'` id and `isApiQuiz`, and no quiz changes |
| Server.Store.ListResults | server.js:305-316 | exactly the caller's results, newest first |
| Server.Store.Leaderboard | server.js:319-331 | at most 10 results of that quiz, each of them one of that quiz's results with no result repeated more often than stored, score descending then time ascending, and no omitted result outranks a shown one |
| Dashboard.BestScore | public/dashboard.js:171 | the maximum: no score exceeds it and some result has it |
| Dashboard.UpdateStats | public/dashboard.js:156-173 | zeros for no results; otherwise the count, `round(sum/len)` and the best score |
| Dashboard.ScoreSum | public/dashboard.js:166-168 | `reduce((sum, r) => sum + r.score, 0)`: the scores added up; its bounds are `SumBounds` |
| Dashboard.SumBounds | public/dashboard.js:166-168 | the sum lies between `len*min` and `len*max` |
| Dashboard.RoundDivWithin | public/dashboard.js:166-168 | rounding a mean that lies within bounds stays within them |
| Dashboard.AverageWithinScores | public/dashboard.js:164-172 | worst score ≤ average ≤ best score |
| Dashboard.StatsExample | public/dashboard.js:156-173 | scores 80, 60, 100 show 3 attempts, 80% average, 100% best |
| Dashboard.InCategory | public/dashboard.js:127 | only quizzes of that category, and every one of them |
| Dashboard.InCategoryAppend | public/dashboard.js:127 | the filter keeps the original order: it distributes over concatenation |
| Dashboard.FilterByCategory | public/dashboard.js:121-130 | `'all'` shows the full list, anything else only that category |
| Trivia.TriviaUrl | public/dashboard.js:235-243 | the URL starts with the endpoint, `amount` and `type=multiple` |
| Trivia.QueryParams | public/dashboard.js:235-243 | the URL's parameters: amount and type always, then category and difficulty unless `'any'` |
| Trivia.SplitJoinAmp | public/dashboard.js:235-243 | joining `&`-free parameters with `&` and splitting again is the identity |
| Trivia.UrlIsJoin | public/dashboard.js:235-243 | the URL is the endpoint, `?`, and the query parameters joined by `&` |
| Trivia.UrlCarriesParams | public/dashboard.js:235-243 | the query string splits into exactly the listed parameters, in order |
| Trivia.ParamPresence | public/dashboard.js:237-243 | a category parameter exists iff the category is not `'any'`, and likewise for the difficulty |
| Trivia.CategoryName | public/dashboard.js:304-323 | total: listed ids give their name, any other id gives `'General Knowledge'` |
| Trivia.CategoryNameExamples | public/dashboard.js:304-323 | `'any'` and an unlisted id give `'General Knowledge'`, `'18'` gives `'Computers'` |
| Trivia.Description | public/dashboard.js:256 | `<amount> questions - `, then `Mixed` for any difficulty or the difficulty with its first letter upper-cased, then ` difficulty` |
| Trivia.SwapAt | public/dashboard.js:279 | the swap exchanges two positions and keeps the rest |
| Trivia.SwapPermutes | public/dashboard.js:279 | a swap keeps the multiset of options |
| Trivia.ShuffledFrom | public/dashboard.js:277-280 | the loop from step `i` down: swap position `i` with the drawn `j <= i`, then continue with `i - 1` |
| Trivia.Shuffled | public/dashboard.js:277-280 | the whole Fisher–Yates loop, from the last position down to 1 |
| Trivia.ShuffledFromPermutes | public/dashboard.js:277-280 | the remaining loop steps keep the length and the multiset |
| Trivia.ShuffledPermutes | public/dashboard.js:277-280 | for any draws with `0 <= j <= i`, the shuffle is a permutation |
| Trivia.Shuffle | public/dashboard.js:277-280 | the in-place loop leaves the array as the shuffle function of its old contents |
| Trivia.TrackFromFollows | public/dashboard.js:277-280 | the tracked position after the remaining steps holds the tracked element |
| Trivia.TrackFollows | public/dashboard.js:277-280 | after the shuffle, the tracked position holds the element that started there |
| Trivia.TwoOccurrences | public/dashboard.js:285 | two equal entries make that value occur at least twice |
| Trivia.IndexOfFindsTracked | public/dashboard.js:285 | with distinct texts, `indexOf` finds the correct option where the shuffle put it |
| Trivia.DuplicateTextExample | public/dashboard.js:285 | with a repeated text, `indexOf` can answer an equal-text copy, not the moved original |
| Trivia.DecodedOptions | public/dashboard.js:268-274 | the correct text first, then the decoded incorrect ones in order |
| Trivia.Formatted | public/dashboard.js:266-287 | the decoded question, the shuffle of the decoded options, and `indexOf` of the correct text |
| Trivia.FormattedKey | public/dashboard.js:266-287 | of `Formatted`: the options are a permutation of the decoded texts; the key is in range, names the correct text, is its first occurrence, and is where the shuffle moved the correct text when that text occurs once |
| Trivia.FormatQuestion | public/dashboard.js:266-287 | the in-place callback gives `Formatted(q, …)`: options are the shuffle of the decoded options, a permutation of them; the correct index is in range, names the correct text, and is its first occurrence |
| Trivia.FormatAll | public/dashboard.js:266-287 | one question per trivia question, in order, each `Formatted` from its trivia question and draws (so `FormattedKey` holds of it), with every key in range |
| Trivia.BuildApiQuiz | public/dashboard.js:249-289 | failure iff `response_code != 0`; otherwise title, description, category, `timeLimit = amount*60`, `isApiQuiz`, and each question `Formatted` from its trivia question and draws (so `FormattedKey` holds of it), with its key in range |
| QuizForm.TrimAll | public/create-quiz.js:94 | each option trimmed, in order |
| QuizForm.ReadCard | public/create-quiz.js:93-95 | what the handler reads from a card: the trimmed question, each option trimmed, and the checked value |
| QuizForm.ReadCards | public/create-quiz.js:92 | one entry per card |
| QuizForm.ReadCardsAt | public/create-quiz.js:92-95 | entry `i` is read from card `i` |
| QuizForm.CardFailure | public/create-quiz.js:97-113 | an entry passes iff its question text is non-empty, every option is non-empty and a value is checked |
| QuizForm.CardQuestion | public/create-quiz.js:115-119 | a passing entry becomes its texts and the checked value |
| QuizForm.LastFailure | public/create-quiz.js:92-113 | the card whose message stays on screen is one that fails |
| QuizForm.LastFailureIsLast | public/create-quiz.js:92-113 | none iff every card passes; no card after the reported one fails |
| QuizForm.ErrorShown | public/create-quiz.js:98-112 | a message is left on screen iff some card fails |
| QuizForm.AcceptedUpTo | public/create-quiz.js:92-120 | no more questions than cards |
| QuizForm.AcceptedAll | public/create-quiz.js:92-120 | with no failure, one question per card, in card order |
| QuizForm.CollectStep | public/create-quiz.js:92-120 | one more card either overwrites the message with its own or pushes its question |
| QuizForm.RemovalKeepsGroups | public/create-quiz.js:44-48 | removing a card keeps the other cards' radios exclusive and distinct names distinct |
| QuizForm.CheckCard | public/create-quiz.js:92-120 | the callback reports the card's first failed check, or gives its question |
| QuizForm.CollectCards | public/create-quiz.js:92-120 | the `forEach` leaves the last failing card's message, and pushes the passing cards' questions in order |
| QuizForm.MaxGroup | public/create-quiz.js:40 | no card's radio-group suffix exceeds it |
| QuizForm.SharedGroupBlocksSubmit | public/create-quiz.js:38-41 | two cards with one radio name can never both have an answer chosen, so the page cannot submit |
| QuizForm.SubmittedRequestIsComplete | public/create-quiz.js:115-124 | a sent request has one complete question per card, so it passes the server's check |
| QuizForm.QuestionEditor.constructor | public/create-quiz.js:169 | the page starts with one blank card, number 1, group 1 |
| QuizForm.QuestionEditor.BlankCard | public/create-quiz.js:29-41 | a new card is blank, has the template's option fields and no radio checked |
| QuizForm.QuestionEditor.AddQuestion | public/create-quiz.js:28-51 | `questionCount` rises by 1 and the new card takes it as number and radio-group suffix |
| QuizForm.QuestionEditor.AddQuestionFixed | public/create-quiz.js:28-51 | as above, but the radio group is unused, so distinct groups stay distinct |
| QuizForm.QuestionEditor.UpdateQuestionNumbers | public/create-quiz.js:53-60 | `questionCount` equals the number of cards and they are numbered 1..n in order, nothing else changed |
| QuizForm.QuestionEditor.DeleteQuestion | public/create-quiz.js:44-48 | the card is removed and the rest renumbered, in order |
| QuizForm.QuestionEditor.SetQuestionText | public/create-quiz.js:93 | only that card's question field changes |
| QuizForm.QuestionEditor.SetOptionText | public/create-quiz.js:94 | only that option field changes |
| QuizForm.QuestionEditor.SelectCorrect | public/create-quiz.js:95 | the radio is checked, others of the same name are unchecked; with distinct names no other card changes |
| QuizForm.QuestionEditor.CollectQuestions | public/create-quiz.js:63-124 | missing title or category, then no cards, then the last failing card's message; only with no failure the request with the built questions |
| QuizForm.GroupCollisionWitness | public/create-quiz.js:32-41 | load, add, delete the first, add: two cards share radio group 2 |
| QuizForm.GroupsApartWitness | public/create-quiz.js:32-41 | the same clicks with the fixed add keep the groups distinct |
| AuthPage.CriteriaMet | public/auth.js:45-48 | the count of met criteria is 0..4, 4 iff all are met, 0 iff none |
| AuthPage.StrengthColor | public/auth.js:50-52 | green iff ≥ 75, amber iff 50..74, red iff < 50 |
| AuthPage.CalculatePasswordStrength | public/auth.js:42-55 | the percentage is 25 × the criteria met, one of 0, 25, 50, 75, 100, with its colour |
| AuthPage.StrengthMonotone | public/auth.js:45-48 | appending characters never lowers the strength |
| AuthPage.StrengthExamples | public/auth.js:45-48 | `abc` meets one criterion, `Abcdefg1` all four |
| AuthPage.SignupCheck | public/auth.js:110-119 | a mismatch is reported first, then a length below 6; accepted iff matching and length ≥ 6 |
| AuthPage.ShortPasswordAccepted | public/auth.js:116-119 | a matching password of length 6 or 7 is accepted but earns no length credit |

## Left out

- DOM rendering, `innerHTML` templates, modal toggling, the progress bar, the score-circle animation and the timer's colour change are UI only.
- `fetch`, HTTP plumbing, Express routing and CORS are left out. The MongoDB driver is replaced by in-memory sequences, with positions as ids.
- A malformed ObjectId makes `new ObjectId` throw, giving 500. Ids here are naturals, so this path is not modelled.
- The quiz listing `GET /api/quizzes` (server.js:147-157) is a projection without logic; it is not modelled.
- `localStorage`, `sessionStorage`, `JSON.parse` and `JSON.stringify` are environment I/O.
- The unique email index races between concurrent signups, and the insert/`$inc` pair is not atomic; concurrency is not modelled.
- Real `setInterval` scheduling is not modelled. The timer is an explicit `Tick` and a `timerActive` flag.
- The page disables the submit button while submitting (public/quiz.js:217-218); the model has no button state, so `SubmitClicked` after `Submit` would submit again.
- Math.random's distribution cannot be stated. The draws are an input constrained to `0 <= j <= i`.
- `startTime` is taken when the page script loads, not when the quiz starts. It is a constant of the session.
- IEEE floating point is not modelled. `Math.round((c/n)*100)` and the mean use exact rational rounding, which may differ from the float result on exact halves after binary rounding.
- Scoring.ScoreSubmission: answers are integers or absent. A JSON answer of another type (a string, a float) is not modelled, and a non-array `answers` is modelled only as absent (500).
- Server.Store.SubmitQuiz: stored quizzes always have questions (create-quiz refuses an empty list), so the `0/0` score of an empty quiz is excluded by the store invariant, not modelled.
- Server.Store.SaveApiQuiz: the score is an `Option<int>` whose `None` stands for an absent score. A JSON `null` score passes the source's `score === undefined` test (server.js:273) and is stored as `null`; the model has no such value.
- TimeFormat.TimerText: takes a natural number. A negative `timeLimit` is truthy and kept by `timeLimit || 600` (server.js:186); the page then starts the countdown below zero (public/quiz.js:95) and would show a negative `mm:ss` (public/quiz.js:117-120) until the first tick auto-submits. `Session.Tick` models that auto-submission; the negative display is not modelled.
- Text.ToUpper: upper-cases ASCII `a`–`z` only. JavaScript's `toUpperCase` also maps other letters (`é` to `É`, `ß` to `SS`).
- TimeFormat.FormatTime: takes a natural number. JavaScript's `%` on a negative `timeTaken` (a clock moved backwards) is not modelled.
- Server.DefaultDescription: `description || ''` is the identity here, because absent, `null` and `''` are all `""`.
- Trivia.TriviaUrl: `amount` is a natural number, so the select's string value and `parseInt` of it agree. Other `amount` strings are not modelled.
- Trivia.CategoryName: JavaScript object lookup would also find inherited keys such as `constructor`. Only the table's own keys are modelled; the select never offers others.
- Lengths (`password.length`, `questions.length`) count characters of the model's strings, not UTF-16 code units.
- ResultOrder.Sort: one particular order among ties (an insertion sort). MongoDB leaves the order of ties unspecified; the contract promises only ordered and a permutation.
- HTML-entity decoding (a `textarea` element), bcrypt and JWT are opaque function parameters. Token expiry is part of `verify`.
- The Open Trivia DB service itself is modelled only by its `response_code` and its `results`.

## Findings

| source | as written | input that shows it | evidently intended | confidence | as-written member | corrected member |
|---|---|---|---|---|---|---|
| public/create-quiz.js:32-41 | the radio group of a new card is named `correct-${questionCount}`, and `updateQuestionNumbers` lowers `questionCount` after a delete | page load (card in group 1), add (group 2), delete the first card (count back to 1), add (count 2, group 2 again): both cards' radios share one name, only one can be checked, and the form can never be submitted | every card's radio group has its own name | not executed | QuizForm.QuestionEditor.AddQuestion, shown by QuizForm.GroupCollisionWitness and QuizForm.SharedGroupBlocksSubmit | QuizForm.QuestionEditor.AddQuestionFixed, shown by QuizForm.GroupsApartWitness |
