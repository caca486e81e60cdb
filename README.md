# Quiz application: a verified model of its core

This project models the core of a quiz application in Dafny. The application has two halves.

- **The Express server.** It takes a user's answers to a quiz and scores the attempt. It also
  computes a user's statistics and the metrics behind an AI recommendation, and manages questions
  and quizzes. Around these handlers sit the session-token middleware, the role checks, the HTTPS
  redirect, the login rate limits and the error handler.
- **The React client.** It validates usernames and passwords, holds the state of the quiz page
  while a user answers, and holds the state of the forms that create and edit categories, quizzes
  and questions. It also maps scores and difficulties to colours and badges.

The model is organised like the program:

- One module per source file (`AttemptController`, `QuestionForm`, `RateLimiter`, …).
- `Types` holds the shared records and constants.
- `Common` holds the JavaScript semantics the rest relies on:
  - truthiness and `||` fallbacks, next to `??` (`GetOr`);
  - `String.prototype.trim`;
  - validators that return the first message that fails.
- `Store` is an in-memory stand-in for the relational database. It keeps a table per entity and
  the unique index on usernames.

Pure code is modelled as functions. Code that works step by step is modelled as methods:
- the scoring loop of `completeAttempt`;
- the `categoryMap` grouping of `getUserStats`;
- the two passes of `getRecommendation`.

Each method is proved against a specification function. Where the source mutates an object, the
model is a class whose methods modify its fields:
- a request that the auth middleware updates;
- a rate limiter's window table;
- the state of the quiz page;
- the state of the three forms.

Properties the model proves include:

- **Scoring.** A submitted answer is scored exactly when its question belongs to the quiz. Each
  stored answer row matches its result. The feedback message is fixed by the ratio of correct
  answers. An attempt cannot be completed twice.
- **Statistics.** The per-category attempt counts add up to the total number of attempts. The
  category list follows first-appearance order, as a JavaScript `Map` does. The recent attempts are
  the newest ones.
- **Recommendation metrics.** The running average restarts while a category's score is still zero
  (a `||` fallback that treats 0 as missing), so leading 0% attempts drop out of the count.
- **Session tokens.** A fresh token admits its user until it expires. Raising the user's token
  version revokes it. The environment object as shipped defines no `jwtSecret`, so the secret in
  force is empty, no token can be signed, and every request that passes through `authMiddleware`
  (in the routes shown, the question routes) is refused with 401.
- **Role checks.** `authMiddleware` never sets `req.userRole`, so on a route that runs
  `authMiddleware` and then a role check, the role check always answers 401.
- **Error texts that are not there.** The authentication, role and rate-limit refusals read the
  keys `MISSING_AUTH_TOKEN`, `INVALID_AUTH_TOKEN`, `INSUFFICIENT_PERMISSIONS` and
  `RATE_LIMIT_EXCEEDED` of `ERROR_MESSAGES`, which that table does not define. Each reads as
  `undefined`, so these responses carry no error text. A missing token and an invalid one get the
  same 401 response, and a forbidden role and a throttled login differ from it only in status.
- **Question updates.** Merging an update is idempotent, and a full update overrides any earlier
  one. An update that replaces only the options is not checked against the stored correct answer,
  and can leave a question whose answer names no option (`OptionsAloneAreNotRechecked`).
- **Forms and pages.** Validation messages come in the order the forms check them. Payloads are
  trimmed. Colours and badges on the results and dashboard pages agree with the server's feedback
  tiers.
- **Rate limiting.** The sixth login inside a fifteen-minute window is refused with 429.

## Model

| member | source | states |
|---|---|---|
| Common.OrElse | server/src/middleware/auth.ts:8 | a logical-or fallback on an optional string: the value when it is truthy (present and non-empty), the fallback otherwise |
| Common.IsSpace | client/src/pages/HomePage.tsx:30 | the ECMAScript white-space and line-terminator code points, the set `trim()` strips and `\s` matches |
| Common.TrimStart | client/src/pages/HomePage.tsx:16 | the string without its leading white space, never longer than the input (its exact shape is TrimStartShape) |
| Common.TrimEnd | client/src/pages/HomePage.tsx:16 | the string without its trailing white space, never longer than the input (its exact shape is TrimEndShape) |
| Common.Trim | client/src/pages/HomePage.tsx:16 | `s.trim()`: never longer than the input, and a non-empty result begins and ends with a character that is not white space |
| Common.TrimIdempotent | client/src/components/QuestionForm.tsx:89-97 | trimming an already trimmed string changes nothing |
| Common.TrimStartShape | client/src/pages/HomePage.tsx:16 | trimming the start removes exactly a white-space prefix and stops at a character that is not white space |
| Common.TrimEndShape | client/src/pages/HomePage.tsx:16 | trimming the end removes exactly a white-space suffix and stops at a character that is not white space |
| Common.TrimEmptyIffAllSpace | client/src/pages/HomePage.tsx:18-20 | a string trims to empty exactly when it is all white space, so `!s.trim()` means blank |
| Common.TrimIgnoresPadding | client/src/pages/HomePage.tsx:16 | adding white space on either side of a string does not change its trimmed form |
| Common.FirstFailure | client/src/utils/passwordValidation.ts:62-92 | a chain of early returns yields None exactly when every check passes, else the message of the first failing check |
| Common.FirstFailureAt | client/src/pages/HomePage.tsx:15-39 | when the checks before k pass and check k fails, the reported message is check k's |
| Common.RejectionText | client/src/components/QuestionForm.tsx:130 | the message a failed save shows: the server's `error` field, else the exception's message, else the fixed fallback, each only if truthy |
| Types.InCategory | server/src/controllers/quizController.ts:11 | the quizzes kept are exactly those of the category, none added |
| Types.InCategoryConcat | client/src/components/QuizList.tsx:74-76 | filtering by category preserves order: filtering a concatenation is concatenating the filtered parts |
| Types.InCategoryIdempotent | client/src/components/QuizList.tsx:74-76 | filtering twice by the same category changes nothing |
| Types.ByCategoryFilter | server/src/controllers/quizController.ts:11 | a falsy category id returns every quiz; a truthy one keeps exactly the quizzes of that category |
| Types.TierOf | shared/src/constants.ts:9-14 | each percentage is in exactly one tier, at the 90, 75 and 60 thresholds, each lower bound inclusive |
| Store.IndexedNamesAreUnique | server/src/controllers/userController.ts:10-16 | with the unique username index in place, two users with the same username are the same user |
| Store.IndexedAfterInsert | server/src/controllers/userController.ts:18-20 | inserting a user with a new id and a new username keeps the index consistent with the user table |
| ErrorHandler.NewAppError | server/src/middleware/errorHandler.ts:4-13 | an AppError carries the given status and message, and is operational unless told otherwise |
| ErrorHandler.Fail | server/src/middleware/errorHandler.ts:4-13 | an operational AppError with the given status and message text |
| ErrorHandler.HandleError | server/src/middleware/errorHandler.ts:15-46 | an AppError keeps its status and message; otherwise a Prisma known request error becomes 400 "Database error occurred" and anything else 500 with the generic server error; `success` is always false |
| ErrorHandler.AppErrorWinsOverName | server/src/middleware/errorHandler.ts:23-32 | the AppError test comes first: an AppError reports its own status and message even when its name is the Prisma one |
| ErrorHandler.NonAppErrorsAreFixed | server/src/middleware/errorHandler.ts:31-45 | an error that is not an AppError can only be answered with 400 or 500 and one of two fixed messages |
| PasswordValidation.CalculatePasswordStrength | client/src/utils/passwordValidation.ts:18-55 | an empty password is "Very Weak" at 0%; any other scores the number of the five criteria it meets, capped at 4, and its percentage is 20·(score+1) |
| PasswordValidation.StrengthFor | client/src/utils/passwordValidation.ts:43-49 | the `strengthMap` entry of a score: the score kept, a bar of 20·(score+1) percent, and "Strong" exactly at score 4 |
| PasswordValidation.StrengthDependsOnlyOnScore | client/src/utils/passwordValidation.ts:43-54 | two non-empty passwords with the same score get the same label, colour and percentage |
| PasswordValidation.EmptyAndWeakestDiffer | client/src/utils/passwordValidation.ts:21-28 | a non-empty password with score 0 shows 20% while the empty one shows 0%, under the same label |
| PasswordValidation.ValidatePassword | client/src/utils/passwordValidation.ts:62-92 | a password is accepted exactly when it has 8 to 128 characters and a lower-case letter, an upper-case letter, a digit and a special character |
| PasswordValidation.ValidatePasswordReportsFirstFailure | client/src/utils/passwordValidation.ts:62-92 | the message is that of the first of the seven checks, in source order, that fails |
| PasswordValidation.AcceptedPasswordIsStrong | client/src/utils/passwordValidation.ts:30-54 | every password the validator accepts shows as "Strong" (score 4) on the meter |
| PasswordValidation.ValidatePasswordMatch | client/src/utils/passwordValidation.ts:100-113 | accepted exactly when the confirmation is non-empty and equal; an empty one is reported as missing, a different one as a mismatch |
| HomePage.UsernameCharsAreNotSpace | shared/src/constants.ts:70-76 | no character the username pattern allows is white space |
| HomePage.ValidateUsername | client/src/pages/HomePage.tsx:15-39 | a username is accepted exactly when its trimmed form has 4 to 40 characters, all letters, digits or `@ . _ -` |
| HomePage.ValidateUsernameReportsFirstFailure | client/src/pages/HomePage.tsx:15-39 | the message is that of the first failing check (required, too short, too long, spaces, format) on the trimmed name |
| HomePage.PaddingNeverRejects | client/src/pages/HomePage.tsx:16 | white space around a username never changes the verdict |
| HomePage.LengthMessages | client/src/pages/HomePage.tsx:18-28 | a blank name is reported as required, 1 to 3 characters as too short and over 40 as too long |
| HomePage.SpacesReportedBeforeFormat | client/src/pages/HomePage.tsx:30-36 | a name of legal length with inner white space is reported as containing spaces, though the pattern would also reject it |
| HomePage.SpaceBreaksPattern | client/src/pages/HomePage.tsx:34-36 | a name containing white space never matches the username pattern |
| HomePage.HandleSubmit | client/src/pages/HomePage.tsx:66-83 | an invalid name shows the validator's message; a valid one logs in or registers, as the mode says, with the trimmed name |
| HomePage.SubmittedNameIsClean | client/src/pages/HomePage.tsx:79-83 | the name sent to the server has 4 to 40 characters, no white space, and passes validation again |
| HomePage.AlphabetNameIsTrimmed | client/src/pages/HomePage.tsx:16 | a name made only of allowed characters is its own trimmed form |
| HomePage.FailureMessage | client/src/pages/HomePage.tsx:86-89 | the server's error message when truthy, otherwise the mode's fixed message |
| AttemptController.StartAttemptCheck | server/src/controllers/attemptController.ts:17-25 | starting is refused with 404 for an unknown user, then with 404 for an unknown quiz, and allowed exactly when both exist |
| AttemptController.NewAttempt | server/src/controllers/attemptController.ts:27-31 | a new attempt has the given user and quiz, starts at `now` with the stored defaults score 0 and percentage 0, and is not yet completed |
| AttemptController.StartAttempt | server/src/controllers/attemptController.ts:14-57 | a refused start returns the error and stores nothing; an accepted one stores exactly the new attempt under its id |
| AttemptController.QuizQuestions | server/src/controllers/attemptController.ts:78-82 | the question map holds exactly the quiz's questions, keyed by id |
| AttemptController.Judge | server/src/controllers/attemptController.ts:92-115 | an answer is correct exactly when it equals the question's correct answer; the result carries both, the question and the question's explanation |
| AttemptController.Process | server/src/controllers/attemptController.ts:88-116 | `answerResults` after the loop: one judged result appended per answer whose question is in the map, skipped otherwise (its meaning is ProcessJudgesKnownAnswers) |
| AttemptController.AnswerRows | server/src/controllers/attemptController.ts:96-103 | the answer rows the loop inserts, one per known answer (RowsMatchResults ties them to the results) |
| AttemptController.CorrectCount | server/src/controllers/attemptController.ts:93 | the number of correct results never exceeds the number of results |
| AttemptController.Known | server/src/controllers/attemptController.ts:88-90 | the submitted answers that name a question of the quiz, in submission order |
| AttemptController.KnownSnoc | server/src/controllers/attemptController.ts:88-90 | one more submitted answer is kept exactly when its question is in the quiz |
| AttemptController.ProcessJudgesKnownAnswers | server/src/controllers/attemptController.ts:88-116 | there is one result per known answer, in order, and each is that answer judged against its question |
| AttemptController.RowsMatchResults | server/src/controllers/attemptController.ts:96-115 | every stored answer row agrees with the result at the same position: same question, answer and correctness |
| AttemptController.UnknownAnswersScoreNothing | server/src/controllers/attemptController.ts:89-90 | answers to questions outside the quiz are skipped without error |
| AttemptController.RepeatedAnswerCountsTwice | server/src/controllers/attemptController.ts:88-120 | answers are not de-duplicated: the same correct answer sent twice for a one-question quiz scores 2 and 200% |
| AttemptController.Feedback | server/src/controllers/attemptController.ts:141-148 | the feedback message for each band of the percentage, at 90, 75 and 60 |
| AttemptController.Percentage | server/src/controllers/attemptController.ts:118-120 | the percentage times the number of questions is 100 times the correct count; it is never negative, at most 100 when no more answers are correct than there are questions, and exactly 100 when all are |
| AttemptController.PercentageScaled | server/src/controllers/attemptController.ts:119-120 | the percentage reaches a bound exactly when 100·correct reaches bound·total |
| AttemptController.FeedbackByRatio | server/src/controllers/attemptController.ts:119-148 | the feedback is fixed by the ratio of correct answers: at least 9/10 excellent, 3/4 good, 3/5 average, less than 3/5 needs improvement |
| AttemptController.CompleteAttemptCheck | server/src/controllers/attemptController.ts:69-75 | completing is refused with 404 for an unknown attempt, 400 for a completed one, and allowed exactly for a known, open attempt |
| AttemptController.Completed | server/src/controllers/attemptController.ts:123-129 | completion records the score, the percentage and the time, and keeps ids and start time |
| AttemptController.SecondCompletionRefused | server/src/controllers/attemptController.ts:73-75 | once an attempt is completed, completing it again is refused with 400 |
| AttemptController.AnswerStep | server/src/controllers/attemptController.ts:88-116 | one loop iteration appends a result and a row exactly when the answer's question is in the quiz |
| AttemptController.CorrectCountSnoc | server/src/controllers/attemptController.ts:93 | the count of correct answers grows by one exactly for a correct result |
| AttemptController.RecordAnswers | server/src/controllers/attemptController.ts:84-116 | the loop returns the judged results and their correct count, and appends exactly the matching answer rows |
| AttemptController.CompleteAttempt | server/src/controllers/attemptController.ts:59-176 | a refused completion changes nothing; an accepted one appends the answer rows, stores the completed attempt and returns score, percentage, results and feedback |
| AttemptController.ResultFor | server/src/controllers/attemptController.ts:159-168 | the returned result: the judged answers, score equal to the correct count, correct plus incorrect equal to the number of questions, a percentage consistent with the score, the feedback of that percentage and the attempt completed at `now` |
| UserController.NewUser | server/src/controllers/userController.ts:18-20 | a new user has the given name, the quiz-taker role and token version 0 |
| UserController.CreateUser | server/src/controllers/userController.ts:7-29 | a taken username is refused with 400 and nothing changes; otherwise exactly the new user is added to the table and the index |
| UserController.CreatedUserIsTheOnlyOne | server/src/controllers/userController.ts:14-20 | after a create there is one more user and only the new one carries that username |
| UserController.LoginUser | server/src/controllers/userController.ts:50-68 | login fails with 404 exactly when no user has the name; otherwise it returns a stored user with that name |
| UserController.LoginAfterCreate | server/src/controllers/userController.ts:50-68 | logging in right after creating a user returns that very user |
| UserController.CompletedBy | server/src/controllers/userController.ts:81-96 | the query keeps exactly the user's completed attempts |
| UserController.CompletedByStaysNewestFirst | server/src/controllers/userController.ts:93-95 | the filter keeps the newest-first order of the table |
| UserController.NewestFirst | server/src/controllers/userController.ts:93-95 | `orderBy: { completedAt: 'desc' }`: every completion time is at least every later one |
| UserController.MaxPct | server/src/controllers/userController.ts:103-105 | the best score is at least every attempt's percentage and is one of them |
| UserController.SumPct | server/src/controllers/userController.ts:100-102 | the `reduce` sum of the percentages (averageScore is it divided by totalAttempts) |
| UserController.SumPctAtMost | server/src/controllers/userController.ts:100-105 | the sum is at most the number of attempts times any bound on the percentages, so with the best score as bound the average never exceeds the best |
| UserController.QuizIdsOf | server/src/controllers/userController.ts:99 | the quiz id of every attempt, in order, whose distinct values count the quizzes taken |
| UserController.CategoryIds | server/src/controllers/userController.ts:108-121 | the map's keys: each category of an attempt exactly once |
| UserController.CountIn | server/src/controllers/userController.ts:119 | a category's attempt count is positive exactly when some attempt is in it |
| UserController.FirstCategoryIn | server/src/controllers/userController.ts:111-117 | the category stored for an id is one with that id |
| UserController.Performance | server/src/controllers/userController.ts:123-127 | one performance entry per category |
| UserController.PerformanceEntries | server/src/controllers/userController.ts:123-127 | entry k belongs to the k-th category in first-appearance order, has a positive count, and its average is the category's total score over its count |
| UserController.CountsCoverAll | server/src/controllers/userController.ts:108-121 | the categories' attempt counts add up to the number of attempts |
| UserController.CategoryCountsSumToTotal | server/src/controllers/userController.ts:98-127 | the `attempts` fields of the category performance add up to `totalAttempts` |
| UserController.GroupingSnocAt | server/src/controllers/userController.ts:109-121 | one more attempt bumps only its own category's entry, creating it with count 1 if new |
| UserController.TracksStep | server/src/controllers/userController.ts:109-121 | one loop iteration keeps the map and its insertion order equal to the grouping of the attempts seen so far |
| UserController.TracksGivesPerformance | server/src/controllers/userController.ts:123-127 | reading the map out in insertion order gives the specified performance list |
| UserController.CountAttempt | server/src/controllers/userController.ts:110-120 | one iteration's effect on the map and its key order |
| UserController.FillCategoryMap | server/src/controllers/userController.ts:108-121 | after the loop the map and its key order group all attempts by category |
| UserController.GroupByCategory | server/src/controllers/userController.ts:108-127 | the category performance list is the specified grouping of the attempts |
| UserController.GetUserStats | server/src/controllers/userController.ts:70-144 | 404 for an unknown user; otherwise totals, distinct quizzes, average, best score, the first ten attempts and the per-category performance of the user's completed attempts |
| UserController.RecentAttemptsAreNewest | server/src/controllers/userController.ts:134 | the recent attempts are the ten newest (or all): none left out is newer than one kept |
| UserController.NoAttemptsGivesZeros | server/src/controllers/userController.ts:98-105 | a user without completed attempts gets empty lists |
| AiController.Run | server/src/controllers/aiController.ts:34-39 | a name with at least one attempt has a positive count |
| AiController.PctsOf | server/src/controllers/aiController.ts:33 | a name's percentages are empty exactly when no attempt carries that category name |
| AiController.NamesAreTheCategoryNames | server/src/controllers/aiController.ts:33-42 | the keys are exactly the category names of the attempts |
| AiController.SumsStep | server/src/controllers/aiController.ts:32-40 | one `forEach` iteration keeps both maps equal to the running sums and counts of the attempts seen, per name |
| AiController.AccumulateSums | server/src/controllers/aiController.ts:32-40 | the maps the first pass builds over any attempts hold, per name, exactly the running sum and count of that name's percentages |
| AiController.SumsCountsPositive | server/src/controllers/aiController.ts:34-39 | every count reached is positive, so the second pass never divides by zero |
| AiController.AddAttempt | server/src/controllers/aiController.ts:33-39 | one iteration's effect on the score and count maps |
| AiController.SumByName | server/src/controllers/aiController.ts:32-40 | after the first pass both maps hold, per name, the running sum and count of its attempts, with positive counts |
| AiController.AverageByName | server/src/controllers/aiController.ts:42-44 | the second pass replaces each sum by sum / count, over the same keys |
| AiController.RecommendationMetrics | server/src/controllers/aiController.ts:10-44 | the overall average of the completed attempts, and per category name the running mean of its percentages |
| AiController.LeadingZeros | server/src/controllers/aiController.ts:34-37 | the count of 0% attempts before the first non-zero one |
| AiController.SumOfNonNegative | server/src/controllers/aiController.ts:25-27 | a sum of percentages is non-negative and is zero exactly when all are zero |
| AiController.RunDropsLeadingZeros | server/src/controllers/aiController.ts:34-39 | the running sum is the true sum, but the count omits the leading 0% attempts (and is 1 if all are zero) |
| AiController.ZeroThenHundredAveragesHundred | server/src/controllers/aiController.ts:34-44 | a 0% attempt followed by a 100% one in the same category averages 100, not 50 |
| AiController.GroupedByNameNotId | server/src/controllers/aiController.ts:33 | two categories with the same name but different ids are merged into one entry |
| QuestionController.OptionIds | server/src/controllers/questionController.ts:77 | the ids of the options, in order |
| QuestionController.OptionIdsMembership | server/src/controllers/questionController.ts:77-78 | an answer is among the option ids exactly when some option has that id |
| QuestionController.CreateQuestionCheck | server/src/controllers/questionController.ts:67-80 | create is refused with 404 for an unknown quiz, then 400 when the answer is not an option id, and allowed exactly otherwise |
| QuestionController.StoredOrder | server/src/controllers/questionController.ts:92 | a missing or zero order is stored as 0, any other order as given |
| QuestionController.NewQuestion | server/src/controllers/questionController.ts:85-94 | the created question holds the body's fields under the new id |
| QuestionController.CreatedQuestionIsWellFormed | server/src/controllers/questionController.ts:76-80 | a created question's correct answer is the id of one of its options |
| QuestionController.CreatedQuestionShape | server/src/routes/questionRoutes.ts:39-48 | a body the route accepts yields at least two options and a non-negative order |
| QuestionController.CreateRouteAccepts | server/src/routes/questionRoutes.ts:39-48 | the create route's validators: non-blank question, at least two options each with a non-blank id and text, non-blank answer and explanation, an order that is absent or non-negative |
| QuestionController.CreateQuestion | server/src/controllers/questionController.ts:64-113 | a refused create stores nothing; an accepted one stores exactly the new question |
| QuestionController.GetQuestion | server/src/controllers/questionController.ts:34-62 | 404 for an unknown id, otherwise the stored question |
| QuestionController.AnswersWithout | server/src/controllers/questionController.ts:194-196 | the answer rows kept are exactly those of other questions |
| QuestionController.DeleteQuestion | server/src/controllers/questionController.ts:181-204 | 404 and no change for an unknown id; otherwise the question and its answer rows are removed |
| QuestionController.DeleteRemovesExactlyOne | server/src/controllers/questionController.ts:194-196 | a delete removes the one question and leaves every other question unchanged |
| QuestionController.UpdateQuestionCheck | server/src/controllers/questionController.ts:119-145 | update is refused with 404 for an unknown question or a truthy unknown quiz id, and 400 when new options and a truthy answer disagree |
| QuestionController.Merge | server/src/controllers/questionController.ts:150-160 | truthy quiz id, text and answer replace the old ones; options, explanation and order replace them whenever present |
| QuestionController.EmptyUpdateIsIdentity | server/src/controllers/questionController.ts:150-160 | an update with no fields leaves the question as it was |
| QuestionController.MergeIdempotent | server/src/controllers/questionController.ts:150-160 | applying the same update twice gives what applying it once gives |
| QuestionController.MergeLaterWins | server/src/controllers/questionController.ts:150-160 | an update that sets every field overrides whatever update came before |
| QuestionController.CheckedUpdateIsWellFormed | server/src/controllers/questionController.ts:139-145 | an accepted update with new options and a new answer leaves the answer among the option ids |
| QuestionController.UntouchedAnswerStaysWellFormed | server/src/controllers/questionController.ts:150-160 | an update that sends neither options nor an answer keeps a well-formed question well-formed |
| QuestionController.OptionsAloneAreNotRechecked | server/src/controllers/questionController.ts:140-145 | an update with new options but no answer is accepted even when it leaves the stored answer naming no option |
| QuestionController.UpdateQuestion | server/src/controllers/questionController.ts:115-179 | a refused update changes nothing; an accepted one stores the merged question |
| QuizController.GetQuizzes | server/src/controllers/quizController.ts:7-29 | all quizzes without a truthy category id; with one, the order-preserving InCategory filter, whose members are exactly that category's quizzes |
| QuizController.GetQuiz | server/src/controllers/quizController.ts:31-51 | 404 for an unknown id, otherwise the stored quiz |
| QuizController.QuestionsOf | server/src/controllers/quizController.ts:64-67 | exactly the quiz's question rows |
| QuizController.QuestionsOfConcat | server/src/controllers/quizController.ts:64-67 | selecting from a concatenation is concatenating the selections, so the rows keep the store's order |
| QuizController.QuestionsOfSingle | server/src/controllers/quizController.ts:64-67 | a single row is selected exactly when it belongs to the quiz |
| QuizController.Sanitize | server/src/controllers/quizController.ts:70-78 | the question sent to takers has empty answer and explanation and every other field unchanged |
| QuizController.GetQuizQuestions | server/src/controllers/quizController.ts:53-86 | 404 for an unknown quiz; otherwise one sanitised question per stored question, in order, with no correct answer and no explanation |
| QuizController.QuestionsOfAlike | server/src/controllers/quizController.ts:64-67 | rows that differ only in answers and explanations select alike questions |
| QuizController.ResponseIgnoresAnswers | server/src/controllers/quizController.ts:69-78 | the response does not depend on the stored answers or explanations, so it cannot reveal them |
| QuizController.OptionExplanationsAreSent | server/src/controllers/quizController.ts:74 | the options are sent unchanged, so each option's own explanation reaches the taker |
| Auth.JwtSecret | server/src/middleware/auth.ts:8 | the configured secret when truthy, otherwise the empty string |
| Auth.GenerateToken | server/src/middleware/auth.ts:33-41 | an empty secret throws the configuration error; otherwise the token signs user id and token version for seven days |
| Auth.JwtVerify | server/src/middleware/auth.ts:48-67 | a token yields its payload exactly when it was signed with this key and has not expired |
| Auth.VerifyToken | server/src/middleware/auth.ts:48-67 | an empty secret is the configuration error; otherwise verification failures give null |
| Auth.VerifyGenerated | server/src/middleware/auth.ts:33-67 | a generated token verifies with its secret, and yields its claims, until it expires |
| Auth.GeneratedTokenLimits | server/src/middleware/auth.ts:9 | after seven days, or under another secret, a generated token verifies to null |
| Auth.AuthDecision | server/src/middleware/auth.ts:74-112 | no token is refused with 401; the request is admitted exactly when the token verifies, the user exists and the token versions agree; any other failure is refused with 401 too, and both refusals carry the undefined message of a key `ERROR_MESSAGES` lacks |
| Auth.RefusalsLookAlike | server/src/middleware/auth.ts:78-110 | through the error handler, every refusal of the middleware is the same response as a missing token: 401 with no error text |
| Auth.MissingToken | server/src/middleware/auth.ts:76-80 | `!token`: no cookie, or an empty one |
| Auth.Request.constructor | server/src/middleware/auth.ts:76-77 | a fresh request carries its cookie and no user id or role |
| Auth.AuthMiddleware | server/src/middleware/auth.ts:74-112 | admitted requests get their user id attached and continue; refused ones pass the error on untouched |
| Auth.FreshTokenAdmits | server/src/middleware/auth.ts:96-102 | a token generated for a user at their current version admits them until it expires |
| Auth.VersionBumpRevokes | server/src/middleware/auth.ts:96-99 | raising the user's token version makes every earlier token invalid |
| Auth.ShippedSecretRefusesAll | server/src/config/env.ts:7-13 | with the secret in force as shipped (empty), generating fails and every request that reaches `authMiddleware` is refused with 401 |
| Auth.SetAuthCookieOptions | server/src/middleware/auth.ts:119-129 | http-only, path `/api`, seven days; secure and strict same-site exactly in production |
| Auth.ClearAuthCookieOptions | server/src/middleware/auth.ts:135-145 | the same flags as setting, without a lifetime |
| Auth.ClearMatchesSet | server/src/middleware/auth.ts:135-145 | the clearing options equal the setting options minus the lifetime, so the browser matches the cookie |
| Authorization.RequireRole | server/src/middleware/authorization.ts:21-44 | no role is 401; a role outside the list is 403; the request continues exactly when the role is on the list; both refusals carry the undefined message |
| Authorization.InstancesAdmit | server/src/middleware/authorization.ts:55-76 | the manager check admits only managers, the taker check only takers, the authenticated check any role |
| Authorization.RequireQuizManager | server/src/middleware/authorization.ts:55 | proceeds exactly for a quiz manager; a quiz taker gets 403 |
| Authorization.RequireQuizTaker | server/src/middleware/authorization.ts:65 | proceeds exactly for a quiz taker; a quiz manager gets 403 |
| Authorization.RequireAuthenticated | server/src/middleware/authorization.ts:76 | proceeds exactly when a role is set; otherwise 401 |
| Authorization.UnauthenticatedBeforeForbidden | server/src/middleware/authorization.ts:25-32 | a missing role is 401 even for an empty list; an unlisted role is 403 |
| Authorization.RefusalsCarryNoText | server/src/middleware/authorization.ts:25-32 | every refusal of a role check reaches the client as `success: false` with no error text |
| Authorization.GuardedRoute | server/src/routes/questionRoutes.ts:35-38 | `authMiddleware` then a role check: the middleware never sets the role, so a request without one is always refused with 401 |
| HttpsEnforcement.NodeEnv | server/src/config/env.ts:7 | `NODE_ENV` when truthy, otherwise "development" |
| HttpsEnforcement.EnforceHttps | server/src/middleware/httpsEnforcement.ts:10-26 | development passes; a secure or forwarded-https request passes; anything else is a 301 to the https URL of the same host and path |
| HttpsEnforcement.RedirectKeepsHostAndPath | server/src/middleware/httpsEnforcement.ts:19-23 | the redirect location is `https://`, then the host, then the original URL |
| HttpsEnforcement.RedirectedOnlyWhenInsecure | server/src/middleware/httpsEnforcement.ts:12-25 | a request is redirected exactly when outside development and neither secure nor forwarded as https; a redirected request passes next time |
| HttpsEnforcement.ValidateSecurityConfig | server/src/middleware/httpsEnforcement.ts:32-54 | the production report appears exactly in production, with the weak-secret warning exactly when the secret is missing or shorter than 32 |
| HttpsEnforcement.ShippedConfigAlwaysWarns | server/src/middleware/httpsEnforcement.ts:37-41 | the environment object has no secret field, so production always warns |
| RateLimiter.PoliciesAsConfigured | server/src/middleware/rateLimiter.ts:10-55 | both login limiters allow 5 requests per 15 minutes and count successful ones; the legacy export is the address limiter |
| RateLimiter.UsernameKey | server/src/middleware/rateLimiter.ts:36-45 | `username:` plus a truthy username, else the client address when truthy, else "unknown" |
| RateLimiter.UsernameKeysSeparate | server/src/middleware/rateLimiter.ts:44 | two usernames share a counter exactly when they are equal |
| RateLimiter.UsernameKeyIgnoresAddress | server/src/middleware/rateLimiter.ts:38-44 | a username's counter does not depend on the client address |
| RateLimiter.Step | server/src/middleware/rateLimiter.ts:11-12 | a hit with no window, or after the window ended, opens a new window with one hit; otherwise it adds one hit |
| RateLimiter.CountsWithinWindow | server/src/middleware/rateLimiter.ts:11-12 | hits inside the window the first one opened are all counted in it |
| RateLimiter.Decide | server/src/middleware/rateLimiter.ts:12-16 | a request passes exactly while the window's hits are at most the maximum, otherwise it gets the throttled body |
| RateLimiter.ThrottledBodyIsBare | server/src/middleware/rateLimiter.ts:13-16 | the throttled body is `success: false` with no error text, the same body an authentication refusal gets |
| RateLimiter.SixthInWindowRejected | server/src/middleware/rateLimiter.ts:10-20 | inside one fifteen-minute window the first five logins pass and every later one is refused |
| RateLimiter.WindowEndResets | server/src/middleware/rateLimiter.ts:11 | once the window has ended, the next login passes |
| RateLimiter.FixedWindowLimiter.constructor | server/src/middleware/rateLimiter.ts:10 | a new limiter has its policy and no windows |
| RateLimiter.FixedWindowLimiter.Hit | server/src/middleware/rateLimiter.ts:10-20 | one request updates only its key's window, by one step, and is decided on the new count |
| RateLimiter.FixedWindowLimiter.Settle | server/src/middleware/rateLimiter.ts:19 | a successful request is taken back only when successful requests are skipped; with the shipped policy nothing changes |
| ResultsPage.ScoreColor | client/src/pages/ResultsPage.tsx:57-62 | the score's text colour for each band of the percentage, at 90, 75 and 60 |
| ResultsPage.ScoreBadge | client/src/pages/ResultsPage.tsx:64-69 | the score's badge for each band of the percentage |
| ResultsPage.ColorAndBadgeFollowTier | client/src/pages/ResultsPage.tsx:57-69 | colour and badge are those of the server's feedback tier at the same percentage |
| ResultsPage.TierBadgeInjective | client/src/pages/ResultsPage.tsx:64-69 | each tier has its own badge |
| DashboardPage.ScoreBadge | client/src/pages/DashboardPage.tsx:57-62 | the badge for each band of the percentage |
| DashboardPage.SameBadgeAsResults | client/src/pages/DashboardPage.tsx:57-62 | the dashboard's badge is always the results page's badge and that of the feedback tier |
| QuizList.DifficultyColor | client/src/components/QuizList.tsx:32-45 | beginner is success, intermediate warning, advanced danger, and exactly every other value is default |
| QuizList.DifficultyNeverInfo | client/src/components/QuizList.tsx:32-45 | no difficulty is shown as info, and the match is case-sensitive |
| QuizList.FindCategory | client/src/components/QuizList.tsx:48 | no category is found exactly when none has the id |
| QuizList.FindCategoryIsFirst | client/src/components/QuizList.tsx:48 | the category found is the first one with the id |
| QuizList.CategoryName | client/src/components/QuizList.tsx:47-50 | the found category's icon, a space and its name, or "Unknown Category" |
| QuizList.FilteredQuizzes | client/src/components/QuizList.tsx:74-76 | all quizzes without a truthy filter, otherwise those in the category, in order |
| QuizList.FilterKeepsOrder | client/src/components/QuizList.tsx:74-76 | filtering preserves order across concatenation |
| QuizList.FilterIdempotent | client/src/components/QuizList.tsx:74-76 | filtering twice gives the same list as filtering once |
| CategoryPage.DifficultyColor | client/src/pages/CategoryPage.tsx:53-66 | the difficulty badge, default exactly for values outside the three levels |
| CategoryPage.SameAsQuizList | client/src/pages/CategoryPage.tsx:53-66 | the category page shows the same difficulty badge as the quiz list |
| QuestionEditor.DifficultyColor | client/src/components/QuestionEditor.tsx:66-79 | the difficulty badge, default exactly for values outside the three levels |
| QuestionEditor.SameAsQuizList | client/src/components/QuestionEditor.tsx:66-79 | the question editor shows the same difficulty badge as the quiz list |
| QuestionForm.OptionIdFor | client/src/components/QuestionForm.tsx:41 | `String.fromCharCode(97 + n)`: one character, the n-th lower-case letter for n below 26 |
| QuestionForm.OptionIdsDistinct | client/src/components/QuestionForm.tsx:41 | different positions below 26 get different ids |
| QuestionForm.AddedOptions | client/src/components/QuestionForm.tsx:40-43 | adding keeps the options and appends a blank one whose id is the letter of the new position |
| QuestionForm.WithField | client/src/components/QuestionForm.tsx:58-62 | `{ ...option, [field]: value }`: the named field takes the value and the other two are unchanged |
| QuestionForm.RemovedOptions | client/src/components/QuestionForm.tsx:50 | removing drops exactly the option at the index and keeps the others in order |
| QuestionForm.AddAfterRemoveRepeatsId | client/src/components/QuestionForm.tsx:40-56 | ids come from the position, so removing the first of three and adding one leaves two options with id "c" |
| QuestionForm.ValidateForm | client/src/components/QuestionForm.tsx:69-82 | the form is valid exactly with a non-blank question, non-blank option texts and a chosen answer; otherwise the first of those that fails is reported |
| QuestionForm.BuildPayload | client/src/components/QuestionForm.tsx:87-110 | the quiz id only when creating; question and option texts trimmed; a blank explanation left out |
| QuestionForm.TrimmedOption | client/src/components/QuestionForm.tsx:91-95 | an option as sent: the same id, a text no longer than before, an explanation exactly when there was one |
| QuestionForm.TrimmedOptionIdempotent | client/src/components/QuestionForm.tsx:91-95 | trimming an option that was already sent changes nothing |
| QuestionForm.SentPayloadHasNoBlanks | client/src/components/QuestionForm.tsx:69-110 | a payload sent after validation has a non-empty question, answer and option texts |
| QuestionForm.QuestionFormState.constructor | client/src/components/QuestionForm.tsx:14-28 | the fields of the question being edited, or a blank form with two options; difficulty falls back to beginner |
| QuestionForm.QuestionFormState.AddOption | client/src/components/QuestionForm.tsx:40-43 | the options become the added options |
| QuestionForm.QuestionFormState.RemoveOption | client/src/components/QuestionForm.tsx:45-56 | with two options or fewer only the error is set; otherwise the option is removed and a correct answer naming it is cleared; two options always remain |
| QuestionForm.QuestionFormState.UpdateOption | client/src/components/QuestionForm.tsx:58-62 | only the one field of the one option changes |
| QuestionForm.QuestionFormState.HandleSubmit | client/src/components/QuestionForm.tsx:64-134 | an invalid form sets the error and sends nothing; a valid one sends the payload, then a failure shows the server's message and a created question resets the form |
| QuizForm.ValidateForm | client/src/components/QuizForm.tsx:39-47 | valid exactly with a non-blank title and, when creating, a category; the title is checked first |
| QuizForm.BuildPayload | client/src/components/QuizForm.tsx:52-63 | trimmed title, a blank description left out, and the category id only when creating |
| QuizForm.UpdateKeepsCategory | client/src/components/QuizForm.tsx:52-63 | an update never sends the category, whatever the chosen one is |
| QuizForm.QuizFormState.constructor | client/src/components/QuizForm.tsx:15-20 | each field is the quiz's when truthy, else its fallback; the category falls back to the default category, then empty |
| QuizForm.QuizFormState.SyncFromQuiz | client/src/components/QuizForm.tsx:25-32 | with a quiz, the fields are replaced by the quiz's; without one nothing changes |
| QuizForm.QuizFormState.HandleSubmit | client/src/components/QuizForm.tsx:34-82 | an invalid form sets the error; a valid one sends the payload; a failure shows the server's message; a created quiz resets title, description and difficulty but keeps the category |
| CategoryForm.ValidateForm | client/src/components/CategoryForm.tsx:33-36 | valid exactly when the name is not blank |
| CategoryForm.TrimmedOrAbsent | client/src/components/CategoryForm.tsx:43-44 | an optional field is left out exactly when blank, otherwise sent trimmed |
| CategoryForm.BuildPayload | client/src/components/CategoryForm.tsx:41-45 | the trimmed name, and description and icon trimmed or left out |
| CategoryForm.PayloadIgnoresPadding | client/src/components/CategoryForm.tsx:41-45 | white space around the name does not change the payload |
| CategoryForm.CategoryFormState.constructor | client/src/components/CategoryForm.tsx:13-15 | the fields of the category being edited, or empty ones |
| CategoryForm.CategoryFormState.HandleSubmit | client/src/components/CategoryForm.tsx:28-64 | a blank name sets the error and sends nothing; otherwise the payload is sent, a failure shows the server's message and a created category resets the form |
| QuizPage.QuestionIds | client/src/pages/QuizPage.tsx:51 | the question ids, in order |
| QuizPage.SetOrder | client/src/pages/QuizPage.tsx:49-53 | a `Map`'s key order: a new key goes last, a re-answered one keeps its place |
| QuizPage.Entries | client/src/pages/QuizPage.tsx:75-80 | one submitted answer per key, in key order, with its stored answer |
| QuizPage.EntriesMatchAnswers | client/src/pages/QuizPage.tsx:75-80 | the submission holds every answer once and nothing else |
| QuizPage.CountMeansAllAnswered | client/src/pages/QuizPage.tsx:113 | counting answers equals the number of questions exactly when every question is answered |
| QuizPage.QuizSession.constructor | client/src/pages/QuizPage.tsx:16-19 | the quiz starts at the first question with no answers |
| QuizPage.QuizSession.SelectAnswer | client/src/pages/QuizPage.tsx:49-53 | records the answer for the current question only, replacing an earlier one; afterwards Next is enabled exactly when the answer is non-empty |
| QuizPage.QuizSession.NextEnabled | client/src/pages/QuizPage.tsx:181 | `disabled={!selectedAnswer}`: Next is enabled when the question shown has a truthy answer |
| QuizPage.QuizSession.Next | client/src/pages/QuizPage.tsx:55-59 | moves forward one question unless on the last one |
| QuizPage.QuizSession.Previous | client/src/pages/QuizPage.tsx:61-65 | moves back one question unless on the first one |
| QuizPage.QuizSession.Submit | client/src/pages/QuizPage.tsx:67-85 | nothing is sent until every question is answered; then exactly one answer per question, in the order questions were first answered |

## Left out

- The database is an in-memory model. The generated Prisma client is not part of this model:
  queries, transactions and the cascade from a question to its answer rows (stated in the source's
  comment) are written as map and sequence operations.
- A `map` has no order, so the `orderBy` clauses are not computed. The model takes the rows in the
  order the query returns them.
- Option lists are stored as JSON strings. The model keeps them as values, so `JSON.stringify` and
  `JSON.parse` are the identity.
- Password hashing (`server/src/services/passwordService.ts`) is not part of this model.
- The language-model calls of `aiController.ts` are not modelled. These are the recommendation
  text, `generateRecommendation` and `enhanceExplanation`. Only the metrics passed to the
  recommendation call are.
- `getQuestions`, `getUser` and `server/src/controllers/categoryController.ts` are not part of
  this model.
- The `include` of a quiz's category in `getQuiz` and `getQuizzes` is not modelled.
- express-validator is modelled only where a handler relies on it: `CreateRouteAccepts` states the
  create route's demands. Its sanitising of the request body is not modelled.
- express-rate-limit is modelled as a fixed-window counter per key. That library, its response
  headers, its memory store and concurrent requests are not part of this model. The 429 status is
  the library default and `req.ip` is its default key.
- Signing and verifying session tokens is modelled by a token value, not by cryptography. Cookie
  parsing is not modelled.
- The 500 branch of `requireRole` catches an exception that the role comparison cannot throw, so
  it is not modelled.
- An `x-forwarded-proto` header sent more than once (an array) is treated like any value other
  than "https".
- Percentages are exact reals, not IEEE doubles. Completing an open attempt whose quiz has no
  questions would divide by zero and give NaN. For that reason:
  - AttemptController.CompleteAttempt: requires that an attempt that exists and is still open
    belongs to a quiz with at least one question. An unknown attempt and an already completed one
    are refused with 404 or 400 whatever their quiz holds, as in the source.
- Category names that are properties of `Object.prototype` are not modelled. `categoryScores` in
  `aiController.ts` is a plain object, so a name such as "constructor" finds an inherited truthy
  value and "__proto__" never becomes a key. The model keeps the scores in a map with no inherited
  keys.
- String lengths are counted in Dafny characters, not in UTF-16 code units.
- QuestionForm.OptionIdFor: for positions at or past 26 only the length of the id is stated.
  Beyond 65535 the code wraps modulo 2^16, and a lone surrogate code becomes U+FFFD.
- Schema defaults are written into the model's constructors, because the schema itself is not
  part of this model. These are the user's role quiz taker and token version 0, and a new
  attempt's score 0 and percentage 0.
- Loading flags, timers and navigation are not modelled. This includes clearing the success flag
  after three seconds, alerts and redirects.
- The question form's effect re-applies the values the constructor already set. It is not
  modelled separately.
- QuestionForm.QuestionFormState.RemoveOption: requires an index on the list, because the form
  only offers those.
- QuestionForm.QuestionFormState.UpdateOption: requires an index on the list, for the same reason.
