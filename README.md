# Quiz wallet and participation model

This project models a quiz platform where players pay entry fees from an in-app wallet. It covers:

- the Express routes that list, join and submit quizzes;
- the routes that deposit money and read a user's ledger;
- the admin routes that create, update and delete quizzes and report revenue;
- the Mongoose schemas for quizzes and transactions;
- the front-end logic that drives a timed play session, the quiz card, the admin quiz editor and the admin ledger view.

The backend state is a `World`. It holds:

- a map of users;
- the quizzes, in creation order;
- the transaction ledger, in append order.

Each route that writes is a module-level method that takes the database, an instance of the class `Store.Db`, and updates its collections in place. Its postcondition ties the new state and the response to a specification function such as `QuizRoutes.JoinSpec`. The read-only routes (`QuizRoutes.GetQuiz`, `QuizRoutes.Select`, `UserRoutes.GetProfile`, `UserRoutes.TransactionHistory`, `AdminRoutes.GetStats`, `AdminRoutes.AllQuizzes`, `AdminRoutes.AllTransactions`) are functions of the state. The lemmas state the routes' promises about those functions:

- which guard answers first;
- that a refusal changes nothing;
- the exact debit, admission and ledger record of a join;
- the one-shot grading of a submission;
- the deposit credit;
- the invariant `Store.Consistent`. It says: distinct quiz ids, schema-valid quizzes, seats within capacity, no user admitted twice, and every balance equal to the last `balanceAfter` of that user's ledger history.

React pages are modelled too:

- The play page's state is a class, `QuizPage.PlaySession`. Its handlers are methods.
- The admin editor is `QuizForm.Editor`. Its edits are specified by functions on the question list.
- The quiz card and the ledger view are pure functions.

Two rules one might expect do not hold in the code, and the model follows the code:

- `progress` is `Math.round` of the percentage, not the raw ratio.
- The "at most `maxParticipants` seats" rule is kept by the join route only. The admin routes can break it. Create stores a preset counter above the limit, because the schema puts no bound on `currentParticipants` (`AdminRoutes.CreateCanExceedCapacity`). Update can lower the limit below the counter (`AdminRoutes.UpdateCanExceedCapacity`).

## Model

| member | source | states |
|---|---|---|
| TransactionModel.ParseTypeName | backend/models/Transaction.js:9-13 | the stored type is one of the five spellings, and each type reads back as itself |
| TransactionModel.ParseStatusName | backend/models/Transaction.js:26-30 | the status is one of pending, completed or failed, and each reads back as itself |
| TransactionModel.Validate | backend/models/Transaction.js:4-34 | a draft is accepted iff user, a known type, amount, a non-empty description and balanceAfter are present and any given status is known; the record copies the fields, with the signed amount unrestricted and status defaulting to completed |
| TransactionModel.ValidateDraftOf | backend/models/Transaction.js:4-34 | every stored record with a description is accepted back unchanged |
| TransactionModel.DefaultStatusIsCompleted | backend/models/Transaction.js:26-30 | a record saved without a status is completed, and an unknown type is refused |
| QuizModel.ParseCategoryName | backend/models/Quiz.js:35-39 | the category is one of Quiz, Games, Trending or New, and each reads back as itself |
| QuizModel.ParseDifficultyName | backend/models/Quiz.js:18-22 | the difficulty is easy, medium or hard, and each reads back as itself |
| QuizModel.Progress | backend/models/Quiz.js:116-118 | the percentage is current/max×100 rounded to the nearest integer, halves up |
| QuizModel.ProgressBounds | backend/models/Quiz.js:116-118 | the progress lies in 0..100 whenever 0 ≤ current ≤ max |
| QuizModel.FullShowsHundred | backend/models/Quiz.js:116-123 | a full quiz within capacity shows 100 |
| QuizModel.FullMeansAtCapacity | backend/models/Quiz.js:121-123 | within capacity, `isFull` holds exactly at the seat limit, and otherwise at least one seat is left |
| QuizModel.EndedStaysEnded | backend/models/Quiz.js:126-128 | an ended quiz stays ended, and a quiz has not ended at its own end date |
| QuizModel.HundredIsNotFull | backend/models/Quiz.js:116-123 | 199 of 200 seats also shows 100, so 100 does not mean full |
| QuizModel.Trim | backend/models/Quiz.js:26-30 | the trimmed title has no leading or trailing whitespace and is a slice of the input |
| QuizModel.TrimTrimmed | backend/models/Quiz.js:26-30 | trimming a trimmed title changes nothing |
| QuizModel.InstantiateQuestion | backend/models/Quiz.js:3-23 | a stored question has text, non-empty options, correctAnswer in 0..3, and difficulty medium when none was given |
| QuizModel.InstantiateQuestions | backend/models/Quiz.js:59 | the question list is accepted iff every question is, element by element |
| QuizModel.Instantiate | backend/models/Quiz.js:25-113 | a created quiz meets every bound and enum, with defaults currentParticipants 0, timeLimit 15, isActive true and image "", and no attempts |
| QuizModel.InstantiateInputOf | backend/models/Quiz.js:25-113 | every well-formed quiz without attempts is accepted back unchanged from its full body |
| QuizModel.Patch | backend/routes/admin.js:63-67 | a validated patch keeps the quiz well-formed, keeps its id and attempts, and an empty patch is the identity |
| QuizModel.PatchStoresSuppliedFields | backend/routes/admin.js:63-67 | each field the body supplies replaces the stored one (title trimmed, category and questions as validated) and each field it omits keeps its stored value |
| QuizModel.PatchIdempotent | backend/routes/admin.js:63-67 | sending the same update twice stores the same quiz as sending it once |
| QuizModel.ParticipantIndex | backend/routes/quiz.js:111 | the first position holding the user, or -1 exactly when the user holds none |
| Store.Status | backend/routes/quiz.js:51-71 | 404 only for a missing quiz, 500 only for a thrown error, 400 for every other refusal |
| Store.MessagesDistinct | backend/routes/quiz.js:51-119 | the refusal messages are pairwise distinct |
| Store.FindQuiz | backend/routes/quiz.js:48 | the lookup finds a quiz with that id, or reports none exists |
| Store.FindQuizUnique | backend/routes/quiz.js:48 | with distinct ids the lookup returns the only position carrying the id |
| Store.HistoryAppend | backend/routes/user.js:65-68 | appending a record extends exactly its owner's history |
| Store.Reconcile | backend/models/Transaction.js:14-34 | in a chained history the last balanceAfter is the opening balance plus the sum of amounts |
| Store.RecordPreservesAgreement | backend/routes/quiz.js:74-91 | a balance change logged with a matching record keeps every balance equal to its ledger |
| Store.BalanceReconciles | backend/routes/user.js:43-54 | a user's balance is the opening balance plus all their recorded amounts |
| Store.Db.constructor | backend/models/Quiz.js:133 | the database holds the given users, quizzes and ledger; the write routes update these three collections in place |
| QuizRoutes.BuildFilter | backend/routes/quiz.js:11-16 | the query asks for active quizzes ending after now, and a category only when one is given that is not "All" |
| QuizRoutes.Select | backend/routes/quiz.js:18-20 | the listing holds exactly the matching quizzes, newest first: position i holds the i-th newest match |
| QuizRoutes.SelectWithoutCategory | backend/routes/quiz.js:12 | without a category the listing is exactly the active, unexpired quizzes |
| QuizRoutes.ListedQuizzesAreOpen | backend/routes/quiz.js:12 | no listed quiz has ended |
| QuizRoutes.EndMomentJoinableButUnlisted | backend/routes/quiz.js:12 | at the instant of its end date a quiz has not ended yet but the listing already leaves it out |
| QuizRoutes.GetQuiz | backend/routes/quiz.js:29-43 | 404 exactly when no quiz has the id, else that quiz |
| QuizRoutes.EntryRecord | backend/routes/quiz.js:83-91 | the entry record is the user's quiz_entry of -entryFee for that quiz, completed, with the given balanceAfter |
| QuizRoutes.JoinSpec | backend/routes/quiz.js:46-97 | the join as one transition of the whole state: a refusal changes nothing |
| QuizRoutes.Join | backend/routes/quiz.js:46-97 | the handler leaves the database and answers exactly as JoinSpec of the old state; its three writes happen as one step |
| QuizRoutes.JoinGuardOrder | backend/routes/quiz.js:51-71 | missing quiz, ended, full, missing user, insufficient balance, already joined: each refusal iff its guard fails and all earlier ones pass, and success iff none fails |
| QuizRoutes.JoinDebitsFee | backend/routes/quiz.js:74-75 | a join lowers the player's balance by exactly entryFee and changes no other user or field |
| QuizRoutes.JoinAdmitsOnce | backend/routes/quiz.js:78-80 | a join appends one participant and adds one to the counter, leaving every other quiz and field unchanged |
| QuizRoutes.JoinRecordsEntry | backend/routes/quiz.js:83-91 | a join appends exactly one quiz_entry record of -entryFee whose balanceAfter is the new balance |
| QuizRoutes.AdmitPreservesAdmissible | backend/routes/quiz.js:59-79 | the full and duplicate guards keep the counter within capacity and participants distinct |
| QuizRoutes.JoinPreservesConsistent | backend/routes/quiz.js:46-97 | a join, accepted or refused, keeps the whole state consistent |
| QuizRoutes.JoinTwiceFails | backend/routes/quiz.js:67-71 | after a successful join the same player's second join is refused |
| QuizRoutes.JoinScenario | backend/routes/quiz.js:46-97 | a 10-coin one-seat quiz: a player with 10 gets in and keeps 0, and the next player is told it is full |
| QuizRoutes.CountCorrect | backend/routes/quiz.js:122-132 | the score never exceeds the number of answers |
| QuizRoutes.Grades | backend/routes/quiz.js:123-132 | one record (i, answers[i], whether it matches) per answer |
| QuizRoutes.ScoreIsMatchCount | backend/routes/quiz.js:122-132 | the score is the number of indices whose answer equals the correct one |
| QuizRoutes.PerfectScore | backend/routes/quiz.js:122-132 | full marks iff every answer is correct |
| QuizRoutes.Grade | backend/routes/quiz.js:122-132 | the scoring loop computes exactly that count and those records |
| QuizRoutes.SubmitSpec | backend/routes/quiz.js:100-151 | a refused submission changes nothing, and no submission touches the ledger |
| QuizRoutes.Submit | backend/routes/quiz.js:100-151 | the handler leaves the database and answers exactly as SubmitSpec of the old state |
| QuizRoutes.SubmitRefusals | backend/routes/quiz.js:110-119 | a non-participant and a finished attempt are refused without change, and only an open attempt is graded |
| QuizRoutes.SubmitScores | backend/routes/quiz.js:122-147 | success stores the score, the graded answers and completedAt, adds one game and leaves balances, other users and the ledger unchanged |
| QuizRoutes.SubmitOnce | backend/routes/quiz.js:116-119 | a graded attempt cannot be submitted again |
| QuizRoutes.SubmitPreservesConsistent | backend/routes/quiz.js:100-151 | submission keeps the state consistent |
| QuizRoutes.ScoringScenario | backend/routes/quiz.js:122-132 | three correct answers score 3, one correct scores 1 |
| UserRoutes.GetProfile | backend/routes/user.js:8-15 | the caller's own record when it exists, nothing otherwise |
| UserRoutes.ProfileShowsLedgerBalance | backend/routes/user.js:8-15 | the profile's balance is the snapshot of the caller's newest ledger record |
| UserRoutes.DepositShowsInProfile | backend/routes/user.js:43-56 | after an accepted deposit the profile shows the old balance plus the amount, with name and avatar unchanged |
| UserRoutes.ProfileSpec | backend/routes/user.js:18-31 | the profile update never touches quizzes or the ledger, and a refusal changes nothing |
| UserRoutes.UpdateProfile | backend/routes/user.js:18-31 | the handler leaves the database and answers exactly as ProfileSpec of the old state |
| UserRoutes.ProfileChangesOnlyNameAvatar | backend/routes/user.js:20-24 | name changes only for a truthy name, avatar only for a truthy avatar, and nothing else changes |
| UserRoutes.ProfilePreservesConsistent | backend/routes/user.js:18-31 | a profile update keeps the state consistent |
| UserRoutes.DepositRecord | backend/routes/user.js:47-53 | the deposit record is a completed deposit of the amount, with no quiz and the new balance |
| UserRoutes.DepositSpec | backend/routes/user.js:34-60 | a refused deposit changes nothing, and no deposit touches quizzes |
| UserRoutes.Deposit | backend/routes/user.js:34-60 | the handler leaves the database and answers exactly as DepositSpec of the old state; its two writes happen as one step |
| UserRoutes.DepositRejectsNonPositive | backend/routes/user.js:39-41 | an amount ≤ 0 is refused with "Invalid amount" (400) before anything else |
| UserRoutes.DepositCredits | backend/routes/user.js:43-56 | a positive deposit raises the balance by the amount, appends one matching record and returns the new balance |
| UserRoutes.DepositPreservesConsistent | backend/routes/user.js:34-60 | a deposit keeps the state consistent |
| UserRoutes.TransactionHistory | backend/routes/user.js:63-74 | only the caller's records, newest first, at most 50 |
| UserRoutes.HistoryHeadIsBalance | backend/routes/user.js:65-68 | the newest record in the history carries the caller's current balance |
| AdminRoutes.Revenue | backend/routes/admin.js:14-23 | revenue is never negative, and 0 when there is no quiz_entry record |
| AdminRoutes.RevenueAppend | backend/routes/admin.js:14-17 | revenue grows by the absolute amount of an appended quiz_entry record and by nothing otherwise |
| AdminRoutes.GetStats | backend/routes/admin.js:9-28 | user and quiz counts, the active count not above the quiz count, and a non-negative revenue |
| AdminRoutes.ActiveCountIsListing | backend/routes/admin.js:13 | the active count is the size of the public listing without a category |
| AdminRoutes.JoinAddsFeeToRevenue | backend/routes/admin.js:14-17 | each accepted join adds its entry fee to the revenue |
| AdminRoutes.DepositKeepsRevenue | backend/routes/admin.js:14-17 | deposits never change the revenue |
| AdminRoutes.CreateSpec | backend/routes/admin.js:44-58 | creation appends the validated quiz with the acting admin as creator, or refuses with 500 and changes nothing |
| AdminRoutes.CreateQuiz | backend/routes/admin.js:44-58 | the handler leaves the database and answers exactly as CreateSpec of the old state |
| AdminRoutes.CreateOverridesCreator | backend/routes/admin.js:46-49 | a creator in the body makes no difference |
| AdminRoutes.CreatePreservesConsistent | backend/routes/admin.js:44-58 | creating under a fresh id without a preset counter keeps the state consistent |
| AdminRoutes.CreateCanExceedCapacity | backend/routes/admin.js:46-49 | a valid body whose counter is preset above the seat limit is accepted, and the stored quiz breaks the capacity rule |
| AdminRoutes.UpdateSpec | backend/routes/admin.js:61-77 | an update keeps users, ledger and quiz count, and a refusal changes nothing; an accepted one answers with the patched quiz and stores it at the id's position |
| AdminRoutes.UpdateThenGet | backend/routes/admin.js:63-76 | after an accepted update, reading the quiz by id gives the quiz the update answered with |
| AdminRoutes.UpdateQuiz | backend/routes/admin.js:61-77 | the handler leaves the database and answers exactly as UpdateSpec of the old state |
| AdminRoutes.UpdateMissing | backend/routes/admin.js:69-71 | a valid update of a missing id is a 404 that changes nothing |
| AdminRoutes.UpdateKeepsSchemaAndLedger | backend/routes/admin.js:63-67 | updates keep ids distinct, quizzes valid, balances reconciled and other quizzes untouched |
| AdminRoutes.UpdateCanExceedCapacity | backend/routes/admin.js:63-67 | lowering maxParticipants below the counter is accepted, breaking the capacity rule |
| AdminRoutes.DeleteSpec | backend/routes/admin.js:80-92 | a missing id is a 404 that changes nothing, and delete never touches users or the ledger |
| AdminRoutes.DeleteQuiz | backend/routes/admin.js:80-92 | the handler leaves the database and answers exactly as DeleteSpec of the old state |
| AdminRoutes.DeleteRemovesExactly | backend/routes/admin.js:82-88 | 404 iff no quiz has the id, otherwise exactly the quizzes with other ids remain, in order |
| AdminRoutes.DeletePreservesConsistent | backend/routes/admin.js:80-92 | deletion keeps the state consistent |
| AdminRoutes.AllQuizzes | backend/routes/admin.js:31-41 | every quiz, newest first |
| AdminRoutes.AllTransactions | backend/routes/admin.js:108-120 | the newest records first, at most 100 |
| QuizPage.JsRem60 | client/src/pages/QuizPage.tsx:141 | JavaScript's remainder: the Euclidean one for non-negative counts, sign of the dividend otherwise |
| QuizPage.FormatTime | client/src/pages/QuizPage.tsx:139-143 | the clock is the floored minutes, a colon and two more characters |
| QuizPage.FormatTimeRoundTrip | client/src/pages/QuizPage.tsx:139-143 | reading the clock gives back the seconds left |
| QuizPage.FormatTimeInjective | client/src/pages/QuizPage.tsx:139-143 | different second counts never show the same clock |
| QuizPage.FormatTimeExamples | client/src/pages/QuizPage.tsx:139-143 | 125 shows "2:05", 60 "1:00", 9 "0:09" |
| QuizPage.JoinEnabled | client/src/pages/QuizPage.tsx:347 | the join button is enabled only while idle with a balance covering the fee (a missing balance counts as 0) |
| QuizPage.ShownBalanceAfterJoin | client/src/pages/QuizPage.tsx:84-86 | after a join the shown balance is the old one minus the fee |
| QuizPage.JoinButtonAgreesWithServer | client/src/pages/QuizPage.tsx:347 | the button is disabled exactly when the server would answer "Insufficient balance" |
| QuizPage.ShownBalanceMatchesServer | client/src/pages/QuizPage.tsx:84-86 | the balance the page shows after a join is the one the server stored |
| QuizPage.FreshAnswers | client/src/pages/QuizPage.tsx:98 | one -1 per question |
| QuizPage.NextNeedsAnAnswer | client/src/pages/QuizPage.tsx:98-105 | a fresh attempt cannot advance until an option is chosen |
| QuizPage.PlaySession.constructor | client/src/pages/QuizPage.tsx:36-45 | the page starts not joined, not playing, at question 0 with no answers |
| QuizPage.PlaySession.JoinSettled | client/src/pages/QuizPage.tsx:76-92 | an accepted join marks the player joined and lowers the shown balance by the fee |
| QuizPage.PlaySession.StartQuiz | client/src/pages/QuizPage.tsx:94-99 | playing starts with timeLimit×60 seconds and one -1 per question, and the question index is kept |
| QuizPage.PlaySession.SelectAnswer | client/src/pages/QuizPage.tsx:101-105 | only the current question's slot changes, the length stays, and the next button becomes enabled iff the choice is not -1 |
| QuizPage.PlaySession.NextQuestion | client/src/pages/QuizPage.tsx:107-113 | callable only while the next button is enabled (the current question is answered, line 264); advances by one while a later question exists, else submits at the last, and the index stays in range |
| QuizPage.PlaySession.Tick | client/src/pages/QuizPage.tsx:53-63 | while playing, one second off when time remains and a submit at exactly 0, nothing otherwise |
| QuizPage.PlaySession.SubmitSettled | client/src/pages/QuizPage.tsx:115-137 | an accepted submission stores the score, ends play and adds a game |
| QuizForm.WithBlankQuestion | admin-client/src/components/QuizForm.tsx:94-107 | one blank question is appended and earlier questions are unchanged |
| QuizForm.SetField | admin-client/src/components/QuizForm.tsx:111 | only the named field changes |
| QuizForm.WithField | admin-client/src/components/QuizForm.tsx:109-113 | only question index changes, and only in that field |
| QuizForm.WithOption | admin-client/src/components/QuizForm.tsx:115-119 | only option oi of question qi changes |
| QuizForm.WithoutQuestion | admin-client/src/components/QuizForm.tsx:121-124 | exactly the given index is dropped and the rest keep their order, and an out-of-range index changes nothing |
| QuizForm.RemoveUndoesAdd | admin-client/src/components/QuizForm.tsx:94-124 | removing the just-added question restores the list |
| QuizForm.OptionEditReverts | admin-client/src/components/QuizForm.tsx:115-119 | writing back the old option text restores the list |
| QuizForm.FieldEditsOverwrite | admin-client/src/components/QuizForm.tsx:109-113 | the last write to a field wins |
| QuizForm.Body | admin-client/src/components/QuizForm.tsx:77-81 | the sent body copies every form field, carries question i as the body of the form's question i, uses the converted dates, and sends no creator or counter |
| QuizForm.BlankQuestionRejected | admin-client/src/components/QuizForm.tsx:99-104 | a just-added question is refused by the schema until its text is written |
| QuizForm.FilledQuestionAccepted | admin-client/src/components/QuizForm.tsx:99-104 | once filled in, an added question is stored with answer 0 and the schema's default difficulty |
| QuizForm.InitialFormCreates | admin-client/src/components/QuizForm.tsx:33-46 | the initial form with a title and a description creates category Quiz, fee 0, prize 0, 100 seats, 15 minutes, active, no questions |
| QuizForm.InitialFormNeedsTitle | admin-client/src/components/QuizForm.tsx:33-46 | the untouched initial form is refused |
| QuizForm.Editor.constructor | admin-client/src/components/QuizForm.tsx:33-46 | a new editor holds the initial form |
| QuizForm.Editor.AddQuestion | admin-client/src/components/QuizForm.tsx:94-107 | the form gains the blank question, nothing else changes |
| QuizForm.Editor.UpdateQuestion | admin-client/src/components/QuizForm.tsx:109-113 | the form changes in that field of that question only |
| QuizForm.Editor.UpdateOption | admin-client/src/components/QuizForm.tsx:115-119 | the form changes in that option only |
| QuizForm.Editor.RemoveQuestion | admin-client/src/components/QuizForm.tsx:121-124 | the index filter leaves the form without exactly that question |
| QuizCard.CeilDiv | client/src/components/QuizCard.tsx:44 | the rounded-up quotient |
| QuizCard.TimeLeft | client/src/components/QuizCard.tsx:40-54 | a day count is shown only above 1, and it is the time left rounded up to whole days |
| QuizCard.TimeLeftCases | client/src/components/QuizCard.tsx:43-53 | more than a day shows the day count rounded up, up to a day "1 day left", a past end "Ending soon", and hours never |
| QuizCard.TwoHoursShowsOneDay | client/src/components/QuizCard.tsx:43-53 | two hours before the end the card reads "1 day left" |
| QuizCard.TimeLeftByWholeDaysCases | client/src/components/QuizCard.tsx:43-53 | the corrected label shows whole days from two days on, "1 day left" on the second-to-last day, 1..24 hours within the last day, and "Ending soon" after the end |
| QuizCard.LabelsAgreeFromTwoDays | client/src/components/QuizCard.tsx:43-47 | both labels agree on whole numbers of days from two days on |
| QuizCard.ListedQuizNotEndingSoon | client/src/components/QuizCard.tsx:52 | a quiz the listing offers never reads "Ending soon" |
| QuizCard.ProgressWidth | client/src/components/QuizCard.tsx:84 | the server's progress is used when present and non-zero, otherwise the width times the seat limit is 100 times the counter |
| QuizCard.ProgressWidthNearExact | client/src/components/QuizCard.tsx:84 | with the server's progress the bar is within half a percent of the exact share |
| QuizCard.PlayNow | client/src/components/QuizCard.tsx:32-38 | a signed-in player navigates, anyone else gets the join prompt if one is given, else nothing happens |
| QuizCard.PlayNowPathNamesQuiz | client/src/components/QuizCard.tsx:34 | the path opened is /quiz/ followed by this quiz's id |
| TransactionManager.FilterTransactions | admin-client/src/components/TransactionManager.tsx:50-53 | a record is shown iff the filter is "all" or names its type |
| TransactionManager.FilterAllIsIdentity | admin-client/src/components/TransactionManager.tsx:51 | "all" shows the list unchanged |
| TransactionManager.FilterKeepsOrder | admin-client/src/components/TransactionManager.tsx:50-53 | filtering keeps the original order |
| TransactionManager.UnknownFilterShowsNothing | admin-client/src/components/TransactionManager.tsx:52 | a filter naming no type shows nothing |
| TransactionManager.EntryViewCarriesRevenue | admin-client/src/components/TransactionManager.tsx:50-53 | the quiz_entry view holds all of the dashboard's revenue |
| TransactionManager.TypeLabel | admin-client/src/components/TransactionManager.tsx:72-87 | an unknown type is shown unchanged |
| TransactionManager.TypeLabelsDistinct | admin-client/src/components/TransactionManager.tsx:72-87 | the five known types get distinct labels, none of them a stored spelling |
| TransactionManager.AmountDisplay | admin-client/src/components/TransactionManager.tsx:171-172 | green with "+₹" exactly when the amount is ≥ 0, else red with "₹" |
| TransactionManager.AmountDisplayRoundTrip | admin-client/src/components/TransactionManager.tsx:171-172 | colour and text together give back the amount |
| TransactionManager.DebitTextDropsSign | admin-client/src/components/TransactionManager.tsx:171-172 | a debit's text is the matching credit's text without the "+", so only the colour tells them apart |

## Left out

- Persistence and framework calls are not modelled: Mongoose queries, `populate`, Express routing and response plumbing. The state is in-memory sequences and a map, and quiz ids are natural numbers.
- Each handler runs as one atomic step. The join and deposit handlers make two or three separate writes, and races between concurrent requests are not modelled.
- Authentication and the `auth`/`adminAuth` middleware are not modelled. The User model is not part of this model: a user is reduced to name, avatar, balance and gamesPlayed.
- `new Date()` becomes an integer `now` parameter. Date parsing, ISO string slicing and the form's date conversion are not modelled. The dates in `QuizForm.Body` are parameters.
- Ordering by `createdAt` is modelled as reverse insertion order. Ties between equal timestamps are not modelled.
- Amounts, fees and answers are integers. Non-numeric or fractional JSON values, and JavaScript's coercions on them, are not modelled.
- The admin user listing (backend/routes/admin.js:95-105) is not modelled, because the User model is not part of this model.
- Prize settlement, winners and withdrawals are not modelled. The source never writes them.
- The `participants` and `winners` fields of a create or update body are not modelled. A created quiz starts without attempts.
- QuizModel.Trim: the whitespace set is ASCII whitespace plus U+00A0 and U+FEFF, not every Unicode space separator.
- QuizModel.Progress rounds the exact ratio. Floating-point error in `current / max * 100` at exact halves is not modelled.
- QuizCard.ProgressWidth computes the exact share as a real, not a double. It requires maxParticipants ≥ 1, so the Infinity/NaN width for a zero maximum is not modelled. The schema forbids a zero maximum.
- The play page's score percentage and the question progress bar are floating-point display only (client/src/pages/QuizPage.tsx:194, 229), so they are not modelled.
- The play page's quiz fetch, error screens, navigation and rendering are not modelled. API outcomes arrive as arguments of `JoinSettled` and `SubmitSettled`, and the timer's scheduling is one `Tick` per effect run.
- QuizPage.PlaySession.SelectAnswer requires the current question to exist, because option buttons are rendered only for it. JavaScript's array growth on an out-of-range write is not modelled.
- QuizPage.PlaySession.NextQuestion requires the current question to be answered. Its only caller is the next button (client/src/pages/QuizPage.tsx:264), which is disabled otherwise, so a call from an unanswered question is not modelled.
- QuizForm.Editor.UpdateQuestion and QuizForm.Editor.UpdateOption require in-range indices, as the question cards pass them.
- QuizForm.Editor.UpdateOption is modelled on values. The source writes the option into the options array in place through a shallow copy, so the previous form state sees the change too. That aliasing is not modelled.
- The form's submit handler, which POSTs or PUTs and closes the dialog, is not modelled, nor is loading an existing quiz into the form. For a new quiz, the body it sends is `QuizForm.Body`. When editing, the form starts from the stored quiz, so the update body also carries its counter, attempts and creator; that path is not modelled.
- `getTransactionTypeColor` (admin-client/src/components/TransactionManager.tsx:55-70) only picks CSS classes, so it is not modelled.
- GET /api/user/profile sends `null` for a missing user. `UserRoutes.GetProfile` returns `None` for that case.

## Findings

| source | as written | input that shows it | evidently intended | confidence | as-written member | corrected member |
|---|---|---|---|---|---|---|
| client/src/components/QuizCard.tsx:44-53 | days are rounded up, so any time left up to one day gives `diffDays` 1. The hours branch is reached only when the end has passed, where the hour count is ≤ 0. | 7 200 000 ms (two hours) before the end the card shows "1 day left" | "N hours left" within the last day | not executed; high | QuizCard.TimeLeftCases | QuizCard.TimeLeftByWholeDaysCases |
