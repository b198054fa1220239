# Cognitive-literacy platform: assessment and progression, in Dafny

This project models the assessment and progression rules of a citizen "cognitive literacy" training
platform written as a React single-page application. A citizen first takes a placement exam, which sets a
level of 1 to 3. The level then unlocks content in the library. Exams on that content are scored
automatically when every question is multiple-choice. Otherwise a teacher grades them by hand. The level rises by one when at least
two graded attempts on content of the current level count and their mean score is above 80. Three
attempts scoring 90, 90 and 0 therefore do not raise it.

The model covers:

- the scoring loop of the exam page and its `m:ss` countdown text;
- the attempt recording, placement and level-up rules of the application shell;
- the placement gate and what the main area shows;
- the library's available, recommended, other and locked lists;
- the teacher panel's grading queue, average, chart, grading and authoring;
- sign-in and sign-up against the stored accounts;
- the citizen dashboard's progress figures;
- the placement wizard;
- the profile page;
- the role-based side menu;
- the data types and fixtures.

Module by module:

- `Types`, `Constants`: the entities (users, content, questions, exams, attempts, alerts) and the demo
  users, the placement exam and the mock content and exams.
- `ExamPage`:
  - the scoring loop `HandleFinish` is a method with a loop, proved against the specification
    function `FinalScore`;
  - `ExamSession` is the question-by-question navigation.
- `App`: the level-up rule, the level after a finished exam and the placement gate. `AppState` holds
  the application's state and its handlers.
- `ContentLibrary`: the level-based partition of the library, the type filter, and the exam lookup
  behind "start exam".
- `TeacherPanel`:
  - the grading queue, the average and the chart;
  - `GradeAttempt` (the `submitGrade` rewrite);
  - the `TeacherPanel` class with the content and exam authoring forms.
- `AuthPage`: the submit handler as a function `Submit` over the stored accounts, and the page as a class.
- `CitizenDashboard`, `PlacementTest`, `ProfilePage`, `Sidebar`: the remaining pages and the side menu.
- `Seqs`, `Wrappers`: `filter`, `find`, `slice` and `reverse` over sequences, and `Option`.

Scores are exact `real`s. The source's floating-point division is not modelled (see "## Left out"). The answers map is a
`map<string, AnswerValue>` whose values are an option index or a written text. Strict `===` is modelled
as equality of these values. Random ids and `new Date()` timestamps become parameters of the operations
that use them.

Some source behaviour is kept as written:

- Teacher grading does not level up the student. After grading, the application recomputes the level
  of the user who is logged in, which is the teacher (`App.tsx:125-132`).
- A retaken placement sets the level again and can lower it (`App.PlacementResetsLevel`).
- `others` in the library excludes items by id. Full coverage of the available items is therefore
  proved only for distinct ids.
- A multiple-choice question without a `correctOption`, left unanswered, counts as correct. This is
  because `undefined === undefined`.

## Model

| member | source | states |
|---|---|---|
| Types.TotalScoreBounds | App.tsx:45 | bounding every score between lo and hi bounds the `reduce` total between lo·n and hi·n |
| Types.TotalScoreAtMost | App.tsx:45 | if no score exceeds hi, the total is at most hi·n |
| Constants.DemoUsers | constants.tsx:4-29 | the demo citizen is at level 0, the teacher at 5, the admin at 10 |
| Constants.PlacementExamShape | constants.tsx:31-51 | the placement exam has id 'placement' and content 'none'; its first question is a well-formed multiple-choice question with 4 options and its second is open |
| Constants.MockContentsWellFormed | constants.tsx:53-78 | every mock item has minLevel ≤ maxLevel, and the ids are distinct |
| Constants.MockExamsWellFormed | constants.tsx:80-97 | the mock exam refers to existing content, and its question's key is within its options |
| ExamPage.AnsweredCorrectly | pages/ExamPage.tsx:34 | function, no contract of its own: strict equality of the recorded answer with `correctOption`; its behaviour is stated by MissingAnswerNeverCorrect and UnsetKeyMatchesMissingAnswer |
| ExamPage.FinalScore | pages/ExamPage.tsx:40 | function, no contract of its own: the score `handleFinish` reports; HandleFinish is proved equal to it, and ScoreUndefinedIffDescriptive, McqOnlyScore, EmptyExamScoresFull and ScoreInRange state its meaning |
| ExamPage.FormatTime | pages/ExamPage.tsx:45-49 | function, no contract of its own: the `m:ss` text; FormatTimeShape and FormatTimeRoundTrip carry its contract |
| ExamPage.McqCount | pages/ExamPage.tsx:31-38 | the multiple-choice count never exceeds the number of questions |
| ExamPage.McqCorrect | pages/ExamPage.tsx:31-38 | the correct count never exceeds the multiple-choice count |
| ExamPage.HandleFinish | pages/ExamPage.tsx:25-42 | the loop's counters yield exactly `FinalScore`, and the completion carries the exam id and the unchanged answers |
| ExamPage.HasDescriptiveIff | pages/ExamPage.tsx:31-38 | the loop's flag is set exactly when some question is not multiple-choice |
| ExamPage.McqOnlyCount | pages/ExamPage.tsx:31-38 | without open questions every question is counted as multiple-choice |
| ExamPage.ScoreUndefinedIffDescriptive | pages/ExamPage.tsx:40 | the score is undefined exactly when some question is not multiple-choice |
| ExamPage.McqOnlyScore | pages/ExamPage.tsx:31-40 | for n > 0 questions, all multiple-choice, the score is (correct / n)·100: the count of multiple-choice questions is n itself |
| ExamPage.EmptyExamScoresFull | pages/ExamPage.tsx:40 | an exam without questions scores 100 |
| ExamPage.ScoreInRange | pages/ExamPage.tsx:27-40 | any defined score lies in [0, 100] |
| ExamPage.MissingAnswerNeverCorrect | pages/ExamPage.tsx:34 | a missing answer never matches a question that has a key |
| ExamPage.BlankSheetScoresNothing | pages/ExamPage.tsx:34 | with no answers and a key on every question, nothing is counted correct |
| ExamPage.UnsetKeyMatchesMissingAnswer | pages/ExamPage.tsx:34 | an unanswered question without a key counts as correct (strict equality of two undefined values) |
| ExamPage.PlacementExamNeedsTeacher | pages/ExamPage.tsx:40 | scored by this page, the placement exam would get no score, because it holds an open question |
| ExamPage.NatToString | pages/ExamPage.tsx:48 | a number prints as a non-empty string of digits |
| ExamPage.NatToStringValue | pages/ExamPage.tsx:48 | the digits read back as the number |
| ExamPage.FormatTimeShape | pages/ExamPage.tsx:45-49 | the text is the minutes, a colon, and two digits of seconds: a leading '0' exactly when the seconds are below 10 |
| ExamPage.FormatTimeRoundTrip | pages/ExamPage.tsx:45-49 | parsing `m:ss` back gives the seconds: m·60 + s = seconds |
| ExamPage.ExamSession.constructor | pages/ExamPage.tsx:12-13 | the session starts at question 0 with no answers |
| ExamPage.ExamSession.ChooseOption | pages/ExamPage.tsx:77 | choosing an option records its index under the current question and changes no other answer |
| ExamPage.ExamSession.WriteAnswer | pages/ExamPage.tsx:94 | typing records the text under the current question and changes no other answer |
| ExamPage.ExamSession.Previous | pages/ExamPage.tsx:110-111 | Previous needs a step above 0 and moves back one step |
| ExamPage.ExamSession.Next | pages/ExamPage.tsx:116-118 | Next needs a non-empty answer; it moves on, or on the last question finishes with the `FinalScore` completion and stays; the step stays in range |
| ExamPage.ExamSession.Expire | pages/ExamPage.tsx:16-19 | when the countdown runs out, the exam finishes with the answers given so far |
| App.CalculateNewLevel | App.tsx:34-49 | function, no contract of its own: `calculateNewLevel`; CountingAttempts, NewLevelIsSameOrNext, LevelUpIff, LevelUpNeedsAHighScore and OnlyOwnAttemptsCount carry its contract |
| App.PlacementLevel | App.tsx:66-68 | function, no contract of its own: the placement thresholds; PlacementLevelRange and PlacementThresholds carry its contract |
| App.LevelAfterExam | App.tsx:64-78 | function, no contract of its own: the level after a finished exam; RegularExamNeverLowersLevel and PlacementResetsLevel carry its contract |
| App.Blocked | App.tsx:91 | function, no contract of its own: `isBlocked`, a citizen at level 0; PlacementGate states what it gates |
| App.RenderViewAsWritten | App.tsx:93-137 | function, no contract of its own: `renderContent` as written; ProfileTabFallsThrough and PlacementGate state its behaviour, and RenderView is proved to agree with it on every tab but profile |
| App.CountingAttempts | App.tsx:35-42 | an attempt counts exactly when it is the user's, graded, not placement, and both `find`s succeed with the content's minLevel equal to the level |
| App.NewLevelIsSameOrNext | App.tsx:44-48 | `calculateNewLevel` returns the level or the level plus one |
| App.LevelUpIff | App.tsx:44-46 | the level rises exactly when at least two attempts count and their total exceeds 80 times their number |
| App.LevelUpNeedsAHighScore | App.tsx:44-46 | a level-up implies some counting attempt scored above 80 |
| App.OnlyOwnAttemptsCount | App.tsx:35 | other users' attempts never change a user's level |
| App.PlacementLevelRange | App.tsx:65-70 | placement gives a level in 1..3, monotone in the score |
| App.PlacementThresholds | App.tsx:65-70 | the thresholds are strict (85 gives 2, 50 gives 1), and the placement page's fixed 75 gives 2 |
| App.RegularExamNeverLowersLevel | App.tsx:72-78 | after a regular exam the level stays or rises by one; an undefined score changes nothing |
| App.PlacementResetsLevel | App.tsx:65-70 | a scored placement sets the level to `PlacementLevel(score)` whatever it was |
| App.ProfileTabFallsThrough | App.tsx:117-137 | as written, the profile tab of a placed user falls through to the placeholder |
| App.RenderView | App.tsx:93-137 | the main area with the profile page routed; every other tab renders as written |
| App.PlacementGate | App.tsx:99 | outside an exam, a blocked user sees only the placement test or the notice; an unblocked user never sees the notice |
| App.AppState.constructor | App.tsx:15-20 | the initial state is the demo citizen on the dashboard, with the mock content, the placement and mock exams, and no attempts |
| App.AppState.HandleCompleteExam | App.tsx:51-82 | exactly one attempt is appended, graded iff a score exists; the level becomes `LevelAfterExam`; a scored placement returns to the dashboard; the exam is closed |
| App.AppState.CompletePlacement | App.tsx:121 | completing the placement wizard records score 75 and sets level 2, which unblocks the user; the dashboard tab opens, the content and exam lists are unchanged, and no exam stays selected |
| App.AppState.OnTeacherUpdateAttempts | App.tsx:125-132 | the attempts are replaced; the logged-in user's level only rises, by at most one |
| App.AppState.HandleRoleSwitch | App.tsx:84-89 | switching role loads that role's demo user and goes to the dashboard, leaving the lists alone |
| App.AppState.SetActiveTab | components/Sidebar.tsx:36 | a menu click sets the active tab |
| App.AppState.StartExam | App.tsx:123 | starting an exam selects it |
| App.AppState.CancelExam | App.tsx:96 | cancelling closes the exam without recording an attempt |
| ContentLibrary.Available | pages/ContentLibrary.tsx:17 | function, no contract of its own: items with minLevel ≤ level; AvailableLockedPartition carries its contract |
| ContentLibrary.Locked | pages/ContentLibrary.tsx:20 | function, no contract of its own: items with minLevel > level; AvailableLockedPartition carries its contract |
| ContentLibrary.Recommended | pages/ContentLibrary.tsx:18 | function, no contract of its own: RecommendedIsShortPrefix carries its contract |
| ContentLibrary.Others | pages/ContentLibrary.tsx:19 | function, no contract of its own: RecommendedOthersDisjoint and RecommendedOthersCover carry its contract |
| ContentLibrary.FilterItems | pages/ContentLibrary.tsx:22-23 | function, no contract of its own: FilterItemsSpec carries its contract |
| ContentLibrary.ExamFor | pages/ContentLibrary.tsx:109-111 | function, no contract of its own: ExamForSpec carries its contract |
| ContentLibrary.AvailableLockedPartition | pages/ContentLibrary.tsx:17-20 | each item is in exactly one of available and locked; together they form the same multiset; both keep the original order under concatenation |
| ContentLibrary.MaxLevelIgnored | pages/ContentLibrary.tsx:17-20 | rewriting every maxLevel changes neither list beyond that field |
| ContentLibrary.RecommendedIsShortPrefix | pages/ContentLibrary.tsx:18 | recommended is the first min(2, n) available items whose minLevel equals the level |
| ContentLibrary.RecommendedOthersDisjoint | pages/ContentLibrary.tsx:19 | no item is both recommended and in others |
| ContentLibrary.RecommendedOthersCover | pages/ContentLibrary.tsx:17-19 | with distinct ids, the available items are exactly recommended plus others |
| ContentLibrary.FilterItemsSpec | pages/ContentLibrary.tsx:22-23 | 'ALL' is the identity; a type keeps exactly the items of that type |
| ContentLibrary.FilterItemsKeepsOrder | pages/ContentLibrary.tsx:22-23 | the filter never reorders: the filtered concatenation is the concatenation of the filtered parts, and a single item is kept exactly when it matches |
| ContentLibrary.ExamForSpec | pages/ContentLibrary.tsx:109-111 | the start button uses the first exam made for the selected item, and is shown exactly when one exists |
| ContentLibrary.MockLibraryAtLevelOne | pages/ContentLibrary.tsx:17-20 | with the mock content, level 1 recommends c1 and locks c2 |
| TeacherPanel.AvgScore | pages/TeacherPanel.tsx:49-51 | function, no contract of its own: `avgScore`; AvgScoreInRange carries its contract |
| TeacherPanel.ChartData | pages/TeacherPanel.tsx:53-56 | function, no contract of its own: `chartData`; ChartDataSpec carries its contract |
| TeacherPanel.GradeAttempt | pages/TeacherPanel.tsx:103-107 | function, no contract of its own: the `submitGrade` rewrite; GradeAttemptSpec, GradeAttemptLastWins and GradingLeavesQueue carry its contract |
| TeacherPanel.NewContent | pages/TeacherPanel.tsx:58-70 | function, no contract of its own: the item `handleCreateContent` appends; TeacherPanel.HandleCreateContent states its author and maxLevel |
| TeacherPanel.ExamTitle | pages/TeacherPanel.tsx:90 | function, no contract of its own: the exam's title (the item's title after the word for "exam", or "undefined" when the item is missing); TeacherPanel.HandleCreateExam uses it |
| TeacherPanel.PendingGradedPartition | pages/TeacherPanel.tsx:45-48 | the queue and the graded list split the attempts: each attempt is in exactly one, and the multisets add up |
| TeacherPanel.TeacherContents | pages/TeacherPanel.tsx:46 | an item is listed exactly when this teacher wrote it |
| TeacherPanel.AvgScoreInRange | pages/TeacherPanel.tsx:49-51 | when graded scores are percentages, so is the average; with nothing graded the average is 0 |
| TeacherPanel.ChartDataSpec | pages/TeacherPanel.tsx:53-56 | the chart holds the last min(10, n) graded attempts in order, numbered from 1 |
| TeacherPanel.GradeAttemptSpec | pages/TeacherPanel.tsx:103-107 | grading keeps the length; matching attempts get the score and the graded flag with every other field kept; other attempts are unchanged |
| TeacherPanel.GradeAttemptLastWins | pages/TeacherPanel.tsx:104 | grading again overrides the earlier grade; repeating a grade has no further effect |
| TeacherPanel.GradingLeavesQueue | pages/TeacherPanel.tsx:104 | after grading, the queue is the old queue without the attempts of that id, in order |
| TeacherPanel.DraftQuestionsWellFormed | pages/TeacherPanel.tsx:72-80 | a draft question (four options, key 0..3) is well formed |
| TeacherPanel.DeleteContentSpec | pages/TeacherPanel.tsx:202 | delete removes exactly the items with that id and keeps the others in order |
| TeacherPanel.TeacherPanel.constructor | pages/TeacherPanel.tsx:30-43 | both forms start closed and empty: draft type TEXT, minLevel 1, active; no questions, 15 minutes |
| TeacherPanel.TeacherPanel.SubmitGrade | pages/TeacherPanel.tsx:103-107 | the attempts become `GradeAttempt` of the old ones |
| TeacherPanel.TeacherPanel.OpenContentForm | pages/TeacherPanel.tsx:178 | the add button opens the content form |
| TeacherPanel.TeacherPanel.CancelContentForm | pages/TeacherPanel.tsx:242 | cancel closes the content form and changes nothing else |
| TeacherPanel.TeacherPanel.EditContentDraft | pages/TeacherPanel.tsx:217-238 | the form fields set the draft |
| TeacherPanel.TeacherPanel.HandleCreateContent | pages/TeacherPanel.tsx:58-70 | needs a non-empty title and description (the form's required inputs); one item is appended with this author, maxLevel 10 and 15 minutes; earlier items are unchanged; the form closes and resets |
| TeacherPanel.TeacherPanel.DeleteContent | pages/TeacherPanel.tsx:202 | the list loses exactly the items with that id |
| TeacherPanel.TeacherPanel.OpenExamForm | pages/TeacherPanel.tsx:197 | the exam form opens for that item |
| TeacherPanel.TeacherPanel.CancelExamForm | pages/TeacherPanel.tsx:321 | cancel closes the exam form |
| TeacherPanel.TeacherPanel.HandleAddQuestion | pages/TeacherPanel.tsx:72-81 | appends an empty multiple-choice question with four blank options and key 0, keeping every draft question well formed |
| TeacherPanel.TeacherPanel.SetQuestionType | pages/TeacherPanel.tsx:267-271 | sets only that question's type |
| TeacherPanel.TeacherPanel.SetQuestionText | pages/TeacherPanel.tsx:280-284 | sets only that question's text |
| TeacherPanel.TeacherPanel.SetCorrectOption | pages/TeacherPanel.tsx:293-297 | sets only that question's key, to one of its options |
| TeacherPanel.TeacherPanel.SetOptionText | pages/TeacherPanel.tsx:304-308 | sets only that option's text |
| TeacherPanel.TeacherPanel.HandleCreateExam | pages/TeacherPanel.tsx:83-95 | refused without a target item; otherwise appends the exam for that item with its title, whose questions are all well formed, then resets the form |
| AuthPage.Submit | pages/AuthPage.tsx:15-49 | function, no contract of its own: `handleSubmit` on the stored accounts; SignInSpec, DuplicateSignUpRefused, SignUpAppends, SubmitKeepsEmailsDistinct and SignUpThenSignIn carry its contract |
| AuthPage.NewAccount | pages/AuthPage.tsx:35-43 | a new account's user has level 0 for a citizen and 5 for any other role, an empty score history, xp 0, the given id, and the form's name, email and password, with the chosen role |
| AuthPage.SignInSpec | pages/AuthPage.tsx:22-28 | sign-in leaves the store unchanged; it succeeds iff some account has that email and password, returning the first such account; otherwise it shows the error |
| AuthPage.DuplicateSignUpRefused | pages/AuthPage.tsx:30-33 | signing up with a stored email fails with the error and stores nothing |
| AuthPage.SignUpAppends | pages/AuthPage.tsx:35-47 | a fresh email appends exactly one account and logs its user in |
| AuthPage.SubmitKeepsEmailsDistinct | pages/AuthPage.tsx:30-45 | submitting keeps stored emails pairwise distinct and only appends |
| AuthPage.SignUpThenSignIn | pages/AuthPage.tsx:23-47 | after signing up, the same email and password sign in as the new user |
| AuthPage.AuthPage.constructor | pages/AuthPage.tsx:10-13 | the page starts on sign-in, as a citizen, with an empty form and no error |
| AuthPage.AuthPage.SetMode | pages/AuthPage.tsx:65-72 | the tabs switch between sign-in and sign-up |
| AuthPage.AuthPage.SetRole | pages/AuthPage.tsx:128 | the role buttons set the role |
| AuthPage.AuthPage.EditForm | pages/AuthPage.tsx:87-112 | the inputs set the form |
| AuthPage.AuthPage.HandleSubmit | pages/AuthPage.tsx:15-49 | needs a non-empty email and password, and a name when signing up (the required inputs); the store, the logged-in user and the error become those of `Submit` |
| CitizenDashboard.ProgressPercent | pages/CitizenDashboard.tsx:18 | function, no contract of its own: ProgressSpec carries its contract |
| CitizenDashboard.RemainingExams | pages/CitizenDashboard.tsx:110 | function, no contract of its own: RemainingExamsSpec carries its contract |
| CitizenDashboard.Chart | pages/CitizenDashboard.tsx:20-23 | function, no contract of its own: ChartSpec carries its contract |
| CitizenDashboard.Recent | pages/CitizenDashboard.tsx:135 | function, no contract of its own: RecentSpec carries its contract |
| CitizenDashboard.UserAttempts | pages/CitizenDashboard.tsx:14 | exactly this user's graded attempts |
| CitizenDashboard.ProgressSpec | pages/CitizenDashboard.tsx:18 | the bar lies in [0, 100], is a third per counted exam, and is full exactly from three exams on |
| CitizenDashboard.RemainingExamsSpec | pages/CitizenDashboard.tsx:110 | the remaining count is max(0, 3 − count): never negative, and 0 exactly when the bar is full |
| CitizenDashboard.ProgressCountsAtLeastLevelRule | pages/CitizenDashboard.tsx:17 | the bar counts at least as many exams as the level-up rule does |
| CitizenDashboard.ChartSpec | pages/CitizenDashboard.tsx:20-23 | the chart shows the last min(7, n) graded attempts in order |
| CitizenDashboard.RecentSpec | pages/CitizenDashboard.tsx:135 | the recent list shows the last min(3, n) attempts, newest first |
| PlacementTest.DotAt | pages/PlacementTest.tsx:60-62 | a dot is current exactly at the step, and done exactly before it |
| PlacementTest.PlacementWizard.constructor | pages/PlacementTest.tsx:11-13 | the wizard starts unstarted at step 0 with no answers |
| PlacementTest.PlacementWizard.Start | pages/PlacementTest.tsx:46 | the start button starts the test |
| PlacementTest.PlacementWizard.ChooseOption | pages/PlacementTest.tsx:77 | choosing an option sets only the current question's answer |
| PlacementTest.PlacementWizard.WriteAnswer | pages/PlacementTest.tsx:98 | typing sets only the current question's answer |
| PlacementTest.PlacementWizard.Previous | pages/PlacementTest.tsx:105-106 | Previous needs a step above 0 and moves back one |
| PlacementTest.PlacementWizard.Next | pages/PlacementTest.tsx:17-22 | Next needs a non-empty answer; it moves on, or on the last step hands over answers that include the last question and stays |
| ProfilePage.RoleBadge | pages/ProfilePage.tsx:22-29 | function, no contract of its own: RoleBadgesDistinct carries its contract |
| ProfilePage.XpToNextLevel | pages/ProfilePage.tsx:142 | function, no contract of its own: XpCounters and NegativeXpOvershoots carry its contract |
| ProfilePage.XpBarWidth | pages/ProfilePage.tsx:144 | function, no contract of its own: XpCounters carries its contract |
| ProfilePage.ApplyEdits | pages/ProfilePage.tsx:16 | saving sets name and email and changes no other field |
| ProfilePage.ApplyEditsLastWins | pages/ProfilePage.tsx:16 | a later save overrides an earlier one; saving twice has no further effect |
| ProfilePage.RoleBadgesDistinct | pages/ProfilePage.tsx:22-29 | every role has a badge; different roles have different labels and colours |
| ProfilePage.JsRem | pages/ProfilePage.tsx:142 | JavaScript's `%` gives a remainder with the dividend's sign, smaller than the divisor in size |
| ProfilePage.XpCounters | pages/ProfilePage.tsx:142-144 | for xp ≥ 0, XP to next level is in 1..1000 and reaches a multiple of 1000; the bar is in [0, 100); bar·10 + figure = 1000 |
| ProfilePage.NegativeXpOvershoots | pages/ProfilePage.tsx:142 | a negative counter that is not a multiple of 1000 shows more than 1000 to go |
| ProfilePage.ProfilePage.constructor | pages/ProfilePage.tsx:11-13 | the form starts from the user's name and email, closed, with no message |
| ProfilePage.ProfilePage.ToggleEditing | pages/ProfilePage.tsx:64 | the edit button toggles the form |
| ProfilePage.ProfilePage.EditForm | pages/ProfilePage.tsx:86-95 | the inputs set the form |
| ProfilePage.ProfilePage.HandleSave | pages/ProfilePage.tsx:15-20 | the saved user is `ApplyEdits`, with id, role, level, xp and history unchanged; the form closes and the confirmation shows |
| ProfilePage.ProfilePage.ClearMessage | pages/ProfilePage.tsx:19 | the timer clears the confirmation |
| Sidebar.MenuItems | components/Sidebar.tsx:13-20 | function, no contract of its own: the six-entry table; CitizenMenu, TeacherMenu, AdminMenu and OnlyLibraryDisabled state what it yields per role |
| Sidebar.FilteredItems | components/Sidebar.tsx:22 | an entry is shown exactly when its role list includes the user's role |
| Sidebar.CitizenMenu | components/Sidebar.tsx:13-22 | a citizen sees dashboard, profile, placement and library, in table order |
| Sidebar.TeacherMenu | components/Sidebar.tsx:13-22 | a teacher sees dashboard, profile and the teacher panel |
| Sidebar.AdminMenu | components/Sidebar.tsx:13-22 | an admin sees dashboard, profile and the admin panel |
| Sidebar.OnlyLibraryDisabled | components/Sidebar.tsx:17 | an entry is disabled exactly when it is the library and the user is blocked |
| Sidebar.EveryEntryOpensAPage | components/Sidebar.tsx:13-22 | with the profile page routed, no enabled entry opens the placeholder; for a placed user the profile entry opens the profile page, and entries with different ids open different views |
| Sidebar.ProfileEntryOpensPlaceholder | components/Sidebar.tsx:14 | as written, the profile entry opens the placeholder for any placed user |

## Findings

| source | as written | input that shows it | evidently intended | confidence | as-written member | corrected member |
|---|---|---|---|---|---|---|
| App.tsx:117-137 | `renderContent` has no case for 'profile', and `ProfilePage` is never rendered | a placed user (any role) clicks the sidebar's profile entry, which is shown to every role: the main area shows the "under construction" placeholder | the profile entry opens the profile page; the page as written also needs `xp` to be defined, since it calls `user.xp.toLocaleString()` (pages/ProfilePage.tsx:58) and no demo user or new account has `xp` | high that the page is unreachable, medium that this is unintended; not executed | Sidebar.ProfileEntryOpensPlaceholder | Sidebar.EveryEntryOpensAPage |

`App.RenderViewAsWritten` models the switch as written. `App.RenderView` is the corrected one, which
routes the profile tab to `ProfileView`, and `AppState.CurrentView` uses it.

## Left out

- Persistence: the `localStorage` load and save of the user, attempts and accounts. The stored lists are
  fields and parameters of the model.
- The AI text service (`services/geminiService.ts`): the dashboard insight and the grading suggestion. A
  suggested grade reaches the model only as the score argument of `SubmitGrade`.
- The countdown timer itself: the one-second interval and the state of the remaining time. Expiry is
  the `Expire` operation, and `FormatTime` takes a non-negative number of seconds. The negative values
  that `Math.floor` and `%` would format are not modelled.
- Random ids (`Math.random`), timestamps (`new Date()`), locale date formatting, `toFixed(1)` and
  `toLocaleString` are not modelled. Ids and dates are parameters, and numbers are left unformatted.
- `alert` on a level-up, the three-second `setTimeout` (modelled only as `ClearMessage`), and every piece
  of JSX, styling and chart rendering.
- `pages/AdminPanel.tsx` and `components/TopBar.tsx` are not part of this model.
- Wiring between components:
  - `App` passes the teacher panel no `contents`, `exams`, `onUpdateContents` or `onUpdateExams`; only
    `onUpdateAttempts` is wired, which `AppState.OnTeacherUpdateAttempts` models. The panel is modelled
    on its own props.
  - The top bar's props are not modelled.
- Floating-point scores: JavaScript numbers are IEEE doubles, and the divisions in `handleFinish`
  and `avgScore` round. The model computes scores as exact reals, so the last-bit rounding of a score
  is not captured.
- Form validation beyond `required`: the browser's `type="email"` format check and its treatment of
  whitespace-only input are not modelled. Non-empty required fields are a precondition of
  `TeacherPanel.TeacherPanel.HandleCreateContent` and `AuthPage.AuthPage.HandleSubmit`.
- Interactive scenarios: `ScenarioStep` is only a type in the source, and there is no transition
  function to model.
- Experience points: nothing in the source updates `xp`. A newly registered account has no `xp` field
  in the source, and neither does any demo user. Here it is 0. As written, the profile page would
  therefore fail at `user.xp.toLocaleString()` (pages/ProfilePage.tsx:58), so the corrected routing of
  the profile tab also needs `xp` to be defined.
- `parseInt` of the minimum-level input: the draft holds an integer, so `NaN` is not modelled.
- The draft questions are copied arrays whose elements are mutated in place. The model replaces the
  element by value. Aliasing with an exam that was already submitted is therefore not captured.
- TeacherPanel.HandleCreateExam: requires at least one draft question, because the submit button is
  disabled without one.
- ExamPage.ExamSession.constructor and PlacementTest.PlacementWizard.constructor: require at least one
  question, because both pages read `exam.questions[currentStep]` as soon as they render.
- ExamPage.ExamSession.ChooseOption and PlacementTest.PlacementWizard.ChooseOption: require a
  multiple-choice question with options, because the buttons are rendered only then.
- TeacherPanel.TeacherPanel.SetCorrectOption and TeacherPanel.TeacherPanel.SetOptionText: require a
  multiple-choice question, because the inputs are rendered only then.
