# edugen frontend: assessment engine and page logic in Dafny

This project models the client-side logic of the edugen learning frontend, a
React and Redux application. Students take timed assessments on topics, review
graded answers, chat with a tutor bot and manage their accounts.

The main part is the **assessment session engine**, which has two pieces:

- the Redux slice `assessmentSlice.ts`, modelled as a reducer over an immutable
  `State` together with four thunks;
- the page controller `AssessmentPage.tsx`, modelled as step functions over the
  page state and the store: mount, tick, submit, next and finalize.

A thunk is modelled as a function from the backend's response to a settled
outcome (`Fulfilled` or `Rejected`). Dispatching a thunk is the `pending`
reduction followed by the settling one.

The secondary parts are:

- the chat message formatter;
- the authentication slice;
- the small decision and transform functions of the review, topic list, chat,
  verification, sign-up, route guard, subject list, avatar and dashboard
  components.

Every backend call is an input to the model: `Response<T>` is `Ok(value)` or
`Err(ServiceError(error, detail, status))`. Timers are explicit tick steps.
Rendering is reduced to a datatype that says which view is shown.

JavaScript behaviour that matters to the logic is written out in `Basics`:

- truthiness of optional strings (`Truthy`, `OrElse`);
- the whitespace set used by `trim` and `\s`;
- first-occurrence search (`indexOf`), which `Subjects.SecureImageUrl` uses for its one-time `replace`;
- decimal digit strings.

The other JavaScript details are modelled in the module that needs them:

- the truncating `%` operator;
- the `Number()` string grammar;
- the backtracking behaviour of the three regular expressions.

Scores are JavaScript numbers and are modelled as `real`. Ids and counts are
`int`.

Modules, one per source file:

- `Basics`;
- `AssessmentTypes`, `AssessmentSlice`, `AssessmentPage`;
- `FormattedMessage`, `AuthSlice`;
- `ReviewPage`, `TopicsPage`, `QuestionStatus`;
- `ChatInterface`, `VerificationPage`, `SignUpPage`;
- `ProtectedRoute`, `Subjects`, `UserAvatar`, `DashboardPage`.

## Model

| member | source | states |
|---|---|---|
| AssessmentSlice.StartThunk | src/store/slices/assessmentSlice.ts:40-60 | The thunk fulfils exactly when the body exists and has at least one question, and then carries that assessment. A body without questions is rejected with "Invalid assessment data received" and status 400. A backend failure is rejected with the server's error text or "Failed to start assessment", keeping the HTTP status. |
| AssessmentSlice.SubmitThunk | src/store/slices/assessmentSlice.ts:62-83 | An answer that trims to nothing is rejected with "Answer cannot be empty" and status 400, whatever the backend would have said. Otherwise the thunk fulfils with the question id, the answer and the feedback, or is rejected with the server's text or "Failed to submit answer". |
| AssessmentSlice.CompleteThunk | src/store/slices/assessmentSlice.ts:85-105 | The thunk fulfils exactly when the response carries a numeric score. A response without one is rejected with "Invalid completion data received" and status 400. A backend failure is rejected with the server's text or "Failed to complete assessment". |
| AssessmentSlice.SummaryThunk | src/store/slices/assessmentSlice.ts:107-127 | An empty body is rejected with "No summary available" and status 404. Otherwise the thunk fulfils with the topic id and the summary, or a backend failure is rejected with the server's text or "Failed to fetch summary". |
| AssessmentSlice.RejectFrom | src/store/slices/assessmentSlice.ts:54-58 | A backend failure becomes a rejection that carries the server's `error` text, or the thunk's own message when that text is missing or empty, and keeps the HTTP status. |
| AssessmentSlice.SetIndex | src/store/slices/assessmentSlice.ts:133-136 | The stored index always lies in [0, max(length, 1) − 1]. An index in range is stored unchanged. Negative indices clamp to 0 and large ones to the last question. Without an assessment the index is 0. Nothing else changes. |
| AssessmentSlice.StartSettledReducer | src/store/slices/assessmentSlice.ts:148-159 | Either outcome clears `loading`. Success installs the assessment at index 0, with no answers, no feedback and no results. Failure sets the error from the rejection and changes nothing else; in particular the previous assessment is kept. Topic summaries and the other two loading flags are never touched. |
| AssessmentSlice.SubmitSettledReducer | src/store/slices/assessmentSlice.ts:162-174 | Either outcome clears `submitLoading`. Success writes the answer and the feedback under the same question id and changes nothing else. Failure sets only the error. |
| AssessmentSlice.CompleteSettledReducer | src/store/slices/assessmentSlice.ts:177-192 | Either outcome clears `completionLoading`. Success stores the results and, only when an assessment is held, marks it "completed" with the result's score as its total, leaving its other fields alone. Failure sets only the error. |
| AssessmentSlice.Reduce | src/store/slices/assessmentSlice.ts:129-204 | Reset gives exactly the initial state. Clear-error changes only the error. Each pending action raises its own loading flag and clears the error. |
| AssessmentSlice.ReduceKeepsValid | src/store/slices/assessmentSlice.ts:129-204 | Every action keeps the store invariant: answered and graded question ids coincide, and the index points into the question list. |
| AssessmentSlice.OnlyLoadsReplaceAssessment | src/store/slices/assessmentSlice.ts:148-192 | Only a settled start or a settled completion can install a different assessment. |
| AssessmentSlice.ValidAfterAnyActions | src/store/slices/assessmentSlice.ts:20-31 | From any valid state, and so from the initial one, any sequence of dispatched actions leaves the store valid. |
| AssessmentSlice.DispatchStart | src/store/slices/assessmentSlice.ts:144-159 | Starting always ends with `loading` off. A valid assessment is installed with at least one question, at index 0, with empty answers and feedback and no error. A rejected start keeps the previous assessment, answers and feedback, and shows the rejection's message. The store invariant is kept. |
| AssessmentSlice.DispatchSubmit | src/store/slices/assessmentSlice.ts:162-174 | Submitting always ends with `submitLoading` off. A graded non-blank answer records answer and feedback for that question. A blank answer or a backend failure leaves answers and feedback as they were and sets an error. The assessment, index and other flags never change. The store invariant is kept. |
| AssessmentSlice.DispatchComplete | src/store/slices/assessmentSlice.ts:177-192 | Completing always ends with `completionLoading` off. Success stores the results and marks a held assessment completed with the returned score. Failure keeps assessment and results and shows the message. Answers, feedback and index are never touched. The store invariant is kept. |
| AssessmentSlice.DispatchSummary | src/store/slices/assessmentSlice.ts:195-199 | Only a fetched summary changes the store, by adding it under its topic id. Every other outcome leaves the store exactly as it was. |
| AssessmentPage.Mount | src/pages/AssessmentPage.tsx:29-49 | The page starts with an empty answer and a 1200-second clock. With a topic id it starts an assessment, and loading is over once that settles. Without a topic id the store is left alone. |
| AssessmentPage.Unmount | src/pages/AssessmentPage.tsx:48 | Leaving the page resets the store to its initial state. |
| AssessmentPage.Tick | src/pages/AssessmentPage.tsx:52-67 | No timer runs without an assessment, after completion, while loading or once cleared. A running tick with time left takes off exactly one second and changes nothing else. A tick at zero keeps the clock at 0, clears the interval and finalizes. The clock is never driven negative. |
| AssessmentPage.CountdownTicks | src/pages/AssessmentPage.tsx:56-63 | While time is left, n ticks take exactly n seconds off the clock and change nothing else. |
| AssessmentPage.CountdownExpires | src/pages/AssessmentPage.tsx:32-64 | From the initial 1200 seconds, 1200 ticks reach 0 with the interval still set. The 1201st tick clears it and finalizes. Any later ticks change nothing. |
| AssessmentPage.StoppedTimerIsInert | src/pages/AssessmentPage.tsx:53 | When the timer guard is off, any number of ticks leaves the session unchanged. |
| AssessmentPage.HandleSubmit | src/pages/AssessmentPage.tsx:75-92 | Without an assessment, or with a blank answer, nothing happens. Otherwise the trimmed answer is submitted for the current question. The feedback view opens only if grading succeeded. `submitting` is off afterwards on either outcome. The store invariant and the "feedback view only over recorded feedback" invariant are kept. |
| AssessmentPage.HandleNext | src/pages/AssessmentPage.tsx:94-102 | The answer box and the feedback view are cleared. Before the last question the index moves up by exactly one and nothing else in the store changes. On the last question the page finalizes. The index never passes the last question. |
| AssessmentPage.Finalize | src/pages/AssessmentPage.tsx:104-113 | Without an assessment nothing happens. Otherwise completion is dispatched, and the page is marked complete only when completion succeeded. The store invariant is kept. |
| AssessmentPage.ClockTurnsRedInLastFiveMinutes | src/pages/AssessmentPage.tsx:207 | Counting down from 1200 seconds, the clock is drawn as a warning exactly from the 901st tick on, that is below 300 seconds. |
| AssessmentPage.EnabledSubmitRecordsAnswer | src/pages/AssessmentPage.tsx:259 | Pressing an enabled Submit button on a question screen stores the trimmed answer and its grading for that question and opens the feedback view, when grading succeeds. |
| AssessmentPage.BlankAnswerCannotSubmit | src/pages/AssessmentPage.tsx:259 | A blank answer disables the Submit button, and the submit handler ignores it as well. The two guards agree. |
| AssessmentPage.ViewOf | src/pages/AssessmentPage.tsx:115-191 | The spinner is shown exactly while loading. Next comes the error screen exactly when there is an error or no assessment, showing the error or "Failed to load assessment". Next the completion screen once complete. Otherwise the current question, whose feedback is present whenever the feedback view is open. |
| AssessmentPage.JsRemainder60 | src/pages/AssessmentPage.tsx:71 | JavaScript's `% 60`: for non-negative input it is the mathematical remainder. For negative input it lies in (−60, 0] and differs from the input by a multiple of 60. |
| AssessmentPage.FormatTimeRoundTrip | src/pages/AssessmentPage.tsx:69-73 | For every non-negative number of seconds, reading the clock text back as minutes·60 + seconds gives the original number. The seconds part is always two digits. |
| AssessmentPage.FormatTime | src/pages/AssessmentPage.tsx:69-73 | For a non-negative number of seconds the clock text is a run of digits, a colon, and exactly two digits. |
| AssessmentPage.FormatTimeExamples | src/pages/AssessmentPage.tsx:69-73 | 1200 seconds show as "20:00", 65 as "1:05" and 0 as "0:00". |
| FormattedMessage.FindCloseFirst | src/components/chat/FormattedMessage.tsx:6 | The lazy `.*?\*\*` finds the first `**` at or after the start that no line terminator precedes, and reports none exactly when no such `**` exists. |
| FormattedMessage.BoldEnd | src/components/chat/FormattedMessage.tsx:6 | A match that starts at a position ends just past the first `**` after the opening one. No line terminator and no other `**` lies between the two markers. |
| FormattedMessage.FindBold | src/components/chat/FormattedMessage.tsx:6 | A match of `\*\*.*?\*\*` lies within the text and starts and ends with `**`. |
| FormattedMessage.FindBoldMatches | src/components/chat/FormattedMessage.tsx:6 | A match found from a position starts where the expression matches and ends where the lazy part stops. |
| FormattedMessage.FindBoldLeftmost | src/components/chat/FormattedMessage.tsx:6 | The match found is the leftmost one: the expression matches at no earlier position. When none is found, it matches at no position at all. |
| FormattedMessage.FirstBoldLeftmost | src/components/chat/FormattedMessage.tsx:6 | The first match of the whole text is a match of the expression, none starts before it, and there is none exactly when the expression matches nowhere. |
| FormattedMessage.NoBoldBefore | src/components/chat/FormattedMessage.tsx:6 | The text before the first match holds no match of its own, even when cut off at that point. |
| FormattedMessage.SplitBoldParts | src/components/chat/FormattedMessage.tsx:6 | The split loses nothing: its parts concatenate back to the text. There is an odd number of parts. Every odd-numbered part is a bold run, and no even-numbered part contains a match of the expression. |
| FormattedMessage.SplitBoldShape | src/components/chat/FormattedMessage.tsx:6 | The parts of the split concatenate back to the text, there is an odd number of them, and every odd-numbered part is a bold run. |
| FormattedMessage.SplitBoldPlain | src/components/chat/FormattedMessage.tsx:6 | No even-numbered part of the split contains a match of the expression. |
| FormattedMessage.InnerText | src/components/chat/FormattedMessage.tsx:8 | `slice(2, -2)` drops exactly two characters at each end of a part of at least four characters, and gives "" for shorter parts. |
| FormattedMessage.ShowPart | src/components/chat/FormattedMessage.tsx:7-10 | A part is bold exactly when it starts and ends with `**`. A bold part shows its inner text, and any other part shows itself. |
| FormattedMessage.FormatBoldText | src/components/chat/FormattedMessage.tsx:5-12 | There is one inline per split part, in order. Every match is shown bold, with exactly its two `**` markers cut off. No piece left plain contains a match of the expression. |
| FormattedMessage.MatchHeading | src/components/chat/FormattedMessage.tsx:24 | A heading match has 1 to 6 hashes, at least one whitespace character, and non-empty text without line terminators. |
| FormattedMessage.MatchHeadingComplete | src/components/chat/FormattedMessage.tsx:24 | Every line of heading shape is matched, at its hash count as the level, and the text found is the one the greedy `\s+` leaves. |
| FormattedMessage.SevenHashesIsNoHeading | src/components/chat/FormattedMessage.tsx:24 | A line that begins with seven hashes is never a heading. |
| FormattedMessage.MatchListItem | src/components/chat/FormattedMessage.tsx:27 | A list-item match has digits, then `.` or `)`, then spaces, then non-empty text. |
| FormattedMessage.MatchListItemComplete | src/components/chat/FormattedMessage.tsx:27 | Every line of list-item shape is matched, with all its leading digits as the number. |
| FormattedMessage.Classify | src/components/chat/FormattedMessage.tsx:22-92 | A line is a heading when the heading expression matches. Otherwise it is a list item when the list expression matches, with the value of its digits. Otherwise it is blank when it trims to nothing, and a paragraph of itself if not. |
| FormattedMessage.SplitLines | src/components/chat/FormattedMessage.tsx:16 | Splitting on `\n` gives at least one line, none containing `\n`, and joining them with `\n` gives back the text. |
| FormattedMessage.Group | src/components/chat/FormattedMessage.tsx:60-70 | The reference grouping by runs. Every ordered list it makes is non-empty and starts at its first item's number. |
| FormattedMessage.ProcessLine | src/components/chat/FormattedMessage.tsx:29-92 | One pass of the line loop keeps the loop invariant: the blocks emitted so far, followed by what the open list and the remaining lines will produce, equal the grouping by runs. |
| FormattedMessage.AddItem | src/components/chat/FormattedMessage.tsx:60-70 | A list-item line opens a list at its own number or extends the open one. What the open list and the remaining lines will produce is unchanged. |
| FormattedMessage.EmitOutsideList | src/components/chat/FormattedMessage.tsx:29-92 | A heading, plain or blank line first pushes the open list, then its own block (none for a blank line). The blocks so far, followed by the grouping of the remaining lines, stay the same. |
| FormattedMessage.FormatLines | src/components/chat/FormattedMessage.tsx:22-104 | The loop, with the final flush of an open list, produces exactly the grouping by runs. |
| FormattedMessage.FormatText | src/components/chat/FormattedMessage.tsx:15-107 | The formatter's output is the grouping by runs of the message's lines. |
| FormattedMessage.GroupKeepsLines | src/components/chat/FormattedMessage.tsx:22-104 | Reading the blocks back line by line gives every non-blank line exactly once, in input order. So each list-item line lands in exactly one list. |
| FormattedMessage.NonItemSeparates | src/components/chat/FormattedMessage.tsx:71-92 | A non-item line, blank or not, closes any open list. The blocks before and after it are formed independently, and a blank line contributes no block. |
| FormattedMessage.ConsecutiveItemsShareList | src/components/chat/FormattedMessage.tsx:60-70 | A maximal run of list items forms one ordered list, numbered from the first item's value. |
| FormattedMessage.FormatTextKeepsLines | src/components/chat/FormattedMessage.tsx:95-104 | The formatter's blocks hold every non-blank line once and in order, and all of its lists are well formed. |
| AuthSlice.RejectionText | src/store/slices/authSlice.ts:33-38 | The rejection text is the server's `error`, else its `detail`, else the thunk's default. It is never empty. |
| AuthSlice.SignUpThunk | src/store/slices/authSlice.ts:26-41 | Sign-up fulfils exactly on success, carrying the submitted e-mail. Otherwise it is rejected with the error, the detail or "Registration failed". |
| AuthSlice.SignInThunk | src/store/slices/authSlice.ts:43-64 | Sign-in fulfils exactly on success, carrying the response. Otherwise it is rejected with the error, the detail or "Login failed". |
| AuthSlice.UpdateGradeThunk | src/store/slices/authSlice.ts:66-80 | The grade update fulfils exactly on success, carrying the requested grade. Its rejection uses only the server's `error`, else "Failed to update grade. Please try again."; `detail` is ignored. |
| AuthSlice.VerifyThunk | src/store/slices/authSlice.ts:82-97 | Verification fulfils exactly on success, carrying the response. Otherwise it is rejected with the error, the detail or "Verification failed". |
| AuthSlice.ResendThunk | src/store/slices/authSlice.ts:99-114 | Resend fulfils exactly on success. Otherwise it is rejected with the error, the detail or "Failed to resend verification code". |
| AuthSlice.Reduce | src/store/slices/authSlice.ts:138-232 | Clear-error changes only the error. Logout clears user and authentication and nothing else. Reset-grade-status sets the grade status to idle and clears the error. Set-auth-state replaces the e-mail awaiting verification only for a user with a non-empty e-mail. Every pending case clears the error, and every rejection stores its payload. Only sign-up and sign-in move `isLoading`. |
| AuthSlice.StatusMachines | src/store/slices/authSlice.ts:191-230 | Each of the three status machines moves to pending, success or failed on its own actions only, and the grade status also returns to idle on its reset. Every other action leaves it where it was. |
| AuthSlice.WhoChangesIdentity | src/store/slices/authSlice.ts:138-232 | Only set-auth-state, sign-in and verification can authenticate. Only those, logout and a fulfilled grade update can change the user. An update fulfilled without a user leaves the user absent. Only set-auth-state and a fulfilled sign-up can change the e-mail awaiting verification. |
| AuthSlice.ReduceKeepsErrorMeaningful | src/store/slices/authSlice.ts:138-232 | An action whose rejection text is non-empty never leaves an empty error message behind. |
| AuthSlice.ErrorMeaningfulAfterAnyActions | src/store/slices/authSlice.ts:127-136 | Starting from a state without an empty error, any run of actions the thunks can produce never leaves an empty error message. |
| AuthSlice.ThunksAreWellFormed | src/store/slices/authSlice.ts:26-114 | Every settling action the five thunks produce carries a non-empty rejection text. |
| AuthSlice.DispatchSignUp | src/store/slices/authSlice.ts:165-176 | Loading ends either way. Success records the submitted e-mail as awaiting verification. Failure keeps the previous e-mail and shows the rejection text. The user and authentication never change. |
| AuthSlice.DispatchSignIn | src/store/slices/authSlice.ts:177-190 | Loading ends either way. Success authenticates the returned user with no error. Failure keeps user and authentication and shows the rejection text. |
| AuthSlice.DispatchUpdateGrade | src/store/slices/authSlice.ts:191-204 | The status ends success or failed according to the outcome. Success sets only the grade of an existing user. Failure keeps the user and shows a non-empty error. The loading flag is untouched. |
| AuthSlice.DispatchVerify | src/store/slices/authSlice.ts:205-217 | The status ends success or failed according to the outcome. Success authenticates the returned user. Failure keeps user and authentication and shows the rejection text. |
| AuthSlice.DispatchResend | src/store/slices/authSlice.ts:219-230 | The resend status ends success or failed according to the outcome. Only the resend status and the error change. |
| AuthSlice.SignInThenLogout | src/store/slices/authSlice.ts:152-157 | Logout after a successful sign-in leaves nobody signed in. Apart from the cleared loading flag and error, the state is as it was before signing in. |
| ReviewPage.AllExpanded | src/pages/AssessmentReviewPage.tsx:28-33 | The initial map has exactly the keys 0 … n − 1, all set to true. |
| ReviewPage.Fetch | src/pages/AssessmentReviewPage.tsx:20-43 | Without an id nothing is fetched and the state is unchanged. Otherwise loading ends. Success stores the result with exactly the questions 0 … n − 1 expanded. Failure sets "Failed to load assessment results" and changes nothing else. |
| ReviewPage.Toggle | src/pages/AssessmentReviewPage.tsx:45-50 | Toggling flips what question i shows, adds i as a key if it was missing, and leaves every other entry as it was. |
| ReviewPage.ToggleQuestion | src/pages/AssessmentReviewPage.tsx:45-50 | Toggling question i changes what question i shows and nothing else on the page. |
| ReviewPage.ToggleTwiceRestores | src/pages/AssessmentReviewPage.tsx:45-50 | Toggling a defined entry twice gives back the very same map. |
| ReviewPage.ToggleTwiceLooksSame | src/pages/AssessmentReviewPage.tsx:45-50 | Toggling any entry twice, defined or not, restores what every question shows. |
| ReviewPage.ViewOf | src/pages/AssessmentReviewPage.tsx:52-76 | The spinner is shown exactly while loading. Otherwise the error panel is shown exactly when there is an error or no result. Otherwise the review, where each question is open exactly when its entry is truthy. |
| ReviewPage.LoadOutcomes | src/pages/AssessmentReviewPage.tsx:20-76 | From a fresh page, a successful load shows the review with every question open. A failure shows the error panel with its message. A missing id keeps the spinner. |
| TopicsPage.SummaryMap | src/pages/AssessmentTopicsPage.tsx:34-38 | The map's keys are exactly the topic ids. Each topic not followed by another with the same id finds its own summary. |
| TopicsPage.DistinctIdsFindOwnSummary | src/pages/AssessmentTopicsPage.tsx:34-38 | With distinct topic ids, every topic's id is a key and maps to its own summary. |
| TopicsPage.CompletedTopics | src/pages/AssessmentTopicsPage.tsx:57-59 | The completed count is at most the number of summaries, and is zero exactly when no summary records an attempt. |
| TopicsPage.ProgressNeverExceedsTotal | src/pages/AssessmentTopicsPage.tsx:57-59 | For a map built from one topic list and its summaries, the progress line never shows more completed topics than there are topics. |
| TopicsPage.ProgressBoundAfterLoad | src/pages/AssessmentTopicsPage.tsx:20-59 | After one load from the page's initial state, on every outcome, the progress line never shows more completed topics than there are topics. |
| TopicsPage.StaleProgressAfterFailedReload | src/pages/AssessmentTopicsPage.tsx:20-59 | A later load whose summaries fail keeps the previous map next to the new topic list. Two attempted topics kept against a new list of one show as 2 completed of 1. |
| TopicsPage.Fetch | src/pages/AssessmentTopicsPage.tsx:19-47 | Without a subject id nothing happens. Otherwise loading ends. A failed topic request sets "Failed to fetch topics". Fetched topics and subject are stored. All summaries fetched gives the keyed map. Any summary failing sets the error and keeps the old map. |
| TopicsPage.Title | src/pages/AssessmentTopicsPage.tsx:74 | The title is the subject's name, or "Topics" when there is no subject or its name is empty. |
| TopicsPage.Stars | src/pages/AssessmentTopicsPage.tsx:134-141 | There are five stars, and star k (1-based) is lit exactly when 20·k ≤ best score. |
| TopicsPage.StarsArePrefix | src/pages/AssessmentTopicsPage.tsx:134-141 | Lit stars always form a prefix: a lit star has only lit stars before it. |
| TopicsPage.StarCountOfScore | src/pages/AssessmentTopicsPage.tsx:134-141 | For a whole-number best score, the number of lit stars is min(5, best div 20), and 0 for a negative score. |
| TopicsPage.AttemptWord | src/pages/AssessmentTopicsPage.tsx:150 | The noun is "attempt" exactly for one attempt and "attempts" otherwise. |
| TopicsPage.CardOf | src/pages/AssessmentTopicsPage.tsx:96-155 | A card shows the completed panel exactly when the topic has a summary with an attempt. The panel's stars, best score, count, noun and latest score come from that summary. |
| QuestionStatus.Classify | src/components/assessment/QuestionStatusIndicator.tsx:10-40 | The cascade picks the one and only band whose half-open score interval holds the score, so the five bands partition the scores. |
| QuestionStatus.StatusTitle | src/components/assessment/QuestionStatusIndicator.tsx:10-40 | Each of the five titles is shown exactly for its score range: ≥ 100, [80, 100), [50, 80), [1, 50) and < 1. |
| QuestionStatus.Boundaries | src/components/assessment/QuestionStatusIndicator.tsx:5-8 | Each threshold belongs to the band it opens (100, 80, 50, 1). Every score below 1, zero and negatives included, is Incorrect. |
| QuestionStatus.Monotone | src/components/assessment/QuestionStatusIndicator.tsx:10-40 | Raising a score never gives a worse band. |
| ChatInterface.BubblesOf | src/components/chat/ChatInterface.tsx:35-48 | An exchange gives the user's prompt with id 2·id − 1 and the bot's response with id 2·id, both stamped with the exchange's time. |
| ChatInterface.DisplayMessages | src/components/chat/ChatInterface.tsx:35-48 | n exchanges give 2n bubbles. Bubble k is bubble k mod 2 of exchange k div 2, so bubbles 2i and 2i + 1 are the prompt and the response of exchange i, in history order. |
| ChatInterface.ExchangesOfDisplayMessages | src/components/chat/ChatInterface.tsx:35-48 | Flattening loses nothing: the history can be read back from the bubbles. |
| ChatInterface.BubbleIdAt | src/components/chat/ChatInterface.tsx:37-43 | Bubble k carries id 2·id − 1 of exchange k div 2 at an even position, and 2·id at an odd one. |
| ChatInterface.DistinctBubbleIds | src/components/chat/ChatInterface.tsx:37-43 | Exchanges with distinct ids give bubbles with distinct ids. |
| ChatInterface.HandleSend | src/components/chat/ChatInterface.tsx:61-69 | Blank input sends nothing and stays in the box. Otherwise the trimmed text is sent and the box is cleared. Sent text is never blank and carries no surrounding whitespace. |
| ChatInterface.SendDisabled | src/components/chat/ChatInterface.tsx:171 | The Send button is disabled exactly when pressing it would send nothing. When it is enabled, pressing it clears the box. |
| ChatInterface.DisabledIffNothingSent | src/components/chat/ChatInterface.tsx:171 | The Send button is disabled exactly when pressing it would send nothing. |
| VerificationPage.SingleCharacterIsNumber | src/pages/VerificationPage.tsx:37 | A single typed character passes the `Number` test exactly when it is a digit or whitespace. The empty value passes too. |
| VerificationPage.PaddingIsIgnored | src/pages/VerificationPage.tsx:37 | Surrounding whitespace does not change whether a value converts to NaN. |
| VerificationPage.NumberIsNaN | src/pages/VerificationPage.tsx:37 | An empty or all-whitespace value converts to 0 and is never NaN. |
| VerificationPage.UnpaddedValue | src/pages/VerificationPage.tsx:37 | A value without surrounding whitespace is NaN exactly when it is not a numeric literal. |
| VerificationPage.DigitsAreNumber | src/pages/VerificationPage.tsx:37 | Every non-empty run of decimal digits passes the `Number` test. |
| VerificationPage.NumberAcceptsHex | src/pages/VerificationPage.tsx:37 | "0x" followed by one or more hexadecimal digits, such as "0x1F", is a number. |
| VerificationPage.NumberAcceptsExponent | src/pages/VerificationPage.tsx:37 | A sign, digits with one decimal point and at least one digit, `e` and a digit string, such as "-1.5e3", make a number. |
| VerificationPage.NumberAcceptsFraction | src/pages/VerificationPage.tsx:37 | A point followed by one or more digits, such as ".5", is a number. |
| VerificationPage.NumberRejectsTwoPoints | src/pages/VerificationPage.tsx:37 | Digits with two decimal points, such as "1.2.3", are NaN. |
| VerificationPage.NumberRejectsLetters | src/pages/VerificationPage.tsx:37 | "abc" is NaN. |
| VerificationPage.NumberRejectsSignedHex | src/pages/VerificationPage.tsx:37 | A sign before a hexadecimal literal, such as "-0x1", makes NaN. |
| VerificationPage.NumberRejectsEmptyExponent | src/pages/VerificationPage.tsx:37 | Digits followed by an `e` with nothing after it, such as "1e", are NaN. |
| VerificationPage.CodeChange | src/pages/VerificationPage.tsx:36-42 | A NaN value is ignored. Otherwise it replaces only the entry at the index and clears the error. One-character inputs keep every entry at most one character long. |
| VerificationPage.HandleCodeChange | src/pages/VerificationPage.tsx:36-54 | A NaN value changes nothing. Verification fires only for a non-empty value typed into the last input that completes the code. |
| VerificationPage.HandleVerify | src/pages/VerificationPage.tsx:63-108 | A code that is not four characters long, or a missing e-mail, shows its message and dispatches nothing. A success with both tokens signs the user in. A success without them shows "Invalid server response". A rejection shows "Verification failed. Please try again." Every failure empties the code. |
| VerificationPage.FilledCodeHasLengthFour | src/pages/VerificationPage.tsx:64-67 | For a code the inputs can hold, the length check passes exactly when all four inputs are filled. |
| VerificationPage.VerifyEnabled | src/pages/VerificationPage.tsx:185 | For a code the inputs can hold, an enabled Verify button means the code is four characters long, so the handler's length check passes. |
| VerificationPage.EnabledVerifyPassesLengthCheck | src/pages/VerificationPage.tsx:185 | Pressing an enabled Verify button always passes the length check. |
| VerificationPage.HandleResend | src/pages/VerificationPage.tsx:110-127 | Without an e-mail it only shows "Email address is missing". Otherwise resend is dispatched. Success marks the code sent and empties the inputs. Failure shows "Failed to resend code. Please try again." |
| VerificationPage.CodeStaysWellFormed | src/pages/VerificationPage.tsx:150-163 | Whatever is typed one character at a time, verified or resent, the code stays four entries of at most one character. |
| VerificationPage.VerifyKeepsCodeWellFormed | src/pages/VerificationPage.tsx:101-102 | Verifying, whatever its outcome, keeps the code four entries of at most one character. |
| VerificationPage.LastDigitDispatches | src/pages/VerificationPage.tsx:51-53 | Typing the fourth digit into an otherwise filled code dispatches verification at once. The status then follows the outcome. |
| VerificationPage.AcceptedWithoutTokens | src/pages/VerificationPage.tsx:83-93 | A success without both tokens is shown as an invalid response. The store nevertheless records the verification as a success. |
| SignUpPage.Validate | src/pages/SignUpPage.tsx:37-47 | The form is valid exactly when the passwords match and have at least 8 characters. A mismatch is reported before a short password. |
| SignUpPage.HandleChange | src/pages/SignUpPage.tsx:26-35 | The changed field takes the typed value and every other field is kept. The validation message is cleared and the store's error stops showing. Nothing else in the store changes. |
| SignUpPage.Banner | src/pages/SignUpPage.tsx:97-99 | The banner shows the store's error, else the validation message. It is hidden exactly when neither is truthy. |
| SignUpPage.ChangeClearsBanner | src/pages/SignUpPage.tsx:26-35 | Typing into any field removes the banner. |
| SignUpPage.HandleSubmit | src/pages/SignUpPage.tsx:49-64 | An invalid form shows its message and dispatches nothing. A valid one dispatches sign-up with the form's e-mail. The page navigates to "/verify" exactly when the form is valid and sign-up succeeded. |
| SignUpPage.RejectedSignUpShowsReason | src/pages/SignUpPage.tsx:49-64 | A rejected sign-up stays on the page and shows the backend's reason or "Registration failed". |
| ProtectedRoute.RequireAuthOf | src/components/auth/ProtectedRoute.tsx:14 | `requireAuth` defaults to true. |
| ProtectedRoute.Guard | src/components/auth/ProtectedRoute.tsx:12-30 | A guest on a protected page is sent to "/signin", carrying the attempted location. A signed-in user on a guest page is sent to "/dashboard/content". The children render exactly when `requireAuth` equals `isAuthenticated`. |
| ProtectedRoute.RedirectsSettle | src/components/auth/ProtectedRoute.tsx:19-27 | Redirects never chain: the same visitor is let through at the redirect's target, which is guarded the opposite way. |
| Subjects.SecureImageUrl | src/pages/ContentPage.tsx:22 | A missing or empty address becomes null. An address without "http://" is kept. Otherwise only the first "http://" becomes "https://". |
| Subjects.UpgradesHttpScheme | src/pages/ContentPage.tsx:22 | An address that starts with "http://" gets "https://" instead, and the rest is kept. |
| Subjects.KeepsAddressWithoutHttp | src/pages/ContentPage.tsx:22 | A non-empty address without "http://" is left alone. |
| Subjects.EmbeddedAddressKept | src/pages/AssessmentsPage.tsx:20 | Only the first "http://" is rewritten: "http://a/http://b" becomes "https://a/http://b". |
| Subjects.ContentSubject | src/pages/ContentPage.tsx:18-24 | The learning side copies id, name, description and topic count, secures the image address, and drops every undeclared field. |
| Subjects.AssessmentSubject | src/pages/AssessmentsPage.tsx:18-21 | The assessment side keeps every field but the image address, which it secures. |
| Subjects.ContentSubjects | src/pages/ContentPage.tsx:18-24 | The list keeps its length and order, subject by subject. |
| Subjects.AssessmentSubjects | src/pages/AssessmentsPage.tsx:18-21 | The list keeps its length and order, subject by subject. |
| Subjects.PagesAgreeOnDeclaredFields | src/pages/AssessmentsPage.tsx:18-21 | The two pages produce the same subject up to the undeclared fields. |
| Subjects.Fetch | src/pages/AssessmentsPage.tsx:14-32 | Loading ends either way. Success stores the converted list. Failure sets "Failed to fetch subjects" and changes nothing else. |
| Subjects.ContentView | src/pages/ContentPage.tsx:38-53 | The learning side shows an error, with its text, before anything else. Otherwise it shows the spinner exactly while loading, and the cards of the loaded subjects after that. |
| Subjects.AssessmentsView | src/pages/AssessmentsPage.tsx:46-60 | The assessment side shows the spinner while loading. After that it shows the error line, with its text, exactly when there is an error, and otherwise the cards of the loaded subjects. |
| Subjects.ViewsAgreeOnReachableStates | src/pages/AssessmentsPage.tsx:46-60 | On the states the pages reach, the two orders show the same view. The error line appears exactly after a failed fetch. |
| UserAvatar.UpperAscii | src/components/common/UserAvatar.tsx:24 | Lower-case ASCII letters become their capitals, and every other character is kept. The result is never a lower-case letter. |
| UserAvatar.UpperAsciiIdempotent | src/components/common/UserAvatar.tsx:24 | Upper-casing twice is upper-casing once. |
| UserAvatar.FirstLetter | src/components/common/UserAvatar.tsx:24 | The result is the first character of the name, or nothing for a missing or empty name. |
| UserAvatar.Initials | src/components/common/UserAvatar.tsx:23-25 | The initials are the capitalised first letters of first and last name, in that order. They are "" exactly when both names are missing or empty, and never contain a lower-case letter. |
| UserAvatar.InitialsOfCapitalisedNames | src/components/common/UserAvatar.tsx:23-25 | For names written with a capital, the initials are exactly those two capitals. |
| UserAvatar.SizeOf | src/components/common/UserAvatar.tsx:14 | The size defaults to medium. |
| UserAvatar.Render | src/components/common/UserAvatar.tsx:27-39 | The photo is shown exactly when `profilePhoto` is truthy, with the full name as alternative text. Otherwise the initials are shown. |
| DashboardPage.FullName | src/pages/DashboardPage.tsx:12-14 | Without a user the name is "Student". Otherwise it is first and last name joined by a space and trimmed, with missing names read as empty. The result never starts or ends with whitespace. |
| DashboardPage.BothNames | src/pages/DashboardPage.tsx:12-14 | Two tidy names are shown as they are, separated by a single space. |
| DashboardPage.OneName | src/pages/DashboardPage.tsx:13 | With the last name missing, the first name is shown alone, without a trailing space. |
| DashboardPage.NoNames | src/pages/DashboardPage.tsx:13 | A user without names gets "", not "Student". |
| DashboardPage.GradeLabel | src/pages/DashboardPage.tsx:19 | The label is the user's grade, or "Grade" when there is no user or no grade. It is never empty. |

## Left out

**Where the model departs from the code**
- Scores are `real`, not integers, because the source compares JavaScript numbers such as 79.5 against the thresholds. NaN is not modelled.
- The completion thunk returns the response object itself. The model rebuilds an `AssessmentResult` from the same fields of a `CompletionPayload` whose `score` is `None` exactly when it is not a number.
- The start thunk's `!response.questions` case (a missing `questions` field) is read as an empty question list.
- The verification page shows its own generic message for a rejected verification, not the server's. Its catch block looks for a `message` field on the plain string the rejection throws and finds none. The model keeps this behaviour.

**Deliberately weaker contracts**
- AssessmentPage.HandleNext: requires an assessment to be present. The handler dereferences `currentAssessment!`, and the page renders the Next button only on the question view.
- AssessmentPage.HandleSubmit: an index outside the question list is modelled as clearing `submitting` and changing nothing else. The source would throw when reading the question id, and its `finally` clause would clear the flag.
- SignUpPage.HandleChange: states that the store's error is no longer truthy, rather than that it is `null`. An empty-string error is not cleared by the source, because `if (error)` is false for it.
- VerificationPage.CodeChange: requires four entries and an index below 4, which is what the page's four inputs supply.
- TopicsPage.Fetch: requires one summary response per fetched topic, which is what `Promise.all` over the topic list supplies.
- TopicsPage.ProgressNeverExceedsTotal: the bound is proved for a map built from one topic list, and so for every state one load reaches from the initial state (`ProgressBoundAfterLoad`). It does not hold across loads: when the subject changes and the new summaries fail, the page keeps the old map next to the new topic list, and `StaleProgressAfterFailedReload` exhibits 2 completed of 1.
- VerificationPage.NumberIsNaN: its own contract states only that blank values pass. The full conversion grammar is stated by `UnpaddedValue` and `PaddingIsIgnored`.
- TopicsPage.StarCountOfScore: stated for whole-number scores only. For other scores, Stars gives the per-star rule.

**I/O, effects and platform behaviour**
- Backend calls, axios, the token refresh interceptor and localStorage writes. Responses are inputs. Writing tokens on sign-in and verification, and removing them on logout, are left out.
- `setInterval` and `setTimeout` scheduling, React effect ordering and promise interleavings after unmount. The countdown is a tick function, and "finalize fires once" is not claimed.
- The 300 ms lodash debounce of the topic fetch. The fetch is modelled as one settled call.
- The 3-second reset of the resend status and the transient "sending" state. Only the settled states are modelled.
- Input focus handling, backspace navigation and every animation.
- `parseInt` on route ids: ids are `int` or `Option<string>` inputs.
- The clock's red colour below 300 seconds is the predicate `ClockWarning`. `toFixed` percentages, the progress bar width and date formatting are presentation and are left out.
- Strings are sequences of Unicode scalar values, not UTF-16 code units. This affects password length and `[0]` on names outside the Basic Multilingual Plane.
- `toUpperCase` is modelled for ASCII letters only.
- Fields the backend sends beyond those the client declares are one opaque `map<string, string>`.
- Routing, layout, and the pages and components that only render or navigate.
