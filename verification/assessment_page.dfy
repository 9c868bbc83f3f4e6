/** The assessment page controller (src/pages/AssessmentPage.tsx): the
    local page state (answer box, submitting flag, feedback view, countdown,
    completion flag) together with the store, and the step functions the
    page runs on user events and on timer ticks. Rendering is reduced to
    the choice of view and the two button/clock predicates. */
module AssessmentPage {
  import opened Basics
  import opened AssessmentTypes
  import S = AssessmentSlice

  /** The countdown's starting value: twenty minutes. */
  const InitialTime: int := 1200
  /** Below this many seconds the clock is drawn as a warning. */
  const WarningTime: int := 300

  /** The page's own state. `timerCleared` records that the interval was
      cleared when the countdown ran out; the effect that sets it up runs
      again on mount and whenever the assessment, the completion flag or
      the loading flag changes. */
  datatype Page = Page(
    answer: string,
    submitting: bool,
    showFeedback: bool,
    timeLeft: int,
    isAssessmentComplete: bool,
    timerCleared: bool)

  const InitialPage: Page := Page("", false, false, InitialTime, false, false)

  datatype Session = Session(store: S.State, page: Page)

  datatype View =
    | Spinner
    | ErrorView(message: string)
    | CompleteView
    | QuestionView(question: Question, showFeedback: bool)
    | RenderFailure

  /** The timer effect sets up an interval only while there is an
      assessment that is neither complete nor loading. */
  predicate TimerRunning(sess: Session) {
    && sess.store.currentAssessment.Some?
    && !sess.page.isAssessmentComplete
    && !sess.store.loading
    && !sess.page.timerCleared
  }

  /** The feedback view is only open on a question whose feedback the store
      holds, so the page can always read it. */
  predicate FeedbackRecorded(sess: Session) {
    sess.page.showFeedback ==>
      && sess.store.currentAssessment.Some?
      && 0 <= sess.store.currentQuestionIndex < |sess.store.currentAssessment.value.questions|
      && sess.store.currentAssessment.value.questions[sess.store.currentQuestionIndex].id in sess.store.feedback
  }

  /** Mounting with a topic id starts an assessment; without one nothing is
      dispatched. */
  function Mount(store: S.State, topicId: Option<int>, response: Response<Option<Assessment>>): (r: Session)
    ensures r.page == InitialPage
    ensures topicId.None? ==> r.store == store
    ensures topicId.Some? ==> !r.store.loading
    ensures topicId.Some? && S.StartThunk(response).Fulfilled? ==>
      r.store.currentAssessment == Some(response.value.value) && r.store.currentQuestionIndex == 0
    ensures FeedbackRecorded(r)
  {
    Session(if topicId.Some? then S.DispatchStart(store, response) else store, InitialPage)
  }

  /** Unmounting resets the store, so nothing of this topic outlives the page. */
  function Unmount(sess: Session): (r: S.State)
    ensures r == S.InitialState
  {
    S.Reduce(sess.store, S.ResetAssessment)
  }

  /** `handleAssessmentComplete`: ask the backend to score the attempt; the
      page shows the completion view only once that succeeded. */
  function Finalize(sess: Session, response: Response<Option<S.CompletionPayload>>): (r: Session)
    ensures sess.store.currentAssessment.None? ==> r == sess
    ensures sess.store.currentAssessment.Some? ==>
      && r.store == S.DispatchComplete(sess.store, response)
      && r.page.isAssessmentComplete == (sess.page.isAssessmentComplete || S.CompleteThunk(response).Fulfilled?)
      && r.page.(isAssessmentComplete := sess.page.isAssessmentComplete) == sess.page
    ensures S.Valid(sess.store) ==> S.Valid(r.store)
    ensures FeedbackRecorded(sess) ==> FeedbackRecorded(r)
  {
    if sess.store.currentAssessment.None? then sess
    else
      var store := S.DispatchComplete(sess.store, response);
      var done := S.CompleteThunk(response).Fulfilled?;
      Session(store, sess.page.(isAssessmentComplete := sess.page.isAssessmentComplete || done))
  }

  /** One firing of the one-second interval. */
  function Tick(sess: Session, response: Response<Option<S.CompletionPayload>>): (r: Session)
    ensures !TimerRunning(sess) ==> r == sess
    ensures TimerRunning(sess) ==> r.page.timeLeft >= 0
    ensures TimerRunning(sess) && sess.page.timeLeft > 0 ==>
      r == sess.(page := sess.page.(timeLeft := sess.page.timeLeft - 1))
    ensures TimerRunning(sess) && sess.page.timeLeft <= 0 ==>
      && r.page.timeLeft == 0
      && r.page.timerCleared
      && r.store == S.DispatchComplete(sess.store, response)
      && r.page.isAssessmentComplete == S.CompleteThunk(response).Fulfilled?
    ensures sess.page.timeLeft >= 0 ==> r.page.timeLeft >= 0
    ensures S.Valid(sess.store) ==> S.Valid(r.store)
    ensures FeedbackRecorded(sess) ==> FeedbackRecorded(r)
  {
    if !TimerRunning(sess) then sess
    else if sess.page.timeLeft > 0 then sess.(page := sess.page.(timeLeft := sess.page.timeLeft - 1))
    else Finalize(sess.(page := sess.page.(timeLeft := 0, timerCleared := true)), response)
  }

  /** `n` consecutive ticks with no other event in between. */
  function Ticks(sess: Session, n: nat, response: Response<Option<S.CompletionPayload>>): Session
    decreases n
  {
    if n == 0 then sess else Ticks(Tick(sess, response), n - 1, response)
  }

  /** While time is left, every tick takes exactly one second off the clock
      and does nothing else. */
  lemma {:induction false} CountdownTicks(sess: Session, n: nat, response: Response<Option<S.CompletionPayload>>)
    requires TimerRunning(sess) && n <= sess.page.timeLeft
    ensures Ticks(sess, n, response) == sess.(page := sess.page.(timeLeft := sess.page.timeLeft - n))
    decreases n
  {
    if n > 0 {
      var next := Tick(sess, response);
      assert next == sess.(page := sess.page.(timeLeft := sess.page.timeLeft - 1));
      CountdownTicks(next, n - 1, response);
    }
  }

  /** From a full clock, the 1201st tick is the one that finalizes; after it
      the interval is cleared and later ticks change nothing. */
  lemma {:induction false} CountdownExpires(sess: Session, response: Response<Option<S.CompletionPayload>>, extra: nat)
    requires TimerRunning(sess) && sess.page.timeLeft == InitialTime
    ensures Ticks(sess, 1200, response).page.timeLeft == 0
    ensures !Ticks(sess, 1200, response).page.timerCleared
    ensures Ticks(sess, 1201, response).page.timerCleared
    ensures Ticks(sess, 1201, response).store.completionLoading == false
    ensures Ticks(sess, 1201 + extra, response) == Ticks(sess, 1201, response)
  {
    CountdownTicks(sess, 1200, response);
    var zero := Ticks(sess, 1200, response);
    TicksSplit(sess, 1200, 1, response);
    var done := Tick(zero, response);
    TicksSplit(sess, 1201, extra, response);
    StoppedTimerIsInert(done, extra, response);
  }

  lemma {:induction false} TicksSplit(sess: Session, m: nat, n: nat, response: Response<Option<S.CompletionPayload>>)
    ensures Ticks(sess, m + n, response) == Ticks(Ticks(sess, m, response), n, response)
    decreases m
  {
    if m > 0 {
      TicksSplit(Tick(sess, response), m - 1, n, response);
    }
  }

  lemma {:induction false} StoppedTimerIsInert(sess: Session, n: nat, response: Response<Option<S.CompletionPayload>>)
    requires !TimerRunning(sess)
    ensures Ticks(sess, n, response) == sess
    decreases n
  {
    if n > 0 {
      StoppedTimerIsInert(sess, n - 1, response);
    }
  }

  /** `handleSubmitAnswer`: submit the trimmed answer to the current question
      and open the feedback view if the backend graded it. Without an
      assessment, or with a blank answer, nothing happens. */
  function HandleSubmit(sess: Session, response: Response<QuestionFeedback>): (r: Session)
    ensures sess.store.currentAssessment.None? || IsBlank(sess.page.answer) ==> r == sess
    ensures sess.store.currentAssessment.Some? && !IsBlank(sess.page.answer) ==>
      && !r.page.submitting
      && r.page.answer == sess.page.answer
      && r.page.timeLeft == sess.page.timeLeft
      && r.page.isAssessmentComplete == sess.page.isAssessmentComplete
    ensures sess.store.currentAssessment.Some? && !IsBlank(sess.page.answer)
            && 0 <= sess.store.currentQuestionIndex < |sess.store.currentAssessment.value.questions| ==>
      var q := sess.store.currentAssessment.value.questions[sess.store.currentQuestionIndex];
      && r.store == S.DispatchSubmit(sess.store, q.id, Trim(sess.page.answer), response)
      && r.page.showFeedback == (sess.page.showFeedback || response.Ok?)
      && (response.Ok? ==> r.store.answers[q.id] == Trim(sess.page.answer) && r.store.feedback[q.id] == response.value)
      && (response.Err? ==> r.store.answers == sess.store.answers && r.store.feedback == sess.store.feedback)
    ensures S.Valid(sess.store) ==> S.Valid(r.store)
    ensures FeedbackRecorded(sess) ==> FeedbackRecorded(r)
  {
    if sess.store.currentAssessment.None? || IsBlank(sess.page.answer) then sess
    else
      var a := sess.store.currentAssessment.value;
      var i := sess.store.currentQuestionIndex;
      if !(0 <= i < |a.questions|) then
        // Reading the id of a question that is not there throws; the
        // `finally` clause still clears the flag.
        sess.(page := sess.page.(submitting := false))
      else
        var q := a.questions[i];
        var text := Trim(sess.page.answer);
        TrimIdempotent(sess.page.answer);
        var store := S.DispatchSubmit(sess.store, q.id, text, response);
        var graded := S.SubmitThunk(q.id, text, response).Fulfilled?;
        Session(store, sess.page.(submitting := false, showFeedback := sess.page.showFeedback || graded))
  }

  /** `handleNextQuestion`: clear the answer box and the feedback view, then
      move to the next question, or finalize on the last one. The page only
      offers this button while an assessment is shown. */
  function HandleNext(sess: Session, response: Response<Option<S.CompletionPayload>>): (r: Session)
    requires sess.store.currentAssessment.Some?
    ensures r.page.answer == "" && !r.page.showFeedback
    ensures var n := |sess.store.currentAssessment.value.questions|;
      0 <= sess.store.currentQuestionIndex < n - 1 ==>
        r.store.currentQuestionIndex == sess.store.currentQuestionIndex + 1
        && r.store.(currentQuestionIndex := sess.store.currentQuestionIndex) == sess.store
    ensures var n := |sess.store.currentAssessment.value.questions|;
      sess.store.currentQuestionIndex >= n - 1 ==>
        r == Finalize(sess.(page := sess.page.(answer := "", showFeedback := false)), response)
    ensures S.Valid(sess.store) ==> S.Valid(r.store)
    ensures S.Valid(sess.store) ==> 0 <= r.store.currentQuestionIndex <= S.MaxIndex(sess.store)
    ensures FeedbackRecorded(r)
  {
    var page := sess.page.(answer := "", showFeedback := false);
    if sess.store.currentQuestionIndex < |sess.store.currentAssessment.value.questions| - 1 then
      S.ReduceKeepsValid(sess.store, S.SetCurrentQuestionIndex(sess.store.currentQuestionIndex + 1));
      Session(S.Reduce(sess.store, S.SetCurrentQuestionIndex(sess.store.currentQuestionIndex + 1)), page)
    else Finalize(Session(sess.store, page), response)
  }

  /** The clock turns red below five minutes. */
  predicate ClockWarning(timeLeft: int) {
    timeLeft < WarningTime
  }

  /** The Submit button is disabled while submitting or for a blank answer. */
  predicate SubmitDisabled(page: Page) {
    page.submitting || IsBlank(page.answer)
  }

  /** Counting down from twenty minutes, the clock stays grey for the first
      900 ticks and is red from the 901st on. */
  lemma ClockTurnsRedInLastFiveMinutes(sess: Session, n: nat, response: Response<Option<S.CompletionPayload>>)
    requires TimerRunning(sess) && sess.page.timeLeft == InitialTime && n <= InitialTime
    ensures ClockWarning(Ticks(sess, n, response).page.timeLeft) <==> n > InitialTime - WarningTime
  {
    CountdownTicks(sess, n, response);
  }

  /** An enabled Submit button on a question screen does reach the backend:
      a graded answer is stored, trimmed, and the feedback view opens. */
  lemma EnabledSubmitRecordsAnswer(sess: Session, fb: QuestionFeedback)
    requires ViewOf(sess).QuestionView? && !SubmitDisabled(sess.page)
    ensures var q := ViewOf(sess).question; var r := HandleSubmit(sess, Ok(fb));
      && r.store.answers[q.id] == Trim(sess.page.answer)
      && r.store.feedback[q.id] == fb
      && r.page.showFeedback
  {
  }

  /** A Submit the button would refuse for a blank answer is also refused by
      the handler: the two guards agree. */
  lemma BlankAnswerCannotSubmit(sess: Session, response: Response<QuestionFeedback>)
    requires IsBlank(sess.page.answer)
    ensures SubmitDisabled(sess.page)
    ensures HandleSubmit(sess, response) == sess
  {
  }

  /** Which screen the page renders: loading first, then any error or a
      missing assessment, then the completion screen, then the question. */
  function ViewOf(sess: Session): (v: View)
    ensures sess.store.loading <==> v.Spinner?
    ensures v.ErrorView? <==>
      !sess.store.loading && (Truthy(sess.store.error) || sess.store.currentAssessment.None?)
    ensures v.ErrorView? ==> v.message == OrElse(sess.store.error, "Failed to load assessment")
    ensures v.CompleteView? <==>
      !sess.store.loading && !Truthy(sess.store.error) && sess.store.currentAssessment.Some?
      && sess.page.isAssessmentComplete
    ensures v.QuestionView? ==>
      && sess.store.currentAssessment.Some?
      && 0 <= sess.store.currentQuestionIndex < |sess.store.currentAssessment.value.questions|
      && v.question == sess.store.currentAssessment.value.questions[sess.store.currentQuestionIndex]
    ensures v.QuestionView? && v.showFeedback && FeedbackRecorded(sess) ==> v.question.id in sess.store.feedback
    ensures v.RenderFailure? ==> !S.Valid(sess.store) || |sess.store.currentAssessment.value.questions| == 0
  {
    if sess.store.loading then Spinner
    else if Truthy(sess.store.error) || sess.store.currentAssessment.None? then
      ErrorView(OrElse(sess.store.error, "Failed to load assessment"))
    else if sess.page.isAssessmentComplete then CompleteView
    else
      var a := sess.store.currentAssessment.value;
      var i := sess.store.currentQuestionIndex;
      // Indexing past the question list throws while rendering.
      if 0 <= i < |a.questions| then QuestionView(a.questions[i], sess.page.showFeedback) else RenderFailure
  }

  /** `formatTime`: whole minutes, a colon, and the remaining seconds padded
      to two digits. `Math.floor` is floor division, as Dafny's `/` is for a
      positive divisor; `%` is JavaScript's truncating remainder. */
  function FormatTime(seconds: int): (t: string)
    ensures seconds >= 0 ==> |t| >= 4 && t[|t| - 3] == ':'
    ensures seconds >= 0 ==> AllDigits(t[..|t| - 3]) && AllDigits(t[|t| - 2..])
  {
    var t := IntToString(seconds / 60) + ":" + PadStartZero(IntToString(JsRemainder60(seconds)), 2);
    if seconds >= 0 then ClockShape(seconds / 60, seconds % 60); t else t
  }

  /** A clock printed from whole minutes and seconds below sixty has
      minutes digits, a colon and two seconds digits. */
  lemma ClockShape(minutes: nat, secs: nat)
    requires secs < 60
    ensures var m := NatToString(minutes); var p := PadStartZero(NatToString(secs), 2);
      && (m + ":" + p)[..|m|] == m && (m + ":" + p)[|m|] == ':' && (m + ":" + p)[|m| + 1..] == p
      && |p| == 2 && AllDigits(p) && DigitsValue(p) == secs
  {
    TwoDigitValue(secs);
    ThreeParts(NatToString(minutes), ':', PadStartZero(NatToString(secs), 2));
  }

  /** JavaScript's `a % 60`: the sign follows `a`. */
  function JsRemainder60(a: int): (r: int)
    ensures a >= 0 ==> r == a % 60
    ensures a < 0 ==> -60 < r <= 0 && (a - r) % 60 == 0
  {
    if a >= 0 || a % 60 == 0 then a % 60 else a % 60 - 60
  }

  /** Reads a clock string back: minutes, a colon, two digits of seconds. */
  function ParseTime(t: string): Option<int> {
    if |t| >= 4 && t[|t| - 3] == ':' && AllDigits(t[..|t| - 3]) && AllDigits(t[|t| - 2..]) then
      Some(DigitsValue(t[..|t| - 3]) * 60 + DigitsValue(t[|t| - 2..]))
    else None
  }

  /** The clock string determines the time left: reading it back gives the
      number of seconds it was made from. */
  lemma FormatTimeRoundTrip(seconds: int)
    requires seconds >= 0
    ensures ParseTime(FormatTime(seconds)) == Some(seconds)
  {
    FormatTimeOfNat(seconds);
    ClockRoundTrip(seconds / 60, seconds % 60, seconds);
  }

  /** Reading back the clock printed from whole minutes and seconds. */
  lemma ClockRoundTrip(minutes: nat, secs: nat, total: int)
    requires secs < 60 && total == minutes * 60 + secs
    ensures ParseTime(NatToString(minutes) + ":" + PadStartZero(NatToString(secs), 2)) == Some(total)
  {
    var m := NatToString(minutes);
    var p := PadStartZero(NatToString(secs), 2);
    TwoDigitValue(secs);
    DigitsValueOfNatToString(minutes);
    ParseClock(m, p, total);
  }

  /** For a non-negative time both parts print as natural numbers. */
  lemma FormatTimeOfNat(seconds: nat)
    ensures FormatTime(seconds) == NatToString(seconds / 60) + ":" + PadStartZero(NatToString(seconds % 60), 2)
  {
    assert JsRemainder60(seconds) == seconds % 60;
  }

  lemma ParseClock(m: string, p: string, total: int)
    requires |m| >= 1 && AllDigits(m) && |p| == 2 && AllDigits(p)
    requires total == DigitsValue(m) * 60 + DigitsValue(p)
    ensures ParseTime(m + ":" + p) == Some(total)
  {
    ThreeParts(m, ':', p);
  }

  lemma TwoDigitValue(n: nat)
    requires n < 60
    ensures var p := PadStartZero(NatToString(n), 2); |p| == 2 && AllDigits(p) && DigitsValue(p) == n
  {
    var p := PadStartZero(NatToString(n), 2);
    if n < 10 {
      var d := DigitChar(n);
      assert NatToString(n) == [d];
      assert p == PadStartZero(['0', d], 2) == ['0', d];
      assert p[..1] == ['0'];
      assert DigitsValue(['0']) == 0 by { assert ['0'][..0] == []; }
    } else {
      assert NatToString(n) == NatToString(n / 10) + [DigitChar(n % 10)];
      assert n / 10 < 10;
      DigitsValueOfNatToString(n);
    }
  }

  /** The clock at the start, after a minute and a few seconds, and at zero. */
  lemma FormatTimeExamples()
    ensures FormatTime(1200) == "20:00"
    ensures FormatTime(65) == "1:05"
    ensures FormatTime(0) == "0:00"
  {
    assert FormatTime(1200) == "20:00" by { FormatTimeOfNat(1200); ClockTexts(); }
    assert FormatTime(65) == "1:05" by { FormatTimeOfNat(65); ClockTexts(); }
    assert FormatTime(0) == "0:00" by { FormatTimeOfNat(0); ClockTexts(); }
  }

  lemma ClockTexts()
    ensures NatToString(20) + ":" + PadStartZero(NatToString(0), 2) == "20:00"
    ensures NatToString(1) + ":" + PadStartZero(NatToString(5), 2) == "1:05"
    ensures NatToString(0) + ":" + PadStartZero(NatToString(0), 2) == "0:00"
  {
    assert NatToString(20) == "20" by { assert NatToString(2) == "2"; }
    assert NatToString(0) == "0";
    assert PadStartZero("0", 2) == "00";
    assert PadStartZero("5", 2) == "05";
  }
}
