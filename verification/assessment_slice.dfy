/** The assessment store (src/store/slices/assessmentSlice.ts): a reducer
    over the session state and the four async thunks that call the backend
    and fold its answer into the state. A thunk is modelled as a function
    from the backend's response to a settled outcome; dispatching it is the
    `pending` reduction followed by the `fulfilled` or `rejected` one. */
module AssessmentSlice {
  import opened Basics
  import opened AssessmentTypes

  /** The value a thunk rejects with (`rejectWithValue`). */
  datatype ThunkError = ThunkError(message: string, statusCode: Option<int>)

  /** How a thunk settles. */
  datatype Settled<+T> = Fulfilled(value: T) | Rejected(reason: ThunkError)

  datatype SubmitPayload = SubmitPayload(questionId: int, answer: string, feedback: QuestionFeedback)

  datatype SummaryPayload = SummaryPayload(topicId: int, summary: AssessmentSummary)

  /** The body of a completion response; `score` is None when the field is
      not a number. */
  datatype CompletionPayload = CompletionPayload(
    assessmentId: int,
    topicId: int,
    score: Option<real>,
    completedAt: string,
    questionResults: seq<QuestionResult>)

  datatype State = State(
    currentAssessment: Option<Assessment>,
    currentQuestionIndex: int,
    answers: map<int, string>,
    feedback: map<int, QuestionFeedback>,
    results: Option<AssessmentResult>,
    topicSummaries: map<int, AssessmentSummary>,
    loading: bool,
    error: Option<string>,
    submitLoading: bool,
    completionLoading: bool)

  const InitialState: State :=
    State(None, 0, map[], map[], None, map[], false, None, false, false)

  datatype Action =
    | SetCurrentQuestionIndex(index: int)
    | ResetAssessment
    | ClearError
    | StartPending
    | StartSettled(start: Settled<Assessment>)
    | SubmitPending
    | SubmitSettled(submit: Settled<SubmitPayload>)
    | CompletePending
    | CompleteSettled(complete: Settled<AssessmentResult>)
    | SummaryPending
    | SummarySettled(summary: Settled<SummaryPayload>)

  const InvalidAssessmentMessage: string := "Invalid assessment data received"
  const StartFailedMessage: string := "Failed to start assessment"
  const EmptyAnswerMessage: string := "Answer cannot be empty"
  const SubmitFailedMessage: string := "Failed to submit answer"
  const InvalidCompletionMessage: string := "Invalid completion data received"
  const CompleteFailedMessage: string := "Failed to complete assessment"
  const NoSummaryMessage: string := "No summary available"
  const SummaryFailedMessage: string := "Failed to fetch summary"

  /** The number of questions of the current assessment, 0 without one. */
  function QuestionCount(s: State): nat {
    if s.currentAssessment.Some? then |s.currentAssessment.value.questions| else 0
  }

  /** The largest index `setCurrentQuestionIndex` stores: `(length || 1) - 1`. */
  function MaxIndex(s: State): nat {
    if QuestionCount(s) == 0 then 0 else QuestionCount(s) - 1
  }

  /** The store's invariant: every answered question has its feedback and
      vice versa, and the index points into the question list (or is 0). */
  predicate Valid(s: State) {
    && s.answers.Keys == s.feedback.Keys
    && 0 <= s.currentQuestionIndex <= MaxIndex(s)
  }

  /** A backend failure as a thunk rejection: the server's `error` text, or
      the thunk's own message when there is none. */
  function RejectFrom<T>(e: ServiceError, fallback: string): (r: Settled<T>)
    ensures r.Rejected? && r.reason.statusCode == e.status
    ensures Truthy(e.error) ==> r.reason.message == e.error.value
    ensures !Truthy(e.error) ==> r.reason.message == fallback
  {
    Rejected(ThunkError(OrElse(e.error, fallback), e.status))
  }

  // ---------------------------------------------------------------- thunks

  /** `startAssessment`: a missing body or an empty question list is a
      validation failure (HTTP 400); any backend failure keeps its status. */
  function StartThunk(response: Response<Option<Assessment>>): (r: Settled<Assessment>)
    ensures r.Fulfilled? <==>
      response.Ok? && response.value.Some? && |response.value.value.questions| > 0
    ensures r.Fulfilled? ==> r.value == response.value.value
    ensures response.Ok? && r.Rejected? ==>
      r.reason == ThunkError(InvalidAssessmentMessage, Some(400))
    ensures response.Err? ==>
      r.reason == ThunkError(OrElse(response.err.error, StartFailedMessage), response.err.status)
    ensures r.Rejected? ==> r.reason.message != ""
  {
    match response
    case Err(e) => RejectFrom(e, StartFailedMessage)
    case Ok(body) =>
      if body.None? || |body.value.questions| == 0 then
        Rejected(ThunkError(InvalidAssessmentMessage, Some(400)))
      else Fulfilled(body.value)
  }

  /** `submitAnswer`: an answer that trims to nothing is refused before the
      backend is asked, so the response plays no part in the outcome. */
  function SubmitThunk(questionId: int, answer: string, response: Response<QuestionFeedback>): (r: Settled<SubmitPayload>)
    ensures IsBlank(answer) ==> r == Rejected(ThunkError(EmptyAnswerMessage, Some(400)))
    ensures !IsBlank(answer) && response.Ok? ==>
      r == Fulfilled(SubmitPayload(questionId, answer, response.value))
    ensures !IsBlank(answer) && response.Err? ==>
      r == Rejected(ThunkError(OrElse(response.err.error, SubmitFailedMessage), response.err.status))
    ensures r.Rejected? ==> r.reason.message != ""
  {
    if IsBlank(answer) then Rejected(ThunkError(EmptyAnswerMessage, Some(400)))
    else match response
      case Ok(fb) => Fulfilled(SubmitPayload(questionId, answer, fb))
      case Err(e) => RejectFrom(e, SubmitFailedMessage)
  }

  /** `completeAssessment`: the response must carry a numeric score. */
  function CompleteThunk(response: Response<Option<CompletionPayload>>): (r: Settled<AssessmentResult>)
    ensures r.Fulfilled? <==> response.Ok? && response.value.Some? && response.value.value.score.Some?
    ensures r.Fulfilled? ==>
      var p := response.value.value;
      r.value == AssessmentResult(p.assessmentId, p.topicId, p.score.value, p.completedAt, p.questionResults)
    ensures response.Ok? && r.Rejected? ==>
      r.reason == ThunkError(InvalidCompletionMessage, Some(400))
    ensures response.Err? ==>
      r.reason == ThunkError(OrElse(response.err.error, CompleteFailedMessage), response.err.status)
    ensures r.Rejected? ==> r.reason.message != ""
  {
    match response
    case Err(e) => RejectFrom(e, CompleteFailedMessage)
    case Ok(body) =>
      if body.None? || body.value.score.None? then
        Rejected(ThunkError(InvalidCompletionMessage, Some(400)))
      else
        var p := body.value;
        Fulfilled(AssessmentResult(p.assessmentId, p.topicId, p.score.value, p.completedAt, p.questionResults))
  }

  /** `fetchAssessmentSummary`: an empty body is reported as 404. */
  function SummaryThunk(topicId: int, response: Response<Option<AssessmentSummary>>): (r: Settled<SummaryPayload>)
    ensures r.Fulfilled? <==> response.Ok? && response.value.Some?
    ensures r.Fulfilled? ==> r.value == SummaryPayload(topicId, response.value.value)
    ensures response.Ok? && r.Rejected? ==> r.reason == ThunkError(NoSummaryMessage, Some(404))
    ensures response.Err? ==>
      r.reason == ThunkError(OrElse(response.err.error, SummaryFailedMessage), response.err.status)
    ensures r.Rejected? ==> r.reason.message != ""
  {
    match response
    case Err(e) => RejectFrom(e, SummaryFailedMessage)
    case Ok(body) =>
      if body.None? then Rejected(ThunkError(NoSummaryMessage, Some(404)))
      else Fulfilled(SummaryPayload(topicId, body.value))
  }

  // -------------------------------------------------------------- reducers

  /** `setCurrentQuestionIndex`: the payload clamped into the question list. */
  function SetIndex(s: State, index: int): (r: State)
    ensures 0 <= r.currentQuestionIndex <= MaxIndex(s)
    ensures 0 <= index <= MaxIndex(s) ==> r.currentQuestionIndex == index
    ensures index < 0 ==> r.currentQuestionIndex == 0
    ensures index > MaxIndex(s) ==> r.currentQuestionIndex == MaxIndex(s)
    ensures s.currentAssessment.None? ==> r.currentQuestionIndex == 0
    ensures r == s.(currentQuestionIndex := r.currentQuestionIndex)
  {
    var lower := if index < 0 then 0 else index;
    s.(currentQuestionIndex := if lower < MaxIndex(s) then lower else MaxIndex(s))
  }

  /** The message a `rejected` reduction stores: the rejection's message, or
      the reducer's own default when that message is empty. */
  function ErrorText(reason: ThunkError, fallback: string): (m: string)
    ensures reason.message != "" ==> m == reason.message
    ensures reason.message == "" ==> m == fallback
  {
    if reason.message != "" then reason.message else fallback
  }

  function StartSettledReducer(s: State, o: Settled<Assessment>): (r: State)
    ensures !r.loading
    ensures o.Fulfilled? ==>
      && r.currentAssessment == Some(o.value)
      && r.currentQuestionIndex == 0
      && r.answers == map[] && r.feedback == map[]
      && r.results.None?
      && r.error == s.error
    ensures o.Rejected? ==>
      && r.error == Some(ErrorText(o.reason, StartFailedMessage))
      && r.(loading := s.loading, error := s.error) == s
    ensures r.topicSummaries == s.topicSummaries
    ensures r.submitLoading == s.submitLoading && r.completionLoading == s.completionLoading
  {
    match o
    case Fulfilled(a) =>
      s.(loading := false, currentAssessment := Some(a), currentQuestionIndex := 0,
         answers := map[], feedback := map[], results := None)
    case Rejected(e) =>
      s.(loading := false, error := Some(ErrorText(e, StartFailedMessage)))
  }

  function SubmitSettledReducer(s: State, o: Settled<SubmitPayload>): (r: State)
    ensures !r.submitLoading
    ensures o.Fulfilled? ==>
      && r.answers == s.answers[o.value.questionId := o.value.answer]
      && r.feedback == s.feedback[o.value.questionId := o.value.feedback]
      && r.(answers := s.answers, feedback := s.feedback, submitLoading := s.submitLoading) == s
    ensures o.Rejected? ==>
      && r.error == Some(ErrorText(o.reason, SubmitFailedMessage))
      && r.(submitLoading := s.submitLoading, error := s.error) == s
  {
    match o
    case Fulfilled(p) =>
      s.(submitLoading := false,
         answers := s.answers[p.questionId := p.answer],
         feedback := s.feedback[p.questionId := p.feedback])
    case Rejected(e) =>
      s.(submitLoading := false, error := Some(ErrorText(e, SubmitFailedMessage)))
  }

  function CompleteSettledReducer(s: State, o: Settled<AssessmentResult>): (r: State)
    ensures !r.completionLoading
    ensures o.Fulfilled? ==> r.results == Some(o.value)
    ensures o.Fulfilled? && s.currentAssessment.Some? ==>
      && r.currentAssessment.Some?
      && r.currentAssessment.value.status == StatusCompleted
      && r.currentAssessment.value.totalScore == Some(o.value.score)
      && r.currentAssessment.value.(status := s.currentAssessment.value.status,
                                    totalScore := s.currentAssessment.value.totalScore)
         == s.currentAssessment.value
    ensures o.Fulfilled? ==>
      r.(currentAssessment := s.currentAssessment, results := s.results,
         completionLoading := s.completionLoading) == s
    ensures o.Rejected? ==>
      && r.error == Some(ErrorText(o.reason, CompleteFailedMessage))
      && r.(completionLoading := s.completionLoading, error := s.error) == s
  {
    match o
    case Fulfilled(res) =>
      var a := if s.currentAssessment.Some? then
          Some(s.currentAssessment.value.(status := StatusCompleted, totalScore := Some(res.score)))
        else None;
      s.(completionLoading := false, results := Some(res), currentAssessment := a)
    case Rejected(e) =>
      s.(completionLoading := false, error := Some(ErrorText(e, CompleteFailedMessage)))
  }

  /** The slice reducer: one transition per action. */
  function Reduce(s: State, a: Action): (r: State)
    ensures a.ResetAssessment? ==> r == InitialState
    ensures a.ClearError? ==> r.error.None? && r.(error := s.error) == s
    ensures a.StartPending? ==> r.loading && r.error.None? && r.(loading := s.loading, error := s.error) == s
    ensures a.SubmitPending? ==> r.submitLoading && r.error.None? && r.(submitLoading := s.submitLoading, error := s.error) == s
    ensures a.CompletePending? ==> r.completionLoading && r.error.None? && r.(completionLoading := s.completionLoading, error := s.error) == s
    ensures a.SummaryPending? || (a.SummarySettled? && a.summary.Rejected?) ==> r == s
    ensures a.SummarySettled? && a.summary.Fulfilled? ==>
      r == s.(topicSummaries := s.topicSummaries[a.summary.value.topicId := a.summary.value.summary])
    ensures a.CompleteSettled? && s.currentAssessment.Some? ==>
      r.currentAssessment.Some? && r.currentAssessment.value.questions == s.currentAssessment.value.questions
  {
    match a
    case SetCurrentQuestionIndex(i) => SetIndex(s, i)
    case ResetAssessment => InitialState
    case ClearError => s.(error := None)
    case StartPending => s.(loading := true, error := None)
    case StartSettled(o) => StartSettledReducer(s, o)
    case SubmitPending => s.(submitLoading := true, error := None)
    case SubmitSettled(o) => SubmitSettledReducer(s, o)
    case CompletePending => s.(completionLoading := true, error := None)
    case CompleteSettled(o) => CompleteSettledReducer(s, o)
    case SummaryPending => s
    case SummarySettled(o) =>
      if o.Fulfilled? then s.(topicSummaries := s.topicSummaries[o.value.topicId := o.value.summary]) else s
  }

  /** Every action keeps the store invariant. */
  lemma ReduceKeepsValid(s: State, a: Action)
    ensures Valid(s) ==> Valid(Reduce(s, a))
  {
    if Valid(s) {
      match a
      case StartSettled(o) =>
        StartKeepsValid(s, o);
      case SubmitSettled(o) =>
        SubmitKeepsValid(s, o);
      case CompleteSettled(o) =>
        CompleteKeepsValid(s, o);
      case SummarySettled(o) =>
        assert Reduce(s, a).(topicSummaries := s.topicSummaries) == s;
      case _ =>
    }
  }

  lemma StartKeepsValid(s: State, o: Settled<Assessment>)
    requires Valid(s)
    ensures Valid(StartSettledReducer(s, o))
  {
  }

  lemma SubmitKeepsValid(s: State, o: Settled<SubmitPayload>)
    requires Valid(s)
    ensures Valid(SubmitSettledReducer(s, o))
  {
  }

  lemma CompleteKeepsValid(s: State, o: Settled<AssessmentResult>)
    requires Valid(s)
    ensures Valid(CompleteSettledReducer(s, o))
  {
    var r := CompleteSettledReducer(s, o);
    assert QuestionCount(r) == QuestionCount(s);
  }

  /** Only a settled start or complete can install a different assessment. */
  lemma OnlyLoadsReplaceAssessment(s: State, a: Action)
    ensures var r := Reduce(s, a);
      r.currentAssessment != s.currentAssessment && r.currentAssessment.Some? ==>
        a.StartSettled? || a.CompleteSettled?
  {
  }

  /** The store after any sequence of actions. */
  function ReduceAll(s: State, actions: seq<Action>): State
    decreases |actions|
  {
    if actions == [] then s else ReduceAll(Reduce(s, actions[0]), actions[1..])
  }

  /** The store's invariant holds from the initial state on, whatever is
      dispatched. */
  lemma {:induction false} ValidAfterAnyActions(s: State, actions: seq<Action>)
    requires Valid(s)
    ensures Valid(ReduceAll(s, actions))
    decreases |actions|
  {
    if actions != [] {
      ReduceKeepsValid(s, actions[0]);
      ValidAfterAnyActions(Reduce(s, actions[0]), actions[1..]);
    }
  }

  // ------------------------------------------------------------- dispatches

  /** `dispatch(startAssessment(topicId))` with the backend's response. */
  function DispatchStart(s: State, response: Response<Option<Assessment>>): (r: State)
    ensures !r.loading
    ensures r.topicSummaries == s.topicSummaries
    ensures r.submitLoading == s.submitLoading && r.completionLoading == s.completionLoading
    ensures StartThunk(response).Fulfilled? ==>
      && r.currentAssessment.Some?
      && |r.currentAssessment.value.questions| > 0
      && r.currentQuestionIndex == 0
      && r.answers == map[] && r.feedback == map[]
      && r.results.None? && r.error.None?
    ensures StartThunk(response).Rejected? ==>
      && r.currentAssessment == s.currentAssessment
      && r.answers == s.answers && r.feedback == s.feedback
      && r.error == Some(StartThunk(response).reason.message)
    ensures response.Ok? && StartThunk(response).Rejected? ==> r.error == Some(InvalidAssessmentMessage)
    ensures Valid(s) ==> Valid(r)
  {
    var pending := Reduce(s, StartPending);
    ReduceKeepsValid(s, StartPending);
    ReduceKeepsValid(pending, StartSettled(StartThunk(response)));
    Reduce(pending, StartSettled(StartThunk(response)))
  }

  /** `dispatch(submitAnswer({assessmentId, questionId, answer}))`. */
  function DispatchSubmit(s: State, questionId: int, answer: string, response: Response<QuestionFeedback>): (r: State)
    ensures !r.submitLoading
    ensures IsBlank(answer) ==> r.error == Some(EmptyAnswerMessage)
    ensures !IsBlank(answer) && response.Ok? ==>
      && r.answers == s.answers[questionId := answer]
      && r.feedback == s.feedback[questionId := response.value]
      && r.error.None?
    ensures IsBlank(answer) || response.Err? ==>
      r.answers == s.answers && r.feedback == s.feedback && r.error.Some?
    ensures r.currentAssessment == s.currentAssessment
    ensures r.currentQuestionIndex == s.currentQuestionIndex
    ensures r.loading == s.loading && r.completionLoading == s.completionLoading
    ensures Valid(s) ==> Valid(r)
  {
    var pending := Reduce(s, SubmitPending);
    ReduceKeepsValid(s, SubmitPending);
    ReduceKeepsValid(pending, SubmitSettled(SubmitThunk(questionId, answer, response)));
    Reduce(pending, SubmitSettled(SubmitThunk(questionId, answer, response)))
  }

  /** `dispatch(completeAssessment(assessmentId))`. */
  function DispatchComplete(s: State, response: Response<Option<CompletionPayload>>): (r: State)
    ensures !r.completionLoading
    ensures CompleteThunk(response).Fulfilled? ==>
      && r.results == Some(CompleteThunk(response).value)
      && r.error.None?
      && (s.currentAssessment.Some? ==>
           && r.currentAssessment.Some?
           && r.currentAssessment.value.status == StatusCompleted
           && r.currentAssessment.value.totalScore == Some(response.value.value.score.value))
      && (s.currentAssessment.None? ==> r.currentAssessment.None?)
    ensures CompleteThunk(response).Rejected? ==>
      && r.currentAssessment == s.currentAssessment
      && r.results == s.results
      && r.error == Some(CompleteThunk(response).reason.message)
    ensures r.answers == s.answers && r.feedback == s.feedback
    ensures r.currentQuestionIndex == s.currentQuestionIndex
    ensures r.loading == s.loading && r.submitLoading == s.submitLoading
    ensures Valid(s) ==> Valid(r)
  {
    var pending := Reduce(s, CompletePending);
    ReduceKeepsValid(s, CompletePending);
    ReduceKeepsValid(pending, CompleteSettled(CompleteThunk(response)));
    Reduce(pending, CompleteSettled(CompleteThunk(response)))
  }

  /** `dispatch(fetchAssessmentSummary(topicId))`: only a successful fetch
      touches the state; there is no pending or rejected reduction. */
  function DispatchSummary(s: State, topicId: int, response: Response<Option<AssessmentSummary>>): (r: State)
    ensures response.Ok? && response.value.Some? ==>
      r == s.(topicSummaries := s.topicSummaries[topicId := response.value.value])
    ensures !(response.Ok? && response.value.Some?) ==> r == s
  {
    Reduce(Reduce(s, SummaryPending), SummarySettled(SummaryThunk(topicId, response)))
  }
}
