/** The assessment review page (src/pages/AssessmentReviewPage.tsx): it
    loads one finished assessment's results, keeps a per-question
    expanded/collapsed map, and chooses between a spinner, an error panel
    and the review itself. */
module ReviewPage {
  import opened Basics
  import opened AssessmentTypes

  const LoadFailed: string := "Failed to load assessment results"

  /** The page's React state. `expanded` is the `ExpandedStates` object; a
      missing key reads as `undefined`, which is falsy. */
  datatype ReviewState = ReviewState(
    result: Option<AssessmentResult>,
    loading: bool,
    error: Option<string>,
    expanded: map<int, bool>)

  const InitialReview: ReviewState := ReviewState(None, true, None, map[])

  /** Whether question `i` is shown open: `expandedQuestions[i]` is truthy. */
  predicate IsExpanded(m: map<int, bool>, i: int) {
    i in m && m[i]
  }

  /** The map built after a successful load by the `forEach` over the
      results: one `true` entry per question index. */
  function AllExpanded(n: nat): (m: map<int, bool>)
    ensures forall i :: i in m <==> 0 <= i < n
    ensures forall i :: i in m ==> m[i]
  {
    if n == 0 then map[] else AllExpanded(n - 1)[n - 1 := true]
  }

  /** The mount effect, with the backend's answer as an input. Without a
      (truthy) route id nothing is fetched and the state does not change, so
      the spinner stays; otherwise the outcome is folded in and `loading` is
      cleared on both paths. */
  function Fetch(s: ReviewState, assessmentId: Option<string>, response: Response<AssessmentResult>): (r: ReviewState)
    ensures !Truthy(assessmentId) ==> r == s
    ensures Truthy(assessmentId) ==> !r.loading
    ensures Truthy(assessmentId) && response.Ok? ==>
      && r.result == Some(response.value)
      && r.error == s.error
      && forall i :: IsExpanded(r.expanded, i) <==> 0 <= i < |response.value.questionResults|
    ensures Truthy(assessmentId) && response.Err? ==>
      r == s.(loading := false, error := Some(LoadFailed))
  {
    if !Truthy(assessmentId) then s
    else match response
      case Ok(result) =>
        s.(result := Some(result), expanded := AllExpanded(|result.questionResults|), loading := false)
      case Err(_) =>
        s.(error := Some(LoadFailed), loading := false)
  }

  /** `toggleQuestion(index)`: entry `i` becomes the negation of what was
      shown, every other entry keeps its key and value. */
  function Toggle(m: map<int, bool>, i: int): (r: map<int, bool>)
    ensures r.Keys == m.Keys + {i}
    ensures IsExpanded(r, i) == !IsExpanded(m, i)
    ensures forall j :: j != i && j in m ==> r[j] == m[j]
  {
    m[i := !IsExpanded(m, i)]
  }

  function ToggleQuestion(s: ReviewState, i: int): (r: ReviewState)
    ensures r.result == s.result && r.loading == s.loading && r.error == s.error
    ensures forall j :: IsExpanded(r.expanded, j) <==> (if j == i then !IsExpanded(s.expanded, j) else IsExpanded(s.expanded, j))
  {
    s.(expanded := Toggle(s.expanded, i))
  }

  /** Toggling an entry that is already in the map twice gives back the very
      same map. */
  lemma ToggleTwiceRestores(m: map<int, bool>, i: int)
    requires i in m
    ensures Toggle(Toggle(m, i), i) == m
  {
  }

  /** Toggling any entry twice, defined or not, restores what every question
      shows (an undefined entry comes back as `false`, which looks the same). */
  lemma ToggleTwiceLooksSame(m: map<int, bool>, i: int, j: int)
    ensures IsExpanded(Toggle(Toggle(m, i), i), j) == IsExpanded(m, j)
  {
  }

  /** What the page renders. `open[k]` is whether question `k`'s details are
      shown. */
  datatype ReviewView =
    | Spinner
    | ErrorView(message: Option<string>)
    | Review(result: AssessmentResult, open: seq<bool>)

  /** Spinner while loading; otherwise the error panel when there is an
      error or no result; otherwise the review. */
  function ViewOf(s: ReviewState): (v: ReviewView)
    ensures v == Spinner <==> s.loading
    ensures v.ErrorView? <==> !s.loading && (Truthy(s.error) || s.result.None?)
    ensures v.ErrorView? ==> v.message == s.error
    ensures v.Review? ==>
      && s.result == Some(v.result)
      && |v.open| == |v.result.questionResults|
      && forall k :: 0 <= k < |v.open| ==> v.open[k] == IsExpanded(s.expanded, k)
  {
    if s.loading then Spinner
    else if Truthy(s.error) || s.result.None? then ErrorView(s.error)
    else Review(s.result.value, seq(|s.result.value.questionResults|, k => IsExpanded(s.expanded, k)))
  }

  /** From a fresh page, a successful load shows the review with every
      question open; a failed one shows the error panel with its message;
      a missing id keeps the spinner. */
  lemma LoadOutcomes(assessmentId: Option<string>, response: Response<AssessmentResult>)
    ensures !Truthy(assessmentId) ==> ViewOf(Fetch(InitialReview, assessmentId, response)) == Spinner
    ensures Truthy(assessmentId) && response.Ok? ==>
      var v := ViewOf(Fetch(InitialReview, assessmentId, response));
      && v.Review? && v.result == response.value
      && forall k :: 0 <= k < |v.open| ==> v.open[k]
    ensures Truthy(assessmentId) && response.Err? ==>
      ViewOf(Fetch(InitialReview, assessmentId, response)) == ErrorView(Some(LoadFailed))
  {
  }
}
