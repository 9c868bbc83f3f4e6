/** The topic list of one subject on the assessments side
    (src/pages/AssessmentTopicsPage.tsx): it loads the subject's topics and
    one assessment summary per topic, keys the summaries by topic id, and
    shows overall progress, a five-star rating and an attempt count. */
module TopicsPage {
  import opened Basics
  import opened AssessmentTypes

  const FetchFailed: string := "Failed to fetch topics"
  const StarCount: nat := 5
  /** Each star is worth this many percentage points of best score. */
  const PointsPerStar: real := 20.0

  datatype TopicDetail = TopicDetail(
    id: int,
    name: string,
    description: Option<string>,
    imageUrl: Option<string>,
    subjectId: int)

  datatype TopicSubject = TopicSubject(id: int, name: string, description: Option<string>, imageUrl: Option<string>)

  datatype TopicResponse = TopicResponse(subject: TopicSubject, topics: seq<TopicDetail>)

  datatype TopicsState = TopicsState(
    topics: seq<TopicDetail>,
    subject: Option<TopicSubject>,
    summaries: map<int, AssessmentSummary>,
    loading: bool,
    error: Option<string>)

  const InitialTopics: TopicsState := TopicsState([], None, map[], true, None)

  /** The ids that occur in a topic list. */
  function TopicIds(topics: seq<TopicDetail>): set<int> {
    set i | 0 <= i < |topics| :: topics[i].id
  }

  /** No later topic in the list carries the same id as topic `i`. */
  predicate LastWithId(topics: seq<TopicDetail>, i: int)
    requires 0 <= i < |topics|
  {
    forall j | i < j < |topics| :: topics[j].id != topics[i].id
  }

  /** Appending a topic adds its id to the id set. */
  lemma TopicIdsSnoc(topics: seq<TopicDetail>)
    requires |topics| > 0
    ensures TopicIds(topics) == TopicIds(topics[..|topics| - 1]) + {topics[|topics| - 1].id}
  {
    var n := |topics| - 1;
    assert forall i | 0 <= i < n :: topics[..n][i] == topics[i];
  }

  /** The `summaryMap` filled by the `forEach` over the summaries: the
      summary at position `i` is stored under `topics[i].id`, so the keys
      are exactly the topic ids and, when two topics share an id, the later
      one wins. */
  function SummaryMap(topics: seq<TopicDetail>, summaries: seq<AssessmentSummary>): (m: map<int, AssessmentSummary>)
    requires |summaries| == |topics|
    ensures m.Keys == TopicIds(topics)
    ensures forall i | 0 <= i < |topics| && LastWithId(topics, i) :: m[topics[i].id] == summaries[i]
  {
    if |topics| == 0 then map[]
    else
      var n := |topics| - 1;
      var m := SummaryMap(topics[..n], summaries[..n]);
      SummaryMapStep(topics, summaries, topics[..n], summaries[..n], m);
      m[topics[n].id := summaries[n]]
  }

  /** One step of the `forEach`: storing the last topic's summary over the
      map of all earlier ones. */
  lemma SummaryMapStep(topics: seq<TopicDetail>, summaries: seq<AssessmentSummary>,
                       prefix: seq<TopicDetail>, earlier: seq<AssessmentSummary>, m: map<int, AssessmentSummary>)
    requires |summaries| == |topics| > 0
    requires prefix == topics[..|topics| - 1] && earlier == summaries[..|topics| - 1]
    requires m.Keys == TopicIds(prefix)
    requires forall i | 0 <= i < |prefix| && LastWithId(prefix, i) :: m[prefix[i].id] == earlier[i]
    ensures var m' := m[topics[|topics| - 1].id := summaries[|topics| - 1]];
      && m'.Keys == TopicIds(topics)
      && forall i | 0 <= i < |topics| && LastWithId(topics, i) :: m'[topics[i].id] == summaries[i]
  {
    var n := |topics| - 1;
    var m' := m[topics[n].id := summaries[n]];
    TopicIdsSnoc(topics);
    assert m'.Keys == m.Keys + {topics[n].id};
    forall i | 0 <= i < |topics| && LastWithId(topics, i)
      ensures m'[topics[i].id] == summaries[i]
    {
      if i < n {
        EarlierTopicKeepsSummary(topics, summaries, prefix, earlier, m, i);
      }
    }
  }

  /** A topic that is the last with its id and not the last topic keeps the
      summary it was given before the last topic was stored. */
  lemma EarlierTopicKeepsSummary(topics: seq<TopicDetail>, summaries: seq<AssessmentSummary>,
                                 prefix: seq<TopicDetail>, earlier: seq<AssessmentSummary>,
                                 m: map<int, AssessmentSummary>, i: int)
    requires |summaries| == |topics| > 0
    requires prefix == topics[..|topics| - 1] && earlier == summaries[..|topics| - 1]
    requires m.Keys == TopicIds(prefix)
    requires forall i | 0 <= i < |prefix| && LastWithId(prefix, i) :: m[prefix[i].id] == earlier[i]
    requires 0 <= i < |topics| - 1 && LastWithId(topics, i)
    ensures topics[i].id != topics[|topics| - 1].id
    ensures topics[i].id in m && m[topics[i].id] == summaries[i]
  {
    var n := |topics| - 1;
    assert prefix[i] == topics[i];
    assert LastWithId(prefix, i) by {
      forall j | i < j < n
        ensures prefix[j].id != prefix[i].id
      {
        assert prefix[j] == topics[j];
      }
    }
    assert earlier[i] == summaries[i];
  }

  /** With distinct topic ids every topic finds its own summary. */
  lemma DistinctIdsFindOwnSummary(topics: seq<TopicDetail>, summaries: seq<AssessmentSummary>, i: int)
    requires |summaries| == |topics|
    requires forall a, b | 0 <= a < b < |topics| :: topics[a].id != topics[b].id
    requires 0 <= i < |topics|
    ensures topics[i].id in SummaryMap(topics, summaries)
    ensures SummaryMap(topics, summaries)[topics[i].id] == summaries[i]
  {
    assert LastWithId(topics, i);
  }

  /** A topic counts as attempted when it has a summary with at least one
      attempt. */
  predicate HasAttempted(m: map<int, AssessmentSummary>, topicId: int) {
    topicId in m && m[topicId].totalAttempts > 0
  }

  function AttemptedIds(m: map<int, AssessmentSummary>): set<int> {
    set k | k in m && HasAttempted(m, k)
  }

  lemma {:induction false} SubsetCardinality<T>(a: set<T>, b: set<T>)
    requires a <= b
    ensures |a| <= |b|
    decreases |b|
  {
    if a != {} {
      var x :| x in a;
      SubsetCardinality(a - {x}, b - {x});
    }
  }

  /** `completedTopics`: how many stored summaries record an attempt; never
      more than the number of summaries. */
  function CompletedTopics(m: map<int, AssessmentSummary>): (n: nat)
    ensures n <= |m|
    ensures n == 0 <==> forall k | k in m :: !HasAttempted(m, k)
  {
    var done := AttemptedIds(m);
    SubsetCardinality(done, m.Keys);
    assert forall k | k in m :: HasAttempted(m, k) ==> k in done;
    |done|
  }

  lemma {:induction false} TopicIdsBounded(topics: seq<TopicDetail>)
    ensures |TopicIds(topics)| <= |topics|
  {
    if |topics| > 0 {
      TopicIdsSnoc(topics);
      TopicIdsBounded(topics[..|topics| - 1]);
    }
  }

  /** The progress line "completed/total Topics Completed" never shows more
      completed topics than topics. */
  lemma ProgressNeverExceedsTotal(topics: seq<TopicDetail>, summaries: seq<AssessmentSummary>)
    requires |summaries| == |topics|
    ensures CompletedTopics(SummaryMap(topics, summaries)) <= |topics|
  {
    var m := SummaryMap(topics, summaries);
    TopicIdsBounded(topics);
    assert |m| == |m.Keys|;
  }

  predicate AllOk(responses: seq<Response<AssessmentSummary>>) {
    forall i | 0 <= i < |responses| :: responses[i].Ok?
  }

  /** The debounced load, with the backend's answers as inputs: the topic
      list first, then one summary request per returned topic, joined by
      `Promise.all` (which fails as soon as one request fails). Without a
      (truthy) subject id nothing happens. A failure of either stage sets
      the error; the topic list of a successful first stage is kept even
      when the summaries fail; `loading` is cleared on every outcome. */
  function Fetch(s: TopicsState, subjectId: Option<string>, topicsResponse: Response<TopicResponse>,
                 summaryResponses: seq<Response<AssessmentSummary>>): (r: TopicsState)
    requires topicsResponse.Ok? ==> |summaryResponses| == |topicsResponse.value.topics|
    ensures !Truthy(subjectId) ==> r == s
    ensures Truthy(subjectId) ==> !r.loading
    ensures Truthy(subjectId) && topicsResponse.Err? ==>
      r == s.(loading := false, error := Some(FetchFailed))
    ensures Truthy(subjectId) && topicsResponse.Ok? ==>
      && r.topics == topicsResponse.value.topics
      && r.subject == Some(topicsResponse.value.subject)
    ensures Truthy(subjectId) && topicsResponse.Ok? && AllOk(summaryResponses) ==>
      && r.error == s.error
      && r.summaries.Keys == TopicIds(r.topics)
      && forall i | 0 <= i < |r.topics| && LastWithId(r.topics, i) :: r.summaries[r.topics[i].id] == summaryResponses[i].value
    ensures Truthy(subjectId) && topicsResponse.Ok? && !AllOk(summaryResponses) ==>
      r.error == Some(FetchFailed) && r.summaries == s.summaries
  {
    if !Truthy(subjectId) then s
    else match topicsResponse
      case Err(_) => s.(loading := false, error := Some(FetchFailed))
      case Ok(resp) =>
        var withTopics := s.(topics := resp.topics, subject := Some(resp.subject));
        if AllOk(summaryResponses) then
          var summaries := seq(|summaryResponses|, i requires 0 <= i < |summaryResponses| => summaryResponses[i].value);
          withTopics.(summaries := SummaryMap(resp.topics, summaries), loading := false)
        else
          withTopics.(loading := false, error := Some(FetchFailed))
  }

  /** The progress bound holds on every state one load reaches from the
      page's initial state: the topic list and the map then come from the
      same answer, or the map is still empty. */
  lemma ProgressBoundAfterLoad(subjectId: Option<string>, topicsResponse: Response<TopicResponse>,
                               summaryResponses: seq<Response<AssessmentSummary>>)
    requires topicsResponse.Ok? ==> |summaryResponses| == |topicsResponse.value.topics|
    ensures var r := Fetch(InitialTopics, subjectId, topicsResponse, summaryResponses);
      CompletedTopics(r.summaries) <= |r.topics|
  {
    var r := Fetch(InitialTopics, subjectId, topicsResponse, summaryResponses);
    if Truthy(subjectId) && topicsResponse.Ok? && AllOk(summaryResponses) {
      var summaries := seq(|summaryResponses|, i requires 0 <= i < |summaryResponses| => summaryResponses[i].value);
      assert r.summaries == SummaryMap(topicsResponse.value.topics, summaries);
      ProgressNeverExceedsTotal(topicsResponse.value.topics, summaries);
    } else {
      assert r.summaries == map[];
    }
  }

  /** A later load whose summaries fail keeps the previous map next to the
      new topic list, so the progress line can then show more completed
      topics than topics: two attempted topics are kept while the new list
      has one. */
  lemma StaleProgressAfterFailedReload(before: TopicsState, resp: TopicResponse, done: AssessmentSummary)
    requires done.totalAttempts > 0 && |resp.topics| == 1
    requires before.summaries == map[1 := done, 2 := done]
    ensures var r := Fetch(before, Some("1"), Ok(resp), [Err(ServiceError(None, None, None))]);
      CompletedTopics(r.summaries) == 2 > |r.topics|
  {
    var m := before.summaries;
    assert AttemptedIds(m) == {1, 2} by {
      assert HasAttempted(m, 1) && HasAttempted(m, 2);
    }
  }

  /** The page title: the subject's name, or "Topics" when there is none. */
  function Title(s: TopicsState): (t: string)
    ensures s.subject.Some? && s.subject.value.name != "" ==> t == s.subject.value.name
    ensures s.subject.None? || s.subject.value.name == "" ==> t == "Topics"
  {
    if s.subject.Some? then OrElse(Some(s.subject.value.name), "Topics") else "Topics"
  }

  /** The five stars: star `k` (1-based, stored at index `k - 1`) is lit
      when `k <= best/20`, that is when the best score reaches `20k`. */
  function Stars(best: real): (lit: seq<bool>)
    ensures |lit| == StarCount
    ensures forall i | 0 <= i < StarCount :: lit[i] <==> ((i + 1) as real) * PointsPerStar <= best
  {
    seq(StarCount, i requires 0 <= i < StarCount => (i + 1) as real <= best / PointsPerStar)
  }

  function CountLit(lit: seq<bool>): (n: nat)
    ensures n <= |lit|
  {
    if lit == [] then 0 else (if lit[0] then 1 else 0) + CountLit(lit[1..])
  }

  /** The lit stars always form a prefix: a lit star has only lit stars
      before it. */
  lemma StarsArePrefix(best: real, k: int, j: int)
    requires 0 <= j <= k < StarCount
    ensures Stars(best)[k] ==> Stars(best)[j]
  {
  }

  /** For a whole-number best score the number of lit stars is the score
      divided by 20, rounded down, between 0 and 5: 100 lights all five, 59
      lights two. */
  lemma {:induction false} StarCountOfScore(best: int)
    ensures CountLit(Stars(best as real)) == if best < 0 then 0 else if best / 20 > 5 then 5 else best / 20
  {
    var lit := Stars(best as real);
    assert CountLit(lit[5..]) == 0;
    assert CountLit(lit[4..]) == (if lit[4] then 1 else 0) by { assert lit[4..][1..] == lit[5..]; }
    assert CountLit(lit[3..]) == (if lit[3] then 1 else 0) + CountLit(lit[4..]) by { assert lit[3..][1..] == lit[4..]; }
    assert CountLit(lit[2..]) == (if lit[2] then 1 else 0) + CountLit(lit[3..]) by { assert lit[2..][1..] == lit[3..]; }
    assert CountLit(lit[1..]) == (if lit[1] then 1 else 0) + CountLit(lit[2..]) by { assert lit[1..][1..] == lit[2..]; }
    assert CountLit(lit) == (if lit[0] then 1 else 0) + CountLit(lit[1..]);
    assert lit[0] <==> 20 <= best;
    assert lit[1] <==> 40 <= best;
    assert lit[2] <==> 60 <= best;
    assert lit[3] <==> 80 <= best;
    assert lit[4] <==> 100 <= best;
  }

  /** The noun after the attempt count: singular exactly for one attempt. */
  function AttemptWord(totalAttempts: int): (w: string)
    ensures w == "attempt" <==> totalAttempts == 1
    ensures w == "attempts" <==> totalAttempts != 1
  {
    "attempt" + (if totalAttempts != 1 then "s" else "")
  }

  /** What one topic card shows below its name. */
  datatype Card =
    | Completed(stars: seq<bool>, bestScore: real, attempts: int, attemptWord: string, lastScore: real)
    | StartPrompt

  function CardOf(m: map<int, AssessmentSummary>, topic: TopicDetail): (c: Card)
    ensures c.Completed? <==> HasAttempted(m, topic.id)
    ensures c.Completed? ==>
      && c.bestScore == m[topic.id].bestScore
      && c.attempts == m[topic.id].totalAttempts > 0
      && c.attemptWord == AttemptWord(c.attempts)
      && c.stars == Stars(c.bestScore)
      && c.lastScore == m[topic.id].lastScore
  {
    if HasAttempted(m, topic.id) then
      var summary := m[topic.id];
      Completed(Stars(summary.bestScore), summary.bestScore, summary.totalAttempts,
                AttemptWord(summary.totalAttempts), summary.lastScore)
    else StartPrompt
  }
}
