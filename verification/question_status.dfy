/** The per-question status icon of the review page
    (src/components/assessment/QuestionStatusIndicator.tsx): a cascade of
    threshold comparisons that sorts a score into one of five bands. */
module QuestionStatus {

  const PerfectScore: real := 100.0
  const HighScoreThreshold: real := 80.0
  const MediumScoreThreshold: real := 50.0
  const LowScoreThreshold: real := 1.0

  datatype Band = Perfect | Excellent | PartiallyCorrect | NeedsImprovement | Incorrect

  /** The half-open score interval each band covers, stated independently
      of the order in which the component tests the thresholds. */
  predicate InBand(b: Band, score: real) {
    match b
    case Perfect => PerfectScore <= score
    case Excellent => HighScoreThreshold <= score < PerfectScore
    case PartiallyCorrect => MediumScoreThreshold <= score < HighScoreThreshold
    case NeedsImprovement => LowScoreThreshold <= score < MediumScoreThreshold
    case Incorrect => score < LowScoreThreshold
  }

  /** The component's if/else-if cascade. The bands partition the scores:
      the result is the one and only band whose interval holds the score. */
  function Classify(score: real): (b: Band)
    ensures forall c: Band :: InBand(c, score) <==> c == b
  {
    if score >= PerfectScore then Perfect
    else if score >= HighScoreThreshold then Excellent
    else if score >= MediumScoreThreshold then PartiallyCorrect
    else if score >= LowScoreThreshold then NeedsImprovement
    else Incorrect
  }

  /** The tooltip the icon carries. */
  function Title(b: Band): string {
    match b
    case Perfect => "Perfect Score"
    case Excellent => "Excellent"
    case PartiallyCorrect => "Partially Correct"
    case NeedsImprovement => "Needs Improvement"
    case Incorrect => "Incorrect"
  }

  /** The title shown for a score, characterised by the score range that
      produces each of the five titles. */
  function StatusTitle(score: real): (t: string)
    ensures t == "Perfect Score" <==> score >= 100.0
    ensures t == "Excellent" <==> 80.0 <= score < 100.0
    ensures t == "Partially Correct" <==> 50.0 <= score < 80.0
    ensures t == "Needs Improvement" <==> 1.0 <= score < 50.0
    ensures t == "Incorrect" <==> score < 1.0
  {
    Title(Classify(score))
  }

  /** Bands ordered from worst to best. */
  function Rank(b: Band): nat {
    match b
    case Incorrect => 0
    case NeedsImprovement => 1
    case PartiallyCorrect => 2
    case Excellent => 3
    case Perfect => 4
  }

  /** Each threshold belongs to the band it opens, and everything below the
      lowest threshold, zero and negative scores included, is Incorrect. */
  lemma Boundaries(x: real)
    ensures Classify(100.0) == Perfect && Classify(80.0) == Excellent
    ensures Classify(50.0) == PartiallyCorrect && Classify(1.0) == NeedsImprovement
    ensures Classify(0.0) == Incorrect
    ensures x < 1.0 ==> Classify(x) == Incorrect
    ensures x >= 100.0 ==> Classify(x) == Perfect
  {
  }

  /** Raising a score never moves it to a worse band. */
  lemma Monotone(x: real, y: real)
    requires x <= y
    ensures Rank(Classify(x)) <= Rank(Classify(y))
  {
  }
}
