/** The shapes of the assessment domain as the backend sends them
    (src/types/assessment.ts). Scores are JavaScript numbers, modelled as
    `real`. */
module AssessmentTypes {
  import opened Basics

  datatype Difficulty = Easy | Medium | Hard

  datatype Question = Question(id: int, questionText: string, difficulty: Difficulty, isActive: bool)

  /** One attempt at a topic's question set. `status` is free text on the
      wire; the client only ever writes "completed" into it. */
  datatype Assessment = Assessment(
    id: int,
    topicId: int,
    topicName: string,
    questions: seq<Question>,
    startTime: string,
    status: string,
    totalScore: Option<real>)

  /** The grade the backend returns for one submitted answer. */
  datatype QuestionFeedback = QuestionFeedback(isCorrect: bool, score: real, feedback: string)

  datatype QuestionResult = QuestionResult(
    questionId: int,
    questionText: string,
    score: real,
    isCorrect: bool,
    userAnswer: string,
    feedback: string)

  datatype AssessmentResult = AssessmentResult(
    assessmentId: int,
    topicId: int,
    score: real,
    completedAt: string,
    questionResults: seq<QuestionResult>)

  /** Aggregate history of one topic, shown on the topic list. */
  datatype AssessmentSummary = AssessmentSummary(
    id: int,
    topicId: int,
    topicName: string,
    totalAttempts: int,
    bestScore: real,
    lastScore: real,
    lastAttemptDate: string,
    averageScore: real)

  const StatusCompleted: string := "completed"
}
