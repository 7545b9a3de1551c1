/**
 * The records of the daily quiz: a quiz with its questions and answer key,
 * one submitted attempt, and the result shown to the submitter.
 *
 * Timestamps are milliseconds since the epoch (what `Date.getTime()` yields);
 * dates and names are opaque strings.
 */
module QuizTypes {

  datatype Option<T> = None | Some(value: T)

  /** A question: its prompt, its options, and the index of the correct option. */
  datatype Question = Question(q: string, options: seq<string>, answer: int)

  /** The quiz of one calendar day. */
  datatype Quiz = Quiz(date: string, subject: string, questions: seq<Question>, createdBy: string)

  /**
   * One submission. `answers` is the selection array as submitted: an entry
   * that was never clicked (a hole, or `undefined`) is `None`.
   */
  datatype QuizAttempt = QuizAttempt(
    studentName: string,
    answers: seq<Option<int>>,
    score: int,
    total: int,
    submittedAt: int)

  /** The summary shown to the submitter; `rank` is optional in the record. */
  datatype QuizResult = QuizResult(
    userId: string,
    score: int,
    totalQuestions: int,
    date: string,
    rank: Option<nat>)

  /** The part of the signed-in user profile that submitting a quiz reads. */
  datatype UserProfile = UserProfile(uid: string, name: string)
}
