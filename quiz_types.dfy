/** The document shapes shared by the pages and the server: what is stored
    in the `quizzes` and `results` collections and what travels in request
    bodies. A field the source may leave absent is an Option; a string field
    whose absence, `null` and `''` the source treats alike (all falsy) is a
    plain string, with `''` standing for all three. */
module QuizTypes {
  import opened Wrappers

  /** One question: its text, its option texts, and the index of the right one. */
  datatype Question = Question(question: string, options: seq<string>, correctAnswer: int)

  /** A stored quiz. `createdBy` is the creator's user id; `totalAttempts` counts scored submissions. */
  datatype Quiz = Quiz(
    title: string,
    description: string,
    category: string,
    timeLimit: int,
    questions: seq<Question>,
    createdBy: nat,
    createdByName: string,
    createdAt: int,
    totalAttempts: nat)

  /** What a result's `quizId` holds: the id of a stored quiz, or the string `'api-quiz'`. */
  datatype QuizRef = StoredQuiz(id: nat) | ApiQuizSentinel

  /** A per-question record as the server writes it: indices, not texts. */
  datatype IndexOutcome = IndexOutcome(question: string, userAnswer: Option<int>, correctAnswer: int, isCorrect: bool)

  /** A per-question record as the quiz page writes it for a trivia quiz: option texts. */
  datatype TextOutcome = TextOutcome(question: string, userAnswer: string, correctAnswer: string, isCorrect: bool)

  datatype Outcomes = IndexOutcomes(byIndex: seq<IndexOutcome>) | TextOutcomes(byText: seq<TextOutcome>)

  /** A document of the `results` collection. `completedAt` is the server clock at insertion. */
  datatype ResultDoc = ResultDoc(
    userId: nat,
    userName: string,
    quizId: QuizRef,
    quizTitle: string,
    score: int,
    correctAnswers: int,
    totalQuestions: int,
    timeTaken: int,
    results: Outcomes,
    completedAt: int,
    isApiQuiz: bool)

  /** The body the create-quiz page posts. `timeLimit` is None when `parseInt` gave NaN. */
  datatype CreateQuizRequest = CreateQuizRequest(
    title: string,
    description: string,
    category: string,
    timeLimit: Option<int>,
    questions: seq<Question>)

  /** The marker the quiz page records for a question left unanswered. */
  const NoAnswer: string := "No answer"
}
