/** The record types shared by the quiz pages and hooks (`src/types/quiz.ts`). */
module QuizTypes {
  import opened Wrappers

  /** One answer choice; `id` is a letter "A" to "D". */
  datatype QuizOption = QuizOption(id: string, text: string)

  datatype QuizQuestion = QuizQuestion(
    id: int,
    question: string,
    options: seq<QuizOption>,
    correctAnswer: string,
    explanation: string)

  /** A quiz: its questions and the seconds allowed per question. */
  datatype QuizCategory = QuizCategory(
    id: string,
    name: string,
    description: string,
    icon: string,
    color: string,
    questions: seq<QuizQuestion>,
    timePerQuestion: int)

  /** The answer given to one question; `selectedAnswer` is `None` when time ran out. */
  datatype UserAnswer = UserAnswer(
    questionId: int,
    selectedAnswer: Option<string>,
    isCorrect: bool,
    timeTaken: int)

  datatype QuizAttempt = QuizAttempt(
    categoryId: string,
    date: string,
    score: int,
    totalQuestions: int,
    timeTaken: int,
    answers: seq<UserAnswer>)

  /**
   * The stored progress record. `lastQuizDate` is a day number: the source
   * stores `Date.toDateString()`, whose equality is equality of calendar days.
   */
  datatype QuizProgress = QuizProgress(
    attempts: seq<QuizAttempt>,
    bestScores: map<string, int>,
    totalQuizzesCompleted: int,
    currentStreak: int,
    lastQuizDate: Option<int>)
}
