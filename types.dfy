/** The record shapes shared by the components: one word of the day and its quiz. */
module Types {

  /** A multiple-choice question; `correctIndex` points into `options`. */
  datatype QuizData = QuizData(
    topic: string,
    question: string,
    options: seq<string>,
    correctIndex: int)

  /** One word-of-the-day entry. The source's `type` field is `partOfSpeech` here. */
  datatype WordData = WordData(
    id: int,
    word: string,
    phonetic: string,
    partOfSpeech: string,
    definition: string,
    example: string,
    etymology: string,
    quiz: QuizData)

  /** The shape invariant of a quiz: at least two options and a correct index among them. */
  predicate ValidQuiz(q: QuizData) {
    |q.options| >= 2 && 0 <= q.correctIndex < |q.options|
  }
}
