/** Entities shared by the authoring, taking and result screens of the quiz app. */
module QuizModel {

  datatype Option<+T> = None | Some(value: T)

  /** Lifecycle status of a stored quiz (`QUIZ_STATUS` in src/utils/constants.js). */
  datatype Status = Draft | Published

  /** One multiple-choice question: its prompt, its options and the index of the
      correct option. Nothing checks that `correctAnswer` indexes `options`. */
  datatype Question = Question(question: string, options: seq<string>, correctAnswer: int)

  /** A stored quiz as the document store hands it back. The time limit is in
      minutes and is whatever the author saved (no range check). */
  datatype Quiz = Quiz(
    id: string,
    title: string,
    description: string,
    questions: seq<Question>,
    timeLimit: int,
    status: Status)

  /** The navigation state the taking screen hands to the result screen. */
  datatype ResultState = ResultState(score: int, total: int, answers: map<int, int>, quizTitle: string)
}
