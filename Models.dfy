/** The value types the quiz passes around. */
module Models {

  type Byte = b: int | 0 <= b < 256

  /** Raw image bytes, as Foundation's `Data`. */
  type Bytes = seq<Byte>

  datatype Option<T> = None | Some(value: T)

  /** One yes/no question: the poster image, the prompt and the answer that is correct. */
  datatype QuizQuestion = QuizQuestion(image: Bytes, text: string, correctAnswer: bool)

  /** The text fields of the view model shown for one step; the decoded
      `UIImage` is not part of this model. */
  datatype QuizStep = QuizStep(question: string, questionNumber: string)
}
