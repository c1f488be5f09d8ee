/**
 The entities the result section works on: the categorized questionnaire as
 loaded from the backend, and the user's answers, grouped per category.
 */
module Types {

  /** A value that may be JavaScript's `undefined` (None). */
  datatype Option<+T> = None | Some(value: T)

  /** The question types of the questionnaire; `Disagree` stands for every type other than `Agree`, the only one the code tests for. */
  datatype QuestionType = Agree | Disagree

  /** One survey item: its type and its polarity flag. */
  datatype Question = Question(questionType: QuestionType, agree: bool)

  /** A named group of questions; one axis of the result chart. */
  datatype Category = Category(title: string, questions: seq<Question>)

  /** One response. `Bool` is the numeric flag of the answer payload; only the value 1 means "true". */
  datatype Answer = Answer(Bool: int)

  /** The user's answers: one list per category, one answer per question, matched by position. */
  datatype TestAnswers = TestAnswers(answers: seq<seq<Answer>>)

  function Min(a: int, b: int): int
  {
    if a <= b then a else b
  }
}
