/** The immutable question object (src/TriviaService/TriviaQuestion.cs). */
module Questions {
  import opened Enums

  /** The constructor's arguments as one value; also the decoder's output. */
  datatype QuestionArgs = QuestionArgs(
    category: QuestionCategory,
    difficulty: QuestionDifficulty,
    questionType: QuestionType,
    question: string,
    correctAnswer: string,
    incorrectAnswers: seq<string>)

  /** Every field is `const`, so nothing changes a question once it is built.
      The class does not redefine equality: two question objects are the same
      only if they are the same reference. */
  class TriviaQuestion {
    const Category: QuestionCategory
    const Difficulty: QuestionDifficulty
    const Type: QuestionType
    const Question: string
    const CorrectAnswer: string
    /** A sequence is a value, so the stored list is the caller's elements in
        order and no later change to the caller's list can reach it. */
    const IncorrectAnswers: seq<string>

    constructor (category: QuestionCategory, difficulty: QuestionDifficulty, questionType: QuestionType,
                 question: string, correctAnswer: string, incorrectAnswers: seq<string>)
      ensures Category == category && Difficulty == difficulty && Type == questionType
      ensures Question == question && CorrectAnswer == correctAnswer
      ensures IncorrectAnswers == incorrectAnswers
      ensures Content() == QuestionArgs(category, difficulty, questionType, question, correctAnswer, incorrectAnswers)
    {
      Category := category;
      Difficulty := difficulty;
      Type := questionType;
      Question := question;
      CorrectAnswer := correctAnswer;
      IncorrectAnswers := incorrectAnswers;
    }

    /** The field values of this question. */
    function Content(): QuestionArgs {
      QuestionArgs(Category, Difficulty, Type, Question, CorrectAnswer, IncorrectAnswers)
    }

    /** `HashCode.Combine(Question, CorrectAnswer)`. The combiner is seeded
        randomly per process, so it is a parameter here. */
    function GetHashCode(combine: (string, string) -> int): int {
      combine(Question, CorrectAnswer)
    }
  }

  /** The hash depends only on the question text and the correct answer. */
  lemma HashIgnoresOtherFields(p: TriviaQuestion, q: TriviaQuestion, combine: (string, string) -> int)
    requires p.Question == q.Question && p.CorrectAnswer == q.CorrectAnswer
    ensures p.GetHashCode(combine) == q.GetHashCode(combine)
  {
  }
}
