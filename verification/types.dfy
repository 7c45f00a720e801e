/**
 The records of the learning platform: quiz questions, lessons, chat
 messages and subjects, together with the optional-value wrapper that stands
 for the source's `T | null` state slots.
 */
module Types {

  /** `T | null` in the components' state. */
  datatype Option<+T> = None | Some(value: T)

  /** One multiple-choice question. Nothing requires `correctAnswer` to be
      among `options`: the source never checks it. */
  datatype QuizQuestion = QuizQuestion(
    question: string,
    options: seq<string>,
    correctAnswer: string,
    explanation: string)

  datatype Lesson = Lesson(
    title: string,
    introduction: string,
    keyConcepts: seq<string>,
    detailedExplanation: string,
    funFact: string,
    quiz: seq<QuizQuestion>)

  datatype Sender = User | Bot

  datatype ChatMessage = ChatMessage(sender: Sender, text: string)

  /** A subject card, reduced to the two fields the core reads (the icon
      component and the description are presentation). */
  datatype Subject = Subject(name: string, color: string)
}
