/**
 The quiz grading state machine of the Quiz component. Each handler is one
 atomic transition over the five state slots; the question list is fixed for
 the component's lifetime and never empty.
 */
module Quiz {

  import opened Types

  datatype QuizState = QuizState(
    currentQuestionIndex: int,
    selectedAnswer: Option<string>,
    isAnswered: bool,
    score: int,
    showResults: bool)

  /** The user actions the rendered component offers. */
  datatype Event = SelectAnswer(option: string) | NextQuestion | RestartQuiz

  /** The option-button styles. */
  const NeutralClass := "bg-white hover:bg-sky-100 border-slate-300"
  const CorrectClass := "bg-green-200 border-green-400 text-green-800 font-bold"
  const WrongClass := "bg-red-200 border-red-400 text-red-800 font-bold"
  const MutedClass := "bg-slate-100 border-slate-300 text-slate-500"

  /** The state the component mounts with. */
  const Initial := QuizState(0, None, false, 0, false)

  /** The index is a valid question, the answer latch and the recorded
      selection agree, and the score never exceeds the number of questions
      answered so far. */
  ghost predicate Valid(questions: seq<QuizQuestion>, st: QuizState) {
    && 0 <= st.currentQuestionIndex < |questions|
    && (st.isAnswered <==> st.selectedAnswer.Some?)
    && 0 <= st.score <= st.currentQuestionIndex + (if st.isAnswered then 1 else 0)
  }

  /** `handleAnswerSelect`: the first selection on a question records the
      option, latches the question and scores it when it is correct; any
      later selection is ignored. */
  function AnswerSelect(questions: seq<QuizQuestion>, st: QuizState, option: string): (r: QuizState)
    requires 0 <= st.currentQuestionIndex < |questions|
    ensures st.isAnswered ==> r == st
    ensures !st.isAnswered ==>
      && r.isAnswered
      && r.selectedAnswer == Some(option)
      && r.currentQuestionIndex == st.currentQuestionIndex
      && r.showResults == st.showResults
      && (r.score == st.score + 1 <==> option == questions[st.currentQuestionIndex].correctAnswer)
      && (r.score == st.score <==> option != questions[st.currentQuestionIndex].correctAnswer)
  {
    if st.isAnswered then st
    else
      var bonus := if option == questions[st.currentQuestionIndex].correctAnswer then 1 else 0;
      st.(selectedAnswer := Some(option), isAnswered := true, score := st.score + bonus)
  }

  /** `handleNextQuestion`: moves to the next question with a cleared
      selection, or, on the last question, only switches to the results. */
  function Next(questions: seq<QuizQuestion>, st: QuizState): (r: QuizState)
    ensures st.currentQuestionIndex < |questions| - 1 ==>
      && r.currentQuestionIndex == st.currentQuestionIndex + 1
      && r.selectedAnswer == None && !r.isAnswered
      && r.score == st.score && r.showResults == st.showResults
    ensures st.currentQuestionIndex >= |questions| - 1 ==>
      r == st.(showResults := true)
  {
    if st.currentQuestionIndex < |questions| - 1 then
      st.(currentQuestionIndex := st.currentQuestionIndex + 1, selectedAnswer := None, isAnswered := false)
    else
      st.(showResults := true)
  }

  /** `handleRestartQuiz`: every slot returns to its initial value. */
  function Restart(st: QuizState): (r: QuizState)
    ensures r.currentQuestionIndex == 0 && r.selectedAnswer == None
    ensures !r.isAnswered && r.score == 0 && !r.showResults
  {
    Initial
  }

  /** `getButtonClass`: the style of one option button. */
  function ButtonClass(questions: seq<QuizQuestion>, st: QuizState, option: string): (r: string)
    requires 0 <= st.currentQuestionIndex < |questions|
    ensures r == NeutralClass <==> !st.isAnswered
    ensures r == CorrectClass <==> st.isAnswered && option == questions[st.currentQuestionIndex].correctAnswer
    ensures r == WrongClass <==>
      st.isAnswered && option != questions[st.currentQuestionIndex].correctAnswer
      && st.selectedAnswer == Some(option)
    ensures r == MutedClass <==>
      st.isAnswered && option != questions[st.currentQuestionIndex].correctAnswer
      && st.selectedAnswer != Some(option)
  {
    if !st.isAnswered then NeutralClass
    else if option == questions[st.currentQuestionIndex].correctAnswer then CorrectClass
    else if st.selectedAnswer == Some(option) then WrongClass
    else MutedClass
  }

  /** The results panel replaces the question view. */
  predicate ShowsResults(st: QuizState) {
    st.showResults
  }

  /** Which events the rendered component offers: option buttons (enabled
      only before answering) and the Next button (only after answering) on
      the question view, and the Try Again button on the results view. */
  predicate Enabled(st: QuizState, e: Event) {
    match e
    case SelectAnswer(_) => !st.showResults && !st.isAnswered
    case NextQuestion => !st.showResults && st.isAnswered
    case RestartQuiz => st.showResults
  }

  function Step(questions: seq<QuizQuestion>, st: QuizState, e: Event): QuizState
    requires 0 <= st.currentQuestionIndex < |questions|
  {
    match e
    case SelectAnswer(o) => AnswerSelect(questions, st, o)
    case NextQuestion => Next(questions, st)
    case RestartQuiz => Restart(st)
  }

  /** The component mounts in a valid state. */
  lemma InitialValid(questions: seq<QuizQuestion>)
    requires |questions| > 0
    ensures Valid(questions, Initial)
  {
  }

  /** Every handler preserves the invariant, whether
      or not the rendered view offers that handler. */
  lemma StepPreservesValid(questions: seq<QuizQuestion>, st: QuizState, e: Event)
    requires Valid(questions, st)
    ensures Valid(questions, Step(questions, st, e))
  {
  }

  /** Whatever the sequence of handler calls, the index stays a valid
      question index and the score stays between 0 and the number of
      questions, so the displayed `score / questions.length` is at most 1. */
  lemma {:induction false} RunValid(questions: seq<QuizQuestion>, st: QuizState, events: seq<Event>)
    requires Valid(questions, st)
    ensures Valid(questions, Run(questions, st, events))
    ensures 0 <= Run(questions, st, events).score <= |questions|
    decreases |events|
  {
    if |events| > 0 {
      StepPreservesValid(questions, st, events[0]);
      RunValid(questions, Step(questions, st, events[0]), events[1..]);
    }
  }

  /** The state after handling `events` in order. */
  function Run(questions: seq<QuizQuestion>, st: QuizState, events: seq<Event>): QuizState
    requires Valid(questions, st)
    decreases |events|
  {
    if |events| == 0 then st
    else
      StepPreservesValid(questions, st, events[0]);
      Run(questions, Step(questions, st, events[0]), events[1..])
  }

  /** Reachable states: the results view is only ever reached from an
      answered question. */
  ghost predicate Reachable(questions: seq<QuizQuestion>, st: QuizState) {
    Valid(questions, st) && (st.showResults ==> st.isAnswered)
  }

  /** Offered events keep a state reachable. */
  lemma EnabledStepPreservesReachable(questions: seq<QuizQuestion>, st: QuizState, e: Event)
    requires Reachable(questions, st) && Enabled(st, e)
    ensures Reachable(questions, Step(questions, st, e))
  {
  }

  /** Every event of the sequence is offered by the view it is issued on. */
  ghost predicate AllEnabled(questions: seq<QuizQuestion>, st: QuizState, events: seq<Event>)
    requires Valid(questions, st)
    decreases |events|
  {
    |events| > 0 ==>
      Enabled(st, events[0])
      && (StepPreservesValid(questions, st, events[0]);
          AllEnabled(questions, Step(questions, st, events[0]), events[1..]))
  }

  /** Clicking only offered buttons from the initial state never reaches the
      results view without the last question having been answered. */
  lemma {:induction false} RunEnabledReachable(questions: seq<QuizQuestion>, st: QuizState, events: seq<Event>)
    requires Reachable(questions, st) && AllEnabled(questions, st, events)
    ensures Reachable(questions, Run(questions, st, events))
    decreases |events|
  {
    if |events| > 0 {
      EnabledStepPreservesReachable(questions, st, events[0]);
      RunEnabledReachable(questions, Step(questions, st, events[0]), events[1..]);
    }
  }

  /** Once answered, a question can never be scored again: every selection
      leaves the whole state unchanged. */
  lemma {:induction false} AnsweredQuestionIsLatched(questions: seq<QuizQuestion>, st: QuizState, options: seq<string>)
    requires Valid(questions, st) && st.isAnswered
    ensures Run(questions, st, SelectAll(options)) == st
    decreases |options|
  {
    if |options| > 0 {
      assert SelectAll(options)[0] == SelectAnswer(options[0]);
      assert SelectAll(options)[1..] == SelectAll(options[1..]);
      AnsweredQuestionIsLatched(questions, st, options[1..]);
    }
  }

  function SelectAll(options: seq<string>): (r: seq<Event>)
    ensures |r| == |options|
    ensures forall i :: 0 <= i < |options| ==> r[i] == SelectAnswer(options[i])
  {
    if |options| == 0 then [] else [SelectAnswer(options[0])] + SelectAll(options[1..])
  }

  /** The number of answers in `answers` that match the correct answer of
      the question at the same position. */
  function CountCorrect(questions: seq<QuizQuestion>, answers: seq<string>): (n: nat)
    requires |answers| <= |questions|
    ensures n <= |answers|
  {
    if |answers| == 0 then 0
    else
      CountCorrect(questions, answers[..|answers| - 1])
      + (if answers[|answers| - 1] == questions[|answers| - 1].correctAnswer then 1 else 0)
  }

  /** The event sequence of a student who answers every question in turn,
      pressing Next after each answer. */
  function TakeQuiz(answers: seq<string>): (r: seq<Event>)
    ensures |r| == 2 * |answers|
  {
    if |answers| == 0 then []
    else TakeQuiz(answers[..|answers| - 1]) + [SelectAnswer(answers[|answers| - 1]), NextQuestion]
  }

  lemma {:induction false} RunAppend(questions: seq<QuizQuestion>, st: QuizState, a: seq<Event>, b: seq<Event>)
    requires Valid(questions, st)
    ensures Valid(questions, Run(questions, st, a))
    ensures Run(questions, st, a + b) == Run(questions, Run(questions, st, a), b)
    decreases |a|
  {
    RunValid(questions, st, a);
    if |a| == 0 {
      assert a + b == b;
    } else {
      assert (a + b)[0] == a[0];
      assert (a + b)[1..] == a[1..] + b;
      StepPreservesValid(questions, st, a[0]);
      RunAppend(questions, Step(questions, st, a[0]), a[1..], b);
    }
  }

  /** One answer followed by Next. */
  lemma AnswerThenNext(questions: seq<QuizQuestion>, st: QuizState, option: string)
    requires Valid(questions, st)
    ensures Run(questions, st, [SelectAnswer(option), NextQuestion])
         == Next(questions, AnswerSelect(questions, st, option))
  {
    var s1 := Step(questions, st, SelectAnswer(option));
    StepPreservesValid(questions, st, SelectAnswer(option));
    assert [SelectAnswer(option), NextQuestion][1..] == [NextQuestion];
    assert [NextQuestion][1..] == [];
    assert Run(questions, s1, [NextQuestion]) == Run(questions, Next(questions, s1), []);
  }

  /** Answering the first `k` questions from the initial state (k below the
      number of questions) leaves the quiz on question `k`, unanswered, with
      the score counting the correct answers. */
  lemma {:induction false} TakeQuizPrefix(questions: seq<QuizQuestion>, answers: seq<string>)
    requires 0 < |questions| && |answers| < |questions|
    ensures Run(questions, Initial, TakeQuiz(answers))
         == QuizState(|answers|, None, false, CountCorrect(questions, answers), false)
    decreases |answers|
  {
    if |answers| > 0 {
      var k := |answers| - 1;
      var pre := answers[..k];
      TakeQuizPrefix(questions, pre);
      RunAppend(questions, Initial, TakeQuiz(pre), [SelectAnswer(answers[k]), NextQuestion]);
      var mid := QuizState(k, None, false, CountCorrect(questions, pre), false);
      AnswerThenNext(questions, mid, answers[k]);
      assert answers[..k] == pre;
    }
  }

  /** Answering every question in turn from the initial state ends on the
      results view with the score equal to the number of correct answers. */
  lemma {:induction false} TakeQuizScoresCorrectAnswers(questions: seq<QuizQuestion>, answers: seq<string>)
    requires 0 < |questions| && |answers| == |questions|
    ensures ShowsResults(Run(questions, Initial, TakeQuiz(answers)))
    ensures Run(questions, Initial, TakeQuiz(answers)).score == CountCorrect(questions, answers)
  {
    var k := |answers| - 1;
    var pre := answers[..k];
    TakeQuizPrefix(questions, pre);
    RunAppend(questions, Initial, TakeQuiz(pre), [SelectAnswer(answers[k]), NextQuestion]);
    var mid := QuizState(k, None, false, CountCorrect(questions, pre), false);
    AnswerThenNext(questions, mid, answers[k]);
  }

  /** After answering, the correct option is highlighted green whenever it is
      among the options, and at most the selected option is red, only when it
      is wrong. */
  lemma AnsweredColouring(questions: seq<QuizQuestion>, st: QuizState)
    requires Valid(questions, st) && st.isAnswered
    ensures var q := questions[st.currentQuestionIndex];
      forall o :: o in q.options && o == q.correctAnswer ==> ButtonClass(questions, st, o) == CorrectClass
    ensures var q := questions[st.currentQuestionIndex];
      forall o :: o in q.options && ButtonClass(questions, st, o) == WrongClass ==>
        st.selectedAnswer == Some(o) && o != q.correctAnswer
  {
  }
}
