/**
 The lesson request form of the LessonView component: the blank-topic gate,
 the loading and error transitions around one awaited generator call, and
 the heading's colour class derived from the subject's background class.
 The view is generic in the lesson payload `L` the generator produces.
 */
module LessonView {

  import opened Types
  import opened JsString
  import Constants
  import GeminiService

  datatype LessonViewState = LessonViewState(topic: string, isLoading: bool, error: Option<string>)

  const EnterTopicMessage := "Please enter a topic to learn about."
  const UnknownErrorMessage := "An unknown error occurred."

  /** The state the form mounts with. */
  const Initial := LessonViewState("", false, None)

  /** A value a rejected promise can carry: an `Error` object or anything
      else. */
  datatype Thrown = ErrorObject(message: string) | OtherValue

  /** How the awaited generator call ended. */
  datatype Outcome<L> = Generated(lesson: L) | Threw(thrown: Thrown)

  /** The arguments of the generator call. */
  datatype Request = Request(subjectName: string, topic: string)

  /** The synchronous part of the submit handler: either the blank-topic
      refusal, or the state shown while the call is pending together with
      the call that is made. */
  datatype Submission = Refused(state: LessonViewState) | Started(pending: LessonViewState, request: Request)

  function Submit(subject: Subject, st: LessonViewState): (r: Submission)
    ensures r.Refused? <==> IsBlank(st.topic)
    ensures r.Refused? ==> r.state == st.(error := Some(EnterTopicMessage))
    ensures r.Started? ==> r.pending == st.(isLoading := true, error := None)
    ensures r.Started? ==> r.request == Request(subject.name, st.topic)
  {
    if IsBlank(st.topic) then Refused(st.(error := Some(EnterTopicMessage)))
    else Started(st.(isLoading := true, error := None), Request(subject.name, st.topic))
  }

  /** The end of the call: the catch and finally blocks. */
  datatype Completion<L> = Completion(state: LessonViewState, delivered: Option<L>)

  function Complete<L>(pending: LessonViewState, outcome: Outcome<L>): (r: Completion<L>)
    ensures !r.state.isLoading && r.state.topic == pending.topic
    ensures outcome.Generated? ==> r.delivered == Some(outcome.lesson) && r.state.error == pending.error
    ensures outcome.Threw? ==> r.delivered == None
    ensures outcome.Threw? && outcome.thrown.ErrorObject? ==> r.state.error == Some(outcome.thrown.message)
    ensures outcome.Threw? && outcome.thrown.OtherValue? ==> r.state.error == Some(UnknownErrorMessage)
  {
    match outcome
    case Generated(lesson) => Completion(pending.(isLoading := false), Some(lesson))
    case Threw(t) =>
      var message := match t
        case ErrorObject(m) => m
        case OtherValue => UnknownErrorMessage;
      Completion(pending.(isLoading := false, error := Some(message)), None)
  }

  /** One whole run of `handleGenerateLesson`: the state afterwards, the
      generator call made (if any) and the lesson handed to the
      `onLessonGenerated` callback (if any). `outcome` is what the generator
      would produce; it is ignored when no call is made. */
  datatype Handled<L> = Handled(state: LessonViewState, request: Option<Request>, delivered: Option<L>)

  function HandleGenerateLesson<L>(subject: Subject, st: LessonViewState, outcome: Outcome<L>): (r: Handled<L>)
    ensures IsBlank(st.topic) ==>
      r == Handled(st.(error := Some(EnterTopicMessage)), None, None)
    ensures !IsBlank(st.topic) ==>
      && r.request == Some(Request(subject.name, st.topic))
      && !r.state.isLoading
      && r.state.topic == st.topic
      && (outcome.Generated? ==> r.delivered == Some(outcome.lesson) && r.state.error == None)
      && (outcome.Threw? ==> r.delivered == None && r.state.error.Some?)
  {
    match Submit(subject, st)
    case Refused(s) => Handled(s, None, None)
    case Started(pending, request) =>
      var c := Complete(pending, outcome);
      Handled(c.state, Some(request), c.delivered)
  }

  /** A failed call shows the thrown error's own message, or the generic
      text when something other than an `Error` was thrown. */
  lemma FailureShowsThrownMessage<L>(subject: Subject, st: LessonViewState, t: Thrown)
    requires !IsBlank(st.topic)
    ensures var r := HandleGenerateLesson<L>(subject, st, Threw(t));
      r.state.error == Some(if t.ErrorObject? then t.message else UnknownErrorMessage)
  {
  }

  /** The outcome the view sees when the generator is the lesson service. */
  function ServiceOutcome(subject: Subject, topic: string, reply: GeminiService.Reply): Outcome<GeminiService.Json> {
    match GeminiService.GenerateLesson(subject.name, topic, reply)
    case Ok(payload) => Generated(payload)
    case Thrown(e) => Threw(ErrorObject(e.message))
  }

  /** Wired to the lesson service, a submitted topic ends in exactly one of
      two ways: the accepted payload is delivered unchanged with no error
      shown, or nothing is delivered and the error shown is the service's
      single generic message, never the validation text. */
  lemma WithServiceErrorIsGeneric(subject: Subject, st: LessonViewState, reply: GeminiService.Reply)
    requires !IsBlank(st.topic)
    ensures var r := HandleGenerateLesson(subject, st, ServiceOutcome(subject, st.topic, reply));
      && (r.delivered.Some? <==> reply.Parsed? && GeminiService.Acceptable(reply.payload))
      && (r.delivered.Some? ==> r.delivered.value == reply.payload && r.state.error == None)
      && (r.delivered.None? ==> r.state.error == Some(GeminiService.FailedMessage))
      && r.state.error != Some(GeminiService.InvalidFormatMessage)
  {
  }

  /** `subject.color.replace('bg-', 'text-')`. */
  function HeadingColorClass(subject: Subject): (r: string)
    ensures StartsWith(subject.color, "bg-") ==> r == "text-" + subject.color[3..]
  {
    var r := ReplaceFirst(subject.color, "bg-", "text-");
    assert StartsWith(subject.color, "bg-") ==> OccursAt(subject.color, "bg-", 0);
    assert subject.color[..0] == [];
    r
  }

  /** A background class `bg-X` yields the text class `text-X`. */
  lemma BackgroundToText(subject: Subject, shade: string)
    requires subject.color == "bg-" + shade
    ensures HeadingColorClass(subject) == "text-" + shade
    ensures StartsWith(HeadingColorClass(subject), "text-")
  {
    assert subject.color[..3] == "bg-";
    assert subject.color[3..] == shade;
    assert ("text-" + shade)[..5] == "text-";
  }

  /** Every subject of the catalogue gets a text colour class: its
      background class with the `bg-` prefix turned into `text-`. */
  lemma CatalogueHeadingColour(i: nat)
    requires i < |Constants.Subjects|
    ensures HeadingColorClass(Constants.Subjects[i]) == "text-" + Constants.Subjects[i].color[3..]
    ensures StartsWith(HeadingColorClass(Constants.Subjects[i]), "text-")
  {
    var c := Constants.Subjects[i].color;
    assert c[..3] == "bg-" by {
      if i == 0 { assert c == "bg-blue-500"; }
      else if i == 1 { assert c == "bg-green-500"; }
      else if i == 2 { assert c == "bg-amber-500"; }
      else { assert c == "bg-red-500"; }
    }
    assert c == "bg-" + c[3..];
    BackgroundToText(Constants.Subjects[i], c[3..]);
  }
}
