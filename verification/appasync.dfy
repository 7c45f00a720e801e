/**
 The App navigation state when the lesson request is seen as what it is in
 the source: an awaited call that can complete after the user has already
 navigated away. Each in-flight request remembers the subject it was made
 for and the navigation epoch it was made in; `Select` and `Back` start a
 new epoch.

 `StepAsWritten` delivers a completed request straight to
 `App.LessonGenerated`, as the source does; `Step` delivers it only when no
 navigation happened since the request was made.
 */
module AppAsync {

  import opened Types
  import App

  datatype Flight = Flight(subject: Subject, epoch: nat)

  datatype AsyncState = AsyncState(
    app: App.AppState,
    epoch: nat,
    inFlight: seq<Flight>,
    lessonFrom: Option<Subject>)

  const Initial := AsyncState(App.Initial, 0, [], None)

  datatype Event =
    | Select(subject: Subject)
    | Back
    | Request
    | Resolve(k: nat, lesson: Lesson)

  /** Subject cards on the dashboard, the back button and the request form
      in the lesson view (no lesson yet); any in-flight request can complete
      at any time. */
  predicate Enabled(st: AsyncState, e: Event) {
    match e
    case Select(_) => st.app.selectedSubject.None?
    case Back => st.app.selectedSubject.Some?
    case Request => st.app.selectedSubject.Some? && st.app.generatedLesson.None?
    case Resolve(k, _) => k < |st.inFlight|
  }

  function Remove(flights: seq<Flight>, k: nat): (r: seq<Flight>)
    requires k < |flights|
    ensures |r| == |flights| - 1
    ensures forall f :: f in r ==> f in flights
  {
    flights[..k] + flights[k + 1..]
  }

  /** Navigation and requests, shared by both variants. */
  function Navigate(st: AsyncState, e: Event): (r: AsyncState)
    requires Enabled(st, e) && !e.Resolve?
    ensures e.Select? || e.Back? ==> r.epoch == st.epoch + 1 && r.inFlight == st.inFlight && r.app.generatedLesson == None
    ensures e.Request? ==> r.inFlight == st.inFlight + [Flight(st.app.selectedSubject.value, st.epoch)]
  {
    match e
    case Select(s) => st.(app := App.SelectSubject(st.app, s), epoch := st.epoch + 1)
    case Back => st.(app := App.BackToDashboard(st.app), epoch := st.epoch + 1)
    case Request => st.(inFlight := st.inFlight + [Flight(st.app.selectedSubject.value, st.epoch)])
  }

  /** The source's behaviour: a completed request always reaches
      `handleLessonGenerated`. */
  function StepAsWritten(st: AsyncState, e: Event): (r: AsyncState)
    ensures e.Resolve? && Enabled(st, e) ==>
      r.app == App.LessonGenerated(st.app, e.lesson) && r.lessonFrom == Some(st.inFlight[e.k].subject)
  {
    if !Enabled(st, e) then st
    else match e
      case Resolve(k, l) =>
        st.(app := App.LessonGenerated(st.app, l), inFlight := Remove(st.inFlight, k),
            lessonFrom := Some(st.inFlight[k].subject))
      case _ => Navigate(st, e)
  }

  function RunAsWritten(st: AsyncState, events: seq<Event>): AsyncState
    decreases |events|
  {
    if |events| == 0 then st else RunAsWritten(StepAsWritten(st, events[0]), events[1..])
  }

  const Mathematics := Subject("Mathematics", "bg-blue-500")
  const Science := Subject("Science", "bg-green-500")

  /** Select a subject, request a lesson, press Back before the reply
      arrives: the reply is stored although no subject is selected. */
  lemma StaleLessonAfterBack(l: Lesson)
    ensures var r := RunAsWritten(Initial, [Select(Mathematics), Request, Back, Resolve(0, l)]);
      r.app.generatedLesson == Some(l) && r.app.selectedSubject == None
  {
    var es := [Select(Mathematics), Request, Back, Resolve(0, l)];
    var s1 := StepAsWritten(Initial, es[0]);
    var s2 := StepAsWritten(s1, es[1]);
    var s3 := StepAsWritten(s2, es[2]);
    var s4 := StepAsWritten(s3, es[3]);
    assert s4.app == App.AppState(None, Some(l));
    calc {
      RunAsWritten(Initial, es);
      RunAsWritten(s1, es[1..]);
      { assert es[1..][1..] == es[2..]; }
      RunAsWritten(s2, es[2..]);
      { assert es[2..][1..] == es[3..]; }
      RunAsWritten(s3, es[3..]);
      { assert es[3..][1..] == []; }
      RunAsWritten(s4, []);
    }
  }

  /** Then choose another subject before the reply arrives: the lesson
      requested for Mathematics is shown in the Science lesson view. */
  lemma StaleLessonUnderOtherSubject(l: Lesson)
    ensures var r := RunAsWritten(Initial, [Select(Mathematics), Request, Back, Select(Science), Resolve(0, l)]);
      && App.CurrentView(r.app) == App.LessonPage(Science, Some(l))
      && r.lessonFrom == Some(Mathematics)
  {
    var es := [Select(Mathematics), Request, Back, Select(Science), Resolve(0, l)];
    var s1 := StepAsWritten(Initial, es[0]);
    var s2 := StepAsWritten(s1, es[1]);
    var s3 := StepAsWritten(s2, es[2]);
    var s4 := StepAsWritten(s3, es[3]);
    var s5 := StepAsWritten(s4, es[4]);
    assert s5.app == App.AppState(Some(Science), Some(l));
    assert s5.lessonFrom == Some(Mathematics);
    calc {
      RunAsWritten(Initial, es);
      RunAsWritten(s1, es[1..]);
      { assert es[1..][1..] == es[2..]; }
      RunAsWritten(s2, es[2..]);
      { assert es[2..][1..] == es[3..]; }
      RunAsWritten(s3, es[3..]);
      { assert es[3..][1..] == es[4..]; }
      RunAsWritten(s4, es[4..]);
      { assert es[4..][1..] == []; }
      RunAsWritten(s5, []);
    }
  }

  /** The corrected behaviour: a completed request reaches
      `handleLessonGenerated` only if the user has not navigated since it was
      made; otherwise it is dropped. */
  function Step(st: AsyncState, e: Event): (r: AsyncState)
    ensures e.Resolve? && Enabled(st, e) && st.inFlight[e.k].epoch == st.epoch ==>
      r.app == App.LessonGenerated(st.app, e.lesson)
    ensures e.Resolve? && Enabled(st, e) && st.inFlight[e.k].epoch != st.epoch ==>
      r.app == st.app
  {
    if !Enabled(st, e) then st
    else match e
      case Resolve(k, l) =>
        if st.inFlight[k].epoch == st.epoch then
          st.(app := App.LessonGenerated(st.app, l), inFlight := Remove(st.inFlight, k),
              lessonFrom := Some(st.inFlight[k].subject))
        else st.(inFlight := Remove(st.inFlight, k))
      case _ => Navigate(st, e)
  }

  function Run(st: AsyncState, events: seq<Event>): AsyncState
    decreases |events|
  {
    if |events| == 0 then st else Run(Step(st, events[0]), events[1..])
  }

  /** Requests of the current epoch were made for the selected subject, and
      a held lesson was requested for the subject that is selected now. */
  ghost predicate Coherent(st: AsyncState) {
    && (forall i :: 0 <= i < |st.inFlight| ==> st.inFlight[i].epoch <= st.epoch)
    && (forall i :: 0 <= i < |st.inFlight| && st.inFlight[i].epoch == st.epoch ==>
          st.app.selectedSubject == Some(st.inFlight[i].subject))
    && (st.app.generatedLesson.Some? ==>
          st.app.selectedSubject.Some? && st.lessonFrom == st.app.selectedSubject)
  }

  lemma StepCoherent(st: AsyncState, e: Event)
    requires Coherent(st)
    ensures Coherent(Step(st, e))
  {
    if Enabled(st, e) && e.Resolve? {
      var r := Step(st, e);
      forall i | 0 <= i < |r.inFlight|
        ensures r.inFlight[i] in st.inFlight
      {
      }
    }
  }

  /** With the guard, whatever the interleaving of navigation and replies, a
      lesson is held only while a subject is selected, and only a lesson
      requested for that subject. */
  lemma {:induction false} RunCoherent(st: AsyncState, events: seq<Event>)
    requires Coherent(st)
    ensures Coherent(Run(st, events))
    ensures App.Consistent(Run(st, events).app)
    decreases |events|
  {
    if |events| > 0 {
      StepCoherent(st, events[0]);
      RunCoherent(Step(st, events[0]), events[1..]);
    }
  }
}
