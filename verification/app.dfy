/**
 The navigation state of the App component: the selected subject and the
 generated lesson, the three handlers that change them, and the view and
 header button they select. Each handler is one atomic transition.
 */
module App {

  import opened Types

  datatype AppState = AppState(selectedSubject: Option<Subject>, generatedLesson: Option<Lesson>)

  const Initial := AppState(None, None)

  /** `handleSelectSubject`. */
  function SelectSubject(st: AppState, subject: Subject): (r: AppState)
    ensures r.selectedSubject == Some(subject) && r.generatedLesson == None
  {
    AppState(Some(subject), None)
  }

  /** `handleBackToDashboard`. */
  function BackToDashboard(st: AppState): (r: AppState)
    ensures r.selectedSubject == None && r.generatedLesson == None
  {
    AppState(None, None)
  }

  /** `handleLessonGenerated`. */
  function LessonGenerated(st: AppState, lesson: Lesson): (r: AppState)
    ensures r.generatedLesson == Some(lesson) && r.selectedSubject == st.selectedSubject
  {
    st.(generatedLesson := Some(lesson))
  }

  /** The main area: the dashboard, or the lesson view for the selected
      subject showing the current lesson (or the request form). */
  datatype View = Dashboard | LessonPage(subject: Subject, lesson: Option<Lesson>)

  function CurrentView(st: AppState): (v: View)
    ensures v.Dashboard? <==> st.selectedSubject.None?
    ensures v.LessonPage? ==> v.subject == st.selectedSubject.value && v.lesson == st.generatedLesson
  {
    match st.selectedSubject
    case None => Dashboard
    case Some(s) => LessonPage(s, st.generatedLesson)
  }

  /** The header's back button is rendered exactly when a subject is
      selected, that is, exactly when the lesson view is shown. */
  predicate BackButtonVisible(st: AppState) {
    st.selectedSubject.Some?
  }

  lemma BackButtonIffLessonPage(st: AppState)
    ensures BackButtonVisible(st) <==> CurrentView(st).LessonPage?
  {
  }

  datatype Event = Select(subject: Subject) | Back | Generated(lesson: Lesson)

  /** Which handler the rendered page can invoke: subject cards live on the
      dashboard, the back button in the header of the lesson view, and the
      lesson callback in the lesson view's request form. */
  predicate Enabled(st: AppState, e: Event) {
    match e
    case Select(_) => CurrentView(st).Dashboard?
    case Back => BackButtonVisible(st)
    case Generated(_) => CurrentView(st).LessonPage? && st.generatedLesson.None?
  }

  /** A user action: a handler the page does not offer changes nothing. */
  function Step(st: AppState, e: Event): (r: AppState)
    ensures !Enabled(st, e) ==> r == st
  {
    if !Enabled(st, e) then st
    else match e
      case Select(s) => SelectSubject(st, s)
      case Back => BackToDashboard(st)
      case Generated(l) => LessonGenerated(st, l)
  }

  function Run(st: AppState, events: seq<Event>): AppState
    decreases |events|
  {
    if |events| == 0 then st else Run(Step(st, events[0]), events[1..])
  }

  /** A lesson is only ever held while a subject is selected. */
  ghost predicate Consistent(st: AppState) {
    st.generatedLesson.Some? ==> st.selectedSubject.Some?
  }

  /** From the initial state, no sequence of user actions reaches a lesson
      without a subject, so the lesson is always shown inside a subject's
      lesson view. */
  lemma {:induction false} RunConsistent(st: AppState, events: seq<Event>)
    requires Consistent(st)
    ensures Consistent(Run(st, events))
    decreases |events|
  {
    if |events| > 0 {
      RunConsistent(Step(st, events[0]), events[1..]);
    }
  }
}
