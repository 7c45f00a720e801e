# Rural Ed-Connect client logic in Dafny

This project models the client-side logic of Rural Ed-Connect, an educational web front end. A student picks a subject, asks for an AI-generated lesson on a topic, takes the lesson's auto-graded quiz and chats with an AI tutor about it. The generative backend is a foreign service. The model keeps only the client's own logic: the plain state machines and string operations around that service. Each React handler is one atomic transition over an immutable record.

| module | file | models |
|---|---|---|
| `Types` | `types.dfy` | quiz question, lesson, chat message and subject records; `Option` for `T \| null` |
| `JsString` | `jsstring.dfy` | `trim` as the blank-input gate, `indexOf`, and `replace` with a string pattern (first occurrence only) |
| `Constants` | `constants.dfy` | the four-subject catalogue, reduced to name and colour class |
| `Quiz` | `quiz.dfy` | the quiz grading state machine and the option-button classifier |
| `Chatbot` | `chatbot.dfy` | the chat transcript: greeting, send gate, fold of streamed fragments, apology on failure |
| `LessonView` | `lessonview.dfy` | the lesson request form's loading/error transitions and the heading colour class |
| `App` | `app.dfy` | the navigation state: selected subject and generated lesson |
| `GeminiService` | `geminiservice.dfy` | the acceptance gate on the parsed payload, the failure collapse, the chunk-to-text stream map |
| `AppAsync` | `appasync.dfy` | lesson replies that arrive after navigation (see Findings) |

The backend call and `JSON.parse` are abstract. The model receives their outcome as a `Reply`: a backend failure, an unparseable body, or a parsed `Json` value. A chat reply is a finite sequence of fragments plus a flag saying whether the stream then raises.

Some facts about the source that the model keeps:
- `generateLesson` sends any topic; only the lesson view's gate (components/LessonView.tsx:22) rejects a blank one.
- The service accepts any object with a truthy `title` and an array `quiz`. It checks neither the lengths of the lesson's lists nor `correctAnswer ∈ options`.
- A stream with no fragments leaves the empty bot message in place.

## Model

| member | source | states |
|---|---|---|
| JsString.TrimEmptyIffBlank | components/Chatbot.tsx:28 | `s.trim()` is the empty string exactly when every character of `s` is ECMAScript whitespace or a line terminator; the send and submit gates use this as `IsBlank` |
| JsString.IndexOf | components/LessonView.tsx:73 | the result is an occurrence of the pattern with no earlier occurrence; "not found" means no occurrence at all |
| JsString.ReplaceFirst | components/LessonView.tsx:73 | JS single-occurrence `replace`: a string without the pattern is unchanged; otherwise only the first occurrence is replaced |
| JsString.ReplaceLeadingPattern | components/LessonView.tsx:73 | a string that starts with the pattern becomes the replacement followed by the rest of the string |
| Quiz.AnswerSelect | components/Quiz.tsx:18-25 | on an answered question the state is unchanged; otherwise the option is recorded, the question latched, and the score rises by exactly 1 iff the option equals the correct answer |
| Quiz.Next | components/Quiz.tsx:27-35 | before the last question: index +1, selection and latch cleared, score kept; on the last question only `showResults` is set |
| Quiz.Restart | components/Quiz.tsx:37-43 | all five slots return to their initial values 0, null, false, 0, false |
| Quiz.ButtonClass | components/Quiz.tsx:45-56 | neutral iff unanswered; green iff answered and the option is correct, even when selected; red iff a selected wrong option; grey otherwise |
| Quiz.AnsweredColouring | components/Quiz.tsx:45-56 | after answering, a correct option among the buttons is green, and the only red button can be the selected, wrong one |
| Quiz.InitialValid | components/Quiz.tsx:10-16 | for a non-empty question list, the mounted state (index 0, no selection, unanswered, score 0) satisfies the quiz invariant |
| Quiz.StepPreservesValid | components/Quiz.tsx:16-43 | every handler keeps the index in `[0, len-1]`, keeps the latch in step with the recorded selection, and keeps `score ≤ index + (answered ? 1 : 0)` |
| Quiz.RunValid | components/Quiz.tsx:18-63 | for any sequence of handler calls, the index stays a valid question index and the displayed score stays in `[0, questions.length]` |
| Quiz.EnabledStepPreservesReachable | components/Quiz.tsx:82-101 | the buttons the view offers (options while unanswered, Next only once answered, Try Again on results) keep `showResults ⇒ isAnswered` |
| Quiz.RunEnabledReachable | components/Quiz.tsx:93-101 | clicking only offered buttons never reaches the results view without an answered question |
| Quiz.AnsweredQuestionIsLatched | components/Quiz.tsx:18-19 | once answered, any number of further selections leaves the whole state unchanged, so no question is scored twice |
| Quiz.TakeQuizPrefix | components/Quiz.tsx:18-35 | answering the first k questions in turn, each followed by Next, leaves the quiz on question k, unanswered, with the score counting the correct answers |
| Quiz.TakeQuizScoresCorrectAnswers | components/Quiz.tsx:18-35 | answering every question in turn ends on the results view, and the score equals the number of answers that match their question's correct answer |
| Chatbot.Greeting | components/Chatbot.tsx:23 | the greeting is a bot message: the fixed prefix, then the topic, then the fixed suffix |
| Chatbot.TopicChanged | components/Chatbot.tsx:22-24 | a topic change resets the transcript to exactly the one greeting for the new topic and leaves the input and loading flag alone |
| Chatbot.Accept | components/Chatbot.tsx:30-36 | an accepted send appends exactly a user message with the input, then an empty bot message; it clears the input and starts loading |
| Chatbot.ConsumeRewritesLast | components/Chatbot.tsx:40-47 | consuming fragments keeps the length and all earlier messages, and makes the last one a bot message holding the accumulated text |
| Chatbot.ObservedAfterFragments | components/Chatbot.tsx:30-47 | after any k fragments, the transcript is the earlier messages, the user message, and a bot message whose text is exactly c1+…+ck |
| Chatbot.ConsumeReply | components/Chatbot.tsx:38-55 | the stream loop walks through exactly those transcripts; on failure the last message becomes the apology and any partial text is discarded |
| Chatbot.HandleSendMessage | components/Chatbot.tsx:26-59 | a blank input or a turn in progress changes nothing; otherwise the typed text goes to the stream, the result is the earlier transcript plus user message plus bot reply (concatenation or apology), the input is cleared and loading is off |
| Chatbot.RunSession | components/Chatbot.tsx:22-59 | through any sequence of typing, sends and topic changes, the transcript between turns is the current topic's greeting followed by user/bot pairs, and no turn is left loading |
| Chatbot.TurnOverBackend | components/Chatbot.tsx:38-58 | over the service stream, the bot reply is the backend's chunk texts concatenated in arrival order, or the apology when the stream fails |
| Chatbot.ConcatOfStream | services/geminiService.ts:81-86 | concatenating the yielded fragments equals concatenating the chunk texts |
| LessonView.Submit | components/LessonView.tsx:20-27 | a whitespace-only topic only sets the "Please enter a topic" error: no call is made and loading is unchanged; otherwise loading starts, the error clears, and the generator gets the subject name and the topic |
| LessonView.Complete | components/LessonView.tsx:28-35 | success hands exactly the generated lesson to the callback; failure shows the thrown message, or the unknown-error text for a non-Error; loading ends either way |
| LessonView.HandleGenerateLesson | components/LessonView.tsx:20-36 | the whole handler: a blank topic gives the error and no call; otherwise one call is made, loading is false afterwards, and the lesson is delivered iff the call succeeded |
| LessonView.FailureShowsThrownMessage | components/LessonView.tsx:31-32 | a failed call shows exactly the thrown error's message |
| LessonView.WithServiceErrorIsGeneric | components/LessonView.tsx:29-32 | with the lesson service as generator: the payload is delivered unchanged iff accepted; otherwise the shown error is the single generic message, never the validation text |
| LessonView.HeadingColorClass | components/LessonView.tsx:73 | a colour class `bg-X` becomes `text-X` |
| LessonView.CatalogueHeadingColour | constants.tsx:12-33 | for every subject of the catalogue, the heading class starts with `text-` and keeps the rest of the background class |
| App.SelectSubject | App.tsx:11-14 | selecting a subject sets it and clears any generated lesson |
| App.BackToDashboard | App.tsx:16-19 | going back clears both the subject and the lesson |
| App.LessonGenerated | App.tsx:21-23 | the lesson is stored and the subject is unchanged |
| App.CurrentView | App.tsx:43-51 | the dashboard is shown iff no subject is selected; otherwise the lesson view shows that subject and the current lesson |
| App.BackButtonIffLessonPage | App.tsx:32-39 | the back button is rendered exactly when the lesson view is shown |
| App.RunConsistent | App.tsx:11-50 | with atomic handlers invoked only from where they are rendered, a held lesson always implies a selected subject |
| GeminiService.GetProperty | services/geminiService.ts:59 | for the keys `title` and `quiz`: reading them on `null` throws, and only an object carrying the key gives a defined value |
| GeminiService.Validate | services/geminiService.ts:56-63 | the payload is accepted iff it is an object whose `title` is JS-truthy and whose `quiz` is an array; an accepted payload is returned unchanged; a non-null rejection carries the format message |
| GeminiService.VerdictDependsOnlyOnTitleAndQuiz | services/geminiService.ts:59 | two objects that agree on `title` and `quiz` get the same verdict, whatever their other fields hold |
| GeminiService.QuizItemsAreNotInspected | services/geminiService.ts:59 | replacing the items of the `quiz` array, for instance with a `correctAnswer` outside its options, never changes the verdict |
| GeminiService.GenerateLesson | services/geminiService.ts:39-67 | the result is the parsed payload, unchanged, iff parsing succeeded and the gate accepts it; every failure (backend, parse, validation) becomes the one "Failed to generate lesson…" error |
| GeminiService.FailuresAreIndistinguishable | services/geminiService.ts:64-67 | any two failures look the same to the caller, and the validation message never reaches it |
| GeminiService.SendMessageStream | services/geminiService.ts:81-86 | exactly one fragment per backend chunk, in arrival order, namely that chunk's text; a backend failure surfaces after those fragments |
| AppAsync.StepAsWritten | App.tsx:21-23 | a completed lesson request is always stored, whatever navigation happened since it was made |
| AppAsync.StaleLessonAfterBack | components/LessonView.tsx:29-30 | select, request, Back, reply: a lesson is held with no subject selected |
| AppAsync.StaleLessonUnderOtherSubject | components/LessonView.tsx:29-30 | select Mathematics, request, Back, select Science, reply: the Mathematics lesson is shown in the Science view |
| AppAsync.Step | App.tsx:21-23 | corrected: a reply is stored only when no navigation happened since its request, and dropped otherwise |
| AppAsync.StepCoherent | App.tsx:11-23 | the guarded transitions keep requests of the current epoch tied to the selected subject, and a held lesson tied to the subject it was requested for |
| AppAsync.RunCoherent | App.tsx:11-50 | with the guard, under any interleaving of navigation and replies, a held lesson implies a selected subject and belongs to it |

## Left out

- Rendering, styling other than the two classifiers, scrolling to the newest message, icons, the dashboard and the subject cards: presentation only.
- The generative backend (lesson generation and chat sessions), `JSON.parse`, the prompt texts, the response schema and the temperatures: these are foreign calls. Their outcomes are parameters (`GeminiService.Reply`, `GeminiService.ChunkStream`, `LessonView.Outcome`).
- The start-up check for the API key: process configuration.
- The conversational memory of a chat session: it lives in the backend and is invisible to the client.
- The chunk object's `text` may be undefined in the SDK. The model treats every chunk's text as a string.
- React scheduling is not modelled: batched state updates, stale closures such as the `score + 1` update, and the memoised session lifetime. Each handler is one atomic transition. `AppAsync` splits only the lesson request into issue and completion, because that split is where the finding lies.
- The `$` replacement patterns of JS `replace` are not modelled; the only replacement used, `text-`, contains no `$`.
- Characters are Unicode scalar values, not UTF-16 code units; every whitespace character `trim` recognises is a single code unit, so the blank gate is unaffected.
- Quiz with an empty question list: the source reads `questions[0]` there. `Valid` requires the index to be a valid question index, so an empty list cannot satisfy it; `TakeQuizPrefix` and `TakeQuizScoresCorrectAnswers` require at least one question.
- The lesson view's visibility conditions (request form while no lesson, the "Creating your lesson" banner while loading): presentation. Only the state they read is modelled.

## Findings

| source | as written | input that shows it | evidently intended | confidence | as-written member | corrected member |
|---|---|---|---|---|---|---|
| App.tsx:21-23 | `handleLessonGenerated` stores any lesson that arrives, and the lesson view's awaited `generateLesson` call can complete after the user has pressed Back | choose Mathematics, submit a topic, press Back (and optionally choose Science) before the reply arrives | a lesson is shown only under the subject it was requested for, as the reset on subject selection (App.tsx:13) suggests | medium; not executed | AppAsync.StaleLessonUnderOtherSubject | AppAsync.RunCoherent |
