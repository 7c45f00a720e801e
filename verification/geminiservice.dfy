/**
 The client side of the generative backend: the shallow acceptance gate on
 a parsed lesson payload, the collapse of every failure into one user-facing
 message, and the chunk-to-text mapping of the chat stream. The backend call
 and `JSON.parse` are abstract: the model receives their outcome.
 */
module GeminiService {

  import opened Types

  /** A value `JSON.parse` can produce. Numbers are reals: an overflowing
      literal parses to an infinity, but the gate only asks whether a number
      is zero, and an infinity is as truthy as any non-zero real. */
  datatype Json =
    | JNull
    | JBool(b: bool)
    | JNumber(n: real)
    | JString(s: string)
    | JArray(items: seq<Json>)
    | JObject(fields: map<string, Json>)

  /** The value of a property read: `undefined` or a JSON value. */
  datatype Property = Undefined | Defined(value: Json)

  /** What `v.key` evaluates to: a property value, or a thrown TypeError
      when `v` is `null`. */
  datatype Access = Got(property: Property) | TypeError

  /** An `Error` object; only its message is observable. */
  datatype Error = Error(message: string)

  datatype Result<+T> = Ok(value: T) | Thrown(error: Error)

  const InvalidFormatMessage := "Invalid lesson format received from API."
  const FailedMessage := "Failed to generate lesson. The topic might be too complex or there was a network issue."
  /** The engine's text for reading a property of `null`; only its
      difference from the two messages above matters. */
  const NullAccessMessage := "Cannot read properties of null"

  /** Property access on a parsed value, for the two keys the gate reads.
      Strings, numbers, booleans and arrays have no `title` or `quiz`
      property, so the read is undefined. */
  function GetProperty(v: Json, key: string): (r: Access)
    requires key == "title" || key == "quiz"
    ensures r == TypeError <==> v == JNull
    ensures r.Got? && r.property.Defined? <==> v.JObject? && key in v.fields
    ensures r.Got? && r.property.Defined? ==> r.property.value == v.fields[key]
  {
    match v
    case JNull => TypeError
    case JObject(fields) => if key in fields then Got(Defined(fields[key])) else Got(Undefined)
    case _ => Got(Undefined)
  }

  /** JavaScript truthiness of a property value. */
  predicate Truthy(p: Property) {
    match p
    case Undefined => false
    case Defined(v) =>
      match v
      case JNull => false
      case JBool(b) => b
      case JNumber(n) => n != 0.0
      case JString(s) => s != ""
      case JArray(_) => true
      case JObject(_) => true
  }

  /** `Array.isArray` of a property value. */
  predicate IsArray(p: Property) {
    p.Defined? && p.value.JArray?
  }

  /** The acceptance gate, stated on the payload directly: an object whose
      `title` is a non-empty string, `true`, a non-zero number, an array or
      an object, and whose `quiz` is an array. */
  predicate Acceptable(payload: Json) {
    && payload.JObject?
    && "title" in payload.fields
    && "quiz" in payload.fields
    && payload.fields["quiz"].JArray?
    && match payload.fields["title"]
       case JNull => false
       case JBool(b) => b
       case JNumber(n) => n != 0.0
       case JString(s) => |s| > 0
       case _ => true
  }

  /** The validation step that follows `JSON.parse`: `!lessonData.title ||
      !Array.isArray(lessonData.quiz)` throws the format error, reading a
      property of `null` throws a TypeError, and an accepted payload is
      returned as it is (the cast to `Lesson` checks nothing). */
  function Validate(payload: Json): (r: Result<Json>)
    ensures r.Ok? <==> Acceptable(payload)
    ensures r.Ok? ==> r.value == payload
    ensures r.Thrown? && payload != JNull ==> r.error.message == InvalidFormatMessage
  {
    match GetProperty(payload, "title")
    case TypeError => Thrown(Error(NullAccessMessage))
    case Got(title) =>
      if !Truthy(title) then Thrown(Error(InvalidFormatMessage))
      else match GetProperty(payload, "quiz")
        case TypeError => Thrown(Error(NullAccessMessage))
        case Got(quiz) =>
          if !IsArray(quiz) then Thrown(Error(InvalidFormatMessage))
          else Ok(payload)
  }

  /** How the backend request ended, up to and including `JSON.parse`. */
  datatype Reply =
    | BackendFailed(detail: string)
    | Unparseable(detail: string)
    | Parsed(payload: Json)

  /** `generateLesson`: the prompt and schema go to the backend (abstract
      here, so `subject` and `topic` only shape the request); any failure,
      whether from the backend, from parsing or from validation, is logged
      and replaced by one fixed message. */
  function GenerateLesson(subject: string, topic: string, reply: Reply): (r: Result<Json>)
    ensures r.Ok? <==> reply.Parsed? && Acceptable(reply.payload)
    ensures r.Ok? ==> r.value == reply.payload
    ensures r.Thrown? ==> r.error == Error(FailedMessage)
  {
    match reply
    case BackendFailed(_) => Thrown(Error(FailedMessage))
    case Unparseable(_) => Thrown(Error(FailedMessage))
    case Parsed(payload) =>
      match Validate(payload)
      case Ok(v) => Ok(v)
      case Thrown(_) => Thrown(Error(FailedMessage))
  }

  /** The caller never sees the validation message: every failure reaches it
      as the single generic message. */
  lemma FailuresAreIndistinguishable(subject: string, topic: string, r1: Reply, r2: Reply)
    requires GenerateLesson(subject, topic, r1).Thrown? && GenerateLesson(subject, topic, r2).Thrown?
    ensures GenerateLesson(subject, topic, r1) == GenerateLesson(subject, topic, r2)
    ensures GenerateLesson(subject, topic, r1).error.message != InvalidFormatMessage
  {
  }

  /** The verdict depends only on `title` and `quiz`: two objects that agree
      on those two properties are both accepted or both rejected, whatever
      else they hold (a `correctAnswer` outside its `options`, any number of
      key concepts, missing introduction). */
  lemma VerdictDependsOnlyOnTitleAndQuiz(m1: map<string, Json>, m2: map<string, Json>)
    requires ("title" in m1 <==> "title" in m2) && ("title" in m1 ==> m1["title"] == m2["title"])
    requires ("quiz" in m1 <==> "quiz" in m2) && ("quiz" in m1 ==> m1["quiz"] == m2["quiz"])
    ensures Validate(JObject(m1)).Ok? == Validate(JObject(m2)).Ok?
  {
  }

  /** The items of the `quiz` array are never inspected. */
  lemma QuizItemsAreNotInspected(m: map<string, Json>, items: seq<Json>)
    requires "quiz" in m && m["quiz"].JArray?
    ensures Validate(JObject(m["quiz" := JArray(items)])).Ok? == Validate(JObject(m)).Ok?
  {
  }

  /** One chunk of the backend's streamed reply. */
  datatype Chunk = Chunk(text: string)

  /** A finite streamed reply: the chunks that arrive, and whether the stream
      then raises instead of completing. A request that fails before any
      chunk is a stream with no chunks that raises. */
  datatype ChunkStream = ChunkStream(chunks: seq<Chunk>, fails: bool)

  /** The text fragments a consumer pulls, in order, and whether pulling ends
      in a raised error. */
  datatype TextStream = TextStream(fragments: seq<string>, fails: bool)

  /** `sendMessageStream`: re-yields each chunk's text, one fragment per
      chunk, in arrival order; a failure of the backend stream surfaces after
      the fragments already yielded. */
  function SendMessageStream(s: ChunkStream): (r: TextStream)
    ensures |r.fragments| == |s.chunks|
    ensures forall i :: 0 <= i < |s.chunks| ==> r.fragments[i] == s.chunks[i].text
    ensures r.fails == s.fails
    decreases |s.chunks|
  {
    if |s.chunks| == 0 then TextStream([], s.fails)
    else
      var rest := SendMessageStream(ChunkStream(s.chunks[1..], s.fails));
      TextStream([s.chunks[0].text] + rest.fragments, s.fails)
  }
}
