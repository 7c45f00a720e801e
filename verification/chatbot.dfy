/**
 The tutor chat transcript of the Chatbot component. A turn is one atomic
 handler run: the send gate, the two appended messages, the fold of the
 streamed fragments into the last message, the apology on failure and the
 final loading reset. Turns are strictly sequential.
 */
module Chatbot {

  import opened Types
  import opened JsString
  import GeminiService

  datatype ChatState = ChatState(messages: seq<ChatMessage>, userInput: string, isLoading: bool)

  const Apology := "Sorry, I'm having trouble connecting right now."
  const GreetingPrefix := "Hi there! Do you have any questions about "
  const GreetingSuffix := "? Ask me anything!"

  function Greeting(topic: string): (g: ChatMessage)
    ensures g.sender == Bot
    ensures |g.text| == |GreetingPrefix| + |topic| + |GreetingSuffix|
    ensures StartsWith(g.text, GreetingPrefix)
    ensures g.text[|GreetingPrefix|..|GreetingPrefix| + |topic|] == topic
    ensures g.text[|GreetingPrefix| + |topic|..] == GreetingSuffix
  {
    var t := GreetingPrefix + topic + GreetingSuffix;
    assert t[..|GreetingPrefix|] == GreetingPrefix;
    assert t[|GreetingPrefix|..|GreetingPrefix| + |topic|] == topic;
    assert t[|GreetingPrefix| + |topic|..] == GreetingSuffix;
    ChatMessage(Bot, t)
  }

  /** The effect on a topic change: the transcript becomes the single
      greeting for the new topic; the input box and the loading flag are
      untouched. */
  function TopicChanged(st: ChatState, topic: string): (r: ChatState)
    ensures r.messages == [Greeting(topic)]
    ensures r.userInput == st.userInput && r.isLoading == st.isLoading
  {
    st.(messages := [Greeting(topic)])
  }

  /** The state after the component mounts for `topic`. */
  function Mount(topic: string): (r: ChatState)
    ensures r.messages == [Greeting(topic)] && r.userInput == "" && !r.isLoading
  {
    TopicChanged(ChatState([], "", false), topic)
  }

  /** The send gate: the input has a non-whitespace character and no turn is
      in progress. */
  predicate CanSend(st: ChatState) {
    !IsBlank(st.userInput) && !st.isLoading
  }

  /** `c1 + ... + ck`. */
  function Concat(fragments: seq<string>): string {
    if |fragments| == 0 then ""
    else Concat(fragments[..|fragments| - 1]) + fragments[|fragments| - 1]
  }

  /** The synchronous part of an accepted send: the user message and an empty
      bot message are appended, the input is cleared, loading starts. */
  function Accept(st: ChatState): (r: ChatState)
    ensures |r.messages| == |st.messages| + 2
    ensures r.messages[..|st.messages|] == st.messages
    ensures r.messages[|st.messages|] == ChatMessage(User, st.userInput)
    ensures r.messages[|st.messages| + 1] == ChatMessage(Bot, "")
    ensures r.userInput == "" && r.isLoading
  {
    var withUser := st.messages + [ChatMessage(User, st.userInput)];
    ChatState(withUser + [ChatMessage(Bot, "")], "", true)
  }

  /** The observable transcript while the stream is consumed: each fragment
      extends the accumulated text `acc` and rewrites the last message. */
  function Consume(messages: seq<ChatMessage>, fragments: seq<string>, acc: string): (r: seq<ChatMessage>)
    requires |messages| > 0
    ensures |r| == |messages|
    decreases |fragments|
  {
    if |fragments| == 0 then messages
    else
      var text := acc + fragments[0];
      Consume(messages[|messages| - 1 := ChatMessage(Bot, text)], fragments[1..], text)
  }

  lemma {:induction false} ConcatCons(fragments: seq<string>)
    requires |fragments| > 0
    ensures Concat(fragments) == fragments[0] + Concat(fragments[1..])
    decreases |fragments|
  {
    if |fragments| > 1 {
      var n := |fragments|;
      ConcatCons(fragments[..n - 1]);
      assert fragments[..n - 1][1..] == fragments[1..][..n - 2];
      assert fragments[..n - 1][0] == fragments[0];
    } else {
      assert fragments[..0] == [];
      assert fragments[1..] == [];
    }
  }

  /** Consuming fragments keeps the length and every earlier message; the
      last message is a bot message holding the accumulated text (or is left
      alone when nothing arrives). */
  lemma {:induction false} ConsumeRewritesLast(messages: seq<ChatMessage>, fragments: seq<string>, acc: string)
    requires |messages| > 0
    ensures var r := Consume(messages, fragments, acc);
      && |r| == |messages|
      && r[..|messages| - 1] == messages[..|messages| - 1]
      && r[|messages| - 1] == (if |fragments| == 0 then messages[|messages| - 1]
                                else ChatMessage(Bot, acc + Concat(fragments)))
    decreases |fragments|
  {
    if |fragments| > 0 {
      var text := acc + fragments[0];
      var m' := messages[|messages| - 1 := ChatMessage(Bot, text)];
      ConsumeRewritesLast(m', fragments[1..], text);
      ConcatCons(fragments);
      assert m'[..|messages| - 1] == messages[..|messages| - 1];
    }
  }

  /** After an accepted send has consumed the first `k` fragments, the
      transcript is the earlier transcript, the user message, and a bot
      message holding exactly `c1 + ... + ck`. */
  lemma ObservedAfterFragments(st: ChatState, fragments: seq<string>, k: nat)
    requires k <= |fragments|
    ensures Consume(Accept(st).messages, fragments[..k], "")
         == st.messages + [ChatMessage(User, st.userInput), ChatMessage(Bot, Concat(fragments[..k]))]
  {
    var a := Accept(st).messages;
    var n := |st.messages|;
    ConsumeRewritesLast(a, fragments[..k], "");
    var shown := Consume(a, fragments[..k], "");
    assert shown[..n + 1] == a[..n + 1];
    assert a[..n + 1] == st.messages + [ChatMessage(User, st.userInput)];
    if k == 0 {
      assert Concat(fragments[..k]) == "";
    } else {
      assert "" + Concat(fragments[..k]) == Concat(fragments[..k]);
    }
    assert shown == shown[..n + 1] + [shown[n + 1]];
  }

  /** `handleSendMessage` for one turn, given the fragments the session's
      stream yields for the sent text. Returns the new state and the text
      handed to the stream (`None` when the gate refuses the send). */
  method HandleSendMessage(st: ChatState, reply: GeminiService.TextStream) returns (r: ChatState, sent: Option<string>)
    ensures !CanSend(st) ==> r == st && sent == None
    ensures CanSend(st) ==> sent == Some(st.userInput)
    ensures CanSend(st) ==>
      r.messages == st.messages + [ChatMessage(User, st.userInput),
                                   ChatMessage(Bot, if reply.fails then Apology else Concat(reply.fragments))]
    ensures CanSend(st) ==> r.userInput == "" && !r.isLoading
  {
    if IsBlank(st.userInput) || st.isLoading {
      return st, None;
    }
    var accepted := Accept(st);
    sent := Some(st.userInput);
    var messages := ConsumeReply(accepted.messages, reply);
    r := ChatState(messages, accepted.userInput, false);
  }

  /** The try/catch around the stream: every fragment extends the text and
      rewrites the last message; a failure replaces it with the apology. */
  method ConsumeReply(messages: seq<ChatMessage>, reply: GeminiService.TextStream) returns (r: seq<ChatMessage>)
    requires |messages| > 0
    ensures !reply.fails ==> r == Consume(messages, reply.fragments, "")
    ensures |reply.fragments| == 0 && !reply.fails ==> r == messages
    ensures |reply.fragments| > 0 || reply.fails ==>
      r == messages[..|messages| - 1] + [ChatMessage(Bot, if reply.fails then Apology else Concat(reply.fragments))]
  {
    var prefix := messages[..|messages| - 1];
    r := messages;
    var currentText := "";
    var i := 0;
    while i < |reply.fragments|
      invariant 0 <= i <= |reply.fragments|
      invariant currentText == Concat(reply.fragments[..i])
      invariant i > 0 ==> r == prefix + [ChatMessage(Bot, currentText)]
      invariant i == 0 ==> r == messages
      invariant r == Consume(messages, reply.fragments[..i], "")
    {
      ConsumeStep(messages, reply.fragments, i);
      currentText := currentText + reply.fragments[i];
      assert reply.fragments[..i + 1][..i] == reply.fragments[..i];
      r := r[|r| - 1 := ChatMessage(Bot, currentText)];
      i := i + 1;
    }
    assert reply.fragments[..i] == reply.fragments;
    if reply.fails {
      r := r[|r| - 1 := ChatMessage(Bot, Apology)];
    }
  }

  /** One more fragment rewrites the last message of the transcript shown so
      far with the longer accumulated text. */
  lemma ConsumeStep(messages: seq<ChatMessage>, fragments: seq<string>, i: nat)
    requires |messages| > 0 && i < |fragments|
    ensures var shown := Consume(messages, fragments[..i], "");
      Consume(messages, fragments[..i + 1], "")
        == shown[|shown| - 1 := ChatMessage(Bot, Concat(fragments[..i + 1]))]
  {
    var shown := Consume(messages, fragments[..i], "");
    ConsumeRewritesLast(messages, fragments[..i], "");
    ConsumeRewritesLast(messages, fragments[..i + 1], "");
    ConcatLast(fragments[..i + 1]);
    assert fragments[..i + 1][..i] == fragments[..i];
    assert "" + Concat(fragments[..i + 1]) == Concat(fragments[..i + 1]);
  }

  lemma ConcatLast(fragments: seq<string>)
    requires |fragments| > 0
    ensures Concat(fragments) == Concat(fragments[..|fragments| - 1]) + fragments[|fragments| - 1]
  {
  }

  lemma ReplaceLast(prefix: seq<ChatMessage>, before: ChatMessage, after: ChatMessage)
    ensures (prefix + [before])[|prefix| := after] == prefix + [after]
  {
  }

  /** A resting transcript: the greeting for `topic`, then user/bot pairs. */
  ghost predicate WellFormed(messages: seq<ChatMessage>, topic: string) {
    && |messages| % 2 == 1
    && messages[0] == Greeting(topic)
    && forall i :: 1 <= i < |messages| ==> messages[i].sender == (if i % 2 == 1 then User else Bot)
  }

  /** What the user can do between turns. */
  datatype Event = Type(text: string) | Send(reply: GeminiService.TextStream) | ChangeTopic(topic: string)

  /** Drives the component through a sequence of user actions from mounting
      on `topic`. Between turns the transcript is the current topic's
      greeting followed by complete user/bot pairs, and no turn is in
      progress. */
  method RunSession(topic: string, events: seq<Event>) returns (st: ChatState, current: string)
    ensures WellFormed(st.messages, current)
    ensures !st.isLoading
    ensures (forall i :: 0 <= i < |events| ==> !events[i].ChangeTopic?) ==>
      current == topic && st.messages[0] == Greeting(topic)
  {
    st := Mount(topic);
    current := topic;
    var i := 0;
    while i < |events|
      invariant 0 <= i <= |events|
      invariant WellFormed(st.messages, current)
      invariant !st.isLoading
      invariant (forall j :: 0 <= j < i ==> !events[j].ChangeTopic?) ==> current == topic
    {
      match events[i] {
        case Type(text) =>
          st := st.(userInput := text);
        case Send(reply) =>
          var sent;
          st, sent := HandleSendMessage(st, reply);
        case ChangeTopic(t) =>
          st := TopicChanged(st, t);
          current := t;
      }
      i := i + 1;
    }
  }

  /** The chat turn over the service's stream: on success the bot reply is
      the concatenation of the backend's chunk texts, in arrival order; on a
      stream failure it is the apology, whatever partial text had arrived. */
  method TurnOverBackend(st: ChatState, backend: GeminiService.ChunkStream) returns (r: ChatState)
    requires CanSend(st)
    ensures |r.messages| == |st.messages| + 2 && r.messages[..|st.messages|] == st.messages
    ensures !backend.fails ==> r.messages[|r.messages| - 1] == ChatMessage(Bot, ChunkTexts(backend.chunks))
    ensures backend.fails ==> r.messages[|r.messages| - 1] == ChatMessage(Bot, Apology)
  {
    var reply := GeminiService.SendMessageStream(backend);
    var sent;
    r, sent := HandleSendMessage(st, reply);
    ConcatOfStream(backend);
  }

  /** The texts of the chunks, concatenated. */
  function ChunkTexts(chunks: seq<GeminiService.Chunk>): string {
    if |chunks| == 0 then ""
    else ChunkTexts(chunks[..|chunks| - 1]) + chunks[|chunks| - 1].text
  }

  /** Concatenating the fragments the service yields gives the chunk texts
      concatenated. */
  lemma {:induction false} ConcatOfStream(backend: GeminiService.ChunkStream)
    ensures Concat(GeminiService.SendMessageStream(backend).fragments) == ChunkTexts(backend.chunks)
    decreases |backend.chunks|
  {
    var chunks := backend.chunks;
    if |chunks| > 0 {
      var n := |chunks|;
      var shorter := GeminiService.ChunkStream(chunks[..n - 1], backend.fails);
      ConcatOfStream(shorter);
      var f := GeminiService.SendMessageStream(backend).fragments;
      assert f[..n - 1] == GeminiService.SendMessageStream(shorter).fragments;
      assert chunks[..n - 1] == shorter.chunks;
    }
  }
}
