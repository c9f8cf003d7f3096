/**
 * The agent mode's streamed reply: every chunk the backend sends is stripped of a
 * leading `data:` and the white space after it, parsed, and kept only when it is an
 * `agent_message` event; the answer is the concatenation of the kept answers and the
 * conversation id the first one the kept events carry. Parsing (`JSON.parse`) is a
 * parameter: a chunk it rejects yields `None`.
 */
module Stream {
  import opened Wrappers
  import opened Text

  /** The fields of a parsed chunk the service reads. */
  datatype StreamEvent = StreamEvent(event: string, answer: string, conversationId: Option<string>)

  /** The chunk with a leading `data:` and the white space after it removed; a chunk
      without that prefix is left as it is. */
  function StripDataPrefix(data: string): string {
    if StartsWith(data, "data:") then TrimStart(data[5..]) else data
  }

  /** What is stripped is exactly the prefix and white space after it. */
  lemma StripDataPrefixFacts(data: string)
    ensures var r := StripDataPrefix(data);
      |r| <= |data| && r == data[|data| - |r|..]
    ensures !StartsWith(data, "data:") ==> StripDataPrefix(data) == data
    ensures StartsWith(data, "data:") ==>
      var r := StripDataPrefix(data);
      |r| <= |data| - 5 && AllSpace(data[5..|data| - |r|]) && (r != [] ==> !IsSpace(r[0]))
  {
    if StartsWith(data, "data:") {
      var rest := data[5..];
      TrimStartFacts(rest);
      var r := TrimStart(rest);
      assert data[|data| - |r|..] == rest[|rest| - |r|..];
      assert data[5..|data| - |r|] == rest[..|rest| - |r|];
    }
  }

  /** The event a chunk contributes: the parsed event if it is an `agent_message`. */
  function AgentEvent(chunk: string, parse: string -> Option<StreamEvent>): Option<StreamEvent> {
    match parse(StripDataPrefix(chunk))
    case None => None
    case Some(e) => if e.event == "agent_message" then Some(e) else None
  }

  /** The `agent_message` events of a stream, in arrival order. */
  function AgentEvents(chunks: seq<string>, parse: string -> Option<StreamEvent>): (events: seq<StreamEvent>)
    ensures |events| <= |chunks|
    ensures forall i :: 0 <= i < |events| ==> events[i].event == "agent_message"
  {
    if chunks == [] then []
    else
      var head := match AgentEvent(chunks[0], parse) case None => [] case Some(e) => [e];
      head + AgentEvents(chunks[1..], parse)
  }

  /** The answers of the events, concatenated in order. */
  function Answers(events: seq<StreamEvent>): string {
    if events == [] then [] else events[0].answer + Answers(events[1..])
  }

  /** The first conversation id the events carry. */
  function FirstConversation(events: seq<StreamEvent>): Option<string> {
    if events == [] then None
    else if events[0].conversationId.Some? then events[0].conversationId
    else FirstConversation(events[1..])
  }

  /** The answer a stream yields. */
  function StreamAnswer(chunks: seq<string>, parse: string -> Option<StreamEvent>): string {
    Answers(AgentEvents(chunks, parse))
  }

  /** The conversation id a stream yields. */
  function StreamConversationId(chunks: seq<string>, parse: string -> Option<StreamEvent>): Option<string> {
    FirstConversation(AgentEvents(chunks, parse))
  }

  /** Splitting a stream anywhere splits its events there. */
  lemma {:induction false} AgentEventsAppend(a: seq<string>, b: seq<string>, parse: string -> Option<StreamEvent>)
    ensures AgentEvents(a + b, parse) == AgentEvents(a, parse) + AgentEvents(b, parse)
  {
    if a == [] {
      assert a + b == b;
    } else {
      assert (a + b)[0] == a[0] && (a + b)[1..] == a[1..] + b;
      AgentEventsAppend(a[1..], b, parse);
    }
  }

  lemma {:induction false} AnswersAppend(x: seq<StreamEvent>, y: seq<StreamEvent>)
    ensures Answers(x + y) == Answers(x) + Answers(y)
  {
    if x == [] {
      assert x + y == y;
    } else {
      assert (x + y)[0] == x[0] && (x + y)[1..] == x[1..] + y;
      AnswersAppend(x[1..], y);
    }
  }

  lemma {:induction false} FirstConversationAppend(x: seq<StreamEvent>, y: seq<StreamEvent>)
    ensures FirstConversation(x + y) ==
      if FirstConversation(x).Some? then FirstConversation(x) else FirstConversation(y)
  {
    if x == [] {
      assert x + y == y;
    } else {
      assert (x + y)[0] == x[0] && (x + y)[1..] == x[1..] + y;
      FirstConversationAppend(x[1..], y);
    }
  }

  /** A stream received in two pieces yields the two answers one after the other, and
      the second piece's conversation id only if the first had none. */
  lemma StreamAppend(a: seq<string>, b: seq<string>, parse: string -> Option<StreamEvent>)
    ensures StreamAnswer(a + b, parse) == StreamAnswer(a, parse) + StreamAnswer(b, parse)
    ensures StreamConversationId(a + b, parse) ==
      if StreamConversationId(a, parse).Some? then StreamConversationId(a, parse) else StreamConversationId(b, parse)
  {
    AgentEventsAppend(a, b, parse);
    AnswersAppend(AgentEvents(a, parse), AgentEvents(b, parse));
    FirstConversationAppend(AgentEvents(a, parse), AgentEvents(b, parse));
  }

  /** A chunk that does not parse, or parses to another kind of event, changes neither
      the answer nor the conversation id. */
  lemma IgnoredChunk(a: seq<string>, chunk: string, parse: string -> Option<StreamEvent>)
    requires AgentEvent(chunk, parse).None?
    ensures StreamAnswer(a + [chunk], parse) == StreamAnswer(a, parse)
    ensures StreamConversationId(a + [chunk], parse) == StreamConversationId(a, parse)
  {
    AgentEventsAppend(a, [chunk], parse);
    assert AgentEvents([chunk], parse) == [];
    assert AgentEvents(a, parse) + [] == AgentEvents(a, parse);
  }

  /** A kept chunk appends its answer, and supplies the conversation id only while none
      has been seen. */
  lemma KeptChunk(a: seq<string>, chunk: string, parse: string -> Option<StreamEvent>)
    requires AgentEvent(chunk, parse).Some?
    ensures var e := AgentEvent(chunk, parse).value;
      StreamAnswer(a + [chunk], parse) == StreamAnswer(a, parse) + e.answer
    ensures var e := AgentEvent(chunk, parse).value;
      StreamConversationId(a + [chunk], parse) ==
        if StreamConversationId(a, parse).Some? then StreamConversationId(a, parse) else e.conversationId
  {
    var e := AgentEvent(chunk, parse).value;
    StreamAppend(a, [chunk], parse);
    assert AgentEvents([chunk], parse) == [e];
    assert Answers([e]) == e.answer + Answers([]);
    assert FirstConversation([e]) == e.conversationId by {
      if e.conversationId.None? {
        assert [e][1..] == [];
      }
    }
  }

  /** The `data` handler run over the chunks in arrival order, then the `end` handler's
      view of `answer` and `conversationId`. */
  method AggregateAgentStream(chunks: seq<string>, parse: string -> Option<StreamEvent>)
    returns (answer: string, conversationId: Option<string>)
    ensures answer == StreamAnswer(chunks, parse)
    ensures conversationId == StreamConversationId(chunks, parse)
  {
    answer := "";
    conversationId := None;
    for i := 0 to |chunks|
      invariant answer == StreamAnswer(chunks[..i], parse)
      invariant conversationId == StreamConversationId(chunks[..i], parse)
    {
      assert chunks[..i + 1] == chunks[..i] + [chunks[i]];
      var cleaned := StripDataPrefix(chunks[i]);
      match parse(cleaned)
      case None =>
        IgnoredChunk(chunks[..i], chunks[i], parse);
      case Some(event) =>
        if event.event == "agent_message" {
          KeptChunk(chunks[..i], chunks[i], parse);
          if conversationId.None? {
            conversationId := event.conversationId;
          }
          answer := answer + event.answer;
        } else {
          IgnoredChunk(chunks[..i], chunks[i], parse);
        }
    }
    assert chunks[..|chunks|] == chunks;
  }
}
