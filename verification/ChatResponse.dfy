/** What the chat reader reports of the messages it handles: the response's fields and the handler calls. */
module ChatResponse {
  import opened Wrappers
  import opened ChatReader

  /** The last of the messages that is wanted. */
  function LastOf(messages: seq<Message>, wanted: Message -> bool): Option<Payload> {
    if messages == [] then None
    else if wanted(messages[|messages| - 1]) then Some(messages[|messages| - 1].payload)
    else LastOf(messages[..|messages| - 1], wanted)
  }

  /** The message at `i` is wanted, and no later one is. */
  lemma {:induction false} LastOfReads(messages: seq<Message>, wanted: Message -> bool, i: nat)
    requires i < |messages| && wanted(messages[i]) && forall j :: i < j < |messages| ==> !wanted(messages[j])
    ensures LastOf(messages, wanted) == Some(messages[i].payload)
    decreases |messages|
  {
    var n := |messages| - 1;
    if i < n {
      assert forall j :: i < j < n ==> messages[..n][j] == messages[j];
      LastOfReads(messages[..n], wanted, i);
    }
  }

  lemma {:induction false} LastOfNothing(messages: seq<Message>, wanted: Message -> bool)
    requires forall i :: 0 <= i < |messages| ==> !wanted(messages[i])
    ensures LastOf(messages, wanted) == None
    decreases |messages|
  {
    if messages != [] { LastOfNothing(messages[..|messages| - 1], wanted); }
  }

  // ----- the messages that bring each field -----

  /** A conversation's opening names it; later events may name it again. */
  function NamesConversation(): Message -> bool {
    (m: Message) =>
      || m.name == "conversation"
      || (m.name in ["cancelled", "done", "suggestions", "skill"] && m.payload.conversationId.Some?)
  }

  function IsDone(): Message -> bool {
    (m: Message) => m.name == "done"
  }

  function BringsSuggestions(): Message -> bool {
    (m: Message) => m.name == "done" || m.name == "suggestions"
  }

  function BringsMessageId(): Message -> bool {
    (m: Message) => m.name == "done" && m.payload.assistantMessageId.Some?
  }

  function BringsAgentId(): Message -> bool {
    (m: Message) => m.name == "done" && m.payload.agentId.Some?
  }

  function BringsAgentName(): Message -> bool {
    (m: Message) => m.name == "done" && m.payload.agentName.Some?
  }

  function ConversationAfter(messages: seq<Message>): string {
    var p := LastOf(messages, NamesConversation());
    if p.Some? && p.value.conversationId.Some? then p.value.conversationId.value else ""
  }

  function SuggestionsAfter(messages: seq<Message>): Option<string> {
    var p := LastOf(messages, BringsSuggestions());
    if p.Some? then p.value.suggestions else None
  }

  function DetailsAfter(messages: seq<Message>): string {
    var p := LastOf(messages, IsDone());
    if p.Some? then p.value.details else ""
  }

  function KeptAfter(messages: seq<Message>): Kept {
    var id, agent, name := LastOf(messages, BringsMessageId()), LastOf(messages, BringsAgentId()),
                           LastOf(messages, BringsAgentName());
    Kept(if id.Some? then id.value.assistantMessageId else None, if agent.Some? then agent.value.agentId else None,
         if name.Some? then name.value.agentName else None)
  }

  /** The text of the chunks since the last stored answer, after that answer. */
  function AnswerAfter(messages: seq<Message>): string {
    if messages == [] then "" else
    var n := |messages| - 1;
    if messages[n].name == "done" && messages[n].payload.answer.Some? then messages[n].payload.answer.value
    else if messages[n].name == "chunk" then AnswerAfter(messages[..n]) + messages[n].payload.text
    else AnswerAfter(messages[..n])
  }

  // ----- the calls -----

  /** The call a message makes, with the fields as they then stand: one of its own kind, or none. */
  function CallOf(m: Message, conversationId: string, kept: Kept, answer: string): seq<HandlerCall> {
    if m.name == "conversation" then [OnConversation(m.payload)]
    else if m.name == "chunk" then [OnChunk(m.payload)]
    else if m.name == "cancelled" then [OnCancelled(conversationId, m.payload)]
    else if m.name == "done" then [OnDone(conversationId, kept, answer, m.payload)]
    else if m.name == "suggestions" then [OnSuggestions(conversationId, m.payload.suggestions)]
    else if m.name == "skill" then [OnSkill(conversationId, m.payload)]
    else []
  }

  /** The calls of all the messages, in their order. */
  function Calls(messages: seq<Message>): seq<HandlerCall> {
    if messages == [] then [] else
    Calls(messages[..|messages| - 1])
    + CallOf(messages[|messages| - 1], ConversationAfter(messages), KeptAfter(messages), AnswerAfter(messages))
  }

  /** The response as the messages make it. */
  function Response(messages: seq<Message>): State {
    State(ConversationAfter(messages), AnswerAfter(messages), KeptAfter(messages), SuggestionsAfter(messages),
          DetailsAfter(messages), false, Calls(messages))
  }

  lemma {:induction false} ResponseReads(messages: seq<Message>)
    ensures HandleAll(START, messages) == Response(messages)
    decreases |messages|
  {
    if messages != [] {
      ResponseReads(messages[..|messages| - 1]);
      NextMessage(messages);
    }
  }

  lemma NextMessage(messages: seq<Message>)
    requires messages != []
    ensures var n := |messages| - 1;
            Handle(Response(messages[..n]), messages[n].name, messages[n].payload) == Response(messages)
  {
    Handled(Response(messages[..|messages| - 1]), messages[|messages| - 1]);
    NextConversation(messages);
    NextSuggestions(messages);
    NextDetails(messages);
    NextKept(messages);
  }

  /** What one message makes of any response. */
  lemma Handled(s: State, m: Message)
    ensures var p, r := m.payload, Handle(s, m.name, m.payload);
            && r.conversationId == (if NamesConversation()(m) then p.conversationId.GetOr("") else s.conversationId)
            && r.answer == (if m.name == "done" && p.answer.Some? then p.answer.value
                            else if m.name == "chunk" then s.answer + p.text else s.answer)
            && r.kept == (if IsDone()(m) then Keep(s.kept, p) else s.kept)
            && r.suggestions == (if BringsSuggestions()(m) then p.suggestions else s.suggestions)
            && r.details == (if IsDone()(m) then p.details else s.details)
            && r.failed == s.failed && r.calls == s.calls + CallOf(m, r.conversationId, r.kept, r.answer)
  {
    assert s.calls + [] == s.calls;
  }

  lemma NextConversation(messages: seq<Message>)
    requires messages != []
    ensures var n := |messages| - 1; var m := messages[n];
            ConversationAfter(messages)
            == if NamesConversation()(m) then m.payload.conversationId.GetOr("") else ConversationAfter(messages[..n])
  {
    LastNext(messages, NamesConversation());
  }

  lemma NextSuggestions(messages: seq<Message>)
    requires messages != []
    ensures var n := |messages| - 1; var m := messages[n];
            SuggestionsAfter(messages)
            == if BringsSuggestions()(m) then m.payload.suggestions else SuggestionsAfter(messages[..n])
  {
    LastNext(messages, BringsSuggestions());
  }

  lemma NextDetails(messages: seq<Message>)
    requires messages != []
    ensures var n := |messages| - 1; var m := messages[n];
            DetailsAfter(messages) == if IsDone()(m) then m.payload.details else DetailsAfter(messages[..n])
  {
    LastNext(messages, IsDone());
  }

  lemma NextKept(messages: seq<Message>)
    requires messages != []
    ensures var n := |messages| - 1; var m := messages[n];
            KeptAfter(messages) == if IsDone()(m) then Keep(KeptAfter(messages[..n]), m.payload) else KeptAfter(messages[..n])
  {
    LastNext(messages, BringsMessageId());
    LastNext(messages, BringsAgentId());
    LastNext(messages, BringsAgentName());
  }

  lemma LastNext(messages: seq<Message>, wanted: Message -> bool)
    requires messages != []
    ensures var n := |messages| - 1;
            LastOf(messages, wanted)
            == if wanted(messages[n]) then Some(messages[n].payload) else LastOf(messages[..n], wanted)
  {}

  /**
    What the reader reports of a stream: however the text is cut into chunks, each field is that of the last
    message that brings it, the answer is the last stored one and what was streamed since, and every message of
    a known kind makes one call of that kind, in order, up to data that does not decode.
    */
  lemma StreamReads(decode: Decoder, raw: seq<string>)
    ensures FlushAll(START, decode, raw)
            == Response(Messages(decode, raw)).(failed := HasUndecodable(decode, raw))
  {
    FlushHandles(START, decode, raw);
    ResponseReads(Messages(decode, raw));
  }

  // ----- the calls, one kind at a time -----

  function Named(messages: seq<Message>, name: string): seq<Payload> {
    if messages == [] then [] else
    Named(messages[..|messages| - 1], name)
    + if messages[|messages| - 1].name == name then [messages[|messages| - 1].payload] else []
  }

  function Chunked(calls: seq<HandlerCall>): seq<Payload> {
    if calls == [] then [] else
    Chunked(calls[..|calls| - 1]) + if calls[|calls| - 1].OnChunk? then [calls[|calls| - 1].chunk] else []
  }

  lemma ChunkedAppend(calls: seq<HandlerCall>, more: seq<HandlerCall>)
    requires |more| <= 1
    ensures Chunked(calls + more) == Chunked(calls) + if more != [] && more[0].OnChunk? then [more[0].chunk] else []
  {
    if more == [] {
      assert calls + more == calls;
    } else {
      assert (calls + more)[..|calls|] == calls;
    }
  }

  lemma ChunkCall(m: Message, id: string, kept: Kept, answer: string)
    ensures var calls := CallOf(m, id, kept, answer);
            && |calls| <= 1 && (calls != [] && calls[0].OnChunk? <==> m.name == "chunk")
            && (m.name == "chunk" ==> calls[0].chunk == m.payload)
  {}

  /** The chunk handler is called with exactly the chunks' payloads, in order. */
  lemma {:induction false} EveryChunkIsHandled(messages: seq<Message>)
    ensures Chunked(Calls(messages)) == Named(messages, "chunk")
    decreases |messages|
  {
    if messages != [] {
      EveryChunkIsHandled(messages[..|messages| - 1]);
      var m, id, kept, answer := messages[|messages| - 1], ConversationAfter(messages), KeptAfter(messages),
                                 AnswerAfter(messages);
      ChunkCall(m, id, kept, answer);
      ChunkedAppend(Calls(messages[..|messages| - 1]), CallOf(m, id, kept, answer));
    }
  }
}
