/**
  The chat reader's mutable state: each event handed over updates the answer and the other fields the
  response is made of, and calls one handler. JSON decoding is a parameter; a payload that does not
  decode makes the reader throw.
  */
module ChatReader {
  import opened Wrappers
  import opened Text
  import opened EventStream
  import opened ChatStream

  /** A decoded payload; `details` stands for the fields that are passed on as they are. */
  datatype Payload = Payload(
    kind: Option<string>, conversationId: Option<string>, text: string, answer: Option<string>,
    assistantMessageId: Option<string>, agentId: Option<string>, agentName: Option<string>,
    suggestions: Option<string>, details: string)

  type Decoder = string -> Option<Payload>

  /** What a completion leaves as it was where it brings no value of its own. */
  datatype Kept = Kept(assistantMessageId: Option<string>, agentId: Option<string>, agentName: Option<string>)

  datatype HandlerCall =
    | OnConversation(conversation: Payload)
    | OnChunk(chunk: Payload)
    | OnCancelled(cancelledId: string, cancelled: Payload)
    | OnDone(doneId: string, kept: Kept, answer: string, done: Payload)
    | OnSuggestions(suggestionsId: string, suggestions: Option<string>)
    | OnSkill(skillId: string, skill: Payload)

  datatype State = State(
    conversationId: string, answer: string, kept: Kept, suggestions: Option<string>,
    details: string, failed: bool, calls: seq<HandlerCall>)

  const START := State("", "", Kept(None, None, None), None, "", false, [])

  /** `value ?? old`. */
  function OrPrevious(value: Option<string>, previous: Option<string>): Option<string> {
    if value.Some? then value else previous
  }

  function Keep(kept: Kept, p: Payload): Kept {
    Kept(OrPrevious(p.assistantMessageId, kept.assistantMessageId), OrPrevious(p.agentId, kept.agentId),
         OrPrevious(p.agentName, kept.agentName))
  }

  /** An event's name, its payload's type where the event has none. */
  function NormalizedName(name: string, p: Payload): string {
    if name == "message" && p.kind.Some? then p.kind.value else name
  }

  function Handle(s: State, name: string, p: Payload): State {
    if name == "conversation" then
      s.(conversationId := p.conversationId.GetOr(""), calls := s.calls + [OnConversation(p)])
    else if name == "chunk" then
      s.(answer := s.answer + p.text, calls := s.calls + [OnChunk(p)])
    else if name == "cancelled" then
      var id := p.conversationId.GetOr(s.conversationId);
      s.(conversationId := id, calls := s.calls + [OnCancelled(id, p)])
    else if name == "done" then
      var id := p.conversationId.GetOr(s.conversationId);
      var kept, answer := Keep(s.kept, p), p.answer.GetOr(s.answer);
      s.(conversationId := id, kept := kept, answer := answer, suggestions := p.suggestions,
         details := p.details, calls := s.calls + [OnDone(id, kept, answer, p)])
    else if name == "suggestions" then
      var id := p.conversationId.GetOr(s.conversationId);
      s.(conversationId := id, suggestions := p.suggestions, calls := s.calls + [OnSuggestions(id, p.suggestions)])
    else if name == "skill" then
      var id := p.conversationId.GetOr(s.conversationId);
      s.(conversationId := id, calls := s.calls + [OnSkill(id, p)])
    else s
  }

  /** An event that carries data. */
  predicate HasData(raw: string) {
    Trim(raw) != "" && Parsed(raw).data != ""
  }

  function Flush(s: State, decode: Decoder, raw: string): State {
    if s.failed || !HasData(raw) then s
    else
      var e := Parsed(raw);
      var p := decode(e.data);
      if p.None? then s.(failed := true) else Handle(s, NormalizedName(e.name, p.value), p.value)
  }

  function FlushAll(s: State, decode: Decoder, raw: seq<string>): State
    decreases |raw|
  {
    if raw == [] then s else FlushAll(Flush(s, decode, raw[0]), decode, raw[1..])
  }

  lemma {:induction false} FlushAllConcat(s: State, decode: Decoder, a: seq<string>, b: seq<string>)
    ensures FlushAll(s, decode, a + b) == FlushAll(FlushAll(s, decode, a), decode, b)
    decreases |a|
  {
    if a == [] {
      assert a + b == b;
    } else {
      assert (a + b)[0] == a[0] && (a + b)[1..] == a[1..] + b;
      FlushAllConcat(Flush(s, decode, a[0]), decode, a[1..], b);
    }
  }

  lemma FlushNext(s: State, decode: Decoder, flushed: seq<string>, raw: string)
    ensures FlushAll(s, decode, flushed + [raw]) == Flush(FlushAll(s, decode, flushed), decode, raw)
  {
    FlushAllConcat(s, decode, flushed, [raw]);
    FlushAllOne(FlushAll(s, decode, flushed), decode, raw);
  }

  lemma FlushAllOne(s: State, decode: Decoder, raw: string)
    ensures FlushAll(s, decode, [raw]) == Flush(s, decode, raw)
  {
    assert [raw][1..] == [];
  }

  class Reader {
    const decode: Decoder
    var buffer: string
    var conversationId: string
    var answer: string
    var assistantMessageId: Option<string>
    var agentId: Option<string>
    var agentName: Option<string>
    var suggestions: Option<string>
    var details: string
    var failed: bool
    var calls: seq<HandlerCall>

    function Current(): State
      reads this
    {
      State(conversationId, answer, Kept(assistantMessageId, agentId, agentName), suggestions, details, failed, calls)
    }

    constructor (decode: Decoder)
      ensures this.decode == decode && buffer == "" && Current() == START
    {
      this.decode := decode;
      buffer, conversationId, answer, details := "", "", "", "";
      assistantMessageId, agentId, agentName := None, None, None;
      suggestions, failed, calls := None, false, [];
    }

    method FlushEvent(rawEvent: string)
      modifies this
      ensures Current() == Flush(old(Current()), decode, rawEvent) && buffer == old(buffer)
    {
      if failed || Trim(rawEvent) == "" { return; }
      var e := ParseSseEvent(rawEvent);
      if e.data == "" { return; }
      var decoded := decode(e.data);
      if decoded.None? {
        failed := true;
        return;
      }
      HandlePayload(NormalizedName(e.name, decoded.value), decoded.value);
    }

    method HandlePayload(name: string, p: Payload)
      modifies this
      ensures Current() == Handle(old(Current()), name, p) && buffer == old(buffer)
    {
      if name == "conversation" {
        conversationId := p.conversationId.GetOr("");
        calls := calls + [OnConversation(p)];
        return;
      }
      if name == "chunk" {
        answer := answer + p.text;
        calls := calls + [OnChunk(p)];
        return;
      }
      if name == "cancelled" {
        conversationId := p.conversationId.GetOr(conversationId);
        calls := calls + [OnCancelled(conversationId, p)];
        return;
      }
      if name == "done" {
        HandleDone(p);
        return;
      }
      if name == "suggestions" {
        conversationId := p.conversationId.GetOr(conversationId);
        suggestions := p.suggestions;
        calls := calls + [OnSuggestions(conversationId, suggestions)];
        return;
      }
      if name == "skill" {
        conversationId := p.conversationId.GetOr(conversationId);
        calls := calls + [OnSkill(conversationId, p)];
      }
    }

    method HandleDone(p: Payload)
      modifies this
      ensures Current() == Handle(old(Current()), "done", p) && buffer == old(buffer)
    {
      conversationId := p.conversationId.GetOr(conversationId);
      if p.assistantMessageId.Some? { assistantMessageId := p.assistantMessageId; }
      if p.agentId.Some? { agentId := p.agentId; }
      if p.agentName.Some? { agentName := p.agentName; }
      answer := p.answer.GetOr(answer);
      suggestions := p.suggestions;
      details := p.details;
      calls := calls + [OnDone(conversationId, Kept(assistantMessageId, agentId, agentName), answer, p)];
    }

    /** Takes in one chunk: flushes every event the buffer now holds whole. */
    method Take(chunk: string)
      modifies this
      ensures var cut := Split(BlankLine, old(buffer) + chunk);
              buffer == cut.rest && Current() == FlushAll(old(Current()), decode, cut.events)
      ensures CutFirst(BlankLine, buffer).None?
    {
      buffer := buffer + chunk;
      var i := Find(BlankLine, buffer);
      ghost var whole, flushed := Split(BlankLine, buffer), [];
      whole.AfterNothing();
      while i < |buffer|
        invariant i == Find(BlankLine, buffer)
        invariant whole == Cut(flushed, "").Then(Split(BlankLine, buffer))
        invariant Current() == FlushAll(old(Current()), decode, flushed)
        decreases |buffer|
      {
        var n := DelimiterOf(BlankLine, buffer[i..]);
        CutNext(BlankLine, whole, flushed, buffer, i, n);
        FlushNext(old(Current()), decode, flushed, buffer[..i]);
        flushed := flushed + [buffer[..i]];
        FlushEvent(buffer[..i]);
        buffer := buffer[i + n..];
        i := Find(BlankLine, buffer);
      }
      NothingLeft(BlankLine, flushed, buffer);
    }

    /**
      The whole loop. The response, the handler calls and their order are those of the whole text,
      however it was cut into chunks.
      */
    method Stream(chunks: seq<string>)
      requires buffer == "" && Current() == START
      modifies this
      ensures Current() == FlushAll(START, decode, RawEvents(BlankLine, Concat(chunks)))
    {
      for i := 0 to |chunks|
        invariant buffer == Split(BlankLine, Concat(chunks[..i])).rest
        invariant Current() == FlushAll(START, decode, Split(BlankLine, Concat(chunks[..i])).events)
      {
        assert chunks[..i + 1][..i] == chunks[..i];
        SplitAppend(BlankLine, Concat(chunks[..i]), chunks[i]);
        FlushAllConcat(START, decode, Split(BlankLine, Concat(chunks[..i])).events,
                       Split(BlankLine, buffer + chunks[i]).events);
        Take(chunks[i]);
      }
      assert chunks[..|chunks|] == chunks;
      if Trim(buffer) != "" {
        FlushAllConcat(START, decode, Split(BlankLine, Concat(chunks)).events, [buffer]);
        FlushAllOne(Current(), decode, buffer);
        FlushEvent(buffer);
      }
    }
  }

  // ----- what the answer reads -----

  datatype Message = Message(name: string, payload: Payload)

  /**
    The payloads handled, in order, up to the first that does not decode: of each raw event that is not blank and
    has data, under the event's name, or under the payload's type where the event is a plain message.
    */
  function Messages(decode: Decoder, raw: seq<string>): seq<Message>
    decreases |raw|
  {
    if raw == [] then []
    else if IsBlank(raw[0]) || Parsed(raw[0]).data == "" then Messages(decode, raw[1..])
    else
      var p, name := decode(Parsed(raw[0]).data), Parsed(raw[0]).name;
      if p.None? then []
      else [Message(if name == "message" then p.value.kind.GetOr("message") else name, p.value)]
           + Messages(decode, raw[1..])
  }

  function ChunkOf(m: Message): string {
    if m.name == "chunk" then m.payload.text else ""
  }

  function Chunks(messages: seq<Message>): string {
    if messages == [] then "" else
    Chunks(messages[..|messages| - 1]) + ChunkOf(messages[|messages| - 1])
  }

  /** A completion that brings the stored answer. */
  predicate BringsAnswer(m: Message) {
    m.name == "done" && m.payload.answer.Some?
  }

  function HandleAll(s: State, messages: seq<Message>): State
    decreases |messages|
  {
    if messages == [] then s else
    var n := |messages| - 1;
    Handle(HandleAll(s, messages[..n]), messages[n].name, messages[n].payload)
  }

  /** The answer is what was streamed, until a completion brings the stored one. */
  lemma {:induction false} AnswerIsStreamed(s: State, messages: seq<Message>)
    requires forall m :: m in messages ==> !BringsAnswer(m)
    ensures HandleAll(s, messages).answer == s.answer + Chunks(messages)
    decreases |messages|
  {
    if messages == [] {
      assert s.answer + "" == s.answer;
    } else {
      var n := |messages| - 1;
      AnswerIsStreamed(s, messages[..n]);
      assert messages[n] in messages;
      ChunkAppended(HandleAll(s, messages[..n]), s.answer, messages);
    }
  }

  /** From then on it is the stored answer and what is streamed after it. */
  lemma {:induction false} StoredAnswerReplaces(s: State, before: seq<Message>, done: Message, after: seq<Message>)
    requires BringsAnswer(done) && forall m :: m in after ==> !BringsAnswer(m)
    ensures HandleAll(s, before + [done] + after).answer == done.payload.answer.value + Chunks(after)
    decreases |after|
  {
    var all := before + [done] + after;
    if after == [] {
      assert all[..|all| - 1] == before;
      assert done.payload.answer.value + "" == done.payload.answer.value;
    } else {
      var n := |after| - 1;
      assert all[..|all| - 1] == before + [done] + after[..n];
      StoredAnswerReplaces(s, before, done, after[..n]);
      assert after[n] in after;
      ChunkAppended(HandleAll(s, before + [done] + after[..n]), done.payload.answer.value, after);
    }
  }

  /** One more message appends its text, if it is a chunk, on both sides. */
  lemma ChunkAppended(s: State, start: string, messages: seq<Message>)
    requires messages != [] && !BringsAnswer(messages[|messages| - 1])
    requires s.answer == start + Chunks(messages[..|messages| - 1])
    ensures var m := messages[|messages| - 1];
            Handle(s, m.name, m.payload).answer == start + Chunks(messages)
  {
    var m := messages[|messages| - 1];
    AnswerAfter(s, m);
    ConcatAssociates(start, Chunks(messages[..|messages| - 1]), ChunkOf(m));
  }

  lemma AnswerAfter(s: State, m: Message)
    requires !BringsAnswer(m)
    ensures Handle(s, m.name, m.payload).answer == s.answer + ChunkOf(m)
  {
    assert s.answer + "" == s.answer;
  }

  lemma ConcatAssociates(a: string, b: string, c: string)
    ensures a + (b + c) == a + b + c
  {}

  /** Some raw event's data does not decode. */
  predicate HasUndecodable(decode: Decoder, raw: seq<string>) {
    exists i :: 0 <= i < |raw| && IsUndecodable(decode, raw[i])
  }

  predicate IsUndecodable(decode: Decoder, event: string) {
    !IsBlank(event) && Parsed(event).data != "" && decode(Parsed(event).data).None?
  }

  lemma UndecodableNext(decode: Decoder, raw: seq<string>)
    requires raw != []
    ensures HasUndecodable(decode, raw) <==> IsUndecodable(decode, raw[0]) || HasUndecodable(decode, raw[1..])
  {
    if HasUndecodable(decode, raw[1..]) {
      var i :| 0 <= i < |raw| - 1 && IsUndecodable(decode, raw[1..][i]);
      assert IsUndecodable(decode, raw[i + 1]);
    }
    if HasUndecodable(decode, raw) && !IsUndecodable(decode, raw[0]) {
      var i :| 0 <= i < |raw| && IsUndecodable(decode, raw[i]);
      assert IsUndecodable(decode, raw[1..][i - 1]);
    }
  }

  /** Flushing the raw events handles their messages, and fails exactly at data that does not decode. */
  lemma {:induction false} FlushHandles(s: State, decode: Decoder, raw: seq<string>)
    requires !s.failed
    ensures var r := FlushAll(s, decode, raw);
            r == HandleAll(s, Messages(decode, raw)).(failed := HasUndecodable(decode, raw))
    decreases |raw|
  {
    if raw != [] {
      TrimOfBlank(raw[0]);
      UndecodableNext(decode, raw);
      if !HasData(raw[0]) {
        FlushHandles(s, decode, raw[1..]);
      } else {
        var p := decode(Parsed(raw[0]).data);
        if p.None? {
          FailedStays(s.(failed := true), decode, raw[1..]);
        } else {
          var m := Message(NormalizedName(Parsed(raw[0]).name, p.value), p.value);
          FlushHandles(Handle(s, m.name, m.payload), decode, raw[1..]);
          HandleFirst(s, m, Messages(decode, raw[1..]));
        }
      }
    }
  }

  lemma {:induction false} FailedStays(s: State, decode: Decoder, raw: seq<string>)
    requires s.failed
    ensures FlushAll(s, decode, raw) == s
    decreases |raw|
  {
    if raw != [] { FailedStays(s, decode, raw[1..]); }
  }

  lemma {:induction false} HandleFirst(s: State, m: Message, rest: seq<Message>)
    ensures HandleAll(s, [m] + rest) == HandleAll(Handle(s, m.name, m.payload), rest)
    decreases |rest|
  {
    var all := [m] + rest;
    if rest == [] {
      assert all[..0] == [] && all[0] == m;
    } else {
      var n := |rest| - 1;
      assert all[..|all| - 1] == [m] + rest[..n];
      HandleFirst(s, m, rest[..n]);
    }
  }
}
