/** What a turn's reply reads, from the message sent to the last event of its stream. */
module TestExecutionReplies {
  import opened Wrappers
  import opened TestExecution
  import opened TestExecutionConfluence
  import Runs = TestExecutionRuns

  /** The message at `p` is the one reply that events of the turn's attempt are about. */
  ghost predicate ReplyAt(messages: seq<Message>, turnId: string, attemptId: string, p: nat) {
    && p < |messages| && IsReply(turnId, attemptId)(messages[p])
    && (forall q :: p < q < |messages| ==> !IsReply(turnId, attemptId)(messages[q]))
    && (forall q :: 0 <= q < |messages| && q != p ==> messages[q].id != messages[p].id)
  }

  lemma {:induction false} FindLastAt(messages: seq<Message>, wanted: Message -> bool, p: nat)
    requires p < |messages| && wanted(messages[p])
    requires forall q :: p < q < |messages| ==> !wanted(messages[q])
    ensures FindLast(messages, wanted) == Some(messages[p])
    decreases |messages|
  {
    if p < |messages| - 1 { FindLastAt(messages[..|messages| - 1], wanted, p); }
  }

  /** The text streamed by the deltas of `stream`. */
  function Deltas(stream: seq<Body>): string
    decreases |stream|
  {
    if stream == [] then "" else
    var e := stream[|stream| - 1];
    Deltas(stream[..|stream| - 1]) + if e.MessageDelta? then e.delta else ""
  }

  /** What one event makes of the reply. */
  function Revised(m: Message, body: Body): Message
    requires IsSideEvent(body)
  {
    match body
    case SideStarted(_) => m.(state := Streaming)
    case MessageDelta(_, delta) => m.(content := m.content + delta, state := Streaming)
    case SideCompleted(_, messageId, answer, trace) =>
      m.(content := answer.GetOr(m.content), state := Done, persistedId := Some(messageId), trace := trace)
    case SideFailed(_, code, _) => m.(content := "Test failed: " + code, state := Broken)
  }

  lemma StepRevisesReply(side: Side, turnId: string, attemptId: string, body: Body, p: nat)
    requires IsSideEvent(body) && ReplyAt(side.messages, turnId, attemptId, p)
    ensures SideStep(side, turnId, attemptId, body).messages
            == side.messages[p := Revised(side.messages[p], body)]
  {
    FindLastAt(side.messages, IsReply(turnId, attemptId), p);
    var r := SideStep(side, turnId, attemptId, body).messages;
    forall q | 0 <= q < |r| ensures r[q] == if q == p then Revised(side.messages[p], body) else side.messages[q] {}
  }

  /** The reply while its stream is open: what it began with, and the deltas so far. */
  function Preview(m: Message, stream: seq<Body>): Message {
    m.(content := m.content + Deltas(stream), state := if stream == [] then m.state else Streaming)
  }

  lemma PreviewNext(m: Message, stream: seq<Body>)
    requires OpenStream(stream)
    ensures Preview(m, []) == m
    ensures stream != [] ==>
              Preview(m, stream) == Revised(Preview(m, stream[..|stream| - 1]), stream[|stream| - 1])
  {
    assert m.content + "" == m.content;
    if stream != [] {
      var n := |stream| - 1;
      if stream[n].MessageDelta? {
        assert m.content + (Deltas(stream[..n]) + stream[n].delta) == m.content + Deltas(stream[..n]) + stream[n].delta;
      } else {
        assert Deltas(stream[..n]) + "" == Deltas(stream[..n]);
      }
    }
  }

  lemma ReplyAtKept(messages: seq<Message>, turnId: string, attemptId: string, p: nat, m: Message)
    requires ReplyAt(messages, turnId, attemptId, p)
    requires m.id == messages[p].id && IsReply(turnId, attemptId)(m)
    ensures ReplyAt(messages[p := m], turnId, attemptId, p)
  {}

  lemma {:induction false} StreamedReply(side: Side, fence: Fence, stream: seq<Body>, p: nat)
    requires OpenStream(stream) && ReplyAt(side.messages, fence.turnId, fence.attemptId, p)
    ensures FoldSide(side, fence, stream).messages == side.messages[p := Preview(side.messages[p], stream)]
    decreases |stream|
  {
    PreviewNext(side.messages[p], stream);
    if stream != [] {
      var n := |stream| - 1;
      StreamedReply(side, fence, stream[..n], p);
      FoldedOnce(side, fence, stream, p);
    }
  }

  /** The last event of a stream revises the reply its open part streamed. */
  lemma FoldedOnce(side: Side, fence: Fence, stream: seq<Body>, p: nat)
    requires stream != [] && ReplyAt(side.messages, fence.turnId, fence.attemptId, p)
    requires OpenStream(stream[..|stream| - 1]) && IsSideEvent(stream[|stream| - 1])
    requires FoldSide(side, fence, stream[..|stream| - 1]).messages
             == side.messages[p := Preview(side.messages[p], stream[..|stream| - 1])]
    ensures forall i :: 0 <= i < |stream| ==> IsSideEvent(stream[i])
    ensures FoldSide(side, fence, stream).messages
            == side.messages[p := Revised(Preview(side.messages[p], stream[..|stream| - 1]), stream[|stream| - 1])]
  {
    var n := |stream| - 1;
    forall i | 0 <= i < |stream| ensures IsSideEvent(stream[i]) {
      if i < n { assert stream[..n][i] == stream[i]; }
    }
    ReplyAtKept(side.messages, fence.turnId, fence.attemptId, p, Preview(side.messages[p], stream[..n]));
    StepRevisesReply(FoldSide(side, fence, stream[..n]), fence.turnId, fence.attemptId, stream[n], p);
  }

  /** The reply as a complete stream leaves it. */
  function Answered(m: Message, stream: seq<Body>): Message
    requires stream != [] && IsTerminal(stream[|stream| - 1])
  {
    Revised(Preview(m, stream[..|stream| - 1]), stream[|stream| - 1])
  }

  lemma CompleteReply(side: Side, fence: Fence, stream: seq<Body>, p: nat)
    requires ClosedStream(stream) && ReplyAt(side.messages, fence.turnId, fence.attemptId, p)
    ensures forall i :: 0 <= i < |stream| ==> IsSideEvent(stream[i])
    ensures FoldSide(side, fence, stream).messages == side.messages[p := Answered(side.messages[p], stream)]
  {
    StreamedReply(side, fence, stream[..|stream| - 1], p);
    FoldedOnce(side, fence, stream, p);
  }

  lemma NewMessagesReplyAt(messages: seq<Message>, k: string, text: string, turnId: string, attemptId: string)
    requires forall m :: m in messages ==> m.id != AssistantMessageId(k, turnId)
    ensures ReplyAt(messages + NewMessages(k, text, turnId, attemptId), turnId, attemptId, |messages| + 1)
  {
    var user, reply := UserMessageId(k, turnId), AssistantMessageId(k, turnId);
    assert user[|user| - 1] == 'r' && reply[|reply| - 1] == 't';
  }

  function Restarted(m: Message, k: string, attemptId: string): Message {
    m.(id := RetryId(k, m.turnId, attemptId), content := "", state := Streaming, attemptId := attemptId)
  }

  /** The message at `p` is the side's last reply. */
  ghost predicate LastReplyAt(messages: seq<Message>, p: nat) {
    && p < |messages| && LastAssistant(messages) == Some(messages[p]) && messages[p].role == Assistant
    && forall q :: p < q < |messages| ==> messages[q].role != Assistant
  }

  lemma {:induction false} LastAssistantAt(messages: seq<Message>) returns (p: nat)
    requires LastAssistant(messages).Some?
    ensures LastReplyAt(messages, p)
  {
    p := |messages| - 1;
    if messages[p].role != Assistant { p := LastAssistantAt(messages[..p]); }
  }

  /** A retry restarts the side's last reply where it stands. */
  lemma RetryRestarts(s: State, k: string, attemptId: string, p: nat)
    requires k in s.sides && Runs.UniqueIds(s.sides[k].messages) && Runs.FreshRetry(s, k, attemptId)
    requires LastReplyAt(s.sides[k].messages, p)
    ensures var messages := s.sides[k].messages; var restarted := Restarted(messages[p], k, attemptId);
            && BeginRetry(s, k, attemptId).sides[k].messages == messages[p := restarted]
            && ReplyAt(messages[p := restarted], messages[p].turnId, attemptId, p)
  {
    var messages := s.sides[k].messages;
    var restarted, r := Restarted(messages[p], k, attemptId), BeginRetry(s, k, attemptId).sides[k].messages;
    forall q | 0 <= q < |messages| ensures r[q] == if q == p then restarted else messages[q] {}
    assert r == messages[p := restarted];
    forall q | 0 <= q < |messages| && q != p ensures messages[q].id != restarted.id {
      assert messages[q] in messages && messages[q].id != messages[p].id;
    }
  }

  /** The fence of a retry of the reply at `p`. */
  function RetryFence(s: State, k: string, p: nat, attemptId: string): Fence
    requires k in s.sides && p < |s.sides[k].messages|
  {
    Fence(s.executionId, s.generation, s.sides[k].messages[p].turnId, attemptId)
  }

  /** An attempt over any interleaving, on a side that runs it and on the sides that do not run. */
  lemma AttemptOutcome(s: State, fence: Fence, events: seq<Event>, k: string, p: nat)
    requires TurnBegun(s, fence) && k in s.sides && s.sides[k].state == Running
    requires WellStreamed(s, fence, events) && AllClosed(s, fence, events) && EndsLast(s, fence, events)
    requires ReplyAt(s.sides[k].messages, fence.turnId, fence.attemptId, p)
    ensures var r, stream, messages := Fold(s, events), Project(events, fence, k), s.sides[k].messages;
            && r.activeTurnId.None? && r.activeAttemptId.None? && r.sides.Keys == s.sides.Keys
            && stream != [] && IsTerminal(stream[|stream| - 1])
            && r.sides[k].messages == messages[p := Answered(messages[p], stream)]
            && forall j :: j in s.sides && s.sides[j].state != Running ==> r.sides[j] == s.sides[j]
  {
    ConfluentSides(s, fence, events);
    AttemptedSide(s, fence, events, k, p);
    forall j | j in s.sides && s.sides[j].state != Running ensures SideAfter(s, fence, events, j) == s.sides[j] {
      IdleSide(s, fence, events, j);
    }
  }

  lemma ConfluentSides(s: State, fence: Fence, events: seq<Event>)
    requires TurnBegun(s, fence)
    requires WellStreamed(s, fence, events) && AllClosed(s, fence, events) && EndsLast(s, fence, events)
    ensures var r := Fold(s, events);
            && r.activeTurnId.None? && r.activeAttemptId.None? && r.sides.Keys == s.sides.Keys
            && forall j :: j in s.sides ==> r.sides[j] == SideAfter(s, fence, events, j)
  {
    Confluence(s, fence, events);
    assert SidesAfter(s, fence, events).Keys == s.sides.Keys;
  }

  lemma IdleSide(s: State, fence: Fence, events: seq<Event>, j: string)
    requires j in s.sides && Project(events, fence, j) == []
    ensures SideAfter(s, fence, events, j) == s.sides[j]
  {}

  lemma AttemptedSide(s: State, fence: Fence, events: seq<Event>, k: string, p: nat)
    requires k in s.sides && ClosedStream(Project(events, fence, k))
    requires ReplyAt(s.sides[k].messages, fence.turnId, fence.attemptId, p)
    ensures var stream := Project(events, fence, k);
            SideAfter(s, fence, events, k).messages == s.sides[k].messages[p := Answered(s.sides[k].messages[p], stream)]
  {
    CompleteReply(s.sides[k], fence, Project(events, fence, k), p);
  }

  /** What `Answered` says of a reply that begins empty, as a new and a restarted one do. */
  lemma AnsweredReads(m: Message, stream: seq<Body>)
    requires ClosedStream(stream) && m.content == ""
    ensures var n := |stream| - 1; var last := stream[n];
            var r := Answered(m, stream);
            && (last.SideCompleted? && last.answer.Some? ==> r.content == last.answer.value)
            && (last.SideCompleted? && last.answer.None? ==> r.content == Deltas(stream[..n]))
            && (last.SideFailed? ==> r.content == "Test failed: " + last.code)
            && r.state == (if last.SideCompleted? then Done else Broken)
  {
    assert "" + Deltas(stream[..|stream| - 1]) == Deltas(stream[..|stream| - 1]);
  }
}
