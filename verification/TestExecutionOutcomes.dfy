/**
  What a test execution shows of each operation: every field of a side and every message, from the message
  sent, the events streamed and the failure reported.
  */
module TestExecutionOutcomes {
  import opened Wrappers
  import opened TestExecution
  import opened TestExecutionConfluence
  import opened TestExecutionReplies
  import Runs = TestExecutionRuns

  // ----- turns and retries as they begin -----

  /** The messages a turn begins with: what was sent, and a reply that is still empty. */
  function Sent(k: string, text: string, turnId: string, attemptId: string): seq<Message> {
    [Message(k + "-" + turnId + "-user", User, text, Done, turnId, attemptId, None, None),
     Message(k + "-" + turnId + "-assistant", Assistant, "", Streaming, turnId, attemptId, None, None)]
  }

  /** Sending a message starts every side on it; the execution's state waits for the outcome. */
  lemma TurnBeginsWith(s: State, text: string, turnId: string, attemptId: string)
    ensures var r := BeginTurn(s, text, turnId, attemptId);
            && r == s.(activeTurnId := Some(turnId), activeAttemptId := Some(attemptId), sides := r.sides)
            && r.sides.Keys == s.sides.Keys
            && forall k :: k in s.sides ==>
                 r.sides[k] == s.sides[k].(state := Running, errorCode := None, retryable := false,
                                           messages := s.sides[k].messages + Sent(k, text, turnId, attemptId))
  {}

  /** Retrying a side clears its failure and restarts its last reply, in the turn of that reply. */
  lemma RetryBeginsWith(s: State, k: string, attemptId: string, p: nat)
    requires k in s.sides && LastReplyAt(s.sides[k].messages, p)
    requires Runs.UniqueIds(s.sides[k].messages) && Runs.FreshRetry(s, k, attemptId)
    ensures var m := s.sides[k].messages[p];
            BeginRetry(s, k, attemptId) == s.(
              state := Running, activeTurnId := Some(m.turnId), activeAttemptId := Some(attemptId),
              sides := s.sides[k := s.sides[k].(
                state := Running, errorCode := None, retryable := false,
                messages := s.sides[k].messages[p := m.(
                  id := k + "-" + m.turnId + "-" + attemptId, content := "", state := Streaming, attemptId := attemptId)])])
  {
    RetryRestarts(s, k, attemptId, p);
  }

  /** A side without a reply is retried too, under a turn named after the attempt; an unknown side is not. */
  lemma RetryWithoutReply(s: State, k: string, attemptId: string)
    requires k in s.sides ==> LastAssistant(s.sides[k].messages).None?
    ensures BeginRetry(s, k, attemptId)
            == if k !in s.sides then s else s.(
                 state := Running, activeTurnId := Some(attemptId), activeAttemptId := Some(attemptId),
                 sides := s.sides[k := s.sides[k].(state := Running, errorCode := None, retryable := false)])
  {}

  // ----- a side's fields after its stream -----

  predicate HasStarted(stream: seq<Body>) {
    exists i :: 0 <= i < |stream| && stream[i].SideStarted?
  }

  lemma StartedNext(stream: seq<Body>)
    requires stream != []
    ensures HasStarted(stream) <==> HasStarted(stream[..|stream| - 1]) || stream[|stream| - 1].SideStarted?
  {
    var n := |stream| - 1;
    if HasStarted(stream[..n]) {
      var i :| 0 <= i < n && stream[..n][i].SideStarted?;
      assert stream[i].SideStarted?;
    }
    if HasStarted(stream) && !stream[n].SideStarted? {
      var i :| 0 <= i < |stream| && stream[i].SideStarted?;
      assert stream[..n][i].SideStarted?;
    }
  }

  /** While a side's stream is open it runs, and its start clears the failure it showed. */
  lemma {:induction false} OpenFields(side: Side, fence: Fence, stream: seq<Body>)
    requires OpenStream(stream)
    ensures var r := FoldSide(side, fence, stream);
            r == side.(state := if stream == [] then side.state else Running,
                       errorCode := if HasStarted(stream) then None else side.errorCode,
                       retryable := !HasStarted(stream) && side.retryable,
                       messages := r.messages)
    decreases |stream|
  {
    if stream != [] {
      var n := |stream| - 1;
      OpenFields(side, fence, stream[..n]);
      StartedNext(stream);
    }
  }

  /** A terminal event decides what the side shows: its failure's code and whether it may be retried, or neither. */
  lemma ClosedFields(side: Side, fence: Fence, stream: seq<Body>)
    requires ClosedStream(stream)
    ensures forall i :: 0 <= i < |stream| ==> IsSideEvent(stream[i])
    ensures var r, last := FoldSide(side, fence, stream), stream[|stream| - 1];
            r == side.(state := if last.SideFailed? then Failed else Completed,
                       errorCode := if last.SideFailed? then Some(last.code)
                                    else if HasStarted(stream) then None else side.errorCode,
                       retryable := last.SideFailed? && last.retryable,
                       messages := r.messages)
  {
    var n := |stream| - 1;
    OpenFields(side, fence, stream[..n]);
    StartedNext(stream);
    forall i | 0 <= i < |stream| ensures IsSideEvent(stream[i]) {
      if i < n { assert stream[..n][i] == stream[i]; }
    }
  }

  // ----- whole turns and retries -----

  /** The stored answer, the concatenated deltas where none was stored, or the failure. */
  function ReplyText(stream: seq<Body>): string
    requires stream != []
  {
    var n := |stream| - 1;
    if stream[n].SideFailed? then "Test failed: " + stream[n].code
    else if stream[n].SideCompleted? && stream[n].answer.Some? then stream[n].answer.value
    else Deltas(stream[..n])
  }

  /** The reply once its stream has ended: a completion brings its stored id and trace, a failure keeps them. */
  function Replied(m: Message, stream: seq<Body>): Message
    requires stream != []
  {
    var last := stream[|stream| - 1];
    m.(content := ReplyText(stream), state := if last.SideFailed? then Broken else Done,
       persistedId := if last.SideCompleted? then Some(last.messageId) else m.persistedId,
       trace := if last.SideCompleted? then last.trace else m.trace)
  }

  lemma AnsweredIsReplied(m: Message, stream: seq<Body>)
    requires ClosedStream(stream) && m.content == ""
    ensures Answered(m, stream) == Replied(m, stream)
  {
    AnsweredReads(m, stream);
  }

  /** A side as an attempt that began without a failure leaves it. */
  function Finished(side: Side, messages: seq<Message>, last: Body): Side {
    side.(state := if last.SideFailed? then Failed else Completed,
          errorCode := if last.SideFailed? then Some(last.code) else None,
          retryable := last.SideFailed? && last.retryable, messages := messages)
  }

  lemma AttemptReads(s: State, fence: Fence, events: seq<Event>, k: string, p: nat)
    requires TurnBegun(s, fence) && k in s.sides && s.sides[k].state == Running && s.sides[k].errorCode == None
    requires WellStreamed(s, fence, events) && AllClosed(s, fence, events) && EndsLast(s, fence, events)
    requires ReplyAt(s.sides[k].messages, fence.turnId, fence.attemptId, p) && s.sides[k].messages[p].content == ""
    ensures var r, stream, messages := Fold(s, events), Project(events, fence, k), s.sides[k].messages;
            && r.activeTurnId.None? && r.activeAttemptId.None? && r.sides.Keys == s.sides.Keys && ClosedStream(stream)
            && (forall j :: j in s.sides && s.sides[j].state != Running ==> r.sides[j] == s.sides[j])
            && r.sides[k] == Finished(s.sides[k], messages[p := Replied(messages[p], stream)], stream[|stream| - 1])
  {
    AttemptOutcome(s, fence, events, k, p);
    ConfluentSides(s, fence, events);
    ClosedFields(s.sides[k], fence, Project(events, fence, k));
    AnsweredIsReplied(s.sides[k].messages[p], Project(events, fence, k));
  }

  /**
    A whole turn over any interleaving, every field of every side: its outcome, its failure if it failed, and its
    transcript with the message sent and one reply.
    */
  lemma TurnOutcome(s: State, text: string, fence: Fence, events: seq<Event>, k: string)
    requires WellKeyed(s) && k in s.sides
    requires fence.executionId == s.executionId && fence.generation == s.generation
    requires var s0 := BeginTurn(s, text, fence.turnId, fence.attemptId);
             WellStreamed(s0, fence, events) && AllClosed(s0, fence, events) && EndsLast(s0, fence, events)
    requires forall m :: m in s.sides[k].messages ==> m.id != k + "-" + fence.turnId + "-assistant"
    ensures var final := Fold(BeginTurn(s, text, fence.turnId, fence.attemptId), events);
            var sent, stream := Sent(k, text, fence.turnId, fence.attemptId), Project(events, fence, k);
            && final.activeTurnId.None? && final.activeAttemptId.None? && k in final.sides && ClosedStream(stream)
            && final.sides[k] == Finished(s.sides[k], s.sides[k].messages + [sent[0], Replied(sent[1], stream)],
                                          stream[|stream| - 1])
  {
    var s0, messages := BeginTurn(s, text, fence.turnId, fence.attemptId), s.sides[k].messages;
    BeginTurnBegins(s, text, fence.turnId, fence.attemptId);
    TurnBeginsWith(s, text, fence.turnId, fence.attemptId);
    NewMessagesReplyAt(messages, k, text, fence.turnId, fence.attemptId);
    AttemptReads(s0, fence, events, k, |messages| + 1);
    SecondReplaced(messages, Sent(k, text, fence.turnId, fence.attemptId), Project(events, fence, k));
  }

  lemma SecondReplaced(messages: seq<Message>, sent: seq<Message>, stream: seq<Body>)
    requires |sent| == 2 && stream != []
    ensures (messages + sent)[|messages| + 1 := Replied(sent[1], stream)] == messages + [sent[0], Replied(sent[1], stream)]
  {}

  /** A whole retry likewise, with the last reply replaced in its place and idle sides as they were. */
  lemma RetryOutcome(s: State, k: string, attemptId: string, p: nat, events: seq<Event>)
    requires WellKeyed(s) && k in s.sides && LastReplyAt(s.sides[k].messages, p)
    requires Runs.UniqueIds(s.sides[k].messages) && Runs.FreshRetry(s, k, attemptId)
    requires var s0, fence := BeginRetry(s, k, attemptId), RetryFence(s, k, p, attemptId);
             WellStreamed(s0, fence, events) && AllClosed(s0, fence, events) && EndsLast(s0, fence, events)
    ensures var final, stream := Fold(BeginRetry(s, k, attemptId), events), Project(events, RetryFence(s, k, p, attemptId), k);
            var m := s.sides[k].messages[p];
            && final.activeTurnId.None? && final.activeAttemptId.None? && final.sides.Keys == s.sides.Keys
            && (forall j :: j in s.sides && j != k && s.sides[j].state != Running ==> final.sides[j] == s.sides[j])
            && ClosedStream(stream)
            && final.sides[k] == Finished(s.sides[k], s.sides[k].messages[p := Replied(
                 m.(id := k + "-" + m.turnId + "-" + attemptId, content := "", state := Streaming, attemptId := attemptId),
                 stream)], stream[|stream| - 1])
  {
    var s0, fence := BeginRetry(s, k, attemptId), RetryFence(s, k, p, attemptId);
    BeginRetryBegins(s, k, attemptId);
    RetryBeginsWith(s, k, attemptId, p);
    RetryRestarts(s, k, attemptId, p);
    AttemptReads(s0, fence, events, k, p);
  }

  /** `messages[i]` is the last reply of the turn's attempt. */
  predicate IsLastReply(messages: seq<Message>, turnId: string, attemptId: string, i: nat) {
    && i < |messages|
    && messages[i].role == Assistant && messages[i].turnId == turnId && messages[i].attemptId == attemptId
    && forall j :: i < j < |messages| ==>
         !(messages[j].role == Assistant && messages[j].turnId == turnId && messages[j].attemptId == attemptId)
  }

  /** An event changes no side but its own, and there at most the last reply of its own turn and attempt. */
  lemma EventTouchesItsReply(s: State, e: Event, i: nat)
    requires WellKeyed(s) && Runs.TouchesSide(s, e) && Runs.UniqueIds(s.sides[e.body.sideId].messages)
    requires i < |s.sides[e.body.sideId].messages|
    ensures var k, r := e.body.sideId, Reduce(s, e); var messages := s.sides[k].messages;
            && r.sides.Keys == s.sides.Keys && (forall j :: j in s.sides && j != k ==> r.sides[j] == s.sides[j])
            && |r.sides[k].messages| == |messages|
            && (r.sides[k].messages[i] != messages[i] ==> IsLastReply(messages, e.fence.turnId, e.fence.attemptId, i))
  {
    StepTouchesItsReply(s.sides[e.body.sideId], e.fence.turnId, e.fence.attemptId, e.body, i);
  }

  lemma StepTouchesItsReply(side: Side, turnId: string, attemptId: string, body: Body, i: nat)
    requires IsSideEvent(body) && Runs.UniqueIds(side.messages) && i < |side.messages|
    ensures var r := SideStep(side, turnId, attemptId, body).messages;
            |r| == |side.messages| && (r[i] != side.messages[i] ==> IsLastReply(side.messages, turnId, attemptId, i))
  {
    if ReplyOf(side.messages, turnId, attemptId).Some? { LastIsFound(side.messages, IsReply(turnId, attemptId)); }
  }

  lemma {:induction false} LastIsFound(messages: seq<Message>, wanted: Message -> bool)
    requires FindLast(messages, wanted).Some?
    ensures exists p :: 0 <= p < |messages| && messages[p] == FindLast(messages, wanted).value && wanted(messages[p])
                        && forall q :: p < q < |messages| ==> !wanted(messages[q])
    decreases |messages|
  {
    var n := |messages| - 1;
    if !wanted(messages[n]) {
      LastIsFound(messages[..n], wanted);
      var p :| 0 <= p < n && messages[..n][p] == FindLast(messages[..n], wanted).value && wanted(messages[..n][p])
               && forall q :: p < q < n ==> !wanted(messages[..n][q]);
      forall q | p < q < |messages| ensures !wanted(messages[q]) {
        if q < n { assert messages[..n][q] == messages[q]; }
      }
      assert messages[p] == FindLast(messages, wanted).value;
    }
  }

  // ----- failures and the whole execution -----

  /**
    A side that is failed shows the code, may be retried, and its last reply is broken: one that was streaming
    or empty reads the notice, another keeps its text. The execution is partial.
    */
  lemma FailureReads(s: State, k: string, code: string, p: nat)
    requires WellKeyed(s) && k in s.sides && LastReplyAt(s.sides[k].messages, p) && Runs.UniqueIds(s.sides[k].messages)
    ensures var m := s.sides[k].messages[p];
            var text := if m.state == Streaming || m.content == "" then
                          "The response stream ended before an answer was complete." else m.content;
            FailSide(s, k, code) == s.(state := Partial, sides := s.sides[k := s.sides[k].(
              state := Failed, errorCode := Some(code), retryable := true,
              messages := s.sides[k].messages[p := m.(content := text, state := Broken)])])
  {
    var messages := s.sides[k].messages;
    var r := FailedSide(s.sides[k], code).messages;
    forall q | 0 <= q < |messages| ensures r[q] == if q == p then BreakReply(messages[p]) else messages[q] {
      assert q != p ==> messages[q].id != messages[p].id;
    }
    assert r == messages[p := BreakReply(messages[p])];
  }

  /** Without a reply only the side's fields show the failure; an unknown side fails nothing. */
  lemma FailureWithoutReply(s: State, k: string, code: string)
    requires k in s.sides ==> LastAssistant(s.sides[k].messages).None?
    ensures FailSide(s, k, code)
            == if k !in s.sides then s else s.(state := Partial, sides := s.sides[k := s.sides[k].(
                 state := Failed, errorCode := Some(code), retryable := true)])
  {}

  /** An event that does not end the turn leaves the execution's state, unless its side failed. */
  lemma RunningStateAfter(s: State, e: Event)
    requires WellKeyed(s)
    ensures var r := Reduce(s, e);
            r.activeTurnId == s.activeTurnId && s.activeTurnId.Some? ==>
              r.state == if e.body.SideFailed? && Runs.TouchesSide(s, e) then Partial else s.state
  {}

  /** A current event about the whole execution ends its turn as it says, and touches no side. */
  lemma ExecutionEventReads(s: State, e: Event)
    requires IsCurrent(s, e.fence) && (e.body.ExecutionPartial? || e.body.ExecutionCompleted?)
    ensures Reduce(s, e) == s.(state := if e.body.ExecutionCompleted? then Completed else Partial,
                               activeTurnId := None, activeAttemptId := None)
  {}

  /** A stream that ends early leaves a failed side partial, and an execution without one completed. */
  lemma FinalizedState(s: State, running: seq<string>, code: string)
    requires WellKeyed(s) && ListsRunning(s, running)
    ensures var r := FinalizeStream(s, running, code);
            r.state == if running != [] || SomeSide(s.sides, Failed) then Partial else Completed
  {
    Runs.FinalizeSettlesSides(s, running, code);
    var r := FinalizeStream(s, running, code);
    if running != [] {
      assert r.sides[running[0]].state == Failed;
    } else {
      assert forall k :: k in s.sides ==> r.sides[k] == s.sides[k];
    }
  }
}
