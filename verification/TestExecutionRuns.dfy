/** What holds of a test execution in every run: settlement, the transcript's frame, and finalization. */
module TestExecutionRuns {
  import opened Wrappers
  import opened TestExecution
  import opened TestExecutionConfluence

  // ----- settlement -----

  predicate TouchesSide(s: State, e: Event) {
    IsCurrent(s, e.fence) && IsSideEvent(e.body) && e.body.sideId in s.sides
  }

  ghost predicate AllSettledSides(s: State) {
    forall k :: k in s.sides ==> s.sides[k].state in {Running, Completed, Failed}
  }

  /** Some side other than `k` has this status. */
  ghost predicate SomeOther(s: State, k: string, status: Status) {
    exists j :: j in s.sides && j != k && s.sides[j].state == status
  }

  ghost predicate EveryOther(s: State, k: string, status: Status) {
    forall j :: j in s.sides && j != k ==> s.sides[j].state == status
  }

  /**
    A side event resolves the turn exactly when it is terminal and no other side is running. The execution
    state it then gives is the derived one if and only if the side failed, another side had failed, or all
    the others had completed.
    */
  lemma SettlementStep(s: State, e: Event)
    requires WellKeyed(s) && TouchesSide(s, e)
    ensures var r := Reduce(s, e); var k := e.body.sideId;
            && WellKeyed(r) && r.sides.Keys == s.sides.Keys
            && (r.activeTurnId.None? <==> IsTerminal(e.body) && !SomeOther(s, k, Running))
            && (r.activeTurnId.None? <==> r.activeAttemptId.None?)
            && (r.activeTurnId.None? ==>
                  (r.state == DeriveExecutionState(r.sides)
                   <==> e.body.SideFailed? || SomeOther(s, k, Failed) || EveryOther(s, k, Completed)))
  {
    var r := Reduce(s, e);
    OthersAfter(s, e, Running);
    OthersAfter(s, e, Failed);
    OthersAfter(s, e, Completed);
  }

  lemma OthersAfter(s: State, e: Event, status: Status)
    requires WellKeyed(s) && TouchesSide(s, e)
    ensures var sides := Reduce(s, e).sides; var k := e.body.sideId;
            && k in sides
            && (IsTerminal(e.body) ==> sides[k].state == if e.body.SideFailed? then Failed else Completed)
            && (!IsTerminal(e.body) ==> sides[k].state == Running)
            && (SomeSide(sides, status) <==> sides[k].state == status || SomeOther(s, k, status))
            && (EverySide(sides, status) <==> sides[k].state == status && EveryOther(s, k, status))
  {
    var k := e.body.sideId;
    OneSideSet(s, k, SideStep(s.sides[k], e.fence.turnId, e.fence.attemptId, e.body), status);
  }

  lemma OneSideSet(s: State, k: string, side: Side, status: Status)
    requires k in s.sides
    ensures SomeSide(s.sides[k := side], status) <==> side.state == status || SomeOther(s, k, status)
    ensures EverySide(s.sides[k := side], status) <==> side.state == status && EveryOther(s, k, status)
  {
    var sides := s.sides[k := side];
    assert sides[k] == side;
    if SomeOther(s, k, status) {
      var j :| j in s.sides && j != k && s.sides[j].state == status;
      assert sides[j].state == status;
    }
    forall j | j in s.sides && j != k ensures sides[j] == s.sides[j] {}
  }

  /**
    A side that was never sent a message makes the two differ. The API's type lets a reopened side be `ready`
    beside a failed one; a message claims all sides of an execution together, so no server stores this mix.
    */
  lemma SettlementCanDisagree() returns (s: State, e: Event)
    ensures WellKeyed(s) && TouchesSide(s, e) && s.activeTurnId.Some?
    ensures var r := Reduce(s, e);
            r.activeTurnId.None? && r.state == Partial && DeriveExecutionState(r.sides) == Completed
  {
    var a := Side("a", "v1", None, Failed, None, true, false, []);
    var b := Side("b", "v2", None, Ready, None, true, false, []);
    var s0 := State("x", 1, Partial, None, None, map["a" := a, "b" := b]);
    s := BeginRetry(s0, "a", "2");
    e := Event(Fence("x", 1, "2", "2"), SideCompleted("a", "m", None, None));
    var r := Reduce(s, e);
    assert r.sides["a"].state == Completed && r.sides["b"].state == Ready;
    assert !EverySide(r.sides, Completed);
  }

  datatype Step =
    | OnBegin(message: string, turnId: string, attemptId: string)
    | OnRetry(retried: string, retryAttemptId: string)
    | OnFail(failing: string, code: string)
    | OnFinalize(running: seq<string>, finalCode: string)
    | OnEvent(event: Event)

  ghost predicate Enabled(s: State, step: Step) {
    WellKeyed(s) && (step.OnFinalize? ==> ListsRunning(s, step.running))
  }

  ghost function Apply(s: State, step: Step): State
    requires Enabled(s, step)
  {
    match step
    case OnBegin(message, turnId, attemptId) => BeginTurn(s, message, turnId, attemptId)
    case OnRetry(k, attemptId) => BeginRetry(s, k, attemptId)
    case OnFail(k, code) => FailSide(s, k, code)
    case OnFinalize(running, code) => FinalizeStream(s, running, code)
    case OnEvent(e) => Reduce(s, e)
  }

  ghost predicate IsRun(states: seq<State>, steps: seq<Step>) {
    && |states| == |steps| + 1
    && forall i :: 0 <= i < |steps| ==> Enabled(states[i], steps[i]) && states[i + 1] == Apply(states[i], steps[i])
  }

  lemma StepKeepsSettled(s: State, step: Step)
    requires Enabled(s, step)
    ensures WellKeyed(Apply(s, step))
    ensures step.OnBegin? || AllSettledSides(s) ==> AllSettledSides(Apply(s, step))
  {
    match step {
      case OnFinalize(running, code) => FinalizeSettlesSides(s, running, code);
      case OnEvent(e) => EventKeepsSettled(s, e);
      case _ =>
    }
  }

  lemma EventKeepsSettled(s: State, e: Event)
    requires WellKeyed(s)
    ensures WellKeyed(Reduce(s, e))
    ensures AllSettledSides(s) ==> AllSettledSides(Reduce(s, e))
  {}

  /** A side event's body is terminal, and no other side is running. */
  ghost predicate SettlesTurn(s: State, body: Body)
    requires IsSideEvent(body)
  {
    body.sideId in s.sides && IsTerminal(body) && !SomeOther(s, body.sideId, Running)
  }

  /** What event `e` does to the active turn of `s`. */
  ghost predicate SettlesAsDerived(s: State, e: Event) {
    var r := Reduce(s, e);
    && (r.activeTurnId.None? <==> IsCurrent(s, e.fence) && (IsSideEvent(e.body) ==> SettlesTurn(s, e.body)))
    && (r.activeTurnId.None? && IsSideEvent(e.body) ==> r.state == DeriveExecutionState(r.sides))
  }

  /**
    Settlement in every run, from a turn's beginning or from any state whose sides all ran before: a current
    event about the whole execution resolves the turn, a side event does exactly when it is terminal and no
    other side is running, and it then leaves the derived execution state.
    */
  lemma {:induction false} SettlementInEveryRun(states: seq<State>, steps: seq<Step>)
    requires IsRun(states, steps) && WellKeyed(states[0])
    requires AllSettledSides(states[0]) || (steps != [] && steps[0].OnBegin?)
    ensures AllSettledSides(states[|steps|]) && WellKeyed(states[|steps|])
    ensures var n := |steps| - 1;
            steps != [] && steps[n].OnEvent? && states[n].activeTurnId.Some? ==>
              SettlesAsDerived(states[n], steps[n].event)
    decreases |steps|
  {
    if steps != [] {
      var n := |steps| - 1;
      if n > 0 {
        assert steps[..n][0] == steps[0];
        SettlementInEveryRun(states[..|steps|], steps[..n]);
      }
      StepKeepsSettled(states[n], steps[n]);
      if steps[n].OnEvent? && states[n].activeTurnId.Some? { EventSettlesAsDerived(states[n], steps[n].event); }
    }
  }

  lemma EventSettlesAsDerived(s: State, e: Event)
    requires WellKeyed(s) && AllSettledSides(s) && s.activeTurnId.Some?
    ensures SettlesAsDerived(s, e)
  {
    if TouchesSide(s, e) {
      SettlementStep(s, e);
      EventKeepsSettled(s, e);
      SettledMeansDerived(Reduce(s, e));
    }
  }

  lemma SettledMeansDerived(s: State)
    requires AllSettledSides(s)
    ensures SomeSide(s.sides, Running) || SomeSide(s.sides, Failed) || EverySide(s.sides, Completed)
  {
    if !SomeSide(s.sides, Running) && !SomeSide(s.sides, Failed) {
      forall k | k in s.sides ensures s.sides[k].state == Completed {
        assert s.sides[k].state != Running && s.sides[k].state != Failed;
      }
    }
  }

  /** Once resolved, a turn stays as it is however many events of it still arrive. */
  lemma {:induction false} ResolvedTurnIgnoresEvents(s: State, events: seq<Event>)
    requires s.activeTurnId.None?
    ensures Fold(s, events) == s
    decreases |events|
  {
    if events != [] { ResolvedTurnIgnoresEvents(s, events[..|events| - 1]); }
  }

  // ----- the transcript's frame -----

  ghost predicate UniqueIds(messages: seq<Message>) {
    forall i, j :: 0 <= i < j < |messages| ==> messages[i].id != messages[j].id
  }

  /** Same number, order, roles and turns. */
  ghost predicate SameShape(a: seq<Message>, b: seq<Message>) {
    |a| == |b| && forall i :: 0 <= i < |a| ==> b[i].role == a[i].role && b[i].turnId == a[i].turnId
  }

  ghost predicate SameUserMessages(a: seq<Message>, b: seq<Message>)
    requires |a| == |b|
  {
    forall i :: 0 <= i < |a| && a[i].role == User ==> b[i] == a[i]
  }

  ghost predicate Framed(a: seq<Message>, b: seq<Message>) {
    SameShape(a, b) && SameUserMessages(a, b) && UniqueIds(b)
  }

  ghost predicate SidesFramed(s: State, s': State) {
    && s'.sides.Keys == s.sides.Keys && WellKeyed(s')
    && forall k :: k in s.sides ==> Framed(s.sides[k].messages, s'.sides[k].messages)
  }

  /** An update of one assistant message that keeps its role and turn, and gives it no other one's id. */
  lemma UpdateFrames(messages: seq<Message>, reply: Option<Message>, update: Message -> Message)
    requires UniqueIds(messages)
    requires reply.Some? ==> reply.value in messages && reply.value.role == Assistant
    requires reply.Some? ==>
               var m := update(reply.value);
               && m.role == reply.value.role && m.turnId == reply.value.turnId
               && (m.id == reply.value.id || forall x :: x in messages ==> x.id != m.id)
    ensures Framed(messages, UpdateReply(messages, reply, update))
  {
    if reply.Some? {
      var p :| 0 <= p < |messages| && messages[p] == reply.value;
      var r := UpdateById(messages, reply.value.id, update);
      forall i | 0 <= i < |messages| ensures r[i] == if i == p then update(reply.value) else messages[i] {}
    }
  }

  lemma SideStepFrames(side: Side, turnId: string, attemptId: string, body: Body)
    requires IsSideEvent(body) && UniqueIds(side.messages)
    ensures Framed(side.messages, SideStep(side, turnId, attemptId, body).messages)
    ensures SideStep(side, turnId, attemptId, body).id == side.id
  {
    var reply := ReplyOf(side.messages, turnId, attemptId);
    match body {
      case SideStarted(_) => UpdateFrames(side.messages, reply, (m: Message) => m.(state := Streaming));
      case MessageDelta(_, delta) =>
        UpdateFrames(side.messages, reply, (m: Message) =>
          m.(content := (if reply.Some? then reply.value.content else "") + delta, state := Streaming));
      case SideCompleted(_, messageId, answer, trace) =>
        UpdateFrames(side.messages, reply, (m: Message) =>
          m.(content := answer.GetOr(m.content), state := Done, persistedId := Some(messageId), trace := trace));
      case SideFailed(_, code, _) =>
        UpdateFrames(side.messages, reply, (m: Message) => m.(content := "Test failed: " + code, state := Broken));
    }
  }

  lemma ReduceFrames(s: State, e: Event)
    requires WellKeyed(s) && forall k :: k in s.sides ==> UniqueIds(s.sides[k].messages)
    ensures SidesFramed(s, Reduce(s, e))
  {
    if TouchesSide(s, e) {
      SideStepFrames(s.sides[e.body.sideId], e.fence.turnId, e.fence.attemptId, e.body);
    }
  }

  /** A retry gives the reply it restarts an id that no other message of the side has. */
  ghost predicate FreshRetry(s: State, k: string, attemptId: string) {
    k in s.sides && LastAssistant(s.sides[k].messages).Some? ==>
      var last := LastAssistant(s.sides[k].messages).value;
      forall m :: m in s.sides[k].messages && m != last ==> m.id != RetryId(k, last.turnId, attemptId)
  }

  lemma RetryFrames(s: State, k: string, attemptId: string)
    requires WellKeyed(s) && forall j :: j in s.sides ==> UniqueIds(s.sides[j].messages)
    requires FreshRetry(s, k, attemptId)
    ensures SidesFramed(s, BeginRetry(s, k, attemptId))
  {
    if k in s.sides {
      var messages := s.sides[k].messages;
      var last := LastAssistant(messages);
      var turnId := if last.Some? then last.value.turnId else attemptId;
      UpdateFrames(messages, last, (m: Message) =>
        m.(id := RetryId(k, turnId, attemptId), content := "", state := Streaming, attemptId := attemptId));
    }
  }

  lemma FailFrames(s: State, k: string, code: string)
    requires WellKeyed(s) && forall j :: j in s.sides ==> UniqueIds(s.sides[j].messages)
    ensures SidesFramed(s, FailSide(s, k, code))
  {
    if k in s.sides {
      UpdateFrames(s.sides[k].messages, LastAssistant(s.sides[k].messages), BreakReply);
    }
  }

  lemma {:induction false} FailEachFrames(s: State, ids: seq<string>, code: string)
    requires WellKeyed(s) && forall j :: j in s.sides ==> UniqueIds(s.sides[j].messages)
    ensures SidesFramed(s, FailEach(s, ids, code))
    decreases |ids|
  {
    if ids != [] {
      FailFrames(s, ids[0], code);
      FailEachFrames(FailSide(s, ids[0], code), ids[1..], code);
      FramedTransitive(s, FailSide(s, ids[0], code), FailEach(s, ids, code));
    }
  }

  lemma FramedTransitive(a: State, b: State, c: State)
    requires SidesFramed(a, b) && SidesFramed(b, c)
    ensures SidesFramed(a, c)
  {
    forall k | k in a.sides ensures Framed(a.sides[k].messages, c.sides[k].messages) {
      var x, y, z := a.sides[k].messages, b.sides[k].messages, c.sides[k].messages;
      assert Framed(x, y) && Framed(y, z);
      forall i | 0 <= i < |x| ensures z[i].role == x[i].role && z[i].turnId == x[i].turnId
                                      && (x[i].role == User ==> z[i] == x[i])
      {
        assert y[i].role == x[i].role;
      }
    }
  }

  lemma StepFrames(s: State, step: Step)
    requires Enabled(s, step) && !step.OnBegin?
    requires forall k :: k in s.sides ==> UniqueIds(s.sides[k].messages)
    requires step.OnRetry? ==> FreshRetry(s, step.retried, step.retryAttemptId)
    ensures SidesFramed(s, Apply(s, step))
  {
    match step {
      case OnRetry(k, attemptId) => RetryFrames(s, k, attemptId);
      case OnFail(k, code) => FailFrames(s, k, code);
      case OnFinalize(running, code) => FailEachFrames(s, running, code);
      case OnEvent(e) => ReduceFrames(s, e);
    }
  }

  /**
    In every run of events, retries, failures and finalizations, with unique message ids, no side's
    transcript changes its length, order, roles or turns, and no user message changes at all.
    */
  lemma {:induction false} TranscriptFrame(states: seq<State>, steps: seq<Step>)
    requires IsRun(states, steps) && WellKeyed(states[0])
    requires forall k :: k in states[0].sides ==> UniqueIds(states[0].sides[k].messages)
    requires forall i :: 0 <= i < |steps| ==>
               !steps[i].OnBegin?
               && (steps[i].OnRetry? ==> FreshRetry(states[i], steps[i].retried, steps[i].retryAttemptId))
    ensures SidesFramed(states[0], states[|steps|])
    decreases |steps|
  {
    if steps != [] {
      var n := |steps| - 1;
      TranscriptFrame(states[..|steps|], steps[..n]);
      StepFrames(states[n], steps[n]);
      FramedTransitive(states[0], states[n], states[n + 1]);
    }
  }

  // ----- the transcript's growth -----

  /** The first messages of `b` are those of `a`, framed, and `n` messages follow. */
  ghost predicate Grown(a: seq<Message>, b: seq<Message>, n: nat) {
    |b| == |a| + n && SameShape(a, b[..|a|]) && SameUserMessages(a, b[..|a|]) && UniqueIds(b)
  }

  ghost predicate SidesGrown(s: State, s': State, n: nat) {
    && s'.sides.Keys == s.sides.Keys && WellKeyed(s')
    && forall k :: k in s.sides ==> Grown(s.sides[k].messages, s'.sides[k].messages, n)
  }

  /** A new turn gives its messages ids that no message of their side has. */
  ghost predicate FreshTurn(s: State, turnId: string) {
    forall k, m :: k in s.sides && m in s.sides[k].messages ==>
                     m.id != UserMessageId(k, turnId) && m.id != AssistantMessageId(k, turnId)
  }

  lemma NewMessagesGrow(messages: seq<Message>, k: string, text: string, turnId: string, attemptId: string)
    requires UniqueIds(messages)
    requires forall m :: m in messages ==> m.id != UserMessageId(k, turnId) && m.id != AssistantMessageId(k, turnId)
    ensures Grown(messages, messages + NewMessages(k, text, turnId, attemptId), 2)
  {
    var user, reply := UserMessageId(k, turnId), AssistantMessageId(k, turnId);
    assert user[|user| - 1] == 'r' && reply[|reply| - 1] == 't';
    var all := messages + NewMessages(k, text, turnId, attemptId);
    assert all[..|messages|] == messages;
    forall i, j | 0 <= i < j < |all| ensures all[i].id != all[j].id {
      if i < |messages| { assert all[i] in messages; }
    }
  }

  lemma BeginGrows(s: State, text: string, turnId: string, attemptId: string)
    requires WellKeyed(s) && FreshTurn(s, turnId) && forall k :: k in s.sides ==> UniqueIds(s.sides[k].messages)
    ensures SidesGrown(s, BeginTurn(s, text, turnId, attemptId), 2)
  {
    var r := BeginTurn(s, text, turnId, attemptId);
    forall k | k in s.sides ensures Grown(s.sides[k].messages, r.sides[k].messages, 2) {
      NewMessagesGrow(s.sides[k].messages, k, text, turnId, attemptId);
    }
  }

  lemma GrownTransitive(a: seq<Message>, b: seq<Message>, c: seq<Message>, m: nat, n: nat)
    requires Grown(a, b, m) && Grown(b, c, n)
    ensures Grown(a, c, m + n)
  {
    var z := c[..|b|];
    forall i | 0 <= i < |a|
      ensures c[i].role == a[i].role && c[i].turnId == a[i].turnId && (a[i].role == User ==> c[i] == a[i])
    {
      assert b[..|a|][i].role == a[i].role && b[..|a|][i].turnId == a[i].turnId;
      assert z[i].role == b[i].role && z[i].turnId == b[i].turnId && (b[i].role == User ==> z[i] == b[i]);
    }
  }

  lemma FramedIsGrown(a: seq<Message>, b: seq<Message>)
    requires Framed(a, b)
    ensures Grown(a, b, 0)
  {
    assert b[..|a|] == b;
  }

  /** How many turns have begun. */
  ghost function Turns(steps: seq<Step>): nat {
    if steps == [] then 0 else Turns(steps[..|steps| - 1]) + if steps[|steps| - 1].OnBegin? then 1 else 0
  }

  ghost predicate IsFresh(s: State, step: Step) {
    && (step.OnBegin? ==> FreshTurn(s, step.turnId))
    && (step.OnRetry? ==> FreshRetry(s, step.retried, step.retryAttemptId))
  }

  lemma StepGrows(s: State, step: Step)
    requires Enabled(s, step) && IsFresh(s, step) && forall k :: k in s.sides ==> UniqueIds(s.sides[k].messages)
    ensures SidesGrown(s, Apply(s, step), if step.OnBegin? then 2 else 0)
  {
    if step.OnBegin? {
      BeginGrows(s, step.message, step.turnId, step.attemptId);
    } else {
      StepFrames(s, step);
      forall k | k in s.sides ensures Grown(s.sides[k].messages, Apply(s, step).sides[k].messages, 0) {
        FramedIsGrown(s.sides[k].messages, Apply(s, step).sides[k].messages);
      }
    }
  }

  /**
    In every run, turns included, every side's transcript grows by exactly two messages for each turn begun,
    and what it had keeps its order, roles and turns, with no user message changed.
    */
  lemma {:induction false} TranscriptGrows(states: seq<State>, steps: seq<Step>)
    requires IsRun(states, steps) && WellKeyed(states[0])
    requires forall k :: k in states[0].sides ==> UniqueIds(states[0].sides[k].messages)
    requires forall i :: 0 <= i < |steps| ==> IsFresh(states[i], steps[i])
    ensures SidesGrown(states[0], states[|steps|], 2 * Turns(steps))
    decreases |steps|
  {
    var s, r := states[0], states[|steps|];
    if steps == [] {
      forall k | k in s.sides ensures Grown(s.sides[k].messages, s.sides[k].messages, 0) {
        FramedIsGrown(s.sides[k].messages, s.sides[k].messages);
      }
    } else {
      var n := |steps| - 1;
      TranscriptGrows(states[..|steps|], steps[..n]);
      StepGrows(states[n], steps[n]);
      GrowthAdds(s, states[n], r, 2 * Turns(steps[..n]), if steps[n].OnBegin? then 2 else 0);
    }
  }

  lemma GrowthAdds(a: State, b: State, c: State, m: nat, n: nat)
    requires SidesGrown(a, b, m) && SidesGrown(b, c, n)
    ensures SidesGrown(a, c, m + n)
  {
    forall k | k in a.sides ensures Grown(a.sides[k].messages, c.sides[k].messages, m + n) {
      GrownTransitive(a.sides[k].messages, b.sides[k].messages, c.sides[k].messages, m, n);
    }
  }

  // ----- streams that end early -----

  ghost function FinalizedSides(s: State, code: string): map<string, Side> {
    map k | k in s.sides :: if s.sides[k].state == Running then FailedSide(s.sides[k], code) else s.sides[k]
  }

  lemma {:induction false} FailEachSide(s: State, ids: seq<string>, code: string)
    requires forall i, j :: 0 <= i < j < |ids| ==> ids[i] != ids[j]
    requires forall k :: k in ids ==> k in s.sides
    ensures var r := FailEach(s, ids, code);
            && r == s.(state := r.state, sides := r.sides)
            && r.state == (if ids == [] then s.state else Partial)
            && r.sides.Keys == s.sides.Keys
            && forall k :: k in s.sides ==>
                             r.sides[k] == if k in ids then FailedSide(s.sides[k], code) else s.sides[k]
    decreases |ids|
  {
    if ids != [] {
      assert ids == [ids[0]] + ids[1..];
      FailEachSide(FailSide(s, ids[0], code), ids[1..], code);
    }
  }

  /**
    Finalizing fails exactly the running sides, whatever their order, leaves the turn active, and
    gives the derived execution state; no side is left running, and finalizing again changes nothing.
    */
  lemma FinalizeSettlesSides(s: State, running: seq<string>, code: string)
    requires WellKeyed(s) && ListsRunning(s, running)
    ensures var r := FinalizeStream(s, running, code);
            && r == s.(state := DeriveExecutionState(r.sides), sides := FinalizedSides(s, code))
            && WellKeyed(r) && ListsRunning(r, [])
            && forall code' :: FinalizeStream(r, [], code') == r
  {
    var r := FinalizeStream(s, running, code);
    FailEachSide(s, running, code);
    assert r.sides == FinalizedSides(s, code);
    if running != [] {
      assert r.sides[running[0]].state == Failed;
    }
  }

  /**
    Streams that end early are finalized to the same state, however they were interleaved before and in
    whatever order the sides that still run are failed.
    */
  lemma FinalizedInterleavingsAgree(
    s: State, fence: Fence, events: seq<Event>, events': seq<Event>, running: seq<string>, running': seq<string>,
    code: string)
    requires TurnBegun(s, fence)
    requires WellStreamed(s, fence, events) && EndsLast(s, fence, events)
    requires WellStreamed(s, fence, events') && EndsLast(s, fence, events')
    requires forall k :: k in s.sides ==> Project(events, fence, k) == Project(events', fence, k)
    requires ListsRunning(Fold(s, events), running) && ListsRunning(Fold(s, events'), running')
    ensures WellKeyed(Fold(s, events)) && WellKeyed(Fold(s, events'))
    ensures FinalizeStream(Fold(s, events), running, code) == FinalizeStream(Fold(s, events'), running', code)
  {
    EveryPrefix(s, fence, events);
    EveryPrefix(s, fence, events');
    RunningMeansOpen(s, fence, events);
    SameStreamsSameSides(s, fence, events, events');
    SameSidesFinalizeAlike(Fold(s, events), Fold(s, events'), running, running', code);
  }

  lemma SameSidesFinalizeAlike(s: State, s': State, running: seq<string>, running': seq<string>, code: string)
    requires WellKeyed(s) && ListsRunning(s, running) && WellKeyed(s') && ListsRunning(s', running')
    requires s' == s.(state := s'.state)
    ensures FinalizeStream(s, running, code) == FinalizeStream(s', running', code)
  {
    FinalizeSettlesSides(s, running, code);
    FinalizeSettlesSides(s', running', code);
  }
}
