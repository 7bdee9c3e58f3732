/** What a reopened execution shows, field by field, of its stored transcript and attempts. */
module TestExecutionReopened {
  import opened Wrappers
  import opened TestExecution
  import opened TestExecutionHydration

  /** `m` reads as the stored entry `e`: an answer with its stored id and trace, a user's message without. */
  predicate ReadsEntry(m: Message, sideId: string, e: Entry) {
    && m.role == e.role && m.content == e.content && m.turnId == e.turnId && m.attemptId == e.attemptId
    && m.state == Done
    && m.id == (if e.messageId.Some? then e.messageId.value
                else if e.role == User then sideId + "-" + e.turnId + "-user-" + e.attemptId
                else sideId + "-" + e.turnId + "-assistant-" + e.attemptId)
    && m.persistedId == (if e.role == User then None else e.messageId)
    && m.trace == (if e.role == User then None else e.trace)
  }

  lemma ToMessageReads(sideId: string, e: Entry)
    ensures ReadsEntry(ToMessage(sideId, e), sideId, e)
  {
    var start := sideId + "-" + e.turnId + "-";
    assert start + "user" + "-" + e.attemptId == sideId + "-" + e.turnId + "-user-" + e.attemptId;
    assert start + "assistant" + "-" + e.attemptId == sideId + "-" + e.turnId + "-assistant-" + e.attemptId;
  }

  /** Without its placeholders a reopened side reads its stored history, entry by entry. */
  lemma StoredHistoryReads(side: StoredSide, latest: map<string, Attempt>)
    ensures var kept := Where(HydrateSideMessages(side, latest), IsStored());
            && |kept| == |side.history|
            && forall i :: 0 <= i < |kept| ==> ReadsEntry(kept[i], side.id, side.history[i])
  {
    HistoryIsKept(side, latest, |side.history|);
    var stored := StoredMessages(side);
    assert stored[..|side.history|] == stored;
    forall i | 0 <= i < |stored| ensures ReadsEntry(stored[i], side.id, side.history[i]) {
      ToMessageReads(side.id, side.history[i]);
    }
  }

  /** Turn `t` is the one that the last user entry opened. */
  ghost predicate IsCurrentTurn(history: seq<Entry>, t: string) {
    exists i: nat :: IsLastUserEntry(history, i) && history[i].turnId == t
  }

  lemma CurrentTurnIs(history: seq<Entry>, t: string)
    ensures CurrentTurnId(history) == Some(t) <==> IsCurrentTurn(history, t)
  {
    LastUserOpensTurn(history);
    if IsCurrentTurn(history, t) {
      var i: nat :| IsLastUserEntry(history, i) && history[i].turnId == t;
      assert history[i] in history;
      var j: nat :| IsLastUserEntry(history, j) && history[j].turnId == CurrentTurnId(history).value;
      assert i == j;
    }
  }

  /** The attempt failed, or it runs and its turn is the current one. */
  ghost predicate IsOpen(history: seq<Entry>, a: Attempt, t: string) {
    a.state == HasFailed || (a.state == StillRunning && IsCurrentTurn(history, t))
  }

  /** The reply that stands in for an answer: the failure, or nothing yet. */
  function StandIn(sideId: string, t: string, a: Attempt): Message {
    var id := sideId + "-" + t + "-" + a.attemptId;
    if a.state == HasFailed then
      Message(id, Assistant, "Test failed: " + (if a.failureCode.Some? then a.failureCode.value else "unknown"), Broken,
              t, a.attemptId, None, None)
    else Message(id, Assistant, "", Streaming, t, a.attemptId, None, None)
  }

  /** The stored history holds entries of turn `t`, and no answer among them. */
  predicate IsUnanswered(history: seq<Entry>, t: string) {
    (exists e :: e in history && e.turnId == t) && forall e :: e in history && e.turnId == t ==> e.role == User
  }

  lemma NeedsStandIn(side: StoredSide, latest: map<string, Attempt>, t: string)
    requires KeyedByTurn(latest) && exists e :: e in side.history && e.turnId == t
    ensures NeedsPlaceholder(side.history, latest, t)
            <==> IsUnanswered(side.history, t) && t in latest && IsOpen(side.history, latest[t], t)
    ensures NeedsPlaceholder(side.history, latest, t) ==>
              Placeholder(side.id, latest[t]) == StandIn(side.id, t, latest[t])
  {
    CurrentTurnIs(side.history, t);
    if e :| e in side.history && e.turnId == t && e.role == Assistant {
      var i :| 0 <= i < |side.history| && side.history[i] == e;
      assert Answered(side.history, t);
    }
  }

  /**
    A turn's replies that are not stored, exactly: one stand-in where the turn has no answer and its latest
    attempt failed, or runs in the current turn, and none otherwise.
    */
  lemma StandInOfTurn(side: StoredSide, latest: map<string, Attempt>, t: string)
    requires KeyedByTurn(latest)
    ensures Where(HydrateSideMessages(side, latest), IsPlaceholderOf(t))
            == if IsUnanswered(side.history, t) && t in latest && IsOpen(side.history, latest[t], t)
               then [StandIn(side.id, t, latest[t])] else []
  {
    PlaceholderOfTurn(side, latest, t);
    if exists e :: e in side.history && e.turnId == t { NeedsStandIn(side, latest, t); }
  }

  /** It stands right after the last entry of its turn. */
  lemma StandInFollows(side: StoredSide, latest: map<string, Attempt>, i: nat)
    requires KeyedByTurn(latest) && i < |side.history|
    requires forall j :: i < j < |side.history| ==> side.history[j].turnId != side.history[i].turnId
    requires var t := side.history[i].turnId;
             IsUnanswered(side.history, t) && t in latest && IsOpen(side.history, latest[t], t)
    ensures var messages, t := HydrateSideMessages(side, latest), side.history[i].turnId;
            exists p: nat ::
              && p + 1 < |messages| && ReadsEntry(messages[p], side.id, side.history[i])
              && messages[p + 1] == StandIn(side.id, t, latest[t])
              && |Where(messages[..p], IsStored())| == i
  {
    var p := |HydrateTo(side, latest, i)|;
    NeedsStandIn(side, latest, side.history[i].turnId);
    PlaceholderFollowsItsTurn(side, latest, i);
    ToMessageReads(side.id, side.history[i]);
    assert |StoredMessages(side)[..i]| == i;
  }

  /** The current turn of the side has this latest attempt. */
  ghost predicate IsCurrentAttempt(side: StoredSide, latest: map<string, Attempt>, a: Attempt) {
    exists t :: IsCurrentTurn(side.history, t) && t in latest && latest[t] == a
  }

  lemma CurrentAttemptIs(side: StoredSide, latest: map<string, Attempt>, a: Attempt)
    ensures CurrentAttempt(side, latest) == Some(a) <==> IsCurrentAttempt(side, latest, a)
  {
    var current := CurrentTurnId(side.history);
    if current.Some? { CurrentTurnIs(side.history, current.value); }
    if t :| IsCurrentTurn(side.history, t) && t in latest && latest[t] == a { CurrentTurnIs(side.history, t); }
  }

  /**
    A reopened side is as it was stored. It shows a failure code exactly where it failed with its current
    attempt, and offers recovery exactly where its current attempt runs and its lease has expired.
    */
  lemma SideReopens(stored: Stored, latest: seq<map<string, Attempt>>, now: int, i: nat)
    requires i < |latest| == |stored.sides|
    requires forall p, q :: 0 <= p < q < |latest| ==> stored.sides[p].id != stored.sides[q].id
    ensures var s, side := HydrateState(stored, latest, now), stored.sides[i];
            && s.executionId == stored.id && s.generation == stored.generation && s.state == stored.state
            && side.id in s.sides
            && var r := s.sides[side.id];
               && r.id == side.id && r.revisionId == side.revisionId && r.conversationId == side.conversationId
               && r.state == side.state && r.retryable == side.retryable
               && r.messages == HydrateSideMessages(side, latest[i])
               && (forall code :: r.errorCode == Some(code) <==>
                     side.state == Failed
                     && exists a :: IsCurrentAttempt(side, latest[i], a) && a.state == HasFailed && a.failureCode == Some(code))
               && (r.recoveryAvailable <==>
                     exists a :: IsCurrentAttempt(side, latest[i], a) && a.state == StillRunning
                                 && a.leaseExpiresAt.Some? && a.leaseExpiresAt.value <= now)
  {
    HydratedSide(stored, latest, now, i);
    AttemptShows(stored.sides[i], latest[i], now);
  }

  lemma AttemptShows(side: StoredSide, latest: map<string, Attempt>, now: int)
    ensures var r := HydrateSide(side, latest, now);
            && (forall code :: r.errorCode == Some(code) <==>
                  side.state == Failed
                  && exists a :: IsCurrentAttempt(side, latest, a) && a.state == HasFailed && a.failureCode == Some(code))
            && (r.recoveryAvailable <==>
                  exists a :: IsCurrentAttempt(side, latest, a) && a.state == StillRunning
                              && a.leaseExpiresAt.Some? && a.leaseExpiresAt.value <= now)
  {
    var attempt := CurrentAttempt(side, latest);
    forall a ensures IsCurrentAttempt(side, latest, a) <==> attempt == Some(a) { CurrentAttemptIs(side, latest, a); }
  }

  // ----- a freshly started execution -----

  /** A side before any turn: its history as it is stored, and no failure shown. */
  function InitialSide(side: StoredSide): Side {
    Side(side.id, side.revisionId, side.conversationId, side.state, None, side.retryable, false, StoredMessages(side))
  }

  function InitialSides(sides: seq<StoredSide>): (r: seq<Side>)
    ensures |r| == |sides| && forall i :: 0 <= i < |r| ==> r[i] == InitialSide(sides[i])
  {
    seq(|sides|, i requires 0 <= i < |sides| => InitialSide(sides[i]))
  }

  /** `initializeTestExecutionState`. */
  ghost function Initialize(id: string, generation: int, sides: seq<StoredSide>): State {
    var byId := ById(InitialSides(sides), |sides|);
    State(id, generation, DeriveExecutionState(byId), None, None, byId)
  }

  /**
    A started execution runs while a side does, is partial when one has failed, and is completed otherwise; no
    turn is active, and every side reads its stored history.
    */
  lemma InitialStateReads(id: string, generation: int, sides: seq<StoredSide>)
    requires forall p, q :: 0 <= p < q < |sides| ==> sides[p].id != sides[q].id
    ensures var s := Initialize(id, generation, sides);
            && s.executionId == id && s.generation == generation && s.activeTurnId.None? && s.activeAttemptId.None?
            && (s.state == Running <==> exists i :: 0 <= i < |sides| && sides[i].state == Running)
            && (s.state != Running ==>
                  s.state == if exists i :: 0 <= i < |sides| && sides[i].state == Failed then Partial else Completed)
            && forall i :: 0 <= i < |sides| ==> sides[i].id in s.sides && ReadsInitially(s.sides[sides[i].id], sides[i])
  {
    var initial := InitialSides(sides);
    var byId := ById(initial, |sides|);
    forall i | 0 <= i < |sides| ensures sides[i].id in byId && byId[sides[i].id] == initial[i] {
      FoundById(initial, |sides|, i);
    }
    forall k | k in byId ensures exists i :: 0 <= i < |sides| && byId[k] == initial[i] { ByIdHasOnly(initial, |sides|, k); }
    forall i | 0 <= i < |sides| ensures ReadsInitially(initial[i], sides[i]) {
      forall j | 0 <= j < |sides[i].history| ensures ReadsEntry(initial[i].messages[j], sides[i].id, sides[i].history[j]) {
        ToMessageReads(sides[i].id, sides[i].history[j]);
      }
    }
  }

  predicate ReadsInitially(r: Side, side: StoredSide) {
    && r.id == side.id && r.revisionId == side.revisionId && r.conversationId == side.conversationId
    && r.state == side.state && r.retryable == side.retryable && r.errorCode == None && !r.recoveryAvailable
    && |r.messages| == |side.history|
    && forall j :: 0 <= j < |r.messages| ==> ReadsEntry(r.messages[j], side.id, side.history[j])
  }

  lemma {:induction false} ByIdHasOnly(sides: seq<Side>, n: nat, k: string)
    requires n <= |sides| && k in ById(sides, n)
    ensures exists i :: 0 <= i < n && ById(sides, n)[k] == sides[i]
    decreases n
  {
    if k != sides[n - 1].id { ByIdHasOnly(sides, n - 1, k); }
  }

  /** The active turn and attempt are those of the first side, in order, whose current attempt runs. */
  lemma FirstRunningIsActive(stored: Stored, latest: seq<map<string, Attempt>>, now: int, i: nat)
    requires i < |latest| == |stored.sides|
    requires forall j, a :: 0 <= j < i && IsCurrentAttempt(stored.sides[j], latest[j], a) ==> a.state != StillRunning
    requires exists a :: IsCurrentAttempt(stored.sides[i], latest[i], a) && a.state == StillRunning
    ensures exists a :: IsCurrentAttempt(stored.sides[i], latest[i], a) && a.state == StillRunning
                        && HydrateState(stored, latest, now).activeTurnId == Some(a.turnId)
                        && HydrateState(stored, latest, now).activeAttemptId == Some(a.attemptId)
  {
    var a :| IsCurrentAttempt(stored.sides[i], latest[i], a) && a.state == StillRunning;
    CurrentAttemptIs(stored.sides[i], latest[i], a);
    forall j | 0 <= j < i ensures !IsRunningAttempt(CurrentAttempt(stored.sides[j], latest[j])) {
      var attempt := CurrentAttempt(stored.sides[j], latest[j]);
      if attempt.Some? { CurrentAttemptIs(stored.sides[j], latest[j], attempt.value); }
    }
  }
}
