/** The running sides stream independently: any interleaving of their events gives the same state. */
module TestExecutionConfluence {
  import opened TestExecution

  ghost function SidesAfter(s: State, fence: Fence, events: seq<Event>): map<string, Side> {
    map k | k in s.sides :: SideAfter(s, fence, events, k)
  }

  lemma {:induction false} FoldSideStatus(side: Side, fence: Fence, stream: seq<Body>)
    requires side.state == Running
    requires OpenStream(stream) || ClosedStream(stream)
    requires forall i :: 0 <= i < |stream| ==> IsSideEvent(stream[i])
    ensures var r := FoldSide(side, fence, stream);
            && r.id == side.id
            && (OpenStream(stream) ==> r.state == Running)
            && (ClosedStream(stream) ==> r.state == Completed || r.state == Failed)
    decreases |stream|
  {
    if stream != [] { FoldSideStatus(side, fence, stream[..|stream| - 1]); }
  }

  lemma SideAfterStatus(s: State, fence: Fence, events: seq<Event>, k: string)
    requires TurnBegun(s, fence) && WellStreamed(s, fence, events) && k in s.sides
    ensures var r := SideAfter(s, fence, events, k);
            && r.id == k
            && (r.state == Running <==> s.sides[k].state == Running && !ClosedStream(Project(events, fence, k)))
  {
    ProjectsSideEvents(events, fence, k);
    if s.sides[k].state == Running { FoldSideStatus(s.sides[k], fence, Project(events, fence, k)); }
  }

  /** One more event of side `k` makes its stream longer, and touches no other side's. */
  lemma ProjectLast(events: seq<Event>, fence: Fence, k: string)
    requires events != []
    ensures var e := events[|events| - 1]; var pre := Project(events[..|events| - 1], fence, k);
            Project(events, fence, k)
            == if e.fence == fence && IsSideEvent(e.body) && e.body.sideId == k then pre + [e.body] else pre
  {}

  lemma WellStreamedPrefix(s: State, fence: Fence, events: seq<Event>)
    requires WellStreamed(s, fence, events) && events != []
    ensures WellStreamed(s, fence, events[..|events| - 1])
    ensures var e := events[|events| - 1];
            Touches(s, fence, e) ==> s.sides[e.body.sideId].state == Running
                                     && OpenStream(Project(events[..|events| - 1], fence, e.body.sideId))
  {
    var pre := events[..|events| - 1];
    forall k | k in s.sides
      ensures s.sides[k].state == Running ==> OpenStream(Project(pre, fence, k)) || ClosedStream(Project(pre, fence, k))
      ensures s.sides[k].state != Running ==> Project(pre, fence, k) == []
      ensures Project(events, fence, k) != Project(pre, fence, k) ==> OpenStream(Project(pre, fence, k))
    {
      ProjectLast(events, fence, k);
      var all := Project(events, fence, k);
      if all != Project(pre, fence, k) { assert all[..|all| - 1] == Project(pre, fence, k); }
    }
    var e := events[|events| - 1];
    if Touches(s, fence, e) { ProjectLast(events, fence, e.body.sideId); }
  }

  /** `e` is about a side, and belongs to the attempt. */
  predicate Touches(s: State, fence: Fence, e: Event) {
    e.fence == fence && IsSideEvent(e.body) && e.body.sideId in s.sides
  }

  lemma EndsLastNext(s: State, fence: Fence, events: seq<Event>)
    requires events != []
    ensures var pre := events[..|events| - 1];
            EndsLast(s, fence, events) <==>
            EndsLast(s, fence, pre) && (EndsExecution(events[|events| - 1], fence) ==> AllClosed(s, fence, pre))
  {
    var pre := events[..|events| - 1];
    assert forall i :: 0 <= i < |pre| ==> events[i] == pre[i] && events[..i] == pre[..i];
  }

  /** The state after part of an interleaving: settled exactly when every side's stream has ended. */
  ghost predicate InterleavingState(s: State, fence: Fence, events: seq<Event>, r: State) {
    if AllClosed(s, fence, events) then r == Settled(s, SidesAfter(s, fence, events))
    else r == s.(state := r.state, sides := SidesAfter(s, fence, events))
  }

  lemma {:induction false} EveryPrefix(s: State, fence: Fence, events: seq<Event>)
    requires TurnBegun(s, fence) && WellStreamed(s, fence, events) && EndsLast(s, fence, events)
    ensures InterleavingState(s, fence, events, Fold(s, events))
    decreases |events|
  {
    if events == [] {
      var k :| k in s.sides && s.sides[k].state == Running;
      assert Project(events, fence, k) == [];
      assert SidesAfter(s, fence, events) == s.sides;
    } else {
      var pre, e := events[..|events| - 1], events[|events| - 1];
      WellStreamedPrefix(s, fence, events);
      EndsLastNext(s, fence, events);
      EveryPrefix(s, fence, pre);
      if Touches(s, fence, e) {
        CurrentEvent(s, fence, events, Fold(s, pre));
      } else {
        UntouchedStep(s, fence, events);
      }
    }
  }

  lemma UntouchedStep(s: State, fence: Fence, events: seq<Event>)
    requires events != [] && !Touches(s, fence, events[|events| - 1])
    ensures var pre := events[..|events| - 1];
            && SidesAfter(s, fence, events) == SidesAfter(s, fence, pre)
            && (AllClosed(s, fence, events) <==> AllClosed(s, fence, pre))
  {
    var pre := events[..|events| - 1];
    forall k | k in s.sides ensures Project(events, fence, k) == Project(pre, fence, k) {
      ProjectLast(events, fence, k);
    }
    assert SidesAfter(s, fence, events) == SidesAfter(s, fence, pre);
  }

  lemma SideAfterLast(s: State, fence: Fence, events: seq<Event>, j: string)
    requires events != [] && j in s.sides
    ensures var e := events[|events| - 1]; var before := SideAfter(s, fence, events[..|events| - 1], j);
            SideAfter(s, fence, events, j)
            == if e.fence == fence && IsSideEvent(e.body) && e.body.sideId == j
               then SideStep(before, fence.turnId, fence.attemptId, e.body) else before
  {
    var pre, e := events[..|events| - 1], events[|events| - 1];
    ProjectsSideEvents(pre, fence, j);
    ProjectsSideEvents(events, fence, j);
    ProjectLast(events, fence, j);
    var all, before := Project(events, fence, j), Project(pre, fence, j);
    if all != before {
      assert all == before + [e.body] && all[..|all| - 1] == before;
      assert FoldSide(s.sides[j], fence, all)
        == SideStep(FoldSide(s.sides[j], fence, before), fence.turnId, fence.attemptId, e.body);
    }
  }

  lemma SidesAfterLast(s: State, fence: Fence, events: seq<Event>)
    requires events != []
    requires Touches(s, fence, events[|events| - 1])
    ensures var e := events[|events| - 1]; var before := SidesAfter(s, fence, events[..|events| - 1]);
            SidesAfter(s, fence, events)
            == before[e.body.sideId := SideStep(before[e.body.sideId], fence.turnId, fence.attemptId, e.body)]
  {
    var e, before := events[|events| - 1], SidesAfter(s, fence, events[..|events| - 1]);
    var k, after := e.body.sideId, SidesAfter(s, fence, events);
    SideAfterLast(s, fence, events, k);
    forall j | j in s.sides && j != k ensures after[j] == before[j] { SideAfterLast(s, fence, events, j); }
    OneChange(before, after, k);
  }

  lemma OneChange<K, V>(m: map<K, V>, m': map<K, V>, k: K)
    requires m'.Keys == m.Keys && k in m && forall j :: j in m && j != k ==> m'[j] == m[j]
    ensures m' == m[k := m'[k]]
  {}

  lemma RunningMeansOpen(s: State, fence: Fence, events: seq<Event>)
    requires TurnBegun(s, fence) && WellStreamed(s, fence, events)
    ensures SomeSide(SidesAfter(s, fence, events), Running) <==> !AllClosed(s, fence, events)
    ensures forall k :: k in s.sides ==> SidesAfter(s, fence, events)[k].id == k
  {
    var sides := SidesAfter(s, fence, events);
    forall k | k in s.sides
      ensures sides[k].id == k
      ensures sides[k].state == Running <==> s.sides[k].state == Running && !ClosedStream(Project(events, fence, k))
    {
      SideAfterStatus(s, fence, events, k);
    }
  }

  lemma CurrentEvent(s: State, fence: Fence, events: seq<Event>, r: State)
    requires TurnBegun(s, fence) && WellStreamed(s, fence, events) && events != []
    requires InterleavingState(s, fence, events[..|events| - 1], r)
    requires Touches(s, fence, events[|events| - 1])
    ensures InterleavingState(s, fence, events, Reduce(r, events[|events| - 1]))
  {
    var pre, e := events[..|events| - 1], events[|events| - 1];
    WellStreamedPrefix(s, fence, events);
    SidesAfterLast(s, fence, events);
    RunningMeansOpen(s, fence, events);
    RunningMeansOpen(s, fence, pre);
    LastBodyClosed(s, fence, events);
  }

  lemma LastBodyClosed(s: State, fence: Fence, events: seq<Event>)
    requires WellStreamed(s, fence, events) && events != []
    requires Touches(s, fence, events[|events| - 1])
    ensures !AllClosed(s, fence, events[..|events| - 1])
    ensures AllClosed(s, fence, events) ==> IsTerminal(events[|events| - 1].body)
  {
    var k := events[|events| - 1].body.sideId;
    WellStreamedPrefix(s, fence, events);
    ProjectLast(events, fence, k);
    var all := Project(events, fence, k);
    assert all[|all| - 1] == events[|events| - 1].body;
  }

  /**
    Confluence. When each running side's events form one stream that ends with its terminal event, the
    final state is the settled one in which each side is what its own stream makes of it, however the
    streams are interleaved with each other, with stale events and with events of unknown sides, if and
    only if events about the whole execution come after all of the streams.
    */
  lemma Confluence(s: State, fence: Fence, events: seq<Event>)
    requires TurnBegun(s, fence) && WellStreamed(s, fence, events) && AllClosed(s, fence, events)
    ensures Fold(s, events) == Settled(s, SidesAfter(s, fence, events)) <==> EndsLast(s, fence, events)
  {
    if EndsLast(s, fence, events) {
      EveryPrefix(s, fence, events);
    } else {
      EarlyEndStops(s, fence, events);
      RunningMeansOpen(s, fence, events);
    }
  }

  /** An event about the whole execution that comes too early resolves it with a side still running, for good. */
  lemma {:induction false} EarlyEndStops(s: State, fence: Fence, events: seq<Event>)
    requires TurnBegun(s, fence) && WellStreamed(s, fence, events) && !EndsLast(s, fence, events)
    ensures var r := Fold(s, events); r.activeTurnId.None? && SomeSide(r.sides, Running)
    decreases |events|
  {
    var pre, e := events[..|events| - 1], events[|events| - 1];
    WellStreamedPrefix(s, fence, events);
    EndsLastNext(s, fence, events);
    if EndsLast(s, fence, pre) {
      EveryPrefix(s, fence, pre);
      RunningMeansOpen(s, fence, pre);
    } else {
      EarlyEndStops(s, fence, pre);
    }
  }

  lemma InterleavingsAgree(s: State, fence: Fence, events: seq<Event>, events': seq<Event>)
    requires TurnBegun(s, fence)
    requires WellStreamed(s, fence, events) && AllClosed(s, fence, events) && EndsLast(s, fence, events)
    requires WellStreamed(s, fence, events') && AllClosed(s, fence, events') && EndsLast(s, fence, events')
    requires forall k :: k in s.sides ==> Project(events, fence, k) == Project(events', fence, k)
    ensures Fold(s, events) == Fold(s, events')
  {
    Confluence(s, fence, events);
    Confluence(s, fence, events');
    SameStreamsSameSides(s, fence, events, events');
  }

  lemma SameStreamsSameSides(s: State, fence: Fence, events: seq<Event>, events': seq<Event>)
    requires forall k :: k in s.sides ==> Project(events, fence, k) == Project(events', fence, k)
    ensures SidesAfter(s, fence, events) == SidesAfter(s, fence, events')
  {
    forall k | k in s.sides ensures SideAfter(s, fence, events, k) == SideAfter(s, fence, events', k) {}
  }

  /** Sending a message puts an execution with sides into the state that confluence starts from. */
  lemma BeginTurnBegins(s: State, message: string, turnId: string, attemptId: string)
    requires WellKeyed(s) && s.sides.Keys != {}
    ensures TurnBegun(BeginTurn(s, message, turnId, attemptId),
                      Fence(s.executionId, s.generation, turnId, attemptId))
  {
    assert BeginTurn(s, message, turnId, attemptId).sides.Keys == s.sides.Keys;
  }

  /** Retrying one side does too, with that side running and the others as they were. */
  lemma BeginRetryBegins(s: State, k: string, attemptId: string)
    requires WellKeyed(s) && k in s.sides
    ensures var r := BeginRetry(s, k, attemptId);
            && r.activeTurnId.Some? && r.sides.Keys == s.sides.Keys
            && TurnBegun(r, Fence(s.executionId, s.generation, r.activeTurnId.value, attemptId))
            && forall j :: j in s.sides && j != k ==> r.sides[j] == s.sides[j]
  {
    assert BeginRetry(s, k, attemptId).sides[k].state == Running;
  }
}
