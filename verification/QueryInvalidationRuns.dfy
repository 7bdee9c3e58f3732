/**
  Top-level events of the query invalidation coordinator, and what holds in every run of them.
  The environment may change the cache in any way between events, and settle outstanding calls in
  any order and at any time.
  */
module QueryInvalidationRuns {
  import opened QueryInvalidation

  /** `Invalidate` carries the queries whose key one of the event's kinds matches. */
  datatype Invalidation =
    | Invalidate(matched: set<QueryHash>)
    | Ready
    | Resync
    | Visibility(visible: bool)

  datatype Event =
    | Process(invalidation: Invalidation)
    | Complete(call: Call)
    | CacheChange(cache: seq<QueryHash>, queries: map<QueryHash, Query>)
    | Notify
    | Subscribe
    | Deactivate
    | Dispose

  // ----- the events -----

  function Wanted(s: State, e: Invalidation): (r: seq<QueryHash>)
    ensures (forall i, j :: 0 <= i < j < |s.cache| ==> s.cache[i] != s.cache[j])
            ==> forall i, j :: 0 <= i < j < |r| ==> r[i] != r[j]
    ensures forall h :: h in r <==> h in s.cache && Active(s, h) && (e.Invalidate? ==> h in e.matched)
  {
    if e.Invalidate? then Matching(ActiveQueries(s), e.matched) else ActiveQueries(s)
  }

  function Matching(list: seq<QueryHash>, matched: set<QueryHash>): (r: seq<QueryHash>)
    ensures forall h :: h in r <==> h in list && h in matched
    ensures (forall i, j :: 0 <= i < j < |list| ==> list[i] != list[j])
            ==> forall i, j :: 0 <= i < j < |r| ==> r[i] != r[j]
  {
    if list == [] then [] else
    var rest := Matching(list[1..], matched);
    assert list == [list[0]] + list[1..];
    if list[0] in matched then [list[0]] + rest else rest
  }

  ghost function RequestEach(env: Environment, s: State, list: seq<QueryHash>): State
    decreases |list|
  {
    if list == [] then s else RequestEach(env, Request(env, s, list[0]), list[1..])
  }

  /** `process`. */
  ghost function ProcessEvent(env: Environment, s: State, e: Invalidation): State {
    if s.disposed then s
    else if e.Visibility? then s.(visible := e.visible)
    else if !s.visible then s
    else RequestEach(env, s, Wanted(s, e))
  }

  predicate IsCurrent(s: State, call: Call) {
    call.query in s.work && s.work[call.query].id == call.workId
  }

  function MarkFinished(s: State, h: QueryHash): State
    requires h in s.work
  {
    s.(work := s.work[h := s.work[h].(invalidating := false)])
  }

  /** `finishReconciliation`. */
  ghost function Finish(env: Environment, s: State, call: Call): State {
    if s.disposed || !IsCurrent(s, call) then s else Follow(env, MarkFinished(s, call.query), call.query)
  }

  /** What follows once the entry's call is over: ask again, or forget the entry. */
  ghost function Follow(env: Environment, s: State, h: QueryHash): State {
    if s.visible && Dirty(s, h) && Active(s, h) then Request(env, s, h)
    else if !Dirty(s, h) then s.(work := s.work - {h})
    else s
  }

  function Settle(s: State, call: Call): State {
    s.(outstanding := s.outstanding - multiset{call})
  }

  function Clear(s: State): State {
    s.(subscribed := false, work := map[])
  }

  ghost predicate Enabled(s: State, e: Event) {
    match e
    case Complete(call) => call in s.outstanding
    case CacheChange(cache, queries) => CacheOk(cache, queries)
    case _ => true
  }

  ghost function Apply(env: Environment, s: State, e: Event): State {
    match e
    case Process(i) => ProcessEvent(env, s, i)
    case Complete(call) => Finish(env, Settle(s, call), call)
    case CacheChange(cache, queries) => s.(cache := cache, queries := queries)
    case Notify => if s.subscribed then Prune(env, s) else s
    case Subscribe => s.(subscribed := true)
    case Deactivate => Clear(s)
    case Dispose => if s.disposed then s else Clear(s).(disposed := true)
  }

  /** The states a run of events goes through, the first one included. */
  ghost predicate IsRun(env: Environment, states: seq<State>, events: seq<Event>) {
    && |states| == |events| + 1
    && CacheOk(states[0].cache, states[0].queries)
    && forall i :: 0 <= i < |events| ==>
                     Enabled(states[i], events[i]) && states[i + 1] == Apply(env, states[i], events[i])
  }

  // ----- the invariant of every run -----

  /** An entry is marked invalidating exactly when one call is outstanding for it. */
  ghost predicate Invariant(s: State) {
    && CacheOk(s.cache, s.queries)
    && (s.disposed ==> forall h :: h !in s.work)
    && (forall h :: h in s.work ==> s.work[h].id < s.nextId)
    && (forall c :: c in s.outstanding ==> s.outstanding[c] == 1 && c.workId < s.nextId)
    && (forall h :: h in s.work ==>
                      s.outstanding[Call(h, s.work[h].id)] == if s.work[h].invalidating then 1 else 0)
  }

  lemma QuietKeepsInvariant(s: State, s': State)
    requires Quiet(s, s') && Invariant(s)
    ensures Invariant(s')
  {
    forall h | h in s'.work
      ensures h in s.work && s'.work[h].id < s'.nextId
      ensures s'.outstanding[Call(h, s'.work[h].id)] == if s'.work[h].invalidating then 1 else 0
    {
      assert Unchanged(s, s', h) || Pruned(s, s', h) || Issued(s, s', h);
    }
    forall c | c in s'.outstanding ensures s'.outstanding[c] == 1 && c.workId < s'.nextId {
      var h := c.query;
      assert c == Call(h, c.workId);
      assert Unchanged(s, s', h) || Pruned(s, s', h) || Issued(s, s', h);
      assert s.outstanding[Call(h, c.workId)] == 0 || c in s.outstanding;
    }
  }

  lemma EntryKeepsInvariant(s: State, h: QueryHash)
    requires Invariant(s) && !s.disposed
    ensures Invariant(WithEntry(s, h))
  {
    if h !in s.work && Call(h, s.nextId) in s.outstanding { assert false; }
  }

  lemma CallKeepsInvariant(s: State, h: QueryHash)
    requires Invariant(s) && !s.disposed && !Invalidating(s, h)
    ensures Invariant(MarkCalled(s, h))
  {
    EntryKeepsInvariant(s, h);
    var s0 := WithEntry(s, h);
    var call := Call(h, s0.work[h].id);
    var r := MarkCalled(s, h);
    assert s0.outstanding[call] == 0;
    forall c ensures r.outstanding[c] == if c == call then 1 else s0.outstanding[c] {}
    forall c | c in r.outstanding ensures r.outstanding[c] == 1 && c.workId < r.nextId {
      assert c == call || c in s0.outstanding;
    }
    forall k | k in r.work
      ensures r.outstanding[Call(k, r.work[k].id)] == if r.work[k].invalidating then 1 else 0
    {
      if k != h { assert r.work[k] == s0.work[k] && Call(k, r.work[k].id) != call; }
    }
  }

  lemma FetchKeepsInvariant(s: State, h: QueryHash, status: FetchStatus)
    requires Invariant(s)
    ensures Invariant(StartFetch(s, h, status))
  {}

  lemma RequestKeepsInvariant(env: Environment, s: State, h: QueryHash)
    requires Invariant(s)
    ensures Invariant(Request(env, s, h))
  {
    var r := Request(env, s, h);
    if Open(s) && Active(s, h) {
      if MustWait(s, h) {
        EntryKeepsInvariant(s, h);
      } else {
        CallKeepsInvariant(s, h);
        var status :| Quiet(StartFetch(MarkCalled(s, h), h, status), r);
        FetchKeepsInvariant(MarkCalled(s, h), h, status);
        QuietKeepsInvariant(StartFetch(MarkCalled(s, h), h, status), r);
      }
    }
  }

  lemma RequestEachKeepsInvariant(env: Environment, s: State, list: seq<QueryHash>)
    requires Invariant(s)
    ensures Invariant(RequestEach(env, s, list))
    decreases |list|
  {
    if list != [] {
      RequestKeepsInvariant(env, s, list[0]);
      RequestEachKeepsInvariant(env, Request(env, s, list[0]), list[1..]);
    }
  }

  lemma SettleKeepsInvariant(s: State, call: Call)
    requires Invariant(s) && call in s.outstanding
    ensures Invariant(if IsCurrent(s, call) then MarkFinished(Settle(s, call), call.query) else Settle(s, call))
  {
    var s1 := Settle(s, call);
    forall c ensures s1.outstanding[c] == if c == call then 0 else s.outstanding[c] {}
    if IsCurrent(s, call) {
      var s2 := MarkFinished(s1, call.query);
      forall h | h in s2.work
        ensures s2.outstanding[Call(h, s2.work[h].id)] == if s2.work[h].invalidating then 1 else 0
      {
        assert h == call.query || s2.work[h] == s.work[h];
      }
    }
  }

  lemma FinishKeepsInvariant(env: Environment, s: State, call: Call)
    requires Invariant(s) && call in s.outstanding
    ensures Invariant(Finish(env, Settle(s, call), call))
  {
    SettleKeepsInvariant(s, call);
    if IsCurrent(s, call) {
      RequestKeepsInvariant(env, MarkFinished(Settle(s, call), call.query), call.query);
    }
  }

  lemma ApplyKeepsInvariant(env: Environment, s: State, e: Event)
    requires Invariant(s) && Enabled(s, e)
    ensures Invariant(Apply(env, s, e))
  {
    match e {
      case Process(i) => RequestEachKeepsInvariant(env, s, Wanted(s, i));
      case Complete(call) => FinishKeepsInvariant(env, s, call);
      case Notify => if s.subscribed { QuietKeepsInvariant(s, Prune(env, s)); }
      case _ =>
    }
  }

  lemma {:induction false} InvariantInEveryRun(env: Environment, states: seq<State>, events: seq<Event>)
    requires IsRun(env, states, events) && Invariant(states[0])
    ensures Invariant(states[|events|])
    decreases |events|
  {
    if events != [] {
      var n := |events| - 1;
      InvariantInEveryRun(env, states[..|events|], events[..n]);
      ApplyKeepsInvariant(env, states[n], events[n]);
    }
  }

  // ----- what a query is owed -----

  /** The coordinator takes `e` up for `h`. */
  predicate Accepts(s: State, e: Event, h: QueryHash) {
    && e.Process? && !e.invalidation.Visibility? && Open(s) && Active(s, h)
    && (e.invalidation.Invalidate? ==> h in e.invalidation.matched)
  }

  /** Only these forget what is owed to a query that is active. */
  predicate ShutsDown(e: Event) {
    e.Deactivate? || e.Dispose?
  }

  /** Calls made for `h`, plus the one its dirty entry still stands for. */
  ghost function Spent(s: State, h: QueryHash): nat {
    Count(s.calls, h) + if Dirty(s, h) then 1 else 0
  }

  /** `h` stays as it is towards the coordinator, and owes nothing less than before. */
  ghost predicate KeepsOwed(s: State, s': State, h: QueryHash) {
    && Open(s') == Open(s) && Active(s', h) && Spent(s', h) >= Spent(s, h)
    && Count(s'.calls, h) >= Count(s.calls, h)
  }

  lemma QuietSpends(s: State, s': State, h: QueryHash)
    requires Quiet(s, s')
    ensures Spent(s', h) <= Spent(s, h)
    ensures Active(s, h) ==> KeepsOwed(s, s', h)
  {
    assert Unchanged(s, s', h) || Pruned(s, s', h) || Issued(s, s', h);
  }

  lemma CallSpends(s: State, k: QueryHash, status: FetchStatus, h: QueryHash)
    requires Active(s, k)
    ensures var m := StartFetch(MarkCalled(s, k), k, status);
            && Count(m.calls, h) == Count(s.calls, h) + (if k == h then 1 else 0)
            && (Dirty(m, h) <==> k != h && Dirty(s, h))
            && Open(m) == Open(s) && Active(m, h) == Active(s, h)
  {
    CountAppend(s.calls, k, h);
    StartFetchKeeps(MarkCalled(s, k), k, status, h);
  }

  lemma StartFetchKeeps(s: State, k: QueryHash, status: FetchStatus, h: QueryHash)
    ensures var m := StartFetch(s, k, status);
            m.calls == s.calls && m.work == s.work && Open(m) == Open(s) && Active(m, h) == Active(s, h)
  {}

  lemma RequestSpends(env: Environment, s: State, k: QueryHash, h: QueryHash)
    ensures var r := Request(env, s, k);
            && Spent(r, h) <= Spent(s, h) + (if k == h && Open(s) && Active(s, h) then 1 else 0)
            && (k == h && Dirty(s, h) ==> Spent(r, h) <= Spent(s, h))
            && (Active(s, h) ==> KeepsOwed(s, r, h))
            && (k == h && Open(s) && Active(s, h) ==> Spent(r, h) > Count(s.calls, h))
  {
    var r := Request(env, s, k);
    if Open(s) && Active(s, k) && !MustWait(s, k) {
      var status :| Quiet(StartFetch(MarkCalled(s, k), k, status), r);
      CallSpends(s, k, status, h);
      QuietSpends(StartFetch(MarkCalled(s, k), k, status), r, h);
    }
  }

  lemma RequestEachSpends(env: Environment, s: State, list: seq<QueryHash>, h: QueryHash)
    requires forall i, j :: 0 <= i < j < |list| ==> list[i] != list[j]
    ensures var r := RequestEach(env, s, list);
            && Spent(r, h) <= Spent(s, h) + (if h in list then 1 else 0)
            && (Active(s, h) ==> KeepsOwed(s, r, h))
            && (h in list && Open(s) && Active(s, h) ==> Spent(r, h) > Count(s.calls, h))
    decreases |list|
  {
    if list != [] {
      RequestSpends(env, s, list[0], h);
      RequestEachSpends(env, Request(env, s, list[0]), list[1..], h);
      assert list == [list[0]] + list[1..];
    }
  }

  lemma FinishSpends(env: Environment, s: State, call: Call, h: QueryHash)
    ensures var r := Finish(env, s, call);
            Spent(r, h) <= Spent(s, h) && (Active(s, h) ==> KeepsOwed(s, r, h))
  {
    if !s.disposed && IsCurrent(s, call) {
      var s1 := MarkFinished(s, call.query);
      assert Dirty(s1, h) == Dirty(s, h);
      RequestSpends(env, s1, call.query, h);
    }
  }

  lemma StepSpends(env: Environment, s: State, e: Event, h: QueryHash)
    requires CacheOk(s.cache, s.queries)
    ensures var r := Apply(env, s, e);
            && Spent(r, h) <= Spent(s, h) + (if Accepts(s, e, h) then 1 else 0)
            && (Active(s, h) && !ShutsDown(e) ==> Spent(r, h) >= Spent(s, h))
            && (Accepts(s, e, h) ==> Spent(r, h) > Count(s.calls, h))
  {
    match e {
      case Process(i) =>
        if Open(s) && !i.Visibility? { RequestEachSpends(env, s, Wanted(s, i), h); }
      case Complete(call) => FinishSpends(env, Settle(s, call), call, h);
      case Notify => if s.subscribed { QuietSpends(s, Prune(env, s), h); }
      case _ =>
    }
  }

  /** Of all events, exactly a shutdown forgets what an active query is owed, and only if it is owed. */
  lemma OwedUnlessShutDown(env: Environment, s: State, e: Event, h: QueryHash)
    requires Invariant(s) && Active(s, h)
    ensures Spent(Apply(env, s, e), h) >= Spent(s, h) <==> !(ShutsDown(e) && Dirty(s, h))
  {
    StepSpends(env, s, e, h);
  }

  /**
    No lost invalidation. In every run: when the first event's invalidation is accepted for `h`, `h`
    stays active and the coordinator is not shut down, then a refetch of `h` has been issued since, or
    its entry is still dirty.
    */
  lemma {:induction false} NoLostInvalidation(
    env: Environment, states: seq<State>, events: seq<Event>, h: QueryHash)
    requires IsRun(env, states, events) && Invariant(states[0]) && events != []
    requires Accepts(states[0], events[0], h)
    requires forall i :: 0 <= i < |states| ==> Active(states[i], h)
    requires forall i :: 0 <= i < |events| ==> !ShutsDown(events[i])
    ensures Count(states[|events|].calls, h) > Count(states[0].calls, h) || Dirty(states[|events|], h)
    ensures Spent(states[|events|], h) > Count(states[0].calls, h)
    decreases |events|
  {
    var n := |events| - 1;
    InvariantInEveryRun(env, states[..|events|], events[..n]);
    StepSpends(env, states[n], events[n], h);
    if n > 0 {
      assert events[..n][0] == events[0];
      NoLostInvalidation(env, states[..|events|], events[..n], h);
    }
  }

  /** The condition is needed: shutting down drops what a query that stays active was owed. */
  lemma DeactivationForgets(env: Environment, h: QueryHash) returns (states: seq<State>, events: seq<Event>)
    ensures IsRun(env, states, events) && Invariant(states[0])
    ensures |events| == 3 && Accepts(states[0], events[0], h) && events[1..] == [Deactivate, Subscribe]
    ensures forall i :: 0 <= i < |states| ==> Active(states[i], h)
    ensures Dirty(states[1], h) && !Dirty(states[3], h) && states[3].calls == states[0].calls
  {
    var s0 := INITIAL.(cache := [h], queries := map[h := Query(1, true, Fetching)]);
    events := [Process(Invalidate({h})), Deactivate, Subscribe];
    var s1 := MarkDirty(s0, h);
    assert Wanted(s0, Invalidate({h})) == [h] by {
      assert ActiveIn(s0.queries, []) == [];
      assert ActiveQueries(s0) == [h] + ActiveIn(s0.queries, [h][1..]);
      assert Matching([], {h}) == [];
      assert Matching([h], {h}) == [h] + Matching([h][1..], {h});
    }
    assert RequestEach(env, s0, [h]) == RequestEach(env, Request(env, s0, h), [h][1..]) == s1;
    states := [s0, s1, Clear(s1), Clear(s1).(subscribed := true)];
  }

  ghost function Acceptances(states: seq<State>, events: seq<Event>, h: QueryHash): nat
    requires |states| == |events| + 1
    decreases |events|
  {
    if events == [] then 0 else
    var n := |events| - 1;
    Acceptances(states[..|events|], events[..n], h) + if Accepts(states[n], events[n], h) then 1 else 0
  }

  /**
    No refetch of its own. In every run the refetches issued for a query, together with the one it is
    still owed, are at most as many as the invalidations accepted for it.
    */
  lemma {:induction false} RefetchesAreAccountedFor(
    env: Environment, states: seq<State>, events: seq<Event>, h: QueryHash)
    requires IsRun(env, states, events) && Invariant(states[0])
    ensures Spent(states[|events|], h) <= Spent(states[0], h) + Acceptances(states, events, h)
    decreases |events|
  {
    if events != [] {
      var n := |events| - 1;
      InvariantInEveryRun(env, states[..|events|], events[..n]);
      RefetchesAreAccountedFor(env, states[..|events|], events[..n], h);
      StepSpends(env, states[n], events[n], h);
    }
  }

  // ----- nothing settled is left dirty -----

  /** `h` is not left idle and dirty with no call in flight for its entry. */
  predicate TakenCareOf(s: State, h: QueryHash) {
    IsPending(s, h) ==> !IsIdle(s, h)
  }

  lemma QuietTakesCare(s: State, s': State, h: QueryHash)
    requires Quiet(s, s') && TakenCareOf(s, h)
    ensures TakenCareOf(s', h)
  {
    assert Unchanged(s, s', h) || Pruned(s, s', h) || Issued(s, s', h);
  }

  lemma RequestTakesCare(env: Environment, s: State, k: QueryHash, h: QueryHash)
    requires TakenCareOf(s, h) || (k == h && Open(s) && Active(s, h))
    ensures TakenCareOf(Request(env, s, k), h)
  {
    var r := Request(env, s, k);
    if Open(s) && Active(s, k) && !MustWait(s, k) {
      var m := MarkCalled(s, k);
      var status :| Quiet(StartFetch(m, k, status), r);
      QuietTakesCare(StartFetch(m, k, status), r, h);
    }
  }

  lemma RequestKeepsGates(env: Environment, s: State, k: QueryHash, h: QueryHash)
    ensures var r := Request(env, s, k);
            Open(r) == Open(s) && Active(r, h) == Active(s, h)
  {
    var r := Request(env, s, k);
    if Open(s) && Active(s, k) && !MustWait(s, k) {
      var m := MarkCalled(s, k);
      var status :| Quiet(StartFetch(m, k, status), r);
      var m' := StartFetch(m, k, status);
      StartFetchKeeps(m, k, status, h);
      assert Unchanged(m', r, h) || Pruned(m', r, h) || Issued(m', r, h);
    }
  }

  lemma SettleEachTakesCare(env: Environment, s: State, list: seq<QueryHash>, h: QueryHash)
    requires TakenCareOf(s, h) || (h in list && Open(s) && Active(s, h))
    ensures TakenCareOf(SettleEach(env, s, list), h)
    decreases |list|
  {
    if list != [] {
      if IsPending(s, list[0]) && IsIdle(s, list[0]) {
        RequestTakesCareOrKeeps(env, s, list[0], h);
        SettleEachTakesCare(env, Request(env, s, list[0]), list[1..], h);
      } else {
        SettleEachTakesCare(env, s, list[1..], h);
      }
    }
  }

  lemma RequestTakesCareOrKeeps(env: Environment, s: State, k: QueryHash, h: QueryHash)
    ensures var r := Request(env, s, k);
            && (TakenCareOf(s, h) || (k == h && Open(s) && Active(s, h)) ==> TakenCareOf(r, h))
            && Open(r) == Open(s) && Active(r, h) == Active(s, h)
  {
    if TakenCareOf(s, h) || (k == h && Open(s) && Active(s, h)) { RequestTakesCare(env, s, k, h); }
    RequestKeepsGates(env, s, k, h);
  }

  lemma RequestEachTakesCare(env: Environment, s: State, list: seq<QueryHash>, h: QueryHash)
    requires TakenCareOf(s, h) || (h in list && Open(s) && Active(s, h))
    ensures TakenCareOf(RequestEach(env, s, list), h)
    decreases |list|
  {
    if list != [] {
      RequestTakesCareOrKeeps(env, s, list[0], h);
      RequestEachTakesCare(env, Request(env, s, list[0]), list[1..], h);
    }
  }

  /**
    A cache notification, or ready or resync, leaves no settled active query behind; nor does the completion
    of the call made for a query's entry, of that query.
    */
  lemma NothingSettledIsLeftDirty(env: Environment, s: State, e: Event, h: QueryHash)
    requires CacheOk(s.cache, s.queries) && Open(s)
    requires || (e.Notify? && s.subscribed)
             || (e.Process? && (e.invalidation.Ready? || e.invalidation.Resync?))
             || (e.Complete? && e.call.query == h && IsCurrent(s, e.call))
    ensures var s' := Apply(env, s, e);
            Active(s', h) && IsIdle(s', h) && !Invalidating(s', h) ==> !Dirty(s', h)
  {
    if e.Complete? {
      if Active(s, h) { CompletionIsFollowed(env, s, e.call); } else { FinishKeepsGates(env, s, e.call, h); }
    } else if Active(s, h) {
      if e.Notify? {
        SettleEachTakesCare(env, s, ActiveQueries(s), h);
        QuietTakesCare(ReconcileSettled(env, s), Prune(env, s), h) by {
          DropIsQuiet(ReconcileSettled(env, s));
        }
      } else {
        RequestEachTakesCare(env, s, Wanted(s, e.invalidation), h);
      }
    } else {
      GatesKept(env, s, e, h);
    }
  }

  lemma GatesKept(env: Environment, s: State, e: Event, h: QueryHash)
    requires e.Notify? || (e.Process? && !e.invalidation.Visibility?)
    ensures Active(Apply(env, s, e), h) == Active(s, h)
  {
    if e.Notify? {
      if s.subscribed {
        var r := Prune(env, s);
        assert Unchanged(s, r, h) || Pruned(s, r, h) || Issued(s, r, h);
      }
    } else if Open(s) {
      EachKeepsGates(env, s, Wanted(s, e.invalidation), h);
    }
  }

  lemma EachKeepsGates(env: Environment, s: State, list: seq<QueryHash>, h: QueryHash)
    ensures Active(RequestEach(env, s, list), h) == Active(s, h)
    decreases |list|
  {
    if list != [] {
      RequestKeepsGates(env, s, list[0], h);
      EachKeepsGates(env, Request(env, s, list[0]), list[1..], h);
    }
  }

  // ----- what a completion does -----

  predicate IsFetching(s: State, h: QueryHash) {
    h in s.queries && s.queries[h].status == Fetching
  }

  /**
    The completion of the call made for a query's entry. An entry that stayed clean is forgotten, with no call
    made. A dirty one is kept as it is while its query cannot be asked for; else its query is refetched at
    once, or owed a refetch until the fetch that is under way settles.
    */
  lemma CompletionIsFollowed(env: Environment, s: State, call: Call)
    requires !s.disposed && IsCurrent(s, call)
    ensures var h, r := call.query, Apply(env, s, Complete(call));
            && (!Dirty(s, h) ==> h !in r.work && r.calls == s.calls)
            && (Dirty(s, h) && !(s.visible && Active(s, h)) ==>
                  r.work == s.work[h := Work(call.workId, true, false)] && r.calls == s.calls)
            && (Dirty(s, h) && s.visible && Active(s, h) && IsFetching(s, h) ==>
                  r.work == s.work[h := Work(call.workId, true, false)] && r.calls == s.calls)
            && (Dirty(s, h) && s.visible && Active(s, h) && !IsFetching(s, h) ==>
                  Count(r.calls, h) == Count(s.calls, h) + 1 && Invalidating(r, h) && !Dirty(r, h))
            && (s.visible && Active(s, h) ==> TakenCareOf(r, h))
  {
    var h := call.query;
    var s1 := MarkFinished(Settle(s, call), h);
    if Dirty(s, h) && s.visible && Active(s, h) {
      if IsFetching(s, h) {
        assert Request(env, s1, h) == MarkDirty(s1, h);
      } else {
        FreeQueryIsCalled(env, s1, h);
      }
    }
  }

  lemma FinishKeepsGates(env: Environment, s: State, call: Call, h: QueryHash)
    ensures Active(Apply(env, s, Complete(call)), h) == Active(s, h)
  {
    var s0 := Settle(s, call);
    if !s0.disposed && IsCurrent(s0, call) { RequestKeepsGates(env, MarkFinished(s0, call.query), call.query, h); }
  }

  /** Asking for a query that is free makes exactly one call for it, whatever notifications that call raises. */
  lemma FreeQueryIsCalled(env: Environment, s: State, h: QueryHash)
    requires Open(s) && Active(s, h) && !Invalidating(s, h) && !IsFetching(s, h)
    ensures var r := Request(env, s, h);
            Count(r.calls, h) == Count(s.calls, h) + 1 && Invalidating(r, h) && !Dirty(r, h)
  {
    var r := Request(env, s, h);
    var status :| Quiet(StartFetch(MarkCalled(s, h), h, status), r);
    var m := StartFetch(MarkCalled(s, h), h, status);
    CallSpends(s, h, status, h);
    QuietWhileInvalidating(m, r, h);
  }

  /** Notifications make no call for a query whose call is in flight. */
  lemma QuietWhileInvalidating(s: State, s': State, h: QueryHash)
    requires Quiet(s, s') && Active(s, h) && Invalidating(s, h)
    ensures Count(s'.calls, h) == Count(s.calls, h) && h in s'.work && s'.work[h] == s.work[h]
  {
    var same := Unchanged(s, s', h);
  }

  // ----- when an invalidation is answered at once -----

  /** A call is in flight for the query's entry, or the query is being fetched. */
  predicate IsBusy(s: State, h: QueryHash) {
    Invalidating(s, h) || IsFetching(s, h)
  }

  lemma QuietWhileBusy(s: State, s': State, h: QueryHash)
    requires Quiet(s, s') && Active(s, h) && IsBusy(s, h)
    ensures Unchanged(s, s', h)
  {
    var same := Unchanged(s, s', h);
  }

  lemma RequestWhileBusy(env: Environment, s: State, k: QueryHash, h: QueryHash)
    requires Active(s, h) && IsBusy(s, h)
    ensures var r := Request(env, s, k);
            && Count(r.calls, h) == Count(s.calls, h) && Active(r, h) && IsBusy(r, h)
            && (Dirty(r, h) <==> Dirty(s, h) || (k == h && Open(s)))
  {
    var r := Request(env, s, k);
    if k != h && Open(s) && Active(s, k) && !MustWait(s, k) {
      var status :| Quiet(StartFetch(MarkCalled(s, k), k, status), r);
      CallOfOther(s, k, status, h);
      QuietWhileBusy(StartFetch(MarkCalled(s, k), k, status), r, h);
    }
  }

  /** Asking for another query leaves a free one free, or answers what it is owed. */
  lemma RequestWhileFree(env: Environment, s: State, k: QueryHash, h: QueryHash)
    requires Active(s, h) && !IsBusy(s, h) && k != h
    ensures var r := Request(env, s, k);
            && Active(r, h)
            && Count(r.calls, h) == Count(s.calls, h) + (if IsBusy(r, h) then 1 else 0)
  {
    var r := Request(env, s, k);
    RequestKeepsGates(env, s, k, h);
    if Open(s) && Active(s, k) && !MustWait(s, k) {
      var status :| Quiet(StartFetch(MarkCalled(s, k), k, status), r);
      var m := StartFetch(MarkCalled(s, k), k, status);
      CallOfOther(s, k, status, h);
      assert Unchanged(m, r, h) || Pruned(m, r, h) || Issued(m, r, h);
    }
  }

  lemma CallOfOther(s: State, k: QueryHash, status: FetchStatus, h: QueryHash)
    requires Active(s, k) && k != h
    ensures var m := StartFetch(MarkCalled(s, k), k, status);
            && Count(m.calls, h) == Count(s.calls, h) && Active(m, h) == Active(s, h)
            && Dirty(m, h) == Dirty(s, h) && IsBusy(m, h) == IsBusy(s, h)
  {
    CountAppend(s.calls, k, h);
    MarkOfOther(s, k, h);
    FetchOfOther(MarkCalled(s, k), k, status, h);
  }

  lemma MarkOfOther(s: State, k: QueryHash, h: QueryHash)
    requires k != h
    ensures var m := MarkCalled(s, k);
            && m.queries == s.queries && m.calls == s.calls + [k]
            && (h in m.work <==> h in s.work) && (h in s.work ==> m.work[h] == s.work[h])
  {}

  lemma FetchOfOther(s: State, k: QueryHash, status: FetchStatus, h: QueryHash)
    requires k != h
    ensures var m := StartFetch(s, k, status);
            && m.work == s.work && m.calls == s.calls
            && (h in m.queries <==> h in s.queries) && (h in s.queries ==> m.queries[h] == s.queries[h])
  {}

  lemma RequestEachWhileBusy(env: Environment, s: State, list: seq<QueryHash>, h: QueryHash)
    requires Active(s, h) && IsBusy(s, h)
    ensures var r := RequestEach(env, s, list);
            && Count(r.calls, h) == Count(s.calls, h) && IsBusy(r, h)
            && (Dirty(r, h) <==> Dirty(s, h) || (h in list && Open(s)))
    decreases |list|
  {
    if list != [] {
      RequestWhileBusy(env, s, list[0], h);
      RequestKeepsGates(env, s, list[0], h);
      RequestEachWhileBusy(env, Request(env, s, list[0]), list[1..], h);
      assert list == [list[0]] + list[1..];
    }
  }

  lemma RequestEachWhileFree(env: Environment, s: State, list: seq<QueryHash>, h: QueryHash)
    requires Open(s) && Active(s, h) && !IsBusy(s, h) && h in list
    ensures Count(RequestEach(env, s, list).calls, h) == Count(s.calls, h) + 1
    decreases |list|
  {
    var s1 := Request(env, s, list[0]);
    RequestKeepsGates(env, s, list[0], h);
    if list[0] == h {
      FreeQueryIsCalled(env, s, h);
      RequestEachWhileBusy(env, s1, list[1..], h);
    } else {
      assert list == [list[0]] + list[1..];
      RequestWhileFree(env, s, list[0], h);
      if IsBusy(s1, h) {
        RequestEachWhileBusy(env, s1, list[1..], h);
      } else {
        RequestEachWhileFree(env, s1, list[1..], h);
      }
    }
  }

  /**
    An accepted invalidation makes exactly one call for a query that is free, and none for one that is being
    fetched or has a call in flight, which it marks dirty instead.
    */
  lemma AcceptedIsAnsweredOrOwed(env: Environment, s: State, e: Event, h: QueryHash)
    requires CacheOk(s.cache, s.queries) && Accepts(s, e, h)
    ensures var r := Apply(env, s, e);
            if IsBusy(s, h) then Count(r.calls, h) == Count(s.calls, h) && Dirty(r, h)
            else Count(r.calls, h) == Count(s.calls, h) + 1
  {
    if IsBusy(s, h) {
      RequestEachWhileBusy(env, s, Wanted(s, e.invalidation), h);
    } else {
      RequestEachWhileFree(env, s, Wanted(s, e.invalidation), h);
    }
  }

  // ----- inactive entries and shut down coordinators -----

  /** A cache notification leaves entries of active queries only, and drops no other. */
  lemma NotificationPrunes(env: Environment, s: State, h: QueryHash)
    requires s.subscribed && !s.disposed
    ensures h in Apply(env, s, Notify).work <==> h in s.work && Active(s, h)
  {
    var s1, r := ReconcileSettled(env, s), Prune(env, s);
    assert Unchanged(s, s1, h) || Pruned(s, s1, h) || Issued(s, s1, h);
    assert Unchanged(s, r, h) || Pruned(s, r, h) || Issued(s, r, h);
  }

  /**
    A cache notification makes one call for each query that is owed one and can be asked: active, dirty, without
    a call in flight, and with no fetch under way, not even a paused one. It makes no other call.
    */
  lemma NotificationAnswersOwed(env: Environment, s: State, h: QueryHash)
    requires CacheOk(s.cache, s.queries) && s.subscribed
    ensures Count(Apply(env, s, Notify).calls, h)
            == Count(s.calls, h)
               + if && s.visible && !s.disposed
                    && h in s.queries && s.queries[h].observers > 0 && s.queries[h].dashboardKey
                    && s.queries[h].status == Idle
                    && h in s.work && s.work[h].dirty && !s.work[h].invalidating
                 then 1 else 0
  {
    if !s.disposed {
      var s1, r := ReconcileSettled(env, s), Prune(env, s);
      assert Unchanged(s, s1, h) || Pruned(s, s1, h) || Issued(s, s1, h);
      if Open(s) && Active(s, h) { SettleEachTakesCare(env, s, ActiveQueries(s), h); }
    }
  }

  /** Hiding and showing changes nothing but that; nothing is called for while hidden. */
  lemma VisibilityGates(env: Environment, s: State, e: Event)
    ensures e.Process? && e.invalidation.Visibility? && !s.disposed ==> Apply(env, s, e) == s.(visible := e.invalidation.visible)
    ensures !s.visible ==> Apply(env, s, e).calls == s.calls
  {
    if !s.visible && e.Notify? && s.subscribed && !s.disposed {
      var s1 := ReconcileSettled(env, s);
      assert s1 == s;
      assert Prune(env, s) == DropInactive(s1);
    }
  }

  /** A deactivated coordinator has no entries and hears no notification. */
  lemma ShutDownIsDeaf(env: Environment, s: State, e: Event)
    requires Invariant(s) && (e.Deactivate? || (e.Dispose? && !s.disposed))
    ensures var r := Apply(env, s, e);
            && r.work == map[] && r.calls == s.calls && Apply(env, r, Notify) == r
            && (e.Deactivate? ==> r.disposed == s.disposed) && (e.Dispose? ==> r.disposed)
  {}

  /** In every run a disposed coordinator stays so, and makes no call. */
  lemma {:induction false} DisposedIsSilent(env: Environment, states: seq<State>, events: seq<Event>)
    requires IsRun(env, states, events) && Invariant(states[0]) && states[0].disposed
    ensures var r := states[|events|]; r.disposed && r.calls == states[0].calls && r.work.Keys == {}
    decreases |events|
  {
    if events != [] {
      var n := |events| - 1;
      DisposedIsSilent(env, states[..|events|], events[..n]);
      assert states[n + 1] == Apply(env, states[n], events[n]);
    }
  }

  // ----- completions of entries that are gone -----

  /** The entry `call` was made for is not in the map, and no later entry takes its identity. */
  predicate Stale(s: State, call: Call) {
    call.workId < s.nextId && !IsCurrent(s, call)
  }

  lemma QuietKeepsStale(s: State, s': State, call: Call)
    requires Quiet(s, s') && Stale(s, call)
    ensures Stale(s', call)
  {
    var h := call.query;
    assert Unchanged(s, s', h) || Pruned(s, s', h) || Issued(s, s', h);
  }

  lemma RequestKeepsStale(env: Environment, s: State, k: QueryHash, call: Call)
    requires Stale(s, call)
    ensures Stale(Request(env, s, k), call)
  {
    var r := Request(env, s, k);
    if Open(s) && Active(s, k) && !MustWait(s, k) {
      var m := MarkCalled(s, k);
      var status :| Quiet(StartFetch(m, k, status), r);
      QuietKeepsStale(StartFetch(m, k, status), r, call);
    }
  }

  lemma RequestEachKeepsStale(env: Environment, s: State, list: seq<QueryHash>, call: Call)
    requires Stale(s, call)
    ensures Stale(RequestEach(env, s, list), call)
    decreases |list|
  {
    if list != [] {
      RequestKeepsStale(env, s, list[0], call);
      RequestEachKeepsStale(env, Request(env, s, list[0]), list[1..], call);
    }
  }

  lemma FinishKeepsStale(env: Environment, s: State, c: Call, call: Call)
    requires Stale(s, call)
    ensures Stale(Finish(env, s, c), call)
  {
    if !s.disposed && IsCurrent(s, c) { RequestKeepsStale(env, MarkFinished(s, c.query), c.query, call); }
  }

  lemma StepKeepsStale(env: Environment, s: State, e: Event, call: Call)
    requires Stale(s, call)
    ensures Stale(Apply(env, s, e), call)
  {
    match e {
      case Process(i) => RequestEachKeepsStale(env, s, Wanted(s, i), call);
      case Complete(c) => FinishKeepsStale(env, Settle(s, c), c, call);
      case Notify => if s.subscribed { QuietKeepsStale(s, Prune(env, s), call); }
      case _ =>
    }
  }

  /** Once its entry is pruned or replaced, a call's completion changes nothing, however late it comes. */
  lemma {:induction false} StaleCompletionChangesNothing(
    env: Environment, states: seq<State>, events: seq<Event>, call: Call)
    requires IsRun(env, states, events) && Stale(states[0], call)
    ensures Stale(states[|events|], call)
    ensures Apply(env, states[|events|], Complete(call)) == Settle(states[|events|], call)
    decreases |events|
  {
    if events != [] {
      var n := |events| - 1;
      StaleCompletionChangesNothing(env, states[..|events|], events[..n], call);
      StepKeepsStale(env, states[n], events[n], call);
    }
  }
}
