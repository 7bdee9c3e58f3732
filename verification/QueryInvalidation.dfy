/**
  The state and the operations of the dashboard query invalidation coordinator, as functions.

  The query cache that the coordinator drives is its environment. Between two top-level events it may
  change in any way. During one `invalidateQueries` call the environment raises some cache
  notifications, starts a fetch for the query, and raises some more; how many, and what fetch status
  the query ends up with, is given by an arbitrary function of the number of calls made before.
  */
module QueryInvalidation {

  type QueryHash = string

  datatype FetchStatus = Fetching | Paused | Idle

  /** A cached query; `dashboardKey` says that its key belongs to the coordinator's workspace. */
  datatype Query = Query(observers: nat, dashboardKey: bool, status: FetchStatus)

  /** One entry of the work map. `id` is the identity of the entry object. */
  datatype Work = Work(id: nat, dirty: bool, invalidating: bool)

  /** An `invalidateQueries` call made for the entry `workId`, whose promise is not settled yet. */
  datatype Call = Call(query: QueryHash, workId: nat)

  /** What the cache does during one call: notifications, the fetch it starts, notifications. */
  datatype Response = Response(before: nat, after: nat, status: FetchStatus)

  type Environment = nat -> Response

  datatype State = State(
    visible: bool,
    disposed: bool,
    subscribed: bool,
    work: map<QueryHash, Work>,
    nextId: nat,
    cache: seq<QueryHash>,
    queries: map<QueryHash, Query>,
    outstanding: multiset<Call>,
    calls: seq<QueryHash>)

  const INITIAL := State(true, false, false, map[], 0, [], map[], multiset{}, [])

  predicate IsActive(queries: map<QueryHash, Query>, h: QueryHash) {
    h in queries && queries[h].observers > 0 && queries[h].dashboardKey
  }

  predicate Active(s: State, h: QueryHash) {
    IsActive(s.queries, h)
  }

  predicate Dirty(s: State, h: QueryHash) {
    h in s.work && s.work[h].dirty
  }

  predicate Invalidating(s: State, h: QueryHash) {
    h in s.work && s.work[h].invalidating
  }

  predicate IsIdle(s: State, h: QueryHash) {
    h in s.queries && s.queries[h].status == Idle
  }

  /** The cache lists each of its queries once. */
  ghost predicate CacheOk(cache: seq<QueryHash>, queries: map<QueryHash, Query>) {
    && (forall i, j :: 0 <= i < j < |cache| ==> cache[i] != cache[j])
    && (forall h :: h in cache <==> h in queries)
  }

  function ActiveIn(queries: map<QueryHash, Query>, list: seq<QueryHash>): (r: seq<QueryHash>)
    ensures forall h :: h in r <==> h in list && IsActive(queries, h)
    ensures (forall i, j :: 0 <= i < j < |list| ==> list[i] != list[j])
            ==> forall i, j :: 0 <= i < j < |r| ==> r[i] != r[j]
  {
    if list == [] then [] else
    var rest := ActiveIn(queries, list[1..]);
    assert list == [list[0]] + list[1..];
    if IsActive(queries, list[0]) then [list[0]] + rest else rest
  }

  function ActiveQueries(s: State): seq<QueryHash> {
    ActiveIn(s.queries, s.cache)
  }

  // ----- the effect of nested work, query by query -----

  /** The entries that are dirty with no call in flight: the measure of nested notifications. */
  ghost function Pending(s: State): set<QueryHash> {
    set h | h in s.work && s.work[h].dirty && !s.work[h].invalidating
  }

  ghost predicate SameOutside(s: State, s': State) {
    && s'.visible == s.visible && s'.disposed == s.disposed && s'.subscribed == s.subscribed
    && s'.nextId == s.nextId && s'.cache == s.cache && s'.queries.Keys == s.queries.Keys
    && s.calls <= s'.calls
  }

  ghost function Count(calls: seq<QueryHash>, h: QueryHash): nat {
    multiset(calls)[h]
  }

  ghost predicate SameCalls(s: State, s': State, h: QueryHash)
    requires s.queries.Keys == s'.queries.Keys
  {
    && (forall id :: s'.outstanding[Call(h, id)] == s.outstanding[Call(h, id)])
    && Count(s'.calls, h) == Count(s.calls, h)
    && (h in s.queries ==> s'.queries[h] == s.queries[h])
  }

  ghost predicate Unchanged(s: State, s': State, h: QueryHash)
    requires s.queries.Keys == s'.queries.Keys
  {
    && (h in s.work <==> h in s'.work)
    && (h in s.work ==> s'.work[h] == s.work[h])
    && SameCalls(s, s', h)
  }

  ghost predicate Pruned(s: State, s': State, h: QueryHash)
    requires s.queries.Keys == s'.queries.Keys
  {
    !Active(s, h) && h in s.work && h !in s'.work && SameCalls(s, s', h)
  }

  /** One call was made for `h`, which was idle and owed one, and is in flight. */
  ghost predicate Issued(s: State, s': State, h: QueryHash)
    requires s.queries.Keys == s'.queries.Keys
  {
    && Active(s, h) && IsIdle(s, h) && Dirty(s, h) && !Invalidating(s, h)
    && h in s'.work && s'.work[h] == Work(s.work[h].id, false, true)
    && (forall id :: s'.outstanding[Call(h, id)]
                     == s.outstanding[Call(h, id)] + if id == s.work[h].id then 1 else 0)
    && Count(s'.calls, h) == Count(s.calls, h) + 1
    && s'.queries[h].(status := s.queries[h].status) == s.queries[h]
  }

  /** What cache notifications do: each query's entry is kept, pruned or answered by one call. */
  ghost predicate Quiet(s: State, s': State) {
    && SameOutside(s, s')
    && forall h :: Unchanged(s, s', h) || Pruned(s, s', h) || Issued(s, s', h)
  }

  lemma QuietReflexive(s: State)
    ensures Quiet(s, s)
  {
    forall h ensures Unchanged(s, s, h) {}
  }

  lemma QuietTransitive(a: State, b: State, c: State)
    requires Quiet(a, b) && Quiet(b, c)
    ensures Quiet(a, c)
  {
    forall h ensures Unchanged(a, c, h) || Pruned(a, c, h) || Issued(a, c, h) {
      assert Unchanged(a, b, h) || Pruned(a, b, h) || Issued(a, b, h);
      assert Unchanged(b, c, h) || Pruned(b, c, h) || Issued(b, c, h);
      assert Active(a, h) <==> Active(b, h);
    }
  }

  lemma QuietShrinksPending(s: State, s': State)
    requires Quiet(s, s')
    ensures Pending(s') <= Pending(s)
    ensures |Pending(s')| <= |Pending(s)|
  {
    forall h | h in Pending(s') ensures h in Pending(s) {
      assert Unchanged(s, s', h) || Pruned(s, s', h) || Issued(s, s', h);
    }
    SubsetSize(Pending(s'), Pending(s));
  }

  lemma SubsetSize<T>(a: set<T>, b: set<T>)
    requires a <= b
    ensures |a| <= |b|
  {
    assert b == a + (b - a);
  }

  // ----- the coordinator's operations -----

  /** The state in which `h` has an entry. */
  function WithEntry(s: State, h: QueryHash): (r: State)
    ensures h in r.work
  {
    if h in s.work then s else s.(work := s.work[h := Work(s.nextId, false, false)], nextId := s.nextId + 1)
  }

  function MarkDirty(s: State, h: QueryHash): State {
    var s0 := WithEntry(s, h);
    s0.(work := s0.work[h := s0.work[h].(dirty := true)])
  }

  /** The entry is marked and the call is recorded, before the cache reacts to it. */
  function MarkCalled(s: State, h: QueryHash): State {
    var s0 := WithEntry(s, h);
    var id := s0.work[h].id;
    s0.(work := s0.work[h := Work(id, false, true)],
        outstanding := s0.outstanding + multiset{Call(h, id)},
        calls := s0.calls + [h])
  }

  predicate MustWait(s: State, h: QueryHash) {
    Invalidating(s, h) || (h in s.queries && s.queries[h].status == Fetching)
  }

  predicate Open(s: State) {
    s.visible && !s.disposed
  }

  predicate IsPending(s: State, h: QueryHash) {
    Dirty(s, h) && !Invalidating(s, h)
  }

  function StartFetch(s: State, h: QueryHash, status: FetchStatus): State {
    if h in s.queries then s.(queries := s.queries[h := s.queries[h].(status := status)]) else s
  }

  function DropInactive(s: State): State {
    s.(work := map h | h in s.work && Active(s, h) :: s.work[h])
  }

  lemma CallRemovesPending(s: State, h: QueryHash)
    ensures Pending(MarkCalled(s, h)) == Pending(s) - {h}
  {}

  lemma FetchKeepsPending(s: State, h: QueryHash, status: FetchStatus)
    ensures Pending(StartFetch(s, h, status)) == Pending(s)
  {}

  /** `requestReconciliation`. */
  ghost function Request(env: Environment, s: State, h: QueryHash): (r: State)
    ensures !(Open(s) && Active(s, h)) ==> r == s
    ensures Open(s) && Active(s, h) && MustWait(s, h) ==> r == MarkDirty(s, h)
    ensures Open(s) && Active(s, h) && !MustWait(s, h) ==> AfterCall(MarkCalled(s, h), r, h)
    decreases |Pending(s) - {h}| + 1, 0, 0
  {
    if !Open(s) || !Active(s, h) then s
    else if MustWait(s, h) then MarkDirty(s, h)
    else
      var s1 := MarkCalled(s, h);
      CallRemovesPending(s, h);
      RunCall(env, s1, h, env(|s.calls|))
  }

  /** A call's effect on the state it is recorded in: a fetch status for `h`, and quiet work. */
  ghost predicate AfterCall(s: State, r: State, h: QueryHash) {
    && h in s.queries && h in s.work
    && exists status :: Quiet(StartFetch(s, h, status), r)
  }

  /** The synchronous part of `invalidateQueries`. */
  ghost function RunCall(env: Environment, s: State, h: QueryHash, answer: Response): (r: State)
    requires Active(s, h) && Invalidating(s, h)
    ensures AfterCall(s, r, h)
    decreases |Pending(s)|, 4, 0
  {
    var s1 := Notifications(env, s, answer.before);
    var s2 := StartFetch(s1, h, answer.status);
    FetchKeepsPending(s1, h, answer.status);
    QuietShrinksPending(s, s1);
    var r := Notifications(env, s2, answer.after);
    FetchCommutes(s, s1, h, answer.status);
    QuietTransitive(StartFetch(s, h, answer.status), s2, r);
    r
  }

  lemma FetchCommutes(s: State, s': State, h: QueryHash, status: FetchStatus)
    requires Quiet(s, s') && h in s.queries && Invalidating(s, h)
    ensures Quiet(StartFetch(s, h, status), StartFetch(s', h, status))
  {
    var a, b := StartFetch(s, h, status), StartFetch(s', h, status);
    assert a.queries.Keys == b.queries.Keys;
    forall k ensures Unchanged(a, b, k) || Pruned(a, b, k) || Issued(a, b, k) {
      assert Unchanged(s, s', k) || Pruned(s, s', k) || Issued(s, s', k);
      assert Active(a, k) == Active(s, k);
    }
  }

  /** `n` cache notifications in a row. */
  ghost function Notifications(env: Environment, s: State, n: nat): (r: State)
    ensures Quiet(s, r)
    decreases |Pending(s)|, 3, n
  {
    QuietReflexive(s);
    if n == 0 || !s.subscribed then s else
    var s1 := Prune(env, s);
    QuietShrinksPending(s, s1);
    var r := Notifications(env, s1, n - 1);
    QuietTransitive(s, s1, r);
    r
  }

  /** `pruneInactiveWork`, the cache listener. */
  ghost function Prune(env: Environment, s: State): (r: State)
    ensures Quiet(s, r)
    decreases |Pending(s)|, 2, 0
  {
    QuietReflexive(s);
    if s.disposed then s else
    var s1 := ReconcileSettled(env, s);
    var r := DropInactive(s1);
    DropIsQuiet(s1);
    QuietTransitive(s, s1, r);
    r
  }

  lemma DropIsQuiet(s: State)
    ensures Quiet(s, DropInactive(s))
  {
    var r := DropInactive(s);
    forall h ensures Unchanged(s, r, h) || Pruned(s, r, h) {}
  }

  /** `reconcileSettledQueries`. */
  ghost function ReconcileSettled(env: Environment, s: State): (r: State)
    ensures Quiet(s, r)
    decreases |Pending(s)|, 1, |ActiveQueries(s)| + 1
  {
    QuietReflexive(s);
    if !Open(s) then s else SettleEach(env, s, ActiveQueries(s))
  }

  /** Its loop over the active queries, taken once before the loop. */
  ghost function SettleEach(env: Environment, s: State, list: seq<QueryHash>): (r: State)
    ensures Quiet(s, r)
    decreases |Pending(s)|, 1, |list|
  {
    QuietReflexive(s);
    if list == [] then s
    else if IsPending(s, list[0]) && IsIdle(s, list[0]) then
      assert list[0] in Pending(s);
      SettleMeasure(s, list[0]);
      var s1 := Request(env, s, list[0]);
      RequestOwedIsQuiet(s, s1, list[0]);
      QuietShrinksPending(s, s1);
      var r := SettleEach(env, s1, list[1..]);
      QuietTransitive(s, s1, r);
      r
    else SettleEach(env, s, list[1..])
  }

  lemma SettleMeasure(s: State, h: QueryHash)
    requires h in Pending(s)
    ensures |Pending(s) - {h}| + 1 == |Pending(s)|
  {}

  /** Asking for a query that is owed a refetch and is idle is what a notification may do. */
  lemma RequestOwedIsQuiet(s: State, r: State, h: QueryHash)
    requires IsPending(s, h) && IsIdle(s, h)
    requires !(Open(s) && Active(s, h)) ==> r == s
    requires Open(s) && Active(s, h) && !MustWait(s, h) ==> AfterCall(MarkCalled(s, h), r, h)
    ensures Quiet(s, r)
  {
    QuietReflexive(s);
    if Open(s) && Active(s, h) {
      var status :| Quiet(StartFetch(MarkCalled(s, h), h, status), r);
      CallOwedIsQuiet(s, h, status);
      QuietTransitive(s, StartFetch(MarkCalled(s, h), h, status), r);
    }
  }

  lemma CallOwedIsQuiet(s: State, h: QueryHash, status: FetchStatus)
    requires IsPending(s, h) && IsIdle(s, h) && Active(s, h)
    ensures Quiet(s, StartFetch(MarkCalled(s, h), h, status))
  {
    var r := StartFetch(MarkCalled(s, h), h, status);
    forall k ensures Unchanged(s, r, k) || Issued(s, r, k) {
      CountAppend(s.calls, h, k);
      if k == h { assert Issued(s, r, k); } else { assert Unchanged(s, r, k); }
    }
  }

  lemma CountAppend(calls: seq<QueryHash>, k: QueryHash, h: QueryHash)
    ensures Count(calls + [k], h) == Count(calls, h) + if k == h then 1 else 0
  {}
}
