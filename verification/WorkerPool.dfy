/**
  The worker pool: workers share a counter of the next task and a result array, and take turns at their
  awaits. A run is any order in which the awaited tasks settle.
  */
module WorkerPool {
  import opened Wrappers

  /** Between two awaits a worker either waits for the task it claimed or has left its loop. */
  datatype Worker = Awaiting(index: nat) | Finished

  datatype Pool<T> = Pool(next: nat, workers: seq<Worker>, results: seq<Option<T>>)

  function Min(a: int, b: int): int {
    if a < b then a else b
  }

  /** How many workers start: `Array.from({ length })` makes none of a negative length. */
  function WorkerCount(concurrency: int, tasks: nat): nat {
    if Min(concurrency, tasks) < 0 then 0 else Min(concurrency, tasks)
  }

  function Unfilled<T>(n: nat): (r: seq<Option<T>>)
    ensures |r| == n && forall i :: 0 <= i < n ==> r[i] == None
  {
    seq(n, i => None)
  }

  /** A worker at the head of its loop claims the next task, or leaves. */
  function NextTurn<T>(p: Pool<T>, tasks: nat): (nat, Worker) {
    if p.next < tasks then (p.next + 1, Awaiting(p.next)) else (p.next, Finished)
  }

  /** Each worker runs up to its first await before the next one starts. */
  function Start<T>(tasks: nat, workers: nat): Pool<T> {
    if workers == 0 then Pool(0, [], Unfilled(tasks)) else
    var p := Start<T>(tasks, workers - 1);
    var (next, worker) := NextTurn(p, tasks);
    p.(next := next, workers := p.workers + [worker])
  }

  /** The task that worker `w` awaits settles: its result is stored and the worker takes its next turn. */
  function Resume<T>(p: Pool<T>, values: seq<T>, w: nat): Pool<T>
    requires w < |p.workers| && p.workers[w].Awaiting? && p.workers[w].index < |values| == |p.results|
  {
    var stored := p.(results := p.results[p.workers[w].index := Some(values[p.workers[w].index])]);
    var (next, worker) := NextTurn(stored, |values|);
    stored.(next := next, workers := p.workers[w := worker])
  }

  // ----- the invariant of every run -----

  predicate AwaitedBy<T>(p: Pool<T>, i: nat, w: nat) {
    w < |p.workers| && p.workers[w] == Awaiting(i)
  }

  /**
    The tasks before `next` are claimed, each once: it is awaited by one worker, or its result is stored.
    No later task is touched, and a worker leaves only when every task is claimed.
    */
  ghost predicate PoolOk<T>(p: Pool<T>, values: seq<T>) {
    && |p.results| == |values| && p.next <= |values|
    && (forall w :: 0 <= w < |p.workers| && p.workers[w].Awaiting? ==>
          p.workers[w].index < p.next && p.results[p.workers[w].index] == None)
    && (forall w, v :: 0 <= w < v < |p.workers| && p.workers[w].Awaiting? ==> p.workers[w] != p.workers[v])
    && (forall i :: 0 <= i < p.next ==> p.results[i] == Some(values[i]) || exists w: nat :: AwaitedBy(p, i, w))
    && (forall i :: p.next <= i < |values| ==> p.results[i] == None)
    && (p.next < |values| ==> forall w :: 0 <= w < |p.workers| ==> p.workers[w].Awaiting?)
  }

  /** The pool once `workers` have started: worker `w` awaits task `w`. */
  function Started<T>(tasks: nat, workers: nat): (p: Pool<T>)
    ensures |p.workers| == workers && forall w :: 0 <= w < workers ==> p.workers[w] == Awaiting(w)
  {
    Pool(workers, seq(workers, w requires 0 <= w < workers => Awaiting(w)), Unfilled(tasks))
  }

  lemma {:induction false} StartIsStarted<T>(tasks: nat, workers: nat)
    requires workers <= tasks
    ensures Start<T>(tasks, workers) == Started<T>(tasks, workers)
    decreases workers
  {
    if workers == 0 {
      assert Started<T>(tasks, 0).workers == [];
    } else {
      StartIsStarted<T>(tasks, workers - 1);
      assert Started<T>(tasks, workers).workers == Started<T>(tasks, workers - 1).workers + [Awaiting(workers - 1)];
    }
  }

  lemma StartIsOk<T>(values: seq<T>, workers: nat)
    requires workers <= |values|
    ensures PoolOk(Start<T>(|values|, workers), values)
  {
    StartIsStarted<T>(|values|, workers);
    var p := Started<T>(|values|, workers);
    forall i | 0 <= i < p.next ensures p.results[i] == Some(values[i]) || exists w: nat :: AwaitedBy(p, i, w) {
      assert AwaitedBy(p, i, i);
    }
  }

  lemma ResumeIsOk<T>(p: Pool<T>, values: seq<T>, w: nat)
    requires PoolOk(p, values) && w < |p.workers| && p.workers[w].Awaiting?
    ensures PoolOk(Resume(p, values, w), values)
  {
    var r, done := Resume(p, values, w), p.workers[w].index;
    forall i | 0 <= i < r.next ensures r.results[i] == Some(values[i]) || exists v: nat :: AwaitedBy(r, i, v) {
      if i == p.next {
        assert AwaitedBy(r, i, w);
      } else if i != done && p.results[i] == None {
        var v: nat :| AwaitedBy(p, i, v);
        assert AwaitedBy(r, i, v);
      }
    }
  }

  // ----- runs -----

  predicate CanResume<T>(p: Pool<T>, values: seq<T>, w: nat) {
    |p.results| == |values| && w < |p.workers| && p.workers[w].Awaiting? && p.workers[w].index < |values|
  }

  ghost predicate IsStep<T>(p: Pool<T>, p': Pool<T>, values: seq<T>, w: nat) {
    CanResume(p, values, w) && p' == Resume(p, values, w)
  }

  ghost predicate IsRun<T>(pools: seq<Pool<T>>, values: seq<T>, concurrency: int, schedule: seq<nat>) {
    && |pools| == |schedule| + 1 && pools[0] == Start(|values|, WorkerCount(concurrency, |values|))
    && forall k :: 0 <= k < |schedule| ==> IsStep(pools[k], pools[k + 1], values, schedule[k])
  }

  /** Tasks that are claimed and not settled. */
  ghost function InFlight<T>(workers: seq<Worker>): nat {
    if workers == [] then 0
    else InFlight<T>(workers[..|workers| - 1]) + if workers[|workers| - 1].Awaiting? then 1 else 0
  }

  lemma {:induction false} InFlightBound<T>(workers: seq<Worker>)
    ensures InFlight<T>(workers) <= |workers|
    ensures InFlight<T>(workers) == |workers| <==> forall w :: 0 <= w < |workers| ==> workers[w].Awaiting?
    ensures InFlight<T>(workers) == 0 <==> forall w :: 0 <= w < |workers| ==> workers[w].Finished?
    decreases |workers|
  {
    if workers != [] { InFlightBound<T>(workers[..|workers| - 1]); }
  }

  lemma {:induction false} InFlightUpdate<T>(workers: seq<Worker>, w: nat, worker: Worker)
    requires w < |workers| && workers[w].Awaiting?
    ensures InFlight<T>(workers[w := worker]) == InFlight<T>(workers) - if worker.Finished? then 1 else 0
    decreases |workers|
  {
    var n := |workers| - 1;
    if w < n {
      assert workers[w := worker][..n] == workers[..n][w := worker];
      InFlightUpdate<T>(workers[..n], w, worker);
    } else {
      assert workers[w := worker][..n] == workers[..n];
    }
  }

  lemma StartCounts<T>(values: seq<T>, workers: nat)
    requires workers <= |values|
    ensures var p := Start<T>(|values|, workers);
            PoolOk(p, values) && |p.workers| == workers && p.next == InFlight<T>(p.workers)
  {
    StartIsOk(values, workers);
    StartIsStarted<T>(|values|, workers);
    InFlightBound<T>(Started<T>(|values|, workers).workers);
  }

  lemma StepCounts<T>(p: Pool<T>, values: seq<T>, w: nat)
    requires PoolOk(p, values) && CanResume(p, values, w)
    ensures var r := Resume(p, values, w);
            && PoolOk(r, values) && |r.workers| == |p.workers|
            && r.next - InFlight<T>(r.workers) == p.next - InFlight<T>(p.workers) + 1
  {
    ResumeIsOk(p, values, w);
    InFlightUpdate<T>(p.workers, w, Resume(p, values, w).workers[w]);
  }

  /**
    In every run: the invariant holds, at most min(concurrency, tasks) tasks are in flight, and the
    tasks not settled yet are as many as the resumptions still to come.
    */
  lemma {:induction false} EveryRun<T>(pools: seq<Pool<T>>, values: seq<T>, concurrency: int, schedule: seq<nat>)
    requires IsRun(pools, values, concurrency, schedule)
    ensures var p := pools[|schedule|];
            && PoolOk(p, values)
            && |p.workers| == WorkerCount(concurrency, |values|)
            && InFlight<T>(p.workers) <= WorkerCount(concurrency, |values|)
            && p.next - InFlight<T>(p.workers) == |schedule|
    decreases |schedule|
  {
    if schedule == [] {
      StartCounts(values, WorkerCount(concurrency, |values|));
    } else {
      var k := |schedule| - 1;
      EveryRun(pools[..|schedule|], values, concurrency, schedule[..k]);
      assert IsStep(pools[k], pools[k + 1], values, schedule[k]);
      StepCounts(pools[k], values, schedule[k]);
    }
    InFlightBound<T>(pools[|schedule|].workers);
  }

  /** While a task is unclaimed every worker is busy, as many as are allowed. */
  lemma WorkersStayBusy<T>(pools: seq<Pool<T>>, values: seq<T>, concurrency: int, schedule: seq<nat>)
    requires IsRun(pools, values, concurrency, schedule)
    ensures var p := pools[|schedule|];
            && |p.workers| == (if concurrency <= 0 then 0 else if concurrency < |values| then concurrency else |values|)
            && (p.next < |values| ==> InFlight<T>(p.workers) == |p.workers|)
  {
    EveryRun(pools, values, concurrency, schedule);
    InFlightBound<T>(pools[|schedule|].workers);
  }

  ghost predicate AllFinished<T>(p: Pool<T>) {
    forall w :: 0 <= w < |p.workers| ==> p.workers[w].Finished?
  }

  /**
    With at least one worker, a run is over after exactly as many resumptions as there are tasks, and
    not before; until then some worker can resume; and then each task's result is in its own place.
    */
  lemma RunsComplete<T>(pools: seq<Pool<T>>, values: seq<T>, concurrency: int, schedule: seq<nat>)
    requires IsRun(pools, values, concurrency, schedule) && concurrency >= 1
    ensures var p := pools[|schedule|];
            && |p.results| == |values|
            && (AllFinished(p) <==> |schedule| == |values|)
            && (AllFinished(p) ==> forall i :: 0 <= i < |values| ==> p.results[i] == Some(values[i]))
            && (!AllFinished(p) ==> exists w :: 0 <= w < |p.workers| && p.workers[w].Awaiting?)
  {
    EveryRun(pools, values, concurrency, schedule);
    var p := pools[|schedule|];
    InFlightBound<T>(p.workers);
    if AllFinished(p) {
      forall i | 0 <= i < |values| ensures p.results[i] == Some(values[i]) {
        assert forall w: nat :: !AwaitedBy(p, i, w);
      }
    }
  }

  /** Without a worker the pool ends at once, with no result stored. */
  lemma NoWorkersNoResults<T>(values: seq<T>, concurrency: int)
    requires concurrency <= 0
    ensures var p := Start<T>(|values|, WorkerCount(concurrency, |values|));
            AllFinished(p) && forall i :: 0 <= i < |values| ==> p.results[i] == None
  {}

  lemma ExtendRun<T>(pools: seq<Pool<T>>, values: seq<T>, concurrency: int, schedule: seq<nat>, w: nat)
    requires IsRun(pools, values, concurrency, schedule) && CanResume(pools[|schedule|], values, w)
    ensures var r := Resume(pools[|schedule|], values, w);
            && IsRun(pools + [r], values, concurrency, schedule + [w])
            && PoolOk(r, values) && |schedule| + 1 <= |values|
  {
    var pools', schedule' := pools + [Resume(pools[|schedule|], values, w)], schedule + [w];
    forall k | 0 <= k < |schedule| ensures IsStep(pools'[k], pools'[k + 1], values, schedule'[k]) {
      assert IsStep(pools[k], pools[k + 1], values, schedule[k]);
    }
    assert IsRun(pools', values, concurrency, schedule');
    EveryRun(pools', values, concurrency, schedule');
  }

  /** What a run that is over has stored, with and without a worker. */
  lemma FinalPool<T>(pools: seq<Pool<T>>, values: seq<T>, concurrency: int, schedule: seq<nat>)
    requires IsRun(pools, values, concurrency, schedule) && AllFinished(pools[|schedule|])
    ensures var p := pools[|schedule|];
            && |p.results| == |values|
            && (concurrency >= 1 ==> p.next == |values| && forall i :: 0 <= i < |values| ==> p.results[i] == Some(values[i]))
            && (concurrency <= 0 ==> forall i :: 0 <= i < |values| ==> p.results[i] == None)
  {
    EveryRun(pools, values, concurrency, schedule);
    InFlightBound<T>(pools[|schedule|].workers);
    if concurrency >= 1 {
      RunsComplete(pools, values, concurrency, schedule);
    } else {
      NothingResumes(pools, values, concurrency, schedule);
    }
  }

  lemma FirstStep<T>(pools: seq<Pool<T>>, values: seq<T>, concurrency: int, schedule: seq<nat>)
    requires IsRun(pools, values, concurrency, schedule) && schedule != []
    ensures CanResume(pools[0], values, schedule[0])
  {
    assert IsStep(pools[0], pools[1], values, schedule[0]);
  }

  lemma NothingResumes<T>(pools: seq<Pool<T>>, values: seq<T>, concurrency: int, schedule: seq<nat>)
    requires IsRun(pools, values, concurrency, schedule) && concurrency <= 0
    ensures schedule == []
  {
    if schedule != [] { FirstStep(pools, values, concurrency, schedule); }
  }

  // ----- the pool as it runs, on a shared counter and a shared array -----

  class RunningPool<T> {
    const tasks: seq<T>
    const results: array<Option<T>>
    var next: nat
    var workers: seq<Worker>

    ghost function Shared(): Pool<T>
      reads this, results
    {
      Pool(next, workers, results[..])
    }

    constructor (tasks: seq<T>)
      ensures this.tasks == tasks && fresh(results) && results.Length == |tasks|
      ensures Shared() == Start(|tasks|, 0)
    {
      this.tasks := tasks;
      results := new Option<T>[|tasks|](_ => None);
      next, workers := 0, [];
      new;
      assert results[..] == Unfilled(|tasks|);
    }

    /** The worker's loop head. */
    method TakeTurn() returns (worker: Worker)
      modifies this`next
      ensures (next, worker) == NextTurn(old(Shared()), |tasks|)
    {
      if next < |tasks| {
        var index := next;
        next := next + 1;
        worker := Awaiting(index);
      } else {
        worker := Finished;
      }
    }

    method StartWorker()
      modifies this
      ensures var (n, worker) := NextTurn(old(Shared()), |tasks|);
              next == n && workers == old(workers) + [worker]
    {
      var worker := TakeTurn();
      workers := workers + [worker];
    }

    method ResumeWorker(w: nat)
      requires w < |workers| && workers[w].Awaiting? && workers[w].index < |tasks| == results.Length
      modifies this, results
      ensures Shared() == Resume(old(Shared()), tasks, w)
    {
      results[workers[w].index] := Some(tasks[workers[w].index]);
      var worker := TakeTurn();
      workers := workers[w := worker];
    }

    method StartWorkers(count: nat)
      requires Shared() == Start(|tasks|, 0)
      modifies this
      ensures Shared() == Start(|tasks|, count)
    {
      for k := 0 to count
        invariant Shared() == Start(|tasks|, k)
      {
        StartWorker();
      }
    }

    /** Some awaited task settles; which one is left open. */
    method SettleOne(concurrency: int, ghost pools: seq<Pool<T>>, ghost schedule: seq<nat>)
      returns (ghost pools': seq<Pool<T>>, ghost schedule': seq<nat>)
      requires exists w :: 0 <= w < |workers| && workers[w].Awaiting?
      requires IsRun(pools, tasks, concurrency, schedule) && pools[|schedule|] == Shared()
      modifies this, results
      ensures IsRun(pools', tasks, concurrency, schedule') && pools'[|schedule'|] == Shared()
      ensures |schedule'| == |schedule| + 1 <= |tasks|
    {
      EveryRun(pools, tasks, concurrency, schedule);
      var w: nat :| w < |workers| && workers[w].Awaiting?;
      ResumeWorker(w);
      ExtendRun(pools, tasks, concurrency, schedule, w);
      pools', schedule' := pools + [Shared()], schedule + [w];
    }

    /** Runs to the end under any choice of which awaited task settles next. */
    method Run(concurrency: int) returns (claims: nat)
      requires results.Length == |tasks| && Shared() == Start(|tasks|, 0)
      modifies this, results
      ensures claims == next
      ensures concurrency >= 1 ==> claims == |tasks|
      ensures concurrency >= 1 ==> forall i :: 0 <= i < |tasks| ==> results[i] == Some(tasks[i])
      ensures concurrency <= 0 ==> forall i :: 0 <= i < |tasks| ==> results[i] == None
    {
      StartWorkers(WorkerCount(concurrency, |tasks|));
      ghost var pools: seq<Pool<T>>, schedule: seq<nat> := [Shared()], [];
      while exists w :: 0 <= w < |workers| && workers[w].Awaiting?
        invariant IsRun(pools, tasks, concurrency, schedule) && pools[|schedule|] == Shared()
        invariant |schedule| <= |tasks|
        decreases |tasks| - |schedule|
      {
        pools, schedule := SettleOne(concurrency, pools, schedule);
      }
      FinalPool(pools, tasks, concurrency, schedule);
      claims := next;
    }
  }
}
