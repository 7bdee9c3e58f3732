/** Crawl jobs as polls, optimistic starts and deletions leave them. */
module CrawlJobs {
  import opened Wrappers

  datatype Status = Queued | Processing | Paused | Completed | Failed

  datatype Job = Job(id: string, status: Status, progress: int)

  datatype Merged = Merged(
    jobs: seq<Job>, completed: seq<string>, nextStatuses: map<string, Status>, toForget: set<string>)

  function Where(jobs: seq<Job>, wanted: Job -> bool): seq<Job>
    decreases |jobs|
  {
    if jobs == [] then [] else
    Where(jobs[..|jobs| - 1], wanted) + if wanted(jobs[|jobs| - 1]) then [jobs[|jobs| - 1]] else []
  }

  function NotIn(ids: set<string>): Job -> bool {
    (job: Job) => job.id !in ids
  }

  function Ids(jobs: seq<Job>): set<string> {
    set job | job in jobs :: job.id
  }

  /** The payload without recently deleted jobs. */
  function Visible(incoming: seq<Job>, deleted: set<string>): seq<Job> {
    Where(incoming, NotIn(deleted))
  }

  predicate HasCompleted(job: Job, previous: map<string, Status>) {
    job.id in previous && previous[job.id] != job.status && job.status == Completed
  }

  function CompletedIds(jobs: seq<Job>, previous: map<string, Status>): seq<string> {
    if jobs == [] then [] else
    CompletedIds(jobs[..|jobs| - 1], previous)
    + if HasCompleted(jobs[|jobs| - 1], previous) then [jobs[|jobs| - 1].id] else []
  }

  function Statuses(jobs: seq<Job>): map<string, Status> {
    if jobs == [] then map[] else
    Statuses(jobs[..|jobs| - 1])[jobs[|jobs| - 1].id := jobs[|jobs| - 1].status]
  }

  function Merge(current: seq<Job>, incoming: seq<Job>, previous: map<string, Status>, deleted: set<string>): Merged {
    var visible := Visible(incoming, deleted);
    Merged(visible + Where(current, NotIn(Ids(visible))),
           CompletedIds(visible, previous), Statuses(visible), deleted - Ids(incoming))
  }

  /** `mergeCrawlJobs`; no set of recently deleted ids is an empty one. */
  method MergeCrawlJobs(
    current: seq<Job>, incoming: seq<Job>, previousStatuses: map<string, Status>, recentlyDeleted: Option<set<string>>)
    returns (r: Merged)
    ensures r == Merge(current, incoming, previousStatuses, recentlyDeleted.GetOr({}))
  {
    var deleted := recentlyDeleted.GetOr({});
    var incomingFiltered := incoming;
    if deleted != {} {
      incomingFiltered := Where(incoming, NotIn(deleted));
    } else {
      WhereAll(incoming, NotIn(deleted));
    }
    var incomingIds := Ids(incomingFiltered);
    var completedJobIds: seq<string> := [];
    for i := 0 to |incomingFiltered|
      invariant completedJobIds == CompletedIds(incomingFiltered[..i], previousStatuses)
    {
      assert incomingFiltered[..i + 1][..i] == incomingFiltered[..i];
      var job := incomingFiltered[i];
      if job.id in previousStatuses && previousStatuses[job.id] != job.status && job.status == Completed {
        completedJobIds := completedJobIds + [job.id];
      }
    }
    assert incomingFiltered[..|incomingFiltered|] == incomingFiltered;
    var optimisticOnly := Where(current, NotIn(incomingIds));
    var toForget := deleted - Ids(incoming);
    r := Merged(incomingFiltered + optimisticOnly, completedJobIds, Statuses(incomingFiltered), toForget);
  }

  // ----- what one merge does -----

  ghost predicate UniqueIds(jobs: seq<Job>) {
    forall i, j :: 0 <= i < j < |jobs| ==> jobs[i].id != jobs[j].id
  }

  lemma {:induction false} WhereAll(jobs: seq<Job>, wanted: Job -> bool)
    requires forall i :: 0 <= i < |jobs| ==> wanted(jobs[i])
    ensures Where(jobs, wanted) == jobs
    decreases |jobs|
  {
    if jobs != [] {
      WhereAll(jobs[..|jobs| - 1], wanted);
      assert jobs == jobs[..|jobs| - 1] + [jobs[|jobs| - 1]];
    }
  }

  lemma {:induction false} WhereMembers(jobs: seq<Job>, wanted: Job -> bool)
    ensures forall job :: job in Where(jobs, wanted) <==> job in jobs && wanted(job)
    decreases |jobs|
  {
    if jobs != [] {
      WhereMembers(jobs[..|jobs| - 1], wanted);
      assert jobs == jobs[..|jobs| - 1] + [jobs[|jobs| - 1]];
    }
  }

  lemma {:induction false} WhereUnique(jobs: seq<Job>, wanted: Job -> bool)
    requires UniqueIds(jobs)
    ensures UniqueIds(Where(jobs, wanted))
    decreases |jobs|
  {
    if jobs != [] {
      var n := |jobs| - 1;
      WhereUnique(jobs[..n], wanted);
      WhereMembers(jobs[..n], wanted);
      forall job | job in Where(jobs[..n], wanted) ensures job.id != jobs[n].id { assert job in jobs[..n]; }
    }
  }

  lemma WhereFacts(jobs: seq<Job>, wanted: Job -> bool)
    ensures forall job :: job in Where(jobs, wanted) <==> job in jobs && wanted(job)
    ensures UniqueIds(jobs) ==> UniqueIds(Where(jobs, wanted))
  {
    WhereMembers(jobs, wanted);
    if UniqueIds(jobs) { WhereUnique(jobs, wanted); }
  }

  lemma {:induction false} CompletedFacts(jobs: seq<Job>, previous: map<string, Status>, id: string)
    ensures id in CompletedIds(jobs, previous) <==> exists job :: job in jobs && job.id == id && HasCompleted(job, previous)
    decreases |jobs|
  {
    if jobs != [] {
      var n := |jobs| - 1;
      CompletedFacts(jobs[..n], previous, id);
      assert jobs == jobs[..n] + [jobs[n]];
    }
  }

  lemma {:induction false} StatusesFacts(jobs: seq<Job>, id: string)
    ensures id in Statuses(jobs) <==> exists job :: job in jobs && job.id == id
    ensures id in Statuses(jobs) ==> exists job :: job in jobs && job.id == id && Statuses(jobs)[id] == job.status
    decreases |jobs|
  {
    if jobs != [] {
      var n := |jobs| - 1;
      StatusesFacts(jobs[..n], id);
      assert jobs == jobs[..n] + [jobs[n]];
    }
  }

  /**
    One merge: a deleted id is listed only if the current list still held it and every other listed
    job comes from the payload or, where the payload says nothing of it, from the current list; ids stay
    unique; and a deletion is forgotten exactly when the raw payload no longer has the id.
    */
  lemma MergeFacts(current: seq<Job>, incoming: seq<Job>, previous: map<string, Status>, deleted: set<string>)
    ensures var r := Merge(current, incoming, previous, deleted);
            && (forall job :: job in r.jobs <==>
                  (job in incoming && job.id !in deleted)
                  || (job in current && (job.id in deleted || job.id !in Ids(incoming))))
            && (UniqueIds(current) && UniqueIds(incoming) ==> UniqueIds(r.jobs))
            && (forall id :: id in r.toForget <==> id in deleted && id !in Ids(incoming))
            && (forall id :: id in r.completed <==>
                  exists job :: job in incoming && job.id == id && id !in deleted && HasCompleted(job, previous))
  {
    var visible := Visible(incoming, deleted);
    var others := Where(current, NotIn(Ids(visible)));
    WhereFacts(incoming, NotIn(deleted));
    WhereFacts(current, NotIn(Ids(visible)));
    VisibleIds(incoming, deleted);
    forall id { CompletedFacts(visible, previous, id); }
    if UniqueIds(current) && UniqueIds(incoming) {
      forall i, j | 0 <= i < |visible| && 0 <= j < |others| ensures visible[i].id != others[j].id {
        assert visible[i] in visible && others[j] in others;
      }
    }
  }

  // ----- the order of the merged list -----

  /** `x` stands somewhere before `y`. */
  predicate StandsBefore(jobs: seq<Job>, x: Job, y: Job) {
    exists i, j :: 0 <= i < j < |jobs| && jobs[i] == x && jobs[j] == y
  }

  lemma {:induction false} WhereKeepsOrder(jobs: seq<Job>, wanted: Job -> bool, p: nat, q: nat)
    requires p < q < |Where(jobs, wanted)|
    ensures StandsBefore(jobs, Where(jobs, wanted)[p], Where(jobs, wanted)[q])
    decreases |jobs|
  {
    var n := |jobs| - 1;
    var pre, r := Where(jobs[..n], wanted), Where(jobs, wanted);
    if q < |pre| {
      WhereKeepsOrder(jobs[..n], wanted, p, q);
      var i, j :| 0 <= i < j < n && jobs[..n][i] == pre[p] && jobs[..n][j] == pre[q];
      assert jobs[i] == r[p] && jobs[j] == r[q];
    } else {
      WhereMembers(jobs[..n], wanted);
      assert pre[p] in jobs[..n];
      var i :| 0 <= i < n && jobs[..n][i] == pre[p];
      assert jobs[i] == r[p] && jobs[n] == r[q];
    }
  }

  /**
    The merged list has the payload's jobs first, in the payload's order, and then the current list's others in
    theirs.
    */
  lemma MergeOrder(
    current: seq<Job>, incoming: seq<Job>, previous: map<string, Status>, deleted: set<string>, p: nat, q: nat)
    requires p < q < |Merge(current, incoming, previous, deleted).jobs|
    ensures var jobs := Merge(current, incoming, previous, deleted).jobs;
            var fromPayload := (x: Job) => x.id in Ids(incoming) - deleted;
            && (fromPayload(jobs[q]) ==> fromPayload(jobs[p]) && StandsBefore(incoming, jobs[p], jobs[q]))
            && (!fromPayload(jobs[p]) ==> StandsBefore(current, jobs[p], jobs[q]))
  {
    var visible := Visible(incoming, deleted);
    var others := Where(current, NotIn(Ids(visible)));
    var jobs := visible + others;
    VisibleIds(incoming, deleted);
    WhereMembers(current, NotIn(Ids(visible)));
    forall i | |visible| <= i < |jobs| ensures jobs[i].id !in Ids(visible) { assert jobs[i] in others; }
    forall i | 0 <= i < |visible| ensures jobs[i].id in Ids(visible) { assert jobs[i] in visible; }
    if q < |visible| { WhereKeepsOrder(incoming, NotIn(deleted), p, q); }
    if |visible| <= p { WhereKeepsOrder(current, NotIn(Ids(visible)), p - |visible|, q - |visible|); }
  }

  /** Completions are reported in the order of the payload's jobs. */
  lemma {:induction false} CompletedInOrder(jobs: seq<Job>, previous: map<string, Status>, p: nat, q: nat)
    requires p < q < |CompletedIds(jobs, previous)|
    ensures var ids := CompletedIds(jobs, previous);
            exists x: Job, y: Job :: x.id == ids[p] && y.id == ids[q] && StandsBefore(jobs, x, y)
    decreases |jobs|
  {
    var n := |jobs| - 1;
    var pre, ids := CompletedIds(jobs[..n], previous), CompletedIds(jobs, previous);
    if q < |pre| {
      CompletedInOrder(jobs[..n], previous, p, q);
      var x: Job, y: Job :| x.id == pre[p] && y.id == pre[q] && StandsBefore(jobs[..n], x, y);
      var i, j :| 0 <= i < j < n && jobs[..n][i] == x && jobs[..n][j] == y;
      assert jobs[i] == x && jobs[j] == y;
      assert StandsBefore(jobs, x, y);
    } else {
      CompletedFacts(jobs[..n], previous, pre[p]);
      assert pre[p] in pre;
      var x :| x in jobs[..n] && x.id == pre[p];
      var i :| 0 <= i < n && jobs[..n][i] == x;
      assert jobs[i] == x && StandsBefore(jobs, x, jobs[n]);
    }
  }

  lemma VisibleIds(incoming: seq<Job>, deleted: set<string>)
    ensures Ids(Visible(incoming, deleted)) == Ids(incoming) - deleted
  {
    WhereFacts(incoming, NotIn(deleted));
    forall id | id in Ids(incoming) - deleted ensures id in Ids(Visible(incoming, deleted)) {
      var job :| job in incoming && job.id == id;
      assert job in Visible(incoming, deleted);
    }
  }

  // ----- the list over a whole run -----

  datatype State = State(jobs: seq<Job>, statuses: map<string, Status>, deleted: set<string>)

  datatype Step =
    | Poll(incoming: seq<Job>)
    | Start(job: Job)
    | Delete(id: string)

  function Apply(s: State, step: Step): State {
    match step
    case Poll(incoming) =>
      var r := Merge(s.jobs, incoming, s.statuses, s.deleted);
      State(r.jobs, r.nextStatuses, s.deleted - r.toForget)
    case Start(job) => if job.id in Ids(s.jobs) then s else s.(jobs := [job] + s.jobs)
    case Delete(id) => State(Where(s.jobs, NotIn({id})), s.statuses - {id}, s.deleted + {id})
  }

  /** Payloads have unique ids, and a job that starts has an id that was not deleted before. */
  ghost predicate Enabled(s: State, step: Step) {
    match step
    case Poll(incoming) => UniqueIds(incoming)
    case Start(job) => job.id !in s.deleted
    case Delete(_) => true
  }

  ghost predicate IsRun(states: seq<State>, steps: seq<Step>) {
    && |states| == |steps| + 1
    && forall i :: 0 <= i < |steps| ==> Enabled(states[i], steps[i]) && states[i + 1] == Apply(states[i], steps[i])
  }

  /** Ids are unique, and no recently deleted job is listed. */
  ghost predicate StateOk(s: State) {
    UniqueIds(s.jobs) && forall job :: job in s.jobs ==> job.id !in s.deleted
  }

  lemma StepIsOk(s: State, step: Step)
    requires StateOk(s) && Enabled(s, step)
    ensures StateOk(Apply(s, step))
  {
    match step {
      case Poll(incoming) => MergeFacts(s.jobs, incoming, s.statuses, s.deleted);
      case Start(job) =>
      case Delete(id) => WhereFacts(s.jobs, NotIn({id}));
    }
  }

  /** In every run from an empty list, a deleted job stays away while polls still report it. */
  lemma {:induction false} DeletedJobsStayAway(states: seq<State>, steps: seq<Step>)
    requires IsRun(states, steps) && states[0] == State([], map[], {})
    ensures StateOk(states[|steps|])
    decreases |steps|
  {
    if steps != [] {
      var n := |steps| - 1;
      DeletedJobsStayAway(states[..|steps|], steps[..n]);
      StepIsOk(states[n], steps[n]);
    }
  }

  /** A job that starts is listed first, unless it is listed already. */
  lemma StartedIsListed(s: State, job: Job)
    ensures var r := Apply(s, Start(job));
            && (job.id in Ids(s.jobs) ==> r == s)
            && (job.id !in Ids(s.jobs) ==> |r.jobs| > 0 && r.jobs[0] == job && r.jobs[1..] == s.jobs)
            && r.statuses == s.statuses && r.deleted == s.deleted
  {}

  /** Deleting a job takes it, and nothing else, off the list, and remembers the deletion. */
  lemma DeletedIsRemembered(s: State, id: string)
    ensures var r := Apply(s, Delete(id));
            && (forall job :: job in r.jobs <==> job in s.jobs && job.id != id)
            && id in r.deleted && id !in r.statuses
            && forall k :: k != id ==> (k in r.deleted <==> k in s.deleted) && (k in r.statuses <==> k in s.statuses)
                                       && (k in s.statuses ==> r.statuses[k] == s.statuses[k])
  {
    WhereFacts(s.jobs, NotIn({id}));
  }

  /** In every run after a deletion, the job stays off the list as long as every poll still reports it. */
  lemma {:induction false} DeletedUntilConfirmed(states: seq<State>, steps: seq<Step>, id: string)
    requires IsRun(states, steps) && steps != [] && steps[0] == Delete(id)
    requires forall i :: 0 <= i < |steps| && steps[i].Poll? ==> id in Ids(steps[i].incoming)
    ensures id in states[|steps|].deleted && id !in Ids(states[|steps|].jobs)
    decreases |steps|
  {
    var n := |steps| - 1;
    if n == 0 {
      DeletedIsRemembered(states[0], id);
    } else {
      assert steps[..n][0] == steps[0];
      DeletedUntilConfirmed(states[..|steps|], steps[..n], id);
      match steps[n] {
        case Poll(incoming) => MergeFacts(states[n].jobs, incoming, states[n].statuses, states[n].deleted);
        case Start(_) =>
        case Delete(other) => DeletedIsRemembered(states[n], other);
      }
    }
  }

  /** This step's payload reports `id`, not deleted, with another status than completed. */
  ghost predicate SeenOtherwise(s: State, step: Step, id: string) {
    step.Poll? && exists job :: job in step.incoming && job.id == id && id !in s.deleted && job.status != Completed
  }

  ghost predicate ReportsCompleted(s: State, step: Step, id: string) {
    step.Poll? && id in Merge(s.jobs, step.incoming, s.statuses, s.deleted).completed
  }

  predicate NotPending(s: State, id: string) {
    id in s.statuses ==> s.statuses[id] == Completed
  }

  lemma StepKeepsNotPending(s: State, step: Step, id: string)
    requires Enabled(s, step) && !SeenOtherwise(s, step, id)
    requires NotPending(s, id) || ReportsCompleted(s, step, id)
    ensures NotPending(Apply(s, step), id)
  {
    if step.Poll? {
      var visible := Visible(step.incoming, s.deleted);
      WhereFacts(step.incoming, NotIn(s.deleted));
      StatusesFacts(visible, id);
    }
  }

  lemma NotPendingIsNotReported(s: State, step: Step, id: string)
    requires NotPending(s, id)
    ensures !ReportsCompleted(s, step, id)
  {
    if step.Poll? { CompletedFacts(Visible(step.incoming, s.deleted), s.statuses, id); }
  }

  lemma ReportedOnce(s: State, step: Step, id: string)
    requires Enabled(s, step) && ReportsCompleted(s, step, id)
    ensures !SeenOtherwise(s, step, id)
  {
    var visible := Visible(step.incoming, s.deleted);
    CompletedFacts(visible, s.statuses, id);
    WhereFacts(step.incoming, NotIn(s.deleted));
    var done :| done in visible && done.id == id && HasCompleted(done, s.statuses);
    forall job | job in step.incoming && job.id == id ensures job == done {}
  }

  lemma {:induction false} NotPendingUntilSeen(states: seq<State>, steps: seq<Step>, first: nat, last: nat, id: string)
    requires IsRun(states, steps) && first < last <= |steps|
    requires ReportsCompleted(states[first], steps[first], id)
    requires forall m :: first < m < last ==> !SeenOtherwise(states[m], steps[m], id)
    ensures NotPending(states[last], id)
    decreases last
  {
    if first < last - 1 {
      NotPendingUntilSeen(states, steps, first, last - 1, id);
    } else {
      ReportedOnce(states[first], steps[first], id);
    }
    StepKeepsNotPending(states[last - 1], steps[last - 1], id);
  }

  /** In every run a job is reported completed again only after a poll in between saw it otherwise. */
  lemma CompletedAgainOnlyAfterSeenOtherwise(states: seq<State>, steps: seq<Step>, first: nat, last: nat, id: string)
    requires IsRun(states, steps) && first < last < |steps|
    requires ReportsCompleted(states[first], steps[first], id) && ReportsCompleted(states[last], steps[last], id)
    ensures exists m :: first < m < last && SeenOtherwise(states[m], steps[m], id)
  {
    if forall m :: first < m < last ==> !SeenOtherwise(states[m], steps[m], id) {
      NotPendingUntilSeen(states, steps, first, last, id);
      NotPendingIsNotReported(states[last], steps[last], id);
    }
  }

  // ----- exactly which completions are reported -----

  /** This step's payload lists `id`, not deleted, with this status. */
  ghost predicate Sees(s: State, step: Step, id: string, status: Status) {
    step.Poll? && exists job :: job in step.incoming && job.id == id && id !in s.deleted && job.status == status
  }

  /** The last poll before `n` is the one at `m`; it sees `id` with this status, and `id` is not deleted since. */
  ghost predicate LastSaw(states: seq<State>, steps: seq<Step>, m: nat, n: nat, id: string, status: Status)
    requires n <= |steps| < |states|
  {
    && m < n && Sees(states[m], steps[m], id, status)
    && forall i :: m < i < n ==> !steps[i].Poll? && steps[i] != Delete(id)
  }

  ghost predicate WasLastSeen(states: seq<State>, steps: seq<Step>, n: nat, id: string, status: Status)
    requires n <= |steps| < |states|
  {
    exists m: nat :: LastSaw(states, steps, m, n, id, status)
  }

  lemma PolledStatuses(s: State, incoming: seq<Job>, id: string, status: Status)
    requires UniqueIds(incoming)
    ensures var statuses := Apply(s, Poll(incoming)).statuses;
            (id in statuses && statuses[id] == status) <==> Sees(s, Poll(incoming), id, status)
  {
    var visible := Visible(incoming, s.deleted);
    WhereFacts(incoming, NotIn(s.deleted));
    StatusesFacts(visible, id);
    forall a, b | a in incoming && b in incoming && a.id == b.id ensures a == b {}
  }

  lemma {:induction false} StatusesAreLastSeen(states: seq<State>, steps: seq<Step>, n: nat, id: string, status: Status)
    requires IsRun(states, steps) && states[0].statuses == map[] && n <= |steps|
    ensures (id in states[n].statuses && states[n].statuses[id] == status)
            <==> WasLastSeen(states, steps, n, id, status)
    decreases n
  {
    if n > 0 {
      var s, step := states[n - 1], steps[n - 1];
      StatusesAreLastSeen(states, steps, n - 1, id, status);
      if step.Poll? {
        PolledStatuses(s, step.incoming, id, status);
        if Sees(s, step, id, status) { assert LastSaw(states, steps, n - 1, n, id, status); }
      } else {
        LastSawNext(states, steps, n, id, status);
      }
    }
  }

  lemma LastSawNext(states: seq<State>, steps: seq<Step>, n: nat, id: string, status: Status)
    requires 0 < n <= |steps| < |states| && !steps[n - 1].Poll?
    ensures WasLastSeen(states, steps, n, id, status)
            <==> steps[n - 1] != Delete(id) && WasLastSeen(states, steps, n - 1, id, status)
  {
    var k: nat := n - 1;
    if m: nat :| LastSaw(states, steps, m, n, id, status) {
      assert m < k && LastSaw(states, steps, m, k, id, status);
    }
    if steps[k] != Delete(id) {
      if m: nat :| LastSaw(states, steps, m, k, id, status) { assert LastSaw(states, steps, m, n, id, status); }
    }
  }

  /**
    In every run from an empty list: a poll reports `id` completed if and only if it sees it completed and the
    last poll before it saw it otherwise, with no deletion of `id` in between.
    */
  lemma ReportedExactlyWhenSeenToComplete(states: seq<State>, steps: seq<Step>, n: nat, id: string)
    requires IsRun(states, steps) && states[0] == State([], map[], {}) && n < |steps|
    ensures ReportsCompleted(states[n], steps[n], id)
            <==> Sees(states[n], steps[n], id, Completed)
                 && exists status :: status != Completed && WasLastSeen(states, steps, n, id, status)
  {
    if steps[n].Poll? {
      CompletedHere(states[n], steps[n], id);
      if id in states[n].statuses { StatusesAreLastSeen(states, steps, n, id, states[n].statuses[id]); }
      if status :| status != Completed && WasLastSeen(states, steps, n, id, status) {
        StatusesAreLastSeen(states, steps, n, id, status);
      }
    }
  }

  lemma CompletedHere(s: State, step: Step, id: string)
    requires step.Poll?
    ensures ReportsCompleted(s, step, id)
            <==> Sees(s, step, id, Completed) && id in s.statuses && s.statuses[id] != Completed
  {
    CompletedFacts(Visible(step.incoming, s.deleted), s.statuses, id);
    WhereFacts(step.incoming, NotIn(s.deleted));
  }

  /** A completion between two polls that do not both report the job goes unreported. */
  lemma CompletionCanGoUnreported() returns (states: seq<State>, steps: seq<Step>)
    ensures IsRun(states, steps) && states[0] == State([], map[], {})
    ensures |steps| == 3 && steps[0] == Poll([Job("a", Processing, 0)]) && steps[2] == Poll([Job("a", Completed, 1)])
    ensures forall i :: 0 <= i < 3 ==> !ReportsCompleted(states[i], steps[i], "a")
  {
    steps := [Poll([Job("a", Processing, 0)]), Poll([]), Poll([Job("a", Completed, 1)])];
    var s0 := State([], map[], {});
    var s1 := Apply(s0, steps[0]);
    var s2 := Apply(s1, steps[1]);
    states := [s0, s1, s2, Apply(s2, steps[2])];
    forall i | 0 <= i < 3 ensures !ReportsCompleted(states[i], steps[i], "a") {
      CompletedFacts(Visible(steps[i].incoming, states[i].deleted), states[i].statuses, "a");
      WhereFacts(steps[i].incoming, NotIn(states[i].deleted));
    }
  }
}
