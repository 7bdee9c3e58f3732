/** Optimistic crawl actions, laid over the crawl state that polls report until a poll reflects them. */
module CrawlOverlay {
  import opened Wrappers

  datatype JobStatus = Queued | Processing | Paused | Completed | Failed

  /** `updatedAtMs` is None where the stamp does not parse. */
  datatype Job = Job(id: string, sourceId: Option<string>, status: JobStatus, updatedAtMs: Option<int>)

  datatype Snapshot = Snapshot(jobs: seq<Job>, requestStartedAtMs: int)

  datatype Action = Pause | Recrawl | Resume

  datatype Entry = Entry(action: Action, completedAtMs: int, jobId: Option<string>)

  type Overlay = map<string, Entry>

  datatype CrawlState = CrawlState(active: set<string>, paused: set<string>)

  const PROCESSING_STALE_MS := 10 * 60 * 1000

  // ----- the crawl state a snapshot and an overlay present -----

  predicate HasSource(job: Job) {
    job.sourceId.Some? && job.sourceId.value != ""
  }

  predicate IsActiveJob(job: Job, now: int) {
    || job.status == Queued
    || (job.status == Processing && job.updatedAtMs.Some? && now - job.updatedAtMs.value < PROCESSING_STALE_MS)
  }

  /** A source is active on the server when one of its jobs is. */
  predicate ServerActive(jobs: seq<Job>, now: int, k: string) {
    exists j :: j in jobs && HasSource(j) && j.sourceId.value == k && IsActiveJob(j, now)
  }

  predicate ServerPaused(jobs: seq<Job>, now: int, k: string) {
    !ServerActive(jobs, now, k) && exists j :: j in jobs && HasSource(j) && j.sourceId.value == k && j.status == Paused
  }

  function Jobs(snapshot: Option<Snapshot>): seq<Job> {
    if snapshot.Some? then snapshot.value.jobs else []
  }

  predicate PresentedActive(snapshot: Option<Snapshot>, overlay: Overlay, now: int, k: string) {
    if k in overlay then overlay[k].action != Pause else ServerActive(Jobs(snapshot), now, k)
  }

  predicate PresentedPaused(snapshot: Option<Snapshot>, overlay: Overlay, now: int, k: string) {
    if k in overlay then overlay[k].action == Pause else ServerPaused(Jobs(snapshot), now, k)
  }

  ghost predicate Presents(snapshot: Option<Snapshot>, overlay: Overlay, now: int, s: CrawlState) {
    && (forall k :: k in s.active <==> PresentedActive(snapshot, overlay, now, k))
    && (forall k :: k in s.paused <==> PresentedPaused(snapshot, overlay, now, k))
  }

  /** What the loop over the first jobs has collected. */
  ghost predicate Collected(jobs: seq<Job>, now: int, active: set<string>, paused: set<string>) {
    && (forall k :: k in active <==> ServerActive(jobs, now, k))
    && (forall k :: k in paused <==>
          exists j :: j in jobs && HasSource(j) && j.sourceId.value == k && j.status == Paused)
  }

  lemma CollectNext(jobs: seq<Job>, job: Job, now: int, active: set<string>, paused: set<string>)
    requires Collected(jobs, now, active, paused)
    ensures Collected(jobs + [job], now,
                      if HasSource(job) && IsActiveJob(job, now) then active + {job.sourceId.value} else active,
                      if HasSource(job) && job.status == Paused then paused + {job.sourceId.value} else paused)
  {
    assert forall j :: j in jobs + [job] <==> j in jobs || j == job;
    forall k ensures ServerActive(jobs + [job], now, k)
                     <==> ServerActive(jobs, now, k) || (HasSource(job) && job.sourceId.value == k && IsActiveJob(job, now))
    {
      if HasSource(job) && job.sourceId.value == k && IsActiveJob(job, now) { assert job in jobs + [job]; }
    }
  }

  method CollectJobs(jobs: seq<Job>, now: int) returns (active: set<string>, paused: set<string>)
    ensures Collected(jobs, now, active, paused)
  {
    active, paused := {}, {};
    for i := 0 to |jobs|
      invariant Collected(jobs[..i], now, active, paused)
    {
      var job := jobs[i];
      CollectNext(jobs[..i], job, now, active, paused);
      assert jobs[..i + 1] == jobs[..i] + [job];
      if !HasSource(job) { continue; }
      if IsActiveJob(job, now) {
        active := active + {job.sourceId.value};
      } else if job.status == Paused {
        paused := paused + {job.sourceId.value};
      }
    }
    assert jobs[..|jobs|] == jobs;
  }

  method DeriveSourceCrawlState(snapshot: Option<Snapshot>, overlay: Overlay, now: int) returns (s: CrawlState)
    ensures Presents(snapshot, overlay, now, s)
  {
    var active, paused := CollectJobs(Jobs(snapshot), now);
    paused := paused - active;
    ghost var serverActive, serverPaused := active, paused;
    var sources := overlay.Keys;
    while sources != {}
      invariant sources <= overlay.Keys
      invariant forall k :: k in active <==>
                              if k in overlay && k !in sources then overlay[k].action != Pause else k in serverActive
      invariant forall k :: k in paused <==>
                              if k in overlay && k !in sources then overlay[k].action == Pause else k in serverPaused
      decreases sources
    {
      var k :| k in sources;
      if overlay[k].action == Pause {
        active := active - {k};
        paused := paused + {k};
      } else {
        active := active + {k};
        paused := paused - {k};
      }
      sources := sources - {k};
    }
    s := CrawlState(active, paused);
  }

  /** No source is presented as both crawling and paused. */
  lemma ActiveAndPausedAreDisjoint(snapshot: Option<Snapshot>, overlay: Overlay, now: int, s: CrawlState)
    requires Presents(snapshot, overlay, now, s)
    ensures s.active !! s.paused
  {}

  // ----- reconciling -----

  /** The snapshot reflects the entry's action, and was requested strictly after it completed. */
  predicate Reflects(snapshot: Snapshot, now: int, k: string, entry: Entry) {
    && snapshot.requestStartedAtMs > entry.completedAtMs
    && match entry.action
       case Recrawl => exists j :: j in snapshot.jobs && Some(j.id) == entry.jobId
       case Pause => ServerPaused(snapshot.jobs, now, k)
       case Resume => !ServerPaused(snapshot.jobs, now, k)
  }

  function Reconciled(overlay: Overlay, snapshot: Option<Snapshot>, now: int): Overlay {
    if snapshot.None? then overlay
    else map k | k in overlay && !Reflects(snapshot.value, now, k, overlay[k]) :: overlay[k]
  }

  method ReconcileSourceCrawlOverlay(overlay: Overlay, snapshot: Option<Snapshot>, now: int) returns (r: Overlay)
    ensures r == Reconciled(overlay, snapshot, now)
  {
    if snapshot.None? { return overlay; }
    var reflected := DeriveSourceCrawlState(snapshot, map[], now);
    assert forall k :: k in reflected.paused <==> ServerPaused(snapshot.value.jobs, now, k);
    var entries := overlay;
    var sources := overlay.Keys;
    while sources != {}
      invariant sources <= overlay.Keys
      invariant forall k :: k in entries <==>
                              k in overlay && (k in sources || !Reflects(snapshot.value, now, k, overlay[k]))
      invariant forall k :: k in entries ==> entries[k] == overlay[k]
      decreases sources
    {
      var k :| k in sources;
      var entry := overlay[k];
      sources := sources - {k};
      if snapshot.value.requestStartedAtMs <= entry.completedAtMs { continue; }
      if entry.action == Recrawl {
        if exists j :: j in snapshot.value.jobs && Some(j.id) == entry.jobId { entries := entries - {k}; }
        continue;
      }
      if entry.action == Pause && k in reflected.paused { entries := entries - {k}; }
      if entry.action == Resume && k !in reflected.paused { entries := entries - {k}; }
    }
    r := entries;
  }

  predicate Drops(overlay: Overlay, snapshot: Option<Snapshot>, now: int, k: string) {
    k in overlay && k !in Reconciled(overlay, snapshot, now)
  }

  /** A queued job is active at any time; a processing one for ten minutes after it was last updated; no other is. */
  lemma ActiveForTenMinutes(job: Job, now: int)
    ensures IsActiveJob(job, now) <==>
              || job.status == Queued
              || (job.status == Processing && job.updatedAtMs.Some? && now < job.updatedAtMs.value + 600000)
  {}

  /** Source `k` has a job of the snapshot with this status. */
  predicate HasJob(snapshot: Snapshot, k: string, status: JobStatus) {
    exists j :: j in snapshot.jobs && j.sourceId == Some(k) && j.status == status
  }

  /** One of its jobs was updated within ten minutes and is processing. */
  predicate HasFreshJob(snapshot: Snapshot, now: int, k: string) {
    exists j :: j in snapshot.jobs && j.sourceId == Some(k) && j.status == Processing
                && j.updatedAtMs.Some? && now < j.updatedAtMs.value + 600000
  }

  /** The snapshot shows source `k` paused: it has a paused job, and none that is queued or fresh. */
  predicate ShowsPaused(snapshot: Snapshot, now: int, k: string) {
    k != "" && HasJob(snapshot, k, Paused) && !HasJob(snapshot, k, Queued) && !HasFreshJob(snapshot, now, k)
  }

  lemma ServerPausedReads(snapshot: Snapshot, now: int, k: string)
    ensures ServerActive(snapshot.jobs, now, k) <==> k != "" && (HasJob(snapshot, k, Queued) || HasFreshJob(snapshot, now, k))
    ensures ServerPaused(snapshot.jobs, now, k) <==> ShowsPaused(snapshot, now, k)
  {}

  /**
    Exactly which entries a snapshot requested after their action completed drops: a recrawl once its job is
    listed, a pause once the source is shown paused, a resume once it is not.
    */
  lemma DropsExactly(overlay: Overlay, snapshot: Option<Snapshot>, now: int, k: string)
    ensures Drops(overlay, snapshot, now, k) <==>
              && k in overlay && snapshot.Some? && overlay[k].completedAtMs < snapshot.value.requestStartedAtMs
              && (overlay[k].action == Recrawl ==> exists j :: j in snapshot.value.jobs && Some(j.id) == overlay[k].jobId)
              && (overlay[k].action == Pause ==> ShowsPaused(snapshot.value, now, k))
              && (overlay[k].action == Resume ==> !ShowsPaused(snapshot.value, now, k))
    ensures k in Reconciled(overlay, snapshot, now) ==> k in overlay && Reconciled(overlay, snapshot, now)[k] == overlay[k]
  {
    if snapshot.Some? { ServerPausedReads(snapshot.value, now, k); }
  }

  lemma ReconcilingIsIdempotent(overlay: Overlay, snapshot: Option<Snapshot>, now: int)
    ensures Reconciled(Reconciled(overlay, snapshot, now), snapshot, now) == Reconciled(overlay, snapshot, now)
  {
    var once := Reconciled(overlay, snapshot, now);
    assert forall k :: k in once ==> once[k] == overlay[k];
  }

  /**
    Reconciling changes what is presented only where the server took over: not for a source that keeps
    its entry or has none, not for a dropped pause; a dropped resume is not shown as paused; and an
    entry is dropped only by a snapshot requested strictly after its action completed.
    */
  lemma ReconcilingPresents(
    overlay: Overlay, snapshot: Option<Snapshot>, now: int, k: string, before: CrawlState, after: CrawlState)
    requires Presents(snapshot, overlay, now, before)
    requires Presents(snapshot, Reconciled(overlay, snapshot, now), now, after)
    ensures !Drops(overlay, snapshot, now, k) || overlay[k].action == Pause ==>
              (k in after.active <==> k in before.active) && (k in after.paused <==> k in before.paused)
    ensures Drops(overlay, snapshot, now, k) ==>
              && snapshot.Some? && overlay[k].completedAtMs < snapshot.value.requestStartedAtMs
              && (k in after.active <==> ServerActive(snapshot.value.jobs, now, k))
              && (k in after.paused <==> ServerPaused(snapshot.value.jobs, now, k))
    ensures Drops(overlay, snapshot, now, k) && overlay[k].action == Resume ==> k !in after.paused
    ensures Drops(overlay, snapshot, now, k) && overlay[k].action == Recrawl ==>
              exists j :: j in snapshot.value.jobs && Some(j.id) == overlay[k].jobId
  {
    var r := Reconciled(overlay, snapshot, now);
    assert k in r ==> r[k] == overlay[k];
  }

  /**
    Dropping an entry leaves what is presented of its source as it was if and only if the entry is a pause or
    the server has the source active.
    */
  lemma DroppingIsUnseen(
    overlay: Overlay, snapshot: Option<Snapshot>, now: int, k: string, before: CrawlState, after: CrawlState)
    requires Presents(snapshot, overlay, now, before) && Drops(overlay, snapshot, now, k)
    requires Presents(snapshot, Reconciled(overlay, snapshot, now), now, after)
    ensures (k in after.active <==> k in before.active) && (k in after.paused <==> k in before.paused)
            <==> overlay[k].action == Pause || ServerActive(Jobs(snapshot), now, k)
  {
    ReconcilingPresents(overlay, snapshot, now, k, before, after);
  }

  /** A dropped recrawl can turn a source from active to paused. */
  lemma DroppedRecrawlCanPause() returns (overlay: Overlay, snapshot: Snapshot, now: int)
    ensures Drops(overlay, Some(snapshot), now, "s") && overlay["s"].action == Recrawl
    ensures PresentedActive(Some(snapshot), overlay, now, "s")
    ensures PresentedPaused(Some(snapshot), Reconciled(overlay, Some(snapshot), now), now, "s")
  {
    var job := Job("j", Some("s"), Paused, None);
    overlay, snapshot, now := map["s" := Entry(Recrawl, 1, Some("j"))], Snapshot([job], 2), 2;
    assert job in snapshot.jobs && Some(job.id) == overlay["s"].jobId;
    assert Reflects(snapshot, now, "s", overlay["s"]);
  }

  /** A dropped resume can turn a source from active to neither. */
  lemma DroppedResumeCanBeIdle() returns (overlay: Overlay, snapshot: Snapshot, now: int)
    ensures Drops(overlay, Some(snapshot), now, "s") && overlay["s"].action == Resume
    ensures PresentedActive(Some(snapshot), overlay, now, "s")
    ensures var r := Reconciled(overlay, Some(snapshot), now);
            !PresentedActive(Some(snapshot), r, now, "s") && !PresentedPaused(Some(snapshot), r, now, "s")
  {
    overlay, snapshot, now := map["s" := Entry(Resume, 1, None)], Snapshot([], 2), 2;
    assert Reflects(snapshot, now, "s", overlay["s"]);
  }

  // ----- actions and polls in sequence -----

  datatype Step =
    | Act(sourceId: string, entry: Entry)
    | Withdraw(withdrawn: string)
    | Poll(snapshot: Option<Snapshot>, now: int)

  function Apply(overlay: Overlay, step: Step): Overlay {
    match step
    case Act(k, entry) => overlay[k := entry]
    case Withdraw(k) => overlay - {k}
    case Poll(snapshot, now) => Reconciled(overlay, snapshot, now)
  }

  function Run(overlay: Overlay, steps: seq<Step>): Overlay
    decreases |steps|
  {
    if steps == [] then overlay else Apply(Run(overlay, steps[..|steps| - 1]), steps[|steps| - 1])
  }

  /** An accepted action replaces its source's entry, a withdrawn one removes it; no other source's changes. */
  lemma ActionsReplace(overlay: Overlay, k: string, entry: Entry)
    ensures var acted, withdrawn := Apply(overlay, Act(k, entry)), Apply(overlay, Withdraw(k));
            && k in acted && acted[k] == entry && k !in withdrawn
            && forall j :: j != k ==>
                 && (j in acted <==> j in overlay) && (j in withdrawn <==> j in overlay)
                 && (j in overlay ==> acted[j] == overlay[j] && withdrawn[j] == overlay[j])
  {}

  /** Leaves the entry of `k`, made when an action completed at `t`, alone. */
  predicate Harmless(step: Step, k: string, t: int) {
    match step
    case Act(j, _) => j != k
    case Withdraw(j) => j != k
    case Poll(snapshot, _) => snapshot.Some? ==> snapshot.value.requestStartedAtMs <= t
  }

  /**
    Whatever other actions and polls follow, an accepted action is presented as long as no poll was
    requested after it completed: a request already in flight cannot erase it.
    */
  lemma {:induction false} ActionOutlivesEarlierRequests(
    overlay: Overlay, k: string, entry: Entry, steps: seq<Step>, snapshot: Option<Snapshot>, now: int)
    requires forall i :: 0 <= i < |steps| ==> Harmless(steps[i], k, entry.completedAtMs)
    ensures var r := Run(overlay[k := entry], steps);
            && k in r && r[k] == entry
            && (PresentedPaused(snapshot, r, now, k) <==> entry.action == Pause)
            && (PresentedActive(snapshot, r, now, k) <==> entry.action != Pause)
    decreases |steps|
  {
    if steps != [] {
      var n := |steps| - 1;
      ActionOutlivesEarlierRequests(overlay, k, entry, steps[..n], snapshot, now);
      assert Harmless(steps[n], k, entry.completedAtMs);
    }
  }
}
