/**
  The coordinator as the class it is: entries are objects that are updated in place and compared by
  identity, and the cache's notifications re-enter the coordinator. `model` is the abstract state; every
  method is proved to take it where the function of the same operation does.
  */
module QueryInvalidationCoordinator {
  import opened QueryInvalidation
  import Runs = QueryInvalidationRuns

  class QueryWork {
    ghost const id: nat
    var dirty: bool
    var invalidating: bool

    constructor (ghost id: nat)
      ensures this.id == id && !dirty && !invalidating
    {
      this.id := id;
      dirty, invalidating := false, false;
    }
  }

  /** The query cache, as far as the coordinator sees it. */
  class QueryCache {
    const answers: Environment
    var cache: seq<QueryHash>
    var queries: map<QueryHash, Query>
    var callCount: nat

    constructor (answers: Environment)
      ensures this.answers == answers && cache == [] && queries == map[] && callCount == 0
    {
      this.answers := answers;
      cache, queries, callCount := [], map[], 0;
    }
  }

  class Coordinator {
    const client: QueryCache
    var workByHash: map<QueryHash, QueryWork>
    var subscribed: bool
    var disposed: bool
    var visible: bool
    ghost var model: State
    /** Every entry made so far, whether it is still in the map or not. */
    ghost var entries: set<QueryWork>

    ghost predicate Valid()
      reads this, client, entries
    {
      && visible == model.visible && disposed == model.disposed && subscribed == model.subscribed
      && client.cache == model.cache && client.queries == model.queries
      && client.callCount == |model.calls|
      && EntriesOk()
      && workByHash.Keys == model.work.Keys
      && forall h :: h in workByHash ==> workByHash[h] in entries && Shows(workByHash[h], model.work[h])
    }

    ghost predicate Shows(w: QueryWork, work: Work)
      reads w
    {
      work == Work(w.id, w.dirty, w.invalidating)
    }

    ghost predicate EntriesOk()
      reads this
    {
      && (forall w :: w in entries ==> w.id < model.nextId)
      && (forall w, v :: w in entries && v in entries && w.id == v.id ==> w == v)
      && (forall h, k :: h in workByHash && k in workByHash && h != k ==> workByHash[h] != workByHash[k])
    }

    constructor (client: QueryCache)
      requires client.cache == [] && client.queries == map[] && client.callCount == 0
      ensures Valid() && model == INITIAL && this.client == client && entries == {}
    {
      this.client := client;
      workByHash, subscribed, disposed, visible := map[], false, false, true;
      model, entries := INITIAL, {};
    }

    method Subscribe()
      requires Valid()
      modifies this
      ensures Valid() && entries == old(entries)
      ensures model == Runs.Apply(client.answers, old(model), Runs.Subscribe)
    {
      subscribed := true;
      model := model.(subscribed := true);
    }

    /** StrictMode may deactivate and reactivate the same coordinator. */
    method Deactivate()
      requires Valid()
      modifies this
      ensures Valid() && entries == old(entries)
      ensures model == Runs.Apply(client.answers, old(model), Runs.Deactivate)
    {
      subscribed := false;
      workByHash := map[];
      model := Runs.Clear(model);
    }

    method Dispose()
      requires Valid()
      modifies this
      ensures Valid() && entries == old(entries)
      ensures model == Runs.Apply(client.answers, old(model), Runs.Dispose)
    {
      if disposed { return; }
      disposed := true;
      model := model.(disposed := true);
      Deactivate();
    }

    method Process(e: Runs.Invalidation)
      requires Valid()
      modifies this, client, entries
      ensures Valid() && old(entries) <= entries && fresh(entries - old(entries))
      ensures model == Runs.Apply(client.answers, old(model), Runs.Process(e))
    {
      if disposed { return; }
      if e.Visibility? {
        visible := e.visible;
        model := model.(visible := e.visible);
        return;
      }
      if !visible { return; }
      var active := ActiveIn(client.queries, client.cache);
      var wanted := if e.Invalidate? then Runs.Matching(active, e.matched) else active;
      for i := 0 to |wanted|
        invariant Valid() && old(entries) <= entries && fresh(entries - old(entries))
        invariant Runs.RequestEach(client.answers, model, wanted[i..])
                  == Runs.RequestEach(client.answers, old(model), wanted)
      {
        assert wanted[i..][1..] == wanted[i + 1..];
        RequestReconciliation(wanted[i]);
      }
    }

    method ReconcileSettledQueries()
      requires Valid()
      modifies this, client, entries
      ensures Valid() && old(entries) <= entries && fresh(entries - old(entries))
      ensures model == ReconcileSettled(client.answers, old(model))
      decreases |Pending(model)|, 1, |ActiveQueries(model)| + 1
    {
      if disposed || !visible { return; }
      var active := ActiveIn(client.queries, client.cache);
      for i := 0 to |active|
        invariant Valid() && old(entries) <= entries && fresh(entries - old(entries))
        invariant SettleEach(client.answers, model, active[i..])
                  == SettleEach(client.answers, old(model), active)
        invariant |Pending(model)| <= |Pending(old(model))|
      {
        assert active[i..][1..] == active[i + 1..];
        SettleQuery(active[i]);
      }
    }

    /** The body of the loop above. */
    method SettleQuery(h: QueryHash)
      requires Valid()
      modifies this, client, entries
      ensures Valid() && old(entries) <= entries && fresh(entries - old(entries))
      ensures model == if IsPending(old(model), h) && IsIdle(old(model), h)
                       then Request(client.answers, old(model), h) else old(model)
      ensures |Pending(model)| <= |Pending(old(model))|
      decreases |Pending(model)|, 1, 0
    {
      if h in workByHash && workByHash[h].dirty && !workByHash[h].invalidating
         && h in client.queries && client.queries[h].status == Idle
      {
        assert h in Pending(model);
        SettleMeasure(model, h);
        RequestReconciliation(h);
        RequestOwedIsQuiet(old(model), model, h);
        QuietShrinksPending(old(model), model);
      }
    }

    method FindOrAddWork(h: QueryHash) returns (work: QueryWork)
      requires Valid()
      modifies this
      ensures Valid() && old(entries) <= entries && fresh(entries - old(entries))
      ensures model == WithEntry(old(model), h)
      ensures h in workByHash && workByHash[h] == work
    {
      if h !in workByHash {
        work := new QueryWork(model.nextId);
        entries := entries + {work};
        workByHash := workByHash[h := work];
        model := WithEntry(model, h);
      } else {
        work := workByHash[h];
      }
    }

    method RequestReconciliation(h: QueryHash)
      requires Valid()
      modifies this, client, entries
      ensures Valid() && old(entries) <= entries && fresh(entries - old(entries))
      ensures model == Request(client.answers, old(model), h)
      decreases |Pending(model) - {h}| + 1, 0, 0
    {
      if !visible || disposed || !IsActive(client.queries, h) { return; }
      var called := MarkWork(h);
      if called {
        CallRemovesPending(old(model), h);
        InvalidateQueries(h, client.callCount - 1);
      }
    }

    /** Marks the entry of `h` dirty when a call has to wait, and as called for otherwise. */
    method MarkWork(h: QueryHash) returns (called: bool)
      requires Valid() && IsActive(client.queries, h)
      modifies this, client, entries
      ensures Valid() && old(entries) <= entries && fresh(entries - old(entries))
      ensures called == !MustWait(old(model), h)
      ensures model == if called then MarkCalled(old(model), h) else MarkDirty(old(model), h)
      ensures client.callCount == old(client.callCount) + if called then 1 else 0
    {
      var work := FindOrAddWork(h);
      if work.invalidating || client.queries[h].status == Fetching {
        SetFlags(h, work, true, work.invalidating);
        return false;
      }
      SetFlags(h, work, false, true);
      RecordCall(h);
      return true;
    }

    method SetFlags(h: QueryHash, work: QueryWork, dirty: bool, invalidating: bool)
      requires Valid() && h in workByHash && workByHash[h] == work
      modifies this`model, work
      ensures Valid()
      ensures model == old(model).(work := old(model).work[h := Work(work.id, dirty, invalidating)])
    {
      work.dirty, work.invalidating := dirty, invalidating;
      model := model.(work := model.work[h := Work(work.id, dirty, invalidating)]);
    }

    /** Bookkeeping of the model: the next call to the cache is for `h`'s entry. */
    method RecordCall(h: QueryHash)
      requires Valid() && h in workByHash
      modifies this`model, client`callCount
      ensures Valid() && client.callCount == old(client.callCount) + 1
      ensures model == old(model).(calls := old(model).calls + [h],
        outstanding := old(model).outstanding + multiset{Call(h, workByHash[h].id)})
    {
      client.callCount := client.callCount + 1;
      model := model.(calls := model.calls + [h],
        outstanding := model.outstanding + multiset{Call(h, workByHash[h].id)});
    }

    /** The cache's side of call number `n`; its promise settles later, through `Complete`. */
    method InvalidateQueries(h: QueryHash, n: nat)
      requires Valid() && Active(model, h) && Invalidating(model, h)
      modifies this, client, entries
      ensures Valid() && old(entries) <= entries && fresh(entries - old(entries))
      ensures model == RunCall(client.answers, old(model), h, client.answers(n))
      decreases |Pending(model)|, 4, 0
    {
      var answer := client.answers(n);
      FetchAfter(h, answer.before, answer.status);
      RaiseNotifications(answer.after);
    }

    method FetchAfter(h: QueryHash, n: nat, status: FetchStatus)
      requires Valid()
      modifies this, client, entries
      ensures Valid() && old(entries) <= entries && fresh(entries - old(entries))
      ensures model == StartFetch(Notifications(client.answers, old(model), n), h, status)
      ensures |Pending(model)| <= |Pending(old(model))|
      decreases |Pending(model)|, 3, n + 1
    {
      RaiseNotifications(n);
      ghost var s := model;
      QuietShrinksPending(old(model), s);
      SetFetchStatus(h, status);
      FetchKeepsPending(s, h, status);
    }

    method SetFetchStatus(h: QueryHash, status: FetchStatus)
      requires Valid()
      modifies this`model, client`queries
      ensures Valid() && model == StartFetch(old(model), h, status)
    {
      if h in client.queries { client.queries := client.queries[h := client.queries[h].(status := status)]; }
      model := StartFetch(model, h, status);
    }

    method RaiseNotifications(n: nat)
      requires Valid()
      modifies this, client, entries
      ensures Valid() && old(entries) <= entries && fresh(entries - old(entries))
      ensures model == Notifications(client.answers, old(model), n)
      decreases |Pending(model)|, 3, n
    {
      if n > 0 && subscribed {
        PruneInactiveWork();
        QuietShrinksPending(old(model), model);
        RaiseNotifications(n - 1);
      }
    }

    /** The cache listener. */
    method PruneInactiveWork()
      requires Valid()
      modifies this, client, entries
      ensures Valid() && old(entries) <= entries && fresh(entries - old(entries))
      ensures model == Prune(client.answers, old(model))
      decreases |Pending(model)|, 2, 0
    {
      if disposed { return; }
      ReconcileSettledQueries();
      DeleteInactive();
    }

    method DeleteInactive()
      requires Valid()
      modifies this
      ensures Valid() && entries == old(entries)
      ensures model == DropInactive(old(model))
    {
      var hashes := workByHash.Keys;
      while hashes != {}
        modifies `workByHash
        invariant workByHash.Keys == set h | h in old(workByHash) && (h in hashes || IsActive(client.queries, h))
        invariant forall h :: h in workByHash ==> workByHash[h] == old(workByHash)[h]
        decreases hashes
      {
        var h :| h in hashes;
        if !IsActive(client.queries, h) { workByHash := workByHash - {h}; }
        hashes := hashes - {h};
      }
      model := DropInactive(model);
    }

    /** The promise of the call made for `work` settles. */
    method Complete(h: QueryHash, work: QueryWork)
      requires Valid() && work in entries
      modifies this, client, entries
      ensures Valid() && old(entries) <= entries && fresh(entries - old(entries))
      ensures model == Runs.Apply(client.answers, old(model), Runs.Complete(Call(h, work.id)))
    {
      model := Runs.Settle(model, Call(h, work.id));
      FinishReconciliation(h, work);
    }

    method FinishReconciliation(h: QueryHash, work: QueryWork)
      requires Valid() && work in entries
      modifies this, client, entries
      ensures Valid() && old(entries) <= entries && fresh(entries - old(entries))
      ensures model == Runs.Finish(client.answers, old(model), Call(h, work.id))
    {
      if disposed || h !in workByHash || workByHash[h] != work { return; }
      SetFlags(h, work, work.dirty, false);
      assert model == Runs.MarkFinished(old(model), h);
      FollowUp(h, work);
    }

    method FollowUp(h: QueryHash, work: QueryWork)
      requires Valid() && h in workByHash && workByHash[h] == work
      modifies this, client, entries
      ensures Valid() && old(entries) <= entries && fresh(entries - old(entries))
      ensures model == Runs.Follow(client.answers, old(model), h)
    {
      if visible && work.dirty && IsActive(client.queries, h) {
        RequestReconciliation(h);
      } else if !work.dirty {
        DeleteWork(h);
      }
    }

    method DeleteWork(h: QueryHash)
      requires Valid()
      modifies this`workByHash, this`model
      ensures Valid() && model == old(model).(work := old(model).work - {h})
    {
      workByHash := workByHash - {h};
      model := model.(work := model.work - {h});
    }
  }
}
