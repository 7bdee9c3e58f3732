/**
  A conversation's activity timeline, reconciled from two reads: the detail fetch, which reads the
  whole timeline, and polls of a recent window.
  */
module ActivityTimeline {
  import opened Json
  import opened Wrappers
  import opened ActivityOrder

  // ----- entries as the values they were read from -----

  function StampJson(s: Stamp): Json {
    match s
    case At(ms) => Number(ms as real)
    case NoDate(text) => String(text)
  }

  function EntryJson(e: Entry): Json {
    Object(map["id" := String(e.id), "createdAt" := StampJson(e.createdAt), "body" := e.body])
  }

  lemma EntryJsonIsInjective(a: Entry, b: Entry)
    requires EntryJson(a) == EntryJson(b)
    ensures a == b
  {
    var x, y := EntryJson(a).fields, EntryJson(b).fields;
    assert x["id"] == y["id"] && x["createdAt"] == y["createdAt"] && x["body"] == y["body"];
  }

  predicate SameEntry(a: Entry, b: Entry) {
    SameJson(EntryJson(a), EntryJson(b))
  }

  /** No object in the entry has an empty object under `__proto__`. */
  predicate IsPlain(e: Entry) {
    !HasEmptyProto(e.body)
  }

  lemma PlainEntryJson(e: Entry)
    requires IsPlain(e)
    ensures !HasEmptyProto(EntryJson(e))
  {
    var fields := EntryJson(e).fields;
    forall k | k in fields ensures !HasEmptyProto(fields[k]) { assert k == "id" || k == "createdAt" || k == "body"; }
    assert PROTO !in fields;
  }

  /** The comparison of a held event with a new copy holds of equal ones, and of no others where the held one is plain. */
  lemma SameEntryIsEquality(a: Entry, b: Entry)
    ensures a == b ==> SameEntry(a, b)
    ensures IsPlain(a) ==> (SameEntry(a, b) <==> a == b)
  {
    SameJsonOfEqual(EntryJson(a));
    if SameEntry(a, b) && IsPlain(a) {
      PlainEntryJson(a);
      SameJsonIsEqual(EntryJson(a), EntryJson(b));
      EntryJsonIsInjective(a, b);
    }
  }

  // ----- a map from ids to entries, in insertion order -----

  ghost predicate UniqueIds(es: seq<Entry>) {
    forall i, j :: 0 <= i < j < |es| ==> es[i].id != es[j].id
  }

  function Lookup(es: seq<Entry>, id: string): (r: Option<Entry>)
    ensures r.Some? ==> r.value in es && r.value.id == id
    ensures r.None? ==> forall e :: e in es ==> e.id != id
  {
    if es == [] then None else if es[0].id == id then Some(es[0]) else Lookup(es[1..], id)
  }

  predicate HasId(es: seq<Entry>, id: string) {
    Lookup(es, id).Some?
  }

  /** Setting an id that is there replaces its entry in place; a new one goes last. */
  function Upsert(es: seq<Entry>, e: Entry): seq<Entry> {
    if es == [] then [e]
    else if es[0].id == e.id then [e] + es[1..]
    else [es[0]] + Upsert(es[1..], e)
  }

  lemma {:induction false} LookupUpsert(es: seq<Entry>, e: Entry, id: string)
    ensures Lookup(Upsert(es, e), id) == if id == e.id then Some(e) else Lookup(es, id)
    decreases |es|
  {
    if es != [] {
      LookupUpsert(es[1..], e, id);
      assert ([e] + es[1..])[1..] == es[1..];
      assert ([es[0]] + Upsert(es[1..], e))[1..] == Upsert(es[1..], e);
    }
  }

  lemma {:induction false} UpsertKeepsUnique(es: seq<Entry>, e: Entry)
    requires UniqueIds(es)
    ensures UniqueIds(Upsert(es, e))
    decreases |es|
  {
    if es != [] && es[0].id != e.id {
      UpsertKeepsUnique(es[1..], e);
      var r := Upsert(es[1..], e);
      forall x | x in r ensures x.id != es[0].id { UpsertMember(es[1..], e, x); }
    }
  }

  lemma {:induction false} UpsertMember(es: seq<Entry>, e: Entry, x: Entry)
    requires x in Upsert(es, e)
    ensures x == e || x in es
    decreases |es|
  {
    if es != [] && es[0].id != e.id && x != es[0] { UpsertMember(es[1..], e, x); }
  }

  lemma {:induction false} UpsertNew(es: seq<Entry>, e: Entry)
    requires !HasId(es, e.id)
    ensures Upsert(es, e) == es + [e]
    decreases |es|
  {
    if es != [] { UpsertNew(es[1..], e); }
  }

  /** With unique ids, looking an id up finds the entry that has it. */
  lemma LookupUnique(es: seq<Entry>, e: Entry)
    requires UniqueIds(es) && e in es
    ensures Lookup(es, e.id) == Some(e)
  {}

  lemma LookupPermutation(a: seq<Entry>, b: seq<Entry>, id: string)
    requires UniqueIds(a) && UniqueIds(b) && multiset(a) == multiset(b)
    ensures Lookup(a, id) == Lookup(b, id)
  {
    assert forall e :: e in a <==> e in multiset(a);
    assert forall e :: e in b <==> e in multiset(b);
    var x, y := Lookup(a, id), Lookup(b, id);
    if x.Some? { LookupUnique(b, x.value); }
  }

  lemma UniqueByCount(es: seq<Entry>)
    ensures UniqueIds(es) <==>
              forall e, f :: e in multiset(es) && f in multiset(es) && e.id == f.id ==> e == f && multiset(es)[e] == 1
  {
    if UniqueIds(es) {
      forall e | e in es ensures multiset(es)[e] == 1 { CountUnique(es, e); }
    } else {
      var i, j :| 0 <= i < j < |es| && es[i].id == es[j].id;
      CountTwice(es, i, j);
    }
  }

  lemma CountUnique(es: seq<Entry>, e: Entry)
    requires UniqueIds(es) && e in es
    ensures multiset(es)[e] == 1
  {
    var i :| 0 <= i < |es| && es[i] == e;
    assert es == es[..i] + [e] + es[i + 1..];
    assert e !in es[..i] && e !in es[i + 1..];
  }

  lemma CountTwice(es: seq<Entry>, i: nat, j: nat)
    requires i < j < |es|
    ensures es[i] == es[j] ==> multiset(es)[es[i]] >= 2
  {
    assert es == es[..i] + [es[i]] + es[i + 1..j] + [es[j]] + es[j + 1..];
  }

  lemma SortKeepsUnique(es: seq<Entry>)
    requires UniqueIds(es)
    ensures UniqueIds(Sort(es))
  {
    SortSorts(es);
    UniqueByCount(es);
    UniqueByCount(Sort(es));
  }

  // ----- a poll's read, folded into the tail -----

  /** What the tail keeps: entries in time order, each id once. */
  ghost predicate TailOk(tail: seq<Entry>) {
    Sorted(tail) && UniqueIds(tail)
  }

  function ById(es: seq<Entry>): seq<Entry> {
    if es == [] then [] else Upsert(ById(es[..|es| - 1]), es[|es| - 1])
  }

  datatype Folded = Folded(byId: seq<Entry>, changed: bool)

  function FoldEvent(f: Folded, e: Entry): Folded {
    var current := Lookup(f.byId, e.id);
    if current.None? || !SameEntry(current.value, e) then Folded(Upsert(f.byId, e), true) else f
  }

  function FoldRead(start: seq<Entry>, read: seq<Entry>): Folded {
    if read == [] then Folded(start, false)
    else FoldEvent(FoldRead(start, read[..|read| - 1]), read[|read| - 1])
  }

  function TailRead(held: seq<Entry>, read: seq<Entry>): seq<Entry> {
    var f := FoldRead(ById(held), read);
    if f.changed then Sort(f.byId) else held
  }

  method WithTailRead(held: seq<Entry>, read: seq<Entry>) returns (r: seq<Entry>)
    ensures r == TailRead(held, read)
  {
    var byId: seq<Entry> := [];
    for i := 0 to |held|
      invariant byId == ById(held[..i])
    {
      assert held[..i + 1][..i] == held[..i];
      byId := Upsert(byId, held[i]);
    }
    assert held[..|held|] == held;
    var changed := false;
    for i := 0 to |read|
      invariant Folded(byId, changed) == FoldRead(ById(held), read[..i])
    {
      assert read[..i + 1][..i] == read[..i];
      var current := Lookup(byId, read[i].id);
      if current.None? || !SameEntry(current.value, read[i]) {
        byId := Upsert(byId, read[i]);
        changed := true;
      }
    }
    assert read[..|read|] == read;
    r := if changed then Sort(byId) else held;
  }

  lemma {:induction false} ByIdOfUnique(es: seq<Entry>)
    requires UniqueIds(es)
    ensures ById(es) == es
    decreases |es|
  {
    if es != [] {
      var n := |es| - 1;
      ByIdOfUnique(es[..n]);
      assert !HasId(es[..n], es[n].id);
      UpsertNew(es[..n], es[n]);
    }
  }

  /** The copy of an id that is read last: in the poll, or else the one held. */
  function LatestCopy(held: seq<Entry>, read: seq<Entry>, id: string): Option<Entry> {
    if read == [] then Lookup(held, id)
    else if read[|read| - 1].id == id then Some(read[|read| - 1])
    else LatestCopy(held, read[..|read| - 1], id)
  }

  /** Every copy of the event `id` is plain. */
  predicate ArePlain(es: seq<Entry>, id: string) {
    forall e :: e in es && e.id == id ==> IsPlain(e)
  }

  /** The copy that a poll with unique ids leaves: the new one, unless the held one reads the same. */
  function CopyKept(held: seq<Entry>, read: seq<Entry>, id: string): Option<Entry> {
    var ours, theirs := Lookup(held, id), Lookup(read, id);
    if theirs.None? || (ours.Some? && SameEntry(ours.value, theirs.value)) then ours else theirs
  }

  lemma {:induction false} FoldReadLooksUp(start: seq<Entry>, read: seq<Entry>, id: string)
    requires UniqueIds(start)
    ensures var f := FoldRead(start, read);
            && UniqueIds(f.byId) && (!f.changed ==> f.byId == start)
            && (HasId(f.byId, id) <==> LatestCopy(start, read, id).Some?)
            && (ArePlain(start, id) && ArePlain(read, id) ==> Lookup(f.byId, id) == LatestCopy(start, read, id))
    decreases |read|
  {
    if read != [] {
      var n := |read| - 1;
      var f, e := FoldRead(start, read[..n]), read[n];
      FoldReadLooksUp(start, read[..n], id);
      LookupUpsert(f.byId, e, id);
      UpsertKeepsUnique(f.byId, e);
      var current := Lookup(f.byId, e.id);
      if current.Some? {
        SameEntryIsEquality(current.value, e);
        if id == e.id && ArePlain(start, id) && ArePlain(read, id) { LatestCopyExists(start, read[..n], id); }
      }
    }
  }

  lemma {:induction false} LookupLast(es: seq<Entry>, e: Entry, id: string)
    ensures Lookup(es + [e], id)
            == if HasId(es, id) then Lookup(es, id) else if e.id == id then Some(e) else None
    decreases |es|
  {
    if es == [] {
      assert es + [e] == [e] && [e][1..] == [];
    } else {
      assert (es + [e])[0] == es[0] && (es + [e])[1..] == es[1..] + [e];
      LookupLast(es[1..], e, id);
    }
  }

  /** With unique ids the last entry is the only one of its id. */
  lemma LookupInUnique(es: seq<Entry>, e: Entry, id: string)
    requires UniqueIds(es + [e])
    ensures UniqueIds(es)
    ensures Lookup(es + [e], id) == if e.id == id then Some(e) else Lookup(es, id)
    ensures e.id == id ==> Lookup(es, id) == None
  {
    OthersDiffer(es, e);
    LookupLast(es, e, id);
  }

  lemma OthersDiffer(es: seq<Entry>, e: Entry)
    requires UniqueIds(es + [e])
    ensures UniqueIds(es) && forall x :: x in es ==> x.id != e.id
  {
    var all := es + [e];
    assert all[|es|] == e && forall i :: 0 <= i < |es| ==> all[i] == es[i];
  }

  lemma FoldEventKeeps(f: Folded, e: Entry, id: string)
    ensures Lookup(FoldEvent(f, e).byId, id)
            == if id == e.id && !(HasId(f.byId, id) && SameEntry(Lookup(f.byId, id).value, e)) then Some(e)
               else Lookup(f.byId, id)
  {
    LookupUpsert(f.byId, e, id);
  }

  lemma {:induction false} FoldReadKeeps(start: seq<Entry>, read: seq<Entry>, id: string)
    requires UniqueIds(read)
    ensures Lookup(FoldRead(start, read).byId, id) == CopyKept(start, read, id)
    decreases |read|
  {
    if read != [] {
      var n := |read| - 1;
      assert read == read[..n] + [read[n]];
      LookupInUnique(read[..n], read[n], id);
      FoldReadKeeps(start, read[..n], id);
      FoldEventKeeps(FoldRead(start, read[..n]), read[n], id);
    }
  }

  lemma {:induction false} LatestOfUnique(held: seq<Entry>, read: seq<Entry>, id: string)
    requires UniqueIds(read)
    ensures LatestCopy(held, read, id) == if HasId(read, id) then Lookup(read, id) else Lookup(held, id)
    decreases |read|
  {
    if read != [] {
      var n := |read| - 1;
      assert read == read[..n] + [read[n]];
      LookupInUnique(read[..n], read[n], id);
      LatestOfUnique(held, read[..n], id);
    }
  }

  /**
    Folding a poll in keeps the tail in order with unique ids. It holds the ids held before and the ids read,
    and of each id the copy read last where all copies of it are plain. Of a poll with unique ids it holds
    each new copy, unless the held one reads the same.
    */
  lemma TailReadHolds(held: seq<Entry>, read: seq<Entry>, id: string)
    requires TailOk(held)
    ensures TailOk(TailRead(held, read))
    ensures HasId(TailRead(held, read), id) <==> LatestCopy(held, read, id).Some?
    ensures ArePlain(held, id) && ArePlain(read, id) ==> Lookup(TailRead(held, read), id) == LatestCopy(held, read, id)
    ensures UniqueIds(read) ==> Lookup(TailRead(held, read), id) == CopyKept(held, read, id)
  {
    ByIdOfUnique(held);
    FoldReadLooksUp(held, read, id);
    if UniqueIds(read) { FoldReadKeeps(held, read, id); }
    var byId := FoldRead(held, read).byId;
    SortSorts(byId);
    SortKeepsUnique(byId);
    LookupPermutation(Sort(byId), byId, id);
  }

  /** Polls always bring the copy read last of an event if and only if no copy of it is held or the held one is plain. */
  lemma LatestCopyIsHeld(held: seq<Entry>, id: string)
    requires TailOk(held)
    ensures (forall read :: UniqueIds(read) ==> Lookup(TailRead(held, read), id) == LatestCopy(held, read, id))
            <==> (HasId(held, id) ==> IsPlain(Lookup(held, id).value))
  {
    if HasId(held, id) && !IsPlain(Lookup(held, id).value) {
      var read := ConfusingRead(held, id);
      assert !(UniqueIds(read) ==> Lookup(TailRead(held, read), id) == LatestCopy(held, read, id));
    } else {
      forall read | UniqueIds(read) ensures Lookup(TailRead(held, read), id) == LatestCopy(held, read, id) {
        PlainCopyIsReplaced(held, read, id);
      }
    }
  }

  lemma PlainCopyIsReplaced(held: seq<Entry>, read: seq<Entry>, id: string)
    requires TailOk(held) && UniqueIds(read) && (HasId(held, id) ==> IsPlain(Lookup(held, id).value))
    ensures Lookup(TailRead(held, read), id) == LatestCopy(held, read, id)
  {
    TailReadHolds(held, read, id);
    LatestOfUnique(held, read, id);
    if HasId(held, id) && HasId(read, id) { SameEntryIsEquality(Lookup(held, id).value, Lookup(read, id).value); }
  }

  /** A poll that reads such an event differently, and whose copy is not taken. */
  lemma ConfusingRead(held: seq<Entry>, id: string) returns (read: seq<Entry>)
    requires TailOk(held) && HasId(held, id) && !IsPlain(Lookup(held, id).value)
    ensures UniqueIds(read) && Lookup(TailRead(held, read), id) != LatestCopy(held, read, id)
  {
    var e := Lookup(held, id).value;
    var body := EmptyProtoConfuses(e.body);
    var copy := Entry(id, e.createdAt, body);
    read := [copy];
    ConfusedEntry(e, copy);
    TailReadHolds(held, read, id);
    LatestOfUnique(held, read, id);
  }

  /** The shortest of them, on a tail of one event. */
  lemma ConfusedCopyStays(id: string, at: Stamp) returns (held: Entry, read: Entry)
    ensures held.id == read.id == id && held.createdAt == read.createdAt == at && held.body != read.body
    ensures TailRead([held], [read]) == [held]
  {
    held, read := Entry(id, at, Object(map[PROTO := EMPTY])), Entry(id, at, Object(map["x" := Number(1.0)]));
    DifferentValuesCanReadTheSame();
    ConfusedEntry(held, read);
    assert [held][..0] == [] && [read][..0] == [];
    assert ById([held]) == [held];
    assert FoldRead([held], [read]) == FoldEvent(FoldRead([held], []), read) == Folded([held], false);
  }

  lemma ConfusedEntry(a: Entry, b: Entry)
    requires a.id == b.id && a.createdAt == b.createdAt && SameJson(a.body, b.body)
    ensures SameEntry(a, b)
  {
    var x, y := EntryJson(a).fields, EntryJson(b).fields;
    assert x.Keys == y.Keys;
    forall k | k in x ensures SameJson(x[k], y[k]) {
      if k == "body" { assert x[k] == a.body && y[k] == b.body; } else { SameJsonOfEqual(x[k]); }
    }
  }

  lemma {:induction false} LatestCopyExists(held: seq<Entry>, read: seq<Entry>, id: string)
    ensures LatestCopy(held, read, id).Some? <==> HasId(held, id) || exists e :: e in read && e.id == id
    ensures var c := LatestCopy(held, read, id); c.Some? ==> c.value.id == id && (c.value in held || c.value in read)
    decreases |read|
  {
    if read != [] {
      LatestCopyExists(held, read[..|read| - 1], id);
      assert read == read[..|read| - 1] + [read[|read| - 1]];
    }
  }

  function IdsOf(es: seq<Entry>): (r: seq<string>)
    ensures |r| == |es| && forall i :: 0 <= i < |r| ==> r[i] == es[i].id
  {
    seq(|es|, i requires 0 <= i < |es| => es[i].id)
  }

  lemma {:induction false} UpsertHeld(es: seq<Entry>, e: Entry)
    requires HasId(es, e.id)
    ensures IdsOf(Upsert(es, e)) == IdsOf(es)
    decreases |es|
  {
    if es[0].id != e.id {
      UpsertHeld(es[1..], e);
      assert Upsert(es, e)[1..] == Upsert(es[1..], e);
      forall i | 0 <= i < |es| ensures Upsert(es, e)[i].id == es[i].id {
        if i > 0 { assert IdsOf(Upsert(es[1..], e))[i - 1] == IdsOf(es[1..])[i - 1]; }
      }
    }
  }

  /** Before sorting, events keep their places: a new copy takes that of the old one, and a new event goes last. */
  lemma {:induction false} FoldReadKeepsPlaces(start: seq<Entry>, read: seq<Entry>)
    ensures var before := if read == [] then start else FoldRead(start, read[..|read| - 1]).byId;
            var after := FoldRead(start, read).byId;
            && IdsOf(before) <= IdsOf(after) && |after| <= |before| + 1
            && (|after| > |before| ==> after[|before|] == read[|read| - 1])
  {
    if read != [] {
      var f, e := FoldRead(start, read[..|read| - 1]), read[|read| - 1];
      if HasId(f.byId, e.id) { UpsertHeld(f.byId, e); } else { UpsertNew(f.byId, e); }
    }
  }

  // ----- what a detail read covers -----

  function MaxTime(detail: seq<Entry>): (t: Time)
    requires detail != []
    ensures forall e :: e in detail ==> !Less(t, TimeOfEntry(e))
    ensures exists e :: e in detail && TimeOfEntry(e) == t
  {
    var last := TimeOfEntry(detail[|detail| - 1]);
    if |detail| == 1 then last
    else
      var t := MaxTime(detail[..|detail| - 1]);
      assert detail == detail[..|detail| - 1] + [detail[|detail| - 1]];
      if Less(t, last) then last else t
  }

  function LaterThan(t: Time): Entry -> bool {
    (e: Entry) => Less(t, TimeOfEntry(e))
  }

  function WithoutCoveredBy(held: seq<Entry>, detail: seq<Entry>): seq<Entry> {
    if detail == [] then held else Where(held, LaterThan(MaxTime(detail)))
  }

  /** `e` is not later than the newest event the detail read holds. */
  ghost predicate Covers(detail: seq<Entry>, e: Entry) {
    exists d :: d in detail && !Less(TimeOfEntry(d), TimeOfEntry(e))
  }

  lemma {:induction false} WhereUnique(es: seq<Entry>, wanted: Entry -> bool)
    requires UniqueIds(es)
    ensures UniqueIds(Where(es, wanted))
    decreases |es|
  {
    if es != [] {
      var n := |es| - 1;
      WhereUnique(es[..n], wanted);
      WhereMembers(es[..n], wanted);
      forall x | x in Where(es[..n], wanted) ensures x.id != es[n].id { assert x in es[..n]; }
    }
  }

  lemma NotCovered(held: seq<Entry>, detail: seq<Entry>)
    requires TailOk(held)
    ensures TailOk(WithoutCoveredBy(held, detail))
    ensures forall e :: e in WithoutCoveredBy(held, detail) <==> e in held && !Covers(detail, e)
  {
    if detail != [] {
      var t := MaxTime(detail);
      WhereSorted(held, LaterThan(t));
      WhereUnique(held, LaterThan(t));
      WhereMembers(held, LaterThan(t));
      forall e ensures LaterThan(t)(e) <==> !Covers(detail, e) {
        var d :| d in detail && TimeOfEntry(d) == t;
      }
    }
  }

  // ----- the merged timeline -----

  function NotIn(detail: seq<Entry>): Entry -> bool {
    (e: Entry) => !HasId(detail, e.id)
  }

  function MergeActivity(detail: Option<Read>, tail: seq<Entry>): seq<Entry> {
    var events := if detail.Some? then detail.value.events else [];
    Sort(events + Where(tail, NotIn(events)))
  }

  /**
    The merged timeline is in time order; it holds every event of the detail read, and of the others
    exactly the tail's; with unique ids on both sides its ids are unique.
    */
  lemma MergedTimeline(detail: Option<Read>, tail: seq<Entry>)
    ensures var events := if detail.Some? then detail.value.events else []; var merged := MergeActivity(detail, tail);
            && Sorted(merged)
            && (forall e :: e in merged <==> e in events || (e in tail && !HasId(events, e.id)))
            && (UniqueIds(events) && UniqueIds(tail) ==> UniqueIds(merged))
  {
    var events := if detail.Some? then detail.value.events else [];
    var others := Where(tail, NotIn(events));
    var all := events + others;
    WhereMembers(tail, NotIn(events));
    SortSorts(all);
    forall e ensures e in Sort(all) <==> e in events || e in others {
      assert e in Sort(all) <==> e in multiset(all);
    }
    if UniqueIds(events) && UniqueIds(tail) {
      WhereUnique(tail, NotIn(events));
      forall i, j | 0 <= i < |events| && 0 <= j < |others| ensures events[i].id != others[j].id {
        assert others[j] in others && events[i] in events;
      }
      assert UniqueIds(all);
      SortKeepsUnique(all);
    }
  }

  /** Events of one time: the detail read's in its order, and then the tail's others in theirs. */
  lemma MergedOrder(detail: Option<Read>, tail: seq<Entry>, t: Time)
    ensures var events := if detail.Some? then detail.value.events else [];
            Where(MergeActivity(detail, tail), HasTime(t))
            == Where(events, HasTime(t)) + Where(tail, IsOther(events, t))
  {
    var events := if detail.Some? then detail.value.events else [];
    SortIsStable(events + Where(tail, NotIn(events)), t);
    WhereConcat(events, Where(tail, NotIn(events)), HasTime(t));
    WhereTwice(tail, events, t);
  }

  /** Of time `t`, and with an id the detail read does not have. */
  function IsOther(events: seq<Entry>, t: Time): Entry -> bool {
    (e: Entry) => TimeOfEntry(e) == t && forall d :: d in events ==> d.id != e.id
  }

  lemma {:induction false} WhereTwice(tail: seq<Entry>, events: seq<Entry>, t: Time)
    ensures Where(Where(tail, NotIn(events)), HasTime(t)) == Where(tail, IsOther(events, t))
    decreases |tail|
  {
    if tail != [] {
      var n := |tail| - 1;
      WhereTwice(tail[..n], events, t);
      NotInReads(events, tail[n]);
      if NotIn(events)(tail[n]) {
        WhereLast(Where(tail[..n], NotIn(events)), tail[n], HasTime(t));
      } else {
        assert Where(tail[..n], NotIn(events)) + [] == Where(tail[..n], NotIn(events));
        assert Where(tail[..n], IsOther(events, t)) + [] == Where(tail[..n], IsOther(events, t));
      }
    }
  }

  lemma NotInReads(events: seq<Entry>, e: Entry)
    ensures NotIn(events)(e) <==> forall d :: d in events ==> d.id != e.id
  {}

  // ----- reconciling reads -----

  /** A read as the renderer sees it: `ref` is the identity of the array. */
  datatype Read = Read(ref: nat, events: seq<Entry>)

  datatype Reads = Reads(conversationId: Option<string>, detail: Option<Read>, poll: Option<Read>)

  datatype State = State(conversationId: Option<string>, detail: Option<Read>, poll: Option<Read>, tail: seq<Entry>)

  function Initial(conversationId: Option<string>): State {
    State(conversationId, None, None, [])
  }

  function Reconcile(s: State, seen: Reads): State {
    var next := if s.conversationId == seen.conversationId then s else Initial(seen.conversationId);
    var next := if seen.detail != next.detail then
                  next.(detail := seen.detail,
                        tail := if seen.detail.Some? then WithoutCoveredBy(next.tail, seen.detail.value.events)
                                else next.tail)
                else next;
    if seen.poll != next.poll then
      next.(poll := seen.poll, tail := if seen.poll.Some? then TailRead(next.tail, seen.poll.value.events) else [])
    else next
  }

  /** Reads that were seen change nothing, so updating the state while rendering settles at once. */
  lemma ReconcileSettles(s: State, seen: Reads)
    ensures Reconcile(Reconcile(s, seen), seen) == Reconcile(s, seen)
    ensures var r := Reconcile(s, seen);
            r.conversationId == seen.conversationId && r.detail == seen.detail && r.poll == seen.poll
  {}

  /** The tail as the detail read of this render leaves it. */
  function Uncovered(s: State, seen: Reads): seq<Entry> {
    if s.conversationId != seen.conversationId then []
    else if seen.detail != s.detail && seen.detail.Some? then WithoutCoveredBy(s.tail, seen.detail.value.events)
    else s.tail
  }

  function NewPoll(s: State, seen: Reads): bool {
    seen.poll != (if s.conversationId == seen.conversationId then s.poll else None)
  }

  lemma ReconciledTail(s: State, seen: Reads)
    ensures Reconcile(s, seen).tail
            == if !NewPoll(s, seen) then Uncovered(s, seen)
               else if seen.poll.Some? then TailRead(Uncovered(s, seen), seen.poll.value.events) else []
  {
    if s.conversationId != seen.conversationId && seen.detail.Some? {
      assert WithoutCoveredBy([], seen.detail.value.events) == [];
    }
  }

  lemma UncoveredOk(s: State, seen: Reads)
    requires TailOk(s.tail)
    ensures TailOk(Uncovered(s, seen))
    ensures forall e :: e in Uncovered(s, seen) <==>
                          e in s.tail && s.conversationId == seen.conversationId
                          && !(seen.detail != s.detail && seen.detail.Some? && Covers(seen.detail.value.events, e))
  {
    if seen.detail.Some? { NotCovered(s.tail, seen.detail.value.events); }
  }

  /** `id` is one of the events this render's poll brings. */
  ghost predicate Brought(s: State, seen: Reads, id: string) {
    NewPoll(s, seen) && seen.poll.Some? && exists e :: e in seen.poll.value.events && e.id == id
  }

  /** This render lets go of the event `id`. */
  ghost predicate LetsGo(s: State, seen: Reads, id: string) {
    || s.conversationId != seen.conversationId
    || (seen.poll.None? && s.poll.Some?)
    || (seen.detail != s.detail && seen.detail.Some?
        && exists e :: e in s.tail && e.id == id && Covers(seen.detail.value.events, e))
  }

  /** One render, exactly: the tail holds what the poll brings and what it held and does not let go of. */
  lemma ReconcileStep(s: State, seen: Reads, id: string)
    requires TailOk(s.tail)
    ensures TailOk(Reconcile(s, seen).tail)
    ensures HasId(Reconcile(s, seen).tail, id)
            <==> Brought(s, seen, id) || (HasId(s.tail, id) && !LetsGo(s, seen, id))
  {
    ReconciledTail(s, seen);
    UncoveredOk(s, seen);
    var kept := Uncovered(s, seen);
    assert HasId(kept, id) <==> exists e :: e in kept && e.id == id;
    if HasId(s.tail, id) {
      var held := Lookup(s.tail, id).value;
      forall e | e in s.tail && e.id == id ensures e == held { LookupUnique(s.tail, e); }
    }
    if NewPoll(s, seen) && seen.poll.Some? {
      TailReadHolds(kept, seen.poll.value.events, id);
      LatestCopyExists(kept, seen.poll.value.events, id);
    }
  }

  // ----- whole runs -----

  ghost predicate IsRun(states: seq<State>, seen: seq<Reads>) {
    && |states| == |seen| + 1 && states[0] == Initial(states[0].conversationId)
    && forall i :: 0 <= i < |seen| ==> states[i + 1] == Reconcile(states[i], seen[i])
  }

  lemma {:induction false} TailStaysOk(states: seq<State>, seen: seq<Reads>, n: nat)
    requires IsRun(states, seen) && n <= |seen|
    ensures TailOk(states[n].tail)
    decreases n
  {
    if n > 0 {
      TailStaysOk(states, seen, n - 1);
      ReconcileStep(states[n - 1], seen[n - 1], "");
    }
  }

  ghost predicate Shown(s: State, id: string) {
    exists e :: e in MergeActivity(s.detail, s.tail) && e.id == id
  }

  lemma TailIsShown(s: State, id: string)
    requires HasId(s.tail, id)
    ensures Shown(s, id)
  {
    MergedTimeline(s.detail, s.tail);
    var e := Lookup(s.tail, id).value;
    var events := if s.detail.Some? then s.detail.value.events else [];
    if HasId(events, id) {
      assert Lookup(events, id).value in MergeActivity(s.detail, s.tail);
    } else {
      assert e in MergeActivity(s.detail, s.tail);
    }
  }

  lemma StaysInOneRender(s: State, seen: Reads, id: string)
    requires TailOk(s.tail) && (Brought(s, seen, id) || (HasId(s.tail, id) && !LetsGo(s, seen, id)))
    ensures HasId(Reconcile(s, seen).tail, id) && Shown(Reconcile(s, seen), id)
  {
    ReconcileStep(s, seen, id);
    TailIsShown(Reconcile(s, seen), id);
  }

  /**
    In every run from an empty timeline: an event that a poll brought at render `first` is in the merged timeline
    at every later render up to the first that lets it go.
    */
  lemma {:induction false} BroughtEventStays(states: seq<State>, seen: seq<Reads>, first: nat, last: nat, id: string)
    requires IsRun(states, seen) && first < last <= |seen|
    requires Brought(states[first], seen[first], id)
    requires forall i :: first < i < last ==> !LetsGo(states[i], seen[i], id)
    ensures HasId(states[last].tail, id) && Shown(states[last], id)
    decreases last
  {
    var n := last - 1;
    TailStaysOk(states, seen, n);
    if first < n { BroughtEventStays(states, seen, first, n, id); }
    assert states[n + 1] == Reconcile(states[n], seen[n]);
    StaysInOneRender(states[n], seen[n], id);
  }
}
