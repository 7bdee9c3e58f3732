/** The bounded list of page entities that the copilot sees, and the registrations behind it. */
module EntityRegistry {
  import opened Text

  datatype Entity = Entity(kind: string, id: string, name: string, focused: bool)

  const MAX_ENTITIES := 30
  const MAX_FOCUSED := 3
  const MAX_NAME := 120

  /** Kinds are a closed list of names without a colon, so the text "kind:id" stands for the pair. */
  datatype Key = Key(kind: string, id: string)

  function KeyOf(e: Entity): Key {
    Key(e.kind, e.id)
  }

  function Normalized(e: Entity): Entity {
    var trimmed := Trim(e.name);
    var shown := if |trimmed| > MAX_NAME then trimmed[..MAX_NAME] else trimmed;
    e.(name := if shown == "" then e.id else shown)
  }

  function Where(list: seq<Entity>, wanted: Entity -> bool): seq<Entity> {
    if list == [] then [] else
    (if wanted(list[0]) then [list[0]] else []) + Where(list[1..], wanted)
  }

  function DemoteAll(list: seq<Entity>): (r: seq<Entity>)
    ensures |r| == |list| && forall i :: 0 <= i < |r| ==> r[i] == list[i].(focused := false)
  {
    seq(|list|, i requires 0 <= i < |list| => list[i].(focused := false))
  }

  function IsFocused(): Entity -> bool {
    (e: Entity) => e.focused
  }

  function HasOtherKey(key: Key): Entity -> bool {
    (e: Entity) => KeyOf(e) != key
  }

  function HasKeyOutside(keys: set<Key>): Entity -> bool {
    (e: Entity) => KeyOf(e) !in keys
  }

  function Keys(list: seq<Entity>): set<Key> {
    set e | e in list :: KeyOf(e)
  }

  function FirstUpTo(list: seq<Entity>, n: nat): seq<Entity> {
    if |list| <= n then list else list[..n]
  }

  function LastUpTo(list: seq<Entity>, n: nat): seq<Entity> {
    if |list| <= n then list else list[|list| - n..]
  }

  function Register(current: seq<Entity>, entity: Entity): seq<Entity> {
    Enter(current, Normalized(entity))
  }

  /** The list with `e`, in place of the entry of its key if there is one. */
  function Enter(current: seq<Entity>, e: Entity): seq<Entity> {
    Arranged(Where(current, HasOtherKey(KeyOf(e))) + [e])
  }

  /** Up to three focused entities first, then the latest of the others, none of them focused. */
  function Arranged(next: seq<Entity>): seq<Entity> {
    var focused := FirstUpTo(Where(next, IsFocused()), MAX_FOCUSED);
    var others := DemoteAll(Where(next, HasKeyOutside(Keys(focused))));
    FirstUpTo(focused + LastUpTo(others, MAX_ENTITIES - |focused|), MAX_ENTITIES)
  }

  function Unregister(current: seq<Entity>, key: Key): seq<Entity> {
    Where(current, HasOtherKey(key))
  }

  // ----- lists with unique keys -----

  ghost predicate UniqueKeys(list: seq<Entity>) {
    forall i, j :: 0 <= i < j < |list| ==> KeyOf(list[i]) != KeyOf(list[j])
  }

  lemma {:induction false} WhereFacts(list: seq<Entity>, wanted: Entity -> bool)
    ensures var r := Where(list, wanted);
            && |r| <= |list| && (forall e :: e in r <==> e in list && wanted(e))
            && (UniqueKeys(list) ==> UniqueKeys(r))
    decreases |list|
  {
    if list != [] {
      WhereFacts(list[1..], wanted);
      assert list == [list[0]] + list[1..];
      if UniqueKeys(list) {
        forall e | e in Where(list[1..], wanted) ensures KeyOf(e) != KeyOf(list[0]) { assert e in list[1..]; }
      }
    }
  }

  lemma {:induction false} WhereLast(list: seq<Entity>, e: Entity, wanted: Entity -> bool)
    ensures Where(list + [e], wanted) == Where(list, wanted) + if wanted(e) then [e] else []
    decreases |list|
  {
    if list == [] {
      assert [e][1..] == [] && list + [e] == [e];
    } else {
      WhereLast(list[1..], e, wanted);
      WhereNext(list[0], list[1..] + [e], wanted);
      assert [list[0]] + (list[1..] + [e]) == list + [e];
      Associates(if wanted(list[0]) then [list[0]] else [], Where(list[1..], wanted), if wanted(e) then [e] else []);
    }
  }

  lemma WhereNext(e: Entity, rest: seq<Entity>, wanted: Entity -> bool)
    ensures Where([e] + rest, wanted) == (if wanted(e) then [e] else []) + Where(rest, wanted)
  {
    assert ([e] + rest)[1..] == rest;
  }

  lemma Associates(a: seq<Entity>, b: seq<Entity>, c: seq<Entity>)
    ensures a + (b + c) == a + b + c
  {}

  ghost predicate FocusedFirst(list: seq<Entity>, n: nat) {
    n <= |list| && forall i :: 0 <= i < |list| ==> (list[i].focused <==> i < n)
  }

  /** What every registered list keeps. */
  ghost predicate ListOk(list: seq<Entity>) {
    && UniqueKeys(list) && |list| <= MAX_ENTITIES
    && |Where(list, IsFocused())| <= MAX_FOCUSED
  }

  lemma {:induction false} FocusedCount(list: seq<Entity>, n: nat)
    requires FocusedFirst(list, n)
    ensures |Where(list, IsFocused())| == n
    decreases |list|
  {
    if list != [] { FocusedCount(list[1..], if n == 0 then 0 else n - 1); }
  }

  /** Two entries are the same registration, the second perhaps no longer focused. */
  ghost predicate MayDemote(e: Entity, shown: Entity) {
    shown == e || shown == e.(focused := false)
  }

  /**
    One registration: the list stays within its bounds, shows the entity registered, and otherwise only
    entries it had, perhaps with the focus taken away.
    */
  lemma EnterKeepsListOk(current: seq<Entity>, e: Entity)
    requires ListOk(current)
    ensures var r := Enter(current, e);
            && ListOk(r)
            && (exists x :: x in r && MayDemote(e, x))
            && forall x :: x in r ==>
                  MayDemote(e, x) || (KeyOf(x) != KeyOf(e) && exists y :: y in current && MayDemote(y, x))
  {
    var kept := Where(current, HasOtherKey(KeyOf(e)));
    WhereFacts(current, HasOtherKey(KeyOf(e)));
    UniqueAppend(kept, e);
    RegisteredList(kept, e);
  }

  lemma NormalizedKey(entity: Entity)
    ensures KeyOf(Normalized(entity)) == KeyOf(entity)
  {}

  lemma UniqueAppend(list: seq<Entity>, e: Entity)
    requires UniqueKeys(list) && forall x :: x in list ==> KeyOf(x) != KeyOf(e)
    ensures UniqueKeys(list + [e])
  {}

  function FocusedPart(next: seq<Entity>): seq<Entity> {
    FirstUpTo(Where(next, IsFocused()), MAX_FOCUSED)
  }

  function RestPart(next: seq<Entity>): seq<Entity> {
    Where(next, HasKeyOutside(Keys(FocusedPart(next))))
  }

  /** The focused part and the rest are cut from the list without sharing a key. */
  lemma PartsFacts(next: seq<Entity>)
    requires UniqueKeys(next)
    ensures var f, r := FocusedPart(next), RestPart(next);
            && UniqueKeys(f) && UniqueKeys(r) && |f| <= MAX_FOCUSED
            && (forall x :: x in f ==> x in next && x.focused)
            && (forall x :: x in r ==> x in next && KeyOf(x) !in Keys(f))
  {
    var all := Where(next, IsFocused());
    WhereFacts(next, IsFocused());
    WhereFacts(next, HasKeyOutside(Keys(FocusedPart(next))));
    assert forall x :: x in FocusedPart(next) ==> x in all;
  }

  /** The parts as they are put together, all bounds being met. */
  lemma ArrangedIs(next: seq<Entity>)
    requires UniqueKeys(next)
    ensures var f := FocusedPart(next);
            Arranged(next) == f + LastUpTo(DemoteAll(RestPart(next)), MAX_ENTITIES - |f|)
  {
    var f := FocusedPart(next);
    ShortEnough(f, LastUpTo(DemoteAll(RestPart(next)), MAX_ENTITIES - |f|));
  }

  lemma ShortEnough(a: seq<Entity>, b: seq<Entity>)
    requires |a| + |b| <= MAX_ENTITIES
    ensures FirstUpTo(a + b, MAX_ENTITIES) == a + b
  {}

  /** The latest `n` of the rest, with the focus taken away. */
  function DemotedTail(rest: seq<Entity>, n: nat): seq<Entity> {
    LastUpTo(DemoteAll(rest), n)
  }

  /** The tail starts at `start` of the rest. */
  ghost predicate DemotesFrom(rest: seq<Entity>, start: nat, tail: seq<Entity>) {
    start + |tail| == |rest| && forall j :: 0 <= j < |tail| ==> tail[j] == rest[start + j].(focused := false)
  }

  lemma DemotedTailFacts(rest: seq<Entity>, n: nat) returns (start: nat)
    ensures var tail := DemotedTail(rest, n);
            DemotesFrom(rest, start, tail) && |tail| == if |rest| <= n then |rest| else n
  {
    start := if |rest| <= n then 0 else |rest| - n;
  }

  lemma DemotedMember(rest: seq<Entity>, n: nat, x: Entity)
    requires x in DemotedTail(rest, n)
    ensures exists e :: e in rest && MayDemote(e, x)
  {
    var tail := DemotedTail(rest, n);
    var start := DemotedTailFacts(rest, n);
    var j :| 0 <= j < |tail| && tail[j] == x;
    assert rest[start + j] in rest && MayDemote(rest[start + j], x);
  }

  function TailPart(next: seq<Entity>): seq<Entity>
    requires |FocusedPart(next)| <= MAX_FOCUSED
  {
    DemotedTail(RestPart(next), MAX_ENTITIES - |FocusedPart(next)|)
  }

  lemma ArrangedIsOk(next: seq<Entity>)
    requires UniqueKeys(next)
    ensures |FocusedPart(next)| <= MAX_FOCUSED && Arranged(next) == FocusedPart(next) + TailPart(next)
    ensures ListOk(Arranged(next))
  {
    PartsFacts(next);
    ArrangedIs(next);
    var f, rest, tail := FocusedPart(next), RestPart(next), TailPart(next);
    var start := DemotedTailFacts(rest, MAX_ENTITIES - |f|);
    ArrangedKeys(f, tail, rest, start);
    FocusedComeFirst(f, rest, start, tail);
    FocusedCount(f + tail, |f|);
  }

  lemma FocusedComeFirst(f: seq<Entity>, rest: seq<Entity>, start: nat, tail: seq<Entity>)
    requires (forall x :: x in f ==> x.focused) && DemotesFrom(rest, start, tail)
    ensures FocusedFirst(f + tail, |f|)
  {
    forall i | 0 <= i < |f| ensures f[i].focused { assert f[i] in f; }
  }

  lemma ArrangedMember(next: seq<Entity>, x: Entity)
    requires UniqueKeys(next) && x in Arranged(next)
    ensures exists e :: e in next && MayDemote(e, x)
  {
    PartsFacts(next);
    ArrangedIsOk(next);
    if x in FocusedPart(next) {
      assert x in next && MayDemote(x, x);
    } else {
      DemotedMember(RestPart(next), MAX_ENTITIES - |FocusedPart(next)|, x);
      var e :| e in RestPart(next) && MayDemote(e, x);
      assert e in next;
    }
  }

  lemma ArrangedKeys(f: seq<Entity>, tail: seq<Entity>, rest: seq<Entity>, start: nat)
    requires UniqueKeys(f) && UniqueKeys(rest) && DemotesFrom(rest, start, tail)
    requires forall x :: x in rest ==> KeyOf(x) !in Keys(f)
    ensures UniqueKeys(f + tail)
  {
    forall j | 0 <= j < |tail| ensures KeyOf(tail[j]) == KeyOf(rest[start + j]) && KeyOf(tail[j]) !in Keys(f) {
      assert rest[start + j] in rest;
    }
    forall i | 0 <= i < |f| ensures KeyOf(f[i]) in Keys(f) {}
  }

  lemma LastIsShown(kept: seq<Entity>, last: Entity)
    requires UniqueKeys(kept + [last])
    ensures exists x :: x in Arranged(kept + [last]) && MayDemote(last, x)
  {
    var next := kept + [last];
    PartsFacts(next);
    ArrangedIsOk(next);
    var f, rest, tail := FocusedPart(next), RestPart(next), TailPart(next);
    var start := DemotedTailFacts(rest, MAX_ENTITIES - |f|);
    if KeyOf(last) in Keys(f) {
      var x :| x in f && KeyOf(x) == KeyOf(last);
      SameKeySameEntity(next, x, last);
      assert x in f + tail && MayDemote(last, x);
    } else {
      WhereLast(kept, last, HasKeyOutside(Keys(f)));
      LastIsDemoted(f, rest, start, tail, last);
    }
  }

  lemma LastIsDemoted(f: seq<Entity>, rest: seq<Entity>, start: nat, tail: seq<Entity>, last: Entity)
    requires DemotesFrom(rest, start, tail) && tail != [] && rest[|rest| - 1] == last
    ensures exists x :: x in f + tail && MayDemote(last, x)
  {
    var x := tail[|tail| - 1];
    assert rest[start + (|tail| - 1)] == last;
    assert x in f + tail && MayDemote(last, x);
  }

  lemma RegisteredList(kept: seq<Entity>, last: Entity)
    requires UniqueKeys(kept + [last])
    ensures var r := Arranged(kept + [last]);
            && ListOk(r)
            && (exists x :: x in r && MayDemote(last, x))
            && forall x :: x in r ==> MayDemote(last, x) || exists e :: e in kept && MayDemote(e, x)
  {
    ArrangedIsOk(kept + [last]);
    LastIsShown(kept, last);
    forall x | x in Arranged(kept + [last]) ensures MayDemote(last, x) || exists e :: e in kept && MayDemote(e, x) {
      ArrangedMember(kept + [last], x);
      var e :| e in kept + [last] && MayDemote(e, x);
    }
  }

  lemma SameKeySameEntity(list: seq<Entity>, x: Entity, y: Entity)
    requires UniqueKeys(list) && x in list && y in list && KeyOf(x) == KeyOf(y)
    ensures x == y
  {}

  lemma UnregisterKeepsListOk(current: seq<Entity>, key: Key)
    requires ListOk(current)
    ensures var r := Unregister(current, key);
            ListOk(r) && forall x :: x in r <==> x in current && KeyOf(x) != key
  {
    WhereFacts(current, HasOtherKey(key));
    FilteredFocus(current, HasOtherKey(key));
  }

  lemma {:induction false} FilteredFocus(list: seq<Entity>, wanted: Entity -> bool)
    ensures |Where(Where(list, wanted), IsFocused())| <= |Where(list, IsFocused())|
    decreases |list|
  {
    if list != [] {
      FilteredFocus(list[1..], wanted);
      var rest := Where(list[1..], wanted);
      assert ([list[0]] + rest)[1..] == rest && [] + rest == rest;
    }
  }

  // ----- who keeps the focus, and who is listed -----

  lemma {:induction false} WhereConcat(a: seq<Entity>, b: seq<Entity>, wanted: Entity -> bool)
    ensures Where(a + b, wanted) == Where(a, wanted) + Where(b, wanted)
    decreases |b|
  {
    if b == [] {
      assert a + b == a;
    } else {
      var n := |b| - 1;
      assert a + b == (a + b[..n]) + [b[n]] && b == b[..n] + [b[n]];
      WhereConcat(a, b[..n], wanted);
      WhereLast(a + b[..n], b[n], wanted);
      WhereLast(b[..n], b[n], wanted);
      Associates(Where(a, wanted), Where(b[..n], wanted), if wanted(b[n]) then [b[n]] else []);
    }
  }

  /** How many entries before the `i`-th are focused. */
  function FocusedBefore(list: seq<Entity>, i: nat): nat
    requires i <= |list|
  {
    |Where(list[..i], IsFocused())|
  }

  /** An entry is among the first focused ones exactly when fewer come before it. */
  lemma FirstFocused(list: seq<Entity>, i: nat)
    requires UniqueKeys(list) && i < |list|
    ensures KeyOf(list[i]) in Keys(FocusedPart(list)) <==> list[i].focused && FocusedBefore(list, i) < MAX_FOCUSED
  {
    var all, before, f := Where(list, IsFocused()), Where(list[..i], IsFocused()), FocusedPart(list);
    WhereFacts(list, IsFocused());
    WhereFacts(list[..i], IsFocused());
    if KeyOf(list[i]) in Keys(f) {
      var x :| x in f && KeyOf(x) == KeyOf(list[i]);
      assert x in all;
      SameKeySameEntity(list, x, list[i]);
    }
    if list[i].focused {
      FocusedAt(list, i);
      if |before| < MAX_FOCUSED {
        assert f[|before|] == list[i];
        assert list[i] in f;
      } else {
        forall x | x in f ensures KeyOf(x) != KeyOf(list[i]) {
          assert x in before;
          var j :| 0 <= j < i && list[..i][j] == x;
          assert list[j] == x;
        }
      }
    }
  }

  lemma FocusedAt(list: seq<Entity>, i: nat)
    requires i < |list| && list[i].focused
    ensures var before, all := Where(list[..i], IsFocused()), Where(list, IsFocused());
            |before| < |all| && all[|before|] == list[i] && all[..|before|] == before
  {
    assert list == (list[..i] + [list[i]]) + list[i + 1..];
    WhereConcat(list[..i] + [list[i]], list[i + 1..], IsFocused());
    WhereLast(list[..i], list[i], IsFocused());
  }

  /** The list in which `entity` replaces its earlier registration, before it is arranged. */
  function WithLatest(current: seq<Entity>, entity: Entity): seq<Entity> {
    Where(current, HasOtherKey(KeyOf(entity))) + [Normalized(entity)]
  }

  lemma WithLatestIsUnique(current: seq<Entity>, entity: Entity)
    requires UniqueKeys(current)
    ensures UniqueKeys(WithLatest(current, entity)) && Register(current, entity) == Arranged(WithLatest(current, entity))
  {
    WhereFacts(current, HasOtherKey(KeyOf(entity)));
    NormalizedKey(entity);
    UniqueAppend(Where(current, HasOtherKey(KeyOf(entity))), Normalized(entity));
  }

  /** After a registration an entry is focused exactly when it was and fewer than three before it are. */
  lemma FocusAfterRegistering(current: seq<Entity>, entity: Entity, i: nat)
    requires UniqueKeys(current) && i < |WithLatest(current, entity)|
    ensures var next := WithLatest(current, entity);
            (exists x :: x in Register(current, entity) && KeyOf(x) == KeyOf(next[i]) && x.focused)
            <==> next[i].focused && FocusedBefore(next, i) < 3
  {
    var next := WithLatest(current, entity);
    WithLatestIsUnique(current, entity);
    FirstFocused(next, i);
    PartsFacts(next);
    ArrangedIsOk(next);
    var start := DemotedTailFacts(RestPart(next), MAX_ENTITIES - |FocusedPart(next)|);
    FocusedOfParts(FocusedPart(next), RestPart(next), start, TailPart(next), KeyOf(next[i]));
  }

  lemma FocusedOfParts(f: seq<Entity>, rest: seq<Entity>, start: nat, tail: seq<Entity>, key: Key)
    requires (forall x :: x in f ==> x.focused) && DemotesFrom(rest, start, tail)
    ensures (exists x :: x in f + tail && KeyOf(x) == key && x.focused) <==> key in Keys(f)
  {
    forall x | x in tail ensures !x.focused {
      var j :| 0 <= j < |tail| && tail[j] == x;
    }
    if key in Keys(f) {
      var x :| x in f && KeyOf(x) == key;
      assert x in f + tail;
    }
  }

  lemma ListedOfParts(f: seq<Entity>, rest: seq<Entity>, start: nat, tail: seq<Entity>, p: nat)
    requires UniqueKeys(rest) && DemotesFrom(rest, start, tail) && p < |rest|
    requires forall x :: x in rest ==> KeyOf(x) !in Keys(f)
    ensures (exists x :: x in f + tail && KeyOf(x) == KeyOf(rest[p])) <==> start <= p
  {
    assert rest[p] in rest;
    if start <= p {
      assert tail[p - start] in f + tail && KeyOf(tail[p - start]) == KeyOf(rest[p]);
    } else {
      forall x | x in tail ensures KeyOf(x) != KeyOf(rest[p]) {
        var j :| 0 <= j < |tail| && tail[j] == x;
        assert KeyOf(x) == KeyOf(rest[start + j]);
      }
      forall x | x in f ensures KeyOf(x) != KeyOf(rest[p]) { assert KeyOf(x) in Keys(f); }
    }
  }

  /** Of the entries without focus, the list keeps the latest, as many as fit. */
  lemma ListedWithoutFocus(current: seq<Entity>, entity: Entity, p: nat)
    requires UniqueKeys(current) && p < |RestPart(WithLatest(current, entity))|
    ensures var next := WithLatest(current, entity); var f, rest := FocusedPart(next), RestPart(next);
            (exists x :: x in Register(current, entity) && KeyOf(x) == KeyOf(rest[p])) <==> |f| + (|rest| - p) <= 30
  {
    var next := WithLatest(current, entity);
    WithLatestIsUnique(current, entity);
    PartsFacts(next);
    ArrangedIsOk(next);
    var start := DemotedTailFacts(RestPart(next), MAX_ENTITIES - |FocusedPart(next)|);
    ListedOfParts(FocusedPart(next), RestPart(next), start, TailPart(next), p);
  }

  /** The keys of `x` and `y` stand in the list in this order. */
  ghost predicate StandsBefore(list: seq<Entity>, x: Entity, y: Entity) {
    exists i, j :: 0 <= i < j < |list| && KeyOf(list[i]) == KeyOf(x) && KeyOf(list[j]) == KeyOf(y)
  }

  lemma {:induction false} WhereKeepsOrder(list: seq<Entity>, wanted: Entity -> bool, p: nat, q: nat)
    requires p < q < |Where(list, wanted)|
    ensures StandsBefore(list, Where(list, wanted)[p], Where(list, wanted)[q])
    decreases |list|
  {
    var n := |list| - 1;
    var pre, r := Where(list[..n], wanted), Where(list, wanted);
    assert list == list[..n] + [list[n]];
    WhereLast(list[..n], list[n], wanted);
    if q < |pre| {
      WhereKeepsOrder(list[..n], wanted, p, q);
      var i, j :| 0 <= i < j < n && KeyOf(list[..n][i]) == KeyOf(pre[p]) && KeyOf(list[..n][j]) == KeyOf(pre[q]);
      assert KeyOf(list[i]) == KeyOf(r[p]) && KeyOf(list[j]) == KeyOf(r[q]);
    } else {
      WhereFacts(list[..n], wanted);
      assert pre[p] in list[..n];
      var i :| 0 <= i < n && list[..n][i] == pre[p];
      assert KeyOf(list[i]) == KeyOf(r[p]) && KeyOf(list[n]) == KeyOf(r[q]);
    }
  }

  /** The list has the focused entries first, and otherwise keeps the order of registration. */
  lemma RegisteredOrder(current: seq<Entity>, entity: Entity, p: nat, q: nat)
    requires UniqueKeys(current) && p < q < |Register(current, entity)|
    ensures var r, next := Register(current, entity), WithLatest(current, entity);
            && (r[q].focused ==> r[p].focused)
            && (r[p].focused == r[q].focused ==> StandsBefore(next, r[p], r[q]))
  {
    var next := WithLatest(current, entity);
    WithLatestIsUnique(current, entity);
    ArrangedOrder(next, p, q);
  }

  lemma ArrangedOrder(next: seq<Entity>, p: nat, q: nat)
    requires UniqueKeys(next) && p < q < |Arranged(next)|
    ensures var r := Arranged(next);
            && (r[q].focused ==> r[p].focused)
            && (r[p].focused == r[q].focused ==> StandsBefore(next, r[p], r[q]))
  {
    ArrangedIsOk(next);
    PartsAreOrdered(next);
    PartsInOrder(next, FocusedPart(next), TailPart(next), p, q);
  }

  /** Entries that all have the focus, or all have none, in the order of the list. */
  ghost predicate IsPart(next: seq<Entity>, part: seq<Entity>, focused: bool) {
    && (forall i :: 0 <= i < |part| ==> part[i].focused == focused)
    && (forall i, j :: 0 <= i < j < |part| ==> StandsBefore(next, part[i], part[j]))
  }

  lemma PartsAreOrdered(next: seq<Entity>)
    requires UniqueKeys(next)
    ensures |FocusedPart(next)| <= MAX_FOCUSED
    ensures IsPart(next, FocusedPart(next), true) && IsPart(next, TailPart(next), false)
  {
    PartsFacts(next);
    var f, tail := FocusedPart(next), TailPart(next);
    var start := DemotedTailFacts(RestPart(next), MAX_ENTITIES - |f|);
    forall i | 0 <= i < |f| ensures f[i].focused { assert f[i] in f; }
    forall i, j | 0 <= i < j < |f| ensures StandsBefore(next, f[i], f[j]) { FocusedInOrder(next, i, j); }
    forall i, j | 0 <= i < j < |tail| ensures StandsBefore(next, tail[i], tail[j]) { TailInOrder(next, start, i, j); }
  }

  lemma PartsInOrder(next: seq<Entity>, f: seq<Entity>, tail: seq<Entity>, p: nat, q: nat)
    requires p < q < |f + tail| && IsPart(next, f, true) && IsPart(next, tail, false)
    ensures var r := f + tail;
            && (r[q].focused ==> r[p].focused)
            && (r[p].focused == r[q].focused ==> StandsBefore(next, r[p], r[q]))
  {
    var r := f + tail;
    assert (p < |f| ==> r[p] == f[p]) && (p >= |f| ==> r[p] == tail[p - |f|]);
    assert (q < |f| ==> r[q] == f[q]) && (q >= |f| ==> r[q] == tail[q - |f|]);
  }

  lemma FocusedInOrder(next: seq<Entity>, p: nat, q: nat)
    requires p < q < |FocusedPart(next)|
    ensures StandsBefore(next, FocusedPart(next)[p], FocusedPart(next)[q])
  {
    WhereKeepsOrder(next, IsFocused(), p, q);
  }

  lemma TailInOrder(next: seq<Entity>, start: nat, p: nat, q: nat)
    requires |FocusedPart(next)| <= MAX_FOCUSED && DemotesFrom(RestPart(next), start, TailPart(next))
    requires p < q < |TailPart(next)|
    ensures StandsBefore(next, TailPart(next)[p], TailPart(next)[q])
  {
    WhereKeepsOrder(next, HasKeyOutside(Keys(FocusedPart(next))), start + p, start + q);
    DemotedInOrder(next, RestPart(next), start, TailPart(next), p, q);
  }

  lemma DemotedInOrder(next: seq<Entity>, rest: seq<Entity>, start: nat, tail: seq<Entity>, p: nat, q: nat)
    requires DemotesFrom(rest, start, tail) && p < q < |tail| && StandsBefore(next, rest[start + p], rest[start + q])
    ensures StandsBefore(next, tail[p], tail[q])
  {}

  /** An entity is listed under its trimmed name, cut at 120 characters, or under its id where that is blank. */
  lemma NormalizedReads(entity: Entity)
    ensures var r := Normalized(entity);
            && r == entity.(name := r.name)
            && (IsBlank(entity.name) ==> r.name == entity.id)
            && (!IsBlank(entity.name) ==>
                  r.name <= Trim(entity.name) && |r.name| == if |Trim(entity.name)| <= 120 then |Trim(entity.name)| else 120)
  {
    TrimOfBlank(entity.name);
  }

  // ----- registrations behind the list -----

  datatype Registry = Registry(sources: map<Key, seq<Entity>>, entities: seq<Entity>)

  function SourcesOf(r: Registry, key: Key): seq<Entity> {
    if key in r.sources then r.sources[key] else []
  }

  function OnRegister(r: Registry, entity: Entity): Registry {
    var key := KeyOf(entity);
    Registry(r.sources[key := SourcesOf(r, key) + [entity]], Register(r.entities, entity))
  }

  function OnUnregister(r: Registry, key: Key): Registry {
    var sources := SourcesOf(r, key);
    if |sources| > 1 then
      var left := sources[..|sources| - 1];
      Registry(r.sources[key := left], Register(r.entities, left[|left| - 1]))
    else Registry(r.sources - {key}, Unregister(r.entities, key))
  }

  /** `x` shows the latest live registration of its key, trimmed and perhaps no longer focused. */
  ghost predicate ShowsLatest(sources: map<Key, seq<Entity>>, x: Entity) {
    && KeyOf(x) in sources && sources[KeyOf(x)] != []
    && MayDemote(Normalized(sources[KeyOf(x)][|sources[KeyOf(x)]| - 1]), x)
  }

  ghost predicate SourcesOk(sources: map<Key, seq<Entity>>) {
    forall k :: k in sources ==> sources[k] != [] && forall e :: e in sources[k] ==> KeyOf(e) == k
  }

  /** The list is within its bounds, and shows only latest live registrations. */
  ghost predicate RegistryOk(r: Registry) {
    && ListOk(r.entities) && SourcesOk(r.sources)
    && forall x :: x in r.entities ==> ShowsLatest(r.sources, x)
  }

  /** The list once `e`, normalized from the latest live registration of its key, is entered. */
  lemma EnteredShowsLatest(
    entities: seq<Entity>, sources: map<Key, seq<Entity>>, sources': map<Key, seq<Entity>>, e: Entity)
    requires ListOk(entities) && forall x :: x in entities ==> ShowsLatest(sources, x)
    requires ShowsLatest(sources', e)
    requires forall k :: k in sources && k != KeyOf(e) ==> k in sources' && sources'[k] == sources[k]
    ensures ListOk(Enter(entities, e)) && forall x :: x in Enter(entities, e) ==> ShowsLatest(sources', x)
    ensures exists x :: x in Enter(entities, e) && KeyOf(x) == KeyOf(e)
  {
    EnterKeepsListOk(entities, e);
    forall x | x in Enter(entities, e) ensures ShowsLatest(sources', x) {
      if MayDemote(e, x) {
        DemotedShowsLatest(sources', e, x);
      } else {
        var y :| y in entities && MayDemote(y, x);
        DemotedShowsLatest(sources, y, x);
      }
    }
  }

  lemma DemotedShowsLatest(sources: map<Key, seq<Entity>>, e: Entity, x: Entity)
    requires ShowsLatest(sources, e) && MayDemote(e, x)
    ensures ShowsLatest(sources, x)
  {}

  lemma LatestShowsLatest(sources: map<Key, seq<Entity>>, entity: Entity)
    requires KeyOf(entity) in sources && sources[KeyOf(entity)] != []
    requires sources[KeyOf(entity)][|sources[KeyOf(entity)]| - 1] == entity
    ensures ShowsLatest(sources, Normalized(entity))
  {
    NormalizedKey(entity);
  }

  lemma AddedSourcesOk(r: Registry, entity: Entity)
    requires SourcesOk(r.sources)
    ensures SourcesOk(OnRegister(r, entity).sources)
  {}

  /** Registering lists the entity, and keeps the registry sound. */
  lemma OnRegisterIsOk(r: Registry, entity: Entity)
    requires RegistryOk(r)
    ensures RegistryOk(OnRegister(r, entity))
    ensures exists x :: x in OnRegister(r, entity).entities && KeyOf(x) == KeyOf(entity)
  {
    var sources' := OnRegister(r, entity).sources;
    AddedSourcesOk(r, entity);
    LatestShowsLatest(sources', entity);
    NormalizedKey(entity);
    EnteredShowsLatest(r.entities, r.sources, sources', Normalized(entity));
  }

  lemma RemovedSourcesOk(r: Registry, key: Key)
    requires SourcesOk(r.sources)
    ensures SourcesOk(OnUnregister(r, key).sources)
  {
    var sources := SourcesOf(r, key);
    if |sources| > 1 {
      assert forall e :: e in sources[..|sources| - 1] ==> e in sources;
    }
  }

  lemma RestoredShowsLatest(r: Registry, key: Key, sources': map<Key, seq<Entity>>, latest: Entity)
    requires RegistryOk(r) && KeyOf(latest) == key
    requires key in sources' && sources'[key] != [] && sources'[key][|sources'[key]| - 1] == latest
    requires sources' == r.sources[key := sources'[key]]
    ensures ListOk(Register(r.entities, latest))
    ensures exists x :: x in Register(r.entities, latest) && KeyOf(x) == key
    ensures forall x :: x in Register(r.entities, latest) ==> ShowsLatest(sources', x)
  {
    LatestShowsLatest(sources', latest);
    NormalizedKey(latest);
    EnteredShowsLatest(r.entities, r.sources, sources', Normalized(latest));
  }

  /**
    Withdrawing a key's last registration lists the registration before it, or drops the key where there is
    none; the registry stays sound.
    */
  lemma OnUnregisterIsOk(r: Registry, key: Key)
    requires RegistryOk(r)
    ensures RegistryOk(OnUnregister(r, key))
    ensures (exists x :: x in OnUnregister(r, key).entities && KeyOf(x) == key) <==> |SourcesOf(r, key)| > 1
    ensures key in OnUnregister(r, key).sources <==> |SourcesOf(r, key)| > 1
  {
    RemovedSourcesOk(r, key);
    var sources, sources' := SourcesOf(r, key), OnUnregister(r, key).sources;
    if |sources| > 1 {
      var latest := sources[|sources| - 2];
      assert KeyOf(latest) == key;
      RestoredShowsLatest(r, key, sources', latest);
    } else {
      RemovedIsOk(r, key);
    }
  }

  lemma RemovedIsOk(r: Registry, key: Key)
    requires RegistryOk(r)
    ensures var list := Unregister(r.entities, key);
            && ListOk(list)
            && forall x :: x in list ==> KeyOf(x) != key && ShowsLatest(r.sources - {key}, x)
  {
    UnregisterKeepsListOk(r.entities, key);
    forall x | x in Unregister(r.entities, key) ensures KeyOf(x) != key && ShowsLatest(r.sources - {key}, x) {
      assert ShowsLatest(r.sources, x);
    }
  }

  /** No other key's registrations change. */
  ghost predicate OthersKept(before: map<Key, seq<Entity>>, after: map<Key, seq<Entity>>, key: Key) {
    forall k :: k != key ==> (k in after <==> k in before) && (k in before ==> after[k] == before[k])
  }

  /** A registration goes on top of its key's others, and withdrawing the key takes the top one off again. */
  lemma RegistrationsStack(r: Registry, entity: Entity)
    requires SourcesOk(r.sources)
    ensures var key, r' := KeyOf(entity), OnRegister(r, entity);
            && SourcesOf(r', key) == SourcesOf(r, key) + [entity] && OthersKept(r.sources, r'.sources, key)
            && OnUnregister(r', key).sources == r.sources
  {
    var key, r' := KeyOf(entity), OnRegister(r, entity);
    assert r'.sources[key] == SourcesOf(r, key) + [entity];
    assert r'.sources[key][..|r'.sources[key]| - 1] == SourcesOf(r, key);
    Restored(r.sources, key, r'.sources[key]);
  }

  lemma Restored(sources: map<Key, seq<Entity>>, key: Key, top: seq<Entity>)
    ensures key in sources ==> sources[key := top][key := sources[key]] == sources
    ensures key !in sources ==> sources[key := top] - {key} == sources
  {}

  lemma WithdrawalTakesTop(r: Registry, key: Key)
    ensures var before, after := SourcesOf(r, key), SourcesOf(OnUnregister(r, key), key);
            && after == (if before == [] then [] else before[..|before| - 1])
            && OthersKept(r.sources, OnUnregister(r, key).sources, key)
  {}

  datatype Step = Add(entity: Entity) | Remove(key: Key)

  function Run(steps: seq<Step>): Registry
    decreases |steps|
  {
    if steps == [] then Registry(map[], []) else Apply(Run(steps[..|steps| - 1]), steps[|steps| - 1])
  }

  function Apply(r: Registry, step: Step): Registry {
    match step
    case Add(entity) => OnRegister(r, entity)
    case Remove(key) => OnUnregister(r, key)
  }

  /** In every run the list has unique keys, at most 30 entities and 3 focused ones, all of them live. */
  lemma {:induction false} EveryRunIsOk(steps: seq<Step>)
    ensures RegistryOk(Run(steps))
    decreases |steps|
  {
    if steps != [] {
      var n := |steps| - 1;
      EveryRunIsOk(steps[..n]);
      match steps[n] {
        case Add(entity) => OnRegisterIsOk(Run(steps[..n]), entity);
        case Remove(key) => OnUnregisterIsOk(Run(steps[..n]), key);
      }
    }
  }

  // ----- nothing is left out before the bound is reached -----

  lemma {:induction false} KeysSize(list: seq<Entity>)
    requires UniqueKeys(list)
    ensures |Keys(list)| == |list|
    decreases |list|
  {
    if list != [] {
      var n := |list| - 1;
      KeysSize(list[..n]);
      assert Keys(list) == Keys(list[..n]) + {KeyOf(list[n])};
      assert KeyOf(list[n]) !in Keys(list[..n]);
    }
  }

  lemma RestKeys(next: seq<Entity>)
    requires UniqueKeys(next)
    ensures Keys(RestPart(next)) == Keys(next) - Keys(FocusedPart(next))
    ensures Keys(FocusedPart(next)) <= Keys(next)
  {
    PartsFacts(next);
    WhereFacts(next, HasKeyOutside(Keys(FocusedPart(next))));
    forall k | k in Keys(next) - Keys(FocusedPart(next)) ensures k in Keys(RestPart(next)) {
      var e :| e in next && KeyOf(e) == k;
      assert e in RestPart(next);
    }
  }

  lemma PartsSize(next: seq<Entity>)
    requires UniqueKeys(next)
    ensures |FocusedPart(next)| + |RestPart(next)| == |next|
  {
    PartsFacts(next);
    RestKeys(next);
    KeysSize(FocusedPart(next));
    KeysSize(RestPart(next));
    KeysSize(next);
  }

  lemma ArrangedKeepsKeys(next: seq<Entity>)
    requires UniqueKeys(next) && |next| <= MAX_ENTITIES
    ensures Keys(Arranged(next)) == Keys(next)
  {
    ArrangedIsOk(next);
    RestKeys(next);
    PartsSize(next);
    DemotedKeys(RestPart(next), MAX_ENTITIES - |FocusedPart(next)|);
    KeysOfConcat(FocusedPart(next), TailPart(next));
  }

  lemma KeysOfConcat(a: seq<Entity>, b: seq<Entity>)
    ensures Keys(a + b) == Keys(a) + Keys(b)
  {
    forall k | k in Keys(a) + Keys(b) ensures k in Keys(a + b) {
      var e :| (e in a || e in b) && KeyOf(e) == k;
      assert e in a + b;
    }
  }

  lemma DemotedKeys(rest: seq<Entity>, n: nat)
    requires |rest| <= n
    ensures Keys(DemotedTail(rest, n)) == Keys(rest)
  {
    var tail := DemotedTail(rest, n);
    var start := DemotedTailFacts(rest, n);
    forall i | 0 <= i < |rest| ensures KeyOf(tail[i]) == KeyOf(rest[i]) {}
    forall k | k in Keys(rest) ensures k in Keys(tail) {
      var i :| 0 <= i < |rest| && KeyOf(rest[i]) == k;
      assert tail[i] in tail;
    }
    forall k | k in Keys(tail) ensures k in Keys(rest) {
      var i :| 0 <= i < |tail| && KeyOf(tail[i]) == k;
      assert rest[i] in rest;
    }
  }

  lemma EnterKeepsKeys(current: seq<Entity>, e: Entity)
    requires UniqueKeys(current) && |Keys(current) + {KeyOf(e)}| <= MAX_ENTITIES
    ensures Keys(Enter(current, e)) == Keys(current) + {KeyOf(e)}
  {
    var kept := Where(current, HasOtherKey(KeyOf(e)));
    WhereFacts(current, HasOtherKey(KeyOf(e)));
    UniqueAppend(kept, e);
    KeysWithout(current, KeyOf(e));
    KeysOfConcat(kept, [e]);
    assert Keys([e]) == {KeyOf(e)} by { assert e in [e]; }
    KeysSize(kept + [e]);
    ArrangedKeepsKeys(kept + [e]);
  }

  ghost predicate ListsAll(r: Registry) {
    Keys(r.entities) == r.sources.Keys
  }

  lemma AddListsAll(r: Registry, entity: Entity)
    requires RegistryOk(r) && ListsAll(r) && |OnRegister(r, entity).sources| <= MAX_ENTITIES
    ensures ListsAll(OnRegister(r, entity))
  {
    assert OnRegister(r, entity).sources.Keys == r.sources.Keys + {KeyOf(entity)};
    NormalizedKey(entity);
    EnterKeepsKeys(r.entities, Normalized(entity));
  }

  lemma RemoveListsAll(r: Registry, key: Key)
    requires RegistryOk(r) && ListsAll(r) && |OnUnregister(r, key).sources| <= MAX_ENTITIES
    ensures ListsAll(OnUnregister(r, key))
  {
    var sources, r' := SourcesOf(r, key), OnUnregister(r, key);
    if |sources| > 1 {
      var latest := sources[..|sources| - 1][|sources| - 2];
      assert latest in sources;
      assert r'.sources.Keys == r.sources.Keys + {KeyOf(latest)};
      NormalizedKey(latest);
      EnterKeepsKeys(r.entities, Normalized(latest));
    } else {
      KeysWithout(r.entities, key);
      assert r'.sources.Keys == r.sources.Keys - {key};
    }
  }

  lemma KeysWithout(list: seq<Entity>, key: Key)
    ensures Keys(Unregister(list, key)) == Keys(list) - {key}
  {
    WhereFacts(list, HasOtherKey(key));
    forall k | k in Keys(list) && k != key ensures k in Keys(Unregister(list, key)) {
      var e :| e in list && KeyOf(e) == k;
      assert e in Unregister(list, key);
    }
  }

  lemma StepListsAll(r: Registry, step: Step)
    requires RegistryOk(r) && ListsAll(r) && |Apply(r, step).sources| <= MAX_ENTITIES
    ensures ListsAll(Apply(r, step))
  {
    match step {
      case Add(entity) => AddListsAll(r, entity);
      case Remove(key) => RemoveListsAll(r, key);
    }
  }

  /** At most 30 keys were ever live at once. */
  ghost predicate FewLive(steps: seq<Step>) {
    forall n :: 0 <= n <= |steps| ==> |Run(steps[..n]).sources| <= MAX_ENTITIES
  }

  lemma FewLivePrefix(steps: seq<Step>)
    requires steps != [] && FewLive(steps)
    ensures FewLive(steps[..|steps| - 1]) && |Run(steps).sources| <= MAX_ENTITIES
  {
    var pre := steps[..|steps| - 1];
    forall m | 0 <= m <= |pre| ensures |Run(pre[..m]).sources| <= MAX_ENTITIES { assert pre[..m] == steps[..m]; }
    assert steps[..|steps|] == steps;
  }

  /** While at most 30 keys were ever live at once, the list has exactly the live keys. */
  lemma {:induction false} ListsEveryLiveKey(steps: seq<Step>)
    requires FewLive(steps)
    ensures Keys(Run(steps).entities) == Run(steps).sources.Keys
    decreases |steps|
  {
    if steps != [] {
      var n := |steps| - 1;
      FewLivePrefix(steps);
      ListsEveryLiveKey(steps[..n]);
      EveryRunIsOk(steps[..n]);
      StepListsAll(Run(steps[..n]), steps[n]);
    }
  }

  // ----- the provider's mutable state -----

  class Provider {
    var registrationSources: map<Key, seq<Entity>>
    var entities: seq<Entity>

    ghost function Current(): Registry
      reads this
    {
      Registry(registrationSources, entities)
    }

    constructor ()
      ensures Current() == Run([])
    {
      registrationSources, entities := map[], [];
    }

    method RegisterEntity(entity: Entity)
      requires RegistryOk(Current())
      modifies this
      ensures Current() == OnRegister(old(Current()), entity) && RegistryOk(Current())
    {
      OnRegisterIsOk(Current(), entity);
      var key := KeyOf(entity);
      var sources := if key in registrationSources then registrationSources[key] else [];
      sources := sources + [entity];
      registrationSources := registrationSources[key := sources];
      entities := Register(entities, entity);
    }

    method UnregisterEntity(kind: string, id: string)
      requires RegistryOk(Current())
      modifies this
      ensures Current() == OnUnregister(old(Current()), Key(kind, id)) && RegistryOk(Current())
    {
      var key := Key(kind, id);
      ghost var before := Current();
      var sources := if key in registrationSources then registrationSources[key] else [];
      assert sources == SourcesOf(before, key);
      if sources != [] { sources := sources[..|sources| - 1]; }
      if sources != [] {
        registrationSources := registrationSources[key := sources];
        entities := Register(entities, sources[|sources| - 1]);
      } else {
        registrationSources := registrationSources - {key};
        entities := Unregister(entities, key);
      }
      assert Current() == OnUnregister(before, key);
      OnUnregisterIsOk(before, key);
    }
  }
}
