/** Activity events in time order, sorted as the language sorts: stably. */
module ActivityOrder {
  import opened Json
  import opened Wrappers

  /** A time stamp as written: an instant, or text that is no date. */
  datatype Stamp = At(ms: int) | NoDate(text: string)

  datatype Time = Finite(ms: int) | Infinite

  datatype Entry = Entry(id: string, createdAt: Stamp, body: Json)

  /** A missing or unreadable stamp is later than every instant. */
  function TimeOf(stamp: Option<Stamp>): Time {
    if stamp.Some? && stamp.value.At? then Finite(stamp.value.ms) else Infinite
  }

  function TimeOfEntry(e: Entry): Time {
    TimeOf(Some(e.createdAt))
  }

  predicate Less(a: Time, b: Time) {
    a.Finite? && (b.Infinite? || a.ms < b.ms)
  }

  predicate Sorted(es: seq<Entry>) {
    forall i, j :: 0 <= i < j < |es| ==> !Less(TimeOfEntry(es[j]), TimeOfEntry(es[i]))
  }

  /** `e` goes after every entry that is not later than it. */
  function Insert(es: seq<Entry>, e: Entry): seq<Entry> {
    if es == [] || !Less(TimeOfEntry(e), TimeOfEntry(es[|es| - 1])) then es + [e]
    else Insert(es[..|es| - 1], e) + [es[|es| - 1]]
  }

  function Sort(es: seq<Entry>): seq<Entry> {
    if es == [] then [] else Insert(Sort(es[..|es| - 1]), es[|es| - 1])
  }

  function Where(es: seq<Entry>, wanted: Entry -> bool): seq<Entry> {
    if es == [] then [] else
    Where(es[..|es| - 1], wanted) + if wanted(es[|es| - 1]) then [es[|es| - 1]] else []
  }

  lemma {:induction false} WhereMembers(es: seq<Entry>, wanted: Entry -> bool)
    ensures forall e :: e in Where(es, wanted) <==> e in es && wanted(e)
    decreases |es|
  {
    if es != [] {
      WhereMembers(es[..|es| - 1], wanted);
      assert es == es[..|es| - 1] + [es[|es| - 1]];
    }
  }

  function HasTime(t: Time): Entry -> bool {
    (e: Entry) => TimeOfEntry(e) == t
  }

  lemma WhereLast(es: seq<Entry>, e: Entry, wanted: Entry -> bool)
    ensures Where(es + [e], wanted) == Where(es, wanted) + if wanted(e) then [e] else []
  {
    assert (es + [e])[..|es|] == es;
  }

  lemma {:induction false} WhereConcat(a: seq<Entry>, b: seq<Entry>, wanted: Entry -> bool)
    ensures Where(a + b, wanted) == Where(a, wanted) + Where(b, wanted)
    decreases |b|
  {
    if b == [] {
      assert a + b == a;
    } else {
      var n := |b| - 1;
      assert a + b == (a + b[..n]) + [b[n]];
      WhereConcat(a, b[..n], wanted);
      WhereLast(a + b[..n], b[n], wanted);
    }
  }

  // ----- the sort is a stable sort, and the only one -----

  lemma InsertSorts(es: seq<Entry>, e: Entry)
    requires Sorted(es)
    ensures Sorted(Insert(es, e)) && multiset(Insert(es, e)) == multiset(es) + multiset{e}
  {
    InsertIsSorted(es, e);
    InsertCounts(es, e);
  }

  lemma {:induction false} InsertIsSorted(es: seq<Entry>, e: Entry)
    requires Sorted(es)
    ensures Sorted(Insert(es, e))
    decreases |es|
  {
    if es != [] && Less(TimeOfEntry(e), TimeOfEntry(es[|es| - 1])) {
      var n := |es| - 1;
      InsertIsSorted(es[..n], e);
      forall x | x in Insert(es[..n], e) ensures !Less(TimeOfEntry(es[n]), TimeOfEntry(x)) {
        InsertMember(es[..n], e, x);
      }
      SortedAppend(Insert(es[..n], e), es[n]);
    }
  }

  lemma {:induction false} InsertCounts(es: seq<Entry>, e: Entry)
    ensures multiset(Insert(es, e)) == multiset(es) + multiset{e}
    decreases |es|
  {
    if es != [] && Less(TimeOfEntry(e), TimeOfEntry(es[|es| - 1])) {
      InsertCounts(es[..|es| - 1], e);
      assert es == es[..|es| - 1] + [es[|es| - 1]];
    }
  }

  lemma {:induction false} InsertMember(es: seq<Entry>, e: Entry, x: Entry)
    requires x in Insert(es, e)
    ensures x == e || x in es
    decreases |es|
  {
    if es != [] && Less(TimeOfEntry(e), TimeOfEntry(es[|es| - 1])) && x != es[|es| - 1] {
      InsertMember(es[..|es| - 1], e, x);
    }
  }

  lemma SortedAppend(es: seq<Entry>, last: Entry)
    requires Sorted(es) && forall x :: x in es ==> !Less(TimeOfEntry(last), TimeOfEntry(x))
    ensures Sorted(es + [last])
  {}

  lemma {:induction false} InsertIsStable(es: seq<Entry>, e: Entry, t: Time)
    requires Sorted(es)
    ensures Where(Insert(es, e), HasTime(t)) == Where(es, HasTime(t)) + if TimeOfEntry(e) == t then [e] else []
    decreases |es|
  {
    if es == [] || !Less(TimeOfEntry(e), TimeOfEntry(es[|es| - 1])) {
      WhereLast(es, e, HasTime(t));
    } else {
      var n := |es| - 1;
      InsertIsStable(es[..n], e, t);
      assert es == es[..n] + [es[n]];
      StableBefore(es[..n], Insert(es[..n], e), e, es[n], t);
    }
  }

  lemma StableBefore(es: seq<Entry>, inserted: seq<Entry>, e: Entry, last: Entry, t: Time)
    requires Less(TimeOfEntry(e), TimeOfEntry(last))
    requires Where(inserted, HasTime(t)) == Where(es, HasTime(t)) + if TimeOfEntry(e) == t then [e] else []
    ensures Where(inserted + [last], HasTime(t))
            == Where(es + [last], HasTime(t)) + if TimeOfEntry(e) == t then [e] else []
  {
    WhereLast(es, last, HasTime(t));
    WhereLast(inserted, last, HasTime(t));
    AppendOne(Where(es, HasTime(t)), e, last, TimeOfEntry(e) == t, TimeOfEntry(last) == t);
  }

  lemma AppendOne(w: seq<Entry>, x: Entry, y: Entry, first: bool, second: bool)
    requires !(first && second)
    ensures (w + if first then [x] else []) + (if second then [y] else [])
            == (w + if second then [y] else []) + (if first then [x] else [])
  {
    assert w + [] == w && w + [x] + [] == w + [x] && w + [y] + [] == w + [y];
  }

  lemma {:induction false} SortSorts(es: seq<Entry>)
    ensures Sorted(Sort(es)) && multiset(Sort(es)) == multiset(es)
    decreases |es|
  {
    if es != [] {
      var n := |es| - 1;
      SortSorts(es[..n]);
      InsertSorts(Sort(es[..n]), es[n]);
      assert es == es[..n] + [es[n]];
    }
  }

  /** Entries of one time keep their order. */
  lemma {:induction false} SortIsStable(es: seq<Entry>, t: Time)
    ensures Where(Sort(es), HasTime(t)) == Where(es, HasTime(t))
    decreases |es|
  {
    if es != [] {
      var n := |es| - 1;
      assert es == es[..n] + [es[n]];
      SortIsStable(es[..n], t);
      SortSorts(es[..n]);
      InsertIsStable(Sort(es[..n]), es[n], t);
      WhereLast(es[..n], es[n], HasTime(t));
    }
  }

  lemma {:induction false} WhereFirst(e: Entry, es: seq<Entry>, wanted: Entry -> bool)
    ensures Where([e] + es, wanted) == (if wanted(e) then [e] else []) + Where(es, wanted)
    decreases |es|
  {
    if es == [] {
      assert ([e] + es)[..0] == [] && ([e] + es)[0] == e;
    } else {
      assert ([e] + es)[..|es|] == [e] + es[..|es| - 1];
      WhereFirst(e, es[..|es| - 1], wanted);
    }
  }

  /** Order and stability leave one result: the sort is the one the language specifies. */
  lemma {:induction false} StableOrderIsUnique(a: seq<Entry>, b: seq<Entry>)
    requires Sorted(a) && Sorted(b)
    requires forall t :: Where(a, HasTime(t)) == Where(b, HasTime(t))
    ensures a == b
    decreases |a|
  {
    SameEmptiness(a, b);
    SameEmptiness(b, a);
    if a != [] {
      SameHead(a, b);
      forall t { SameTail(a, b, t); }
      StableOrderIsUnique(a[1..], b[1..]);
      assert a == [a[0]] + a[1..] && b == [b[0]] + b[1..];
    }
  }

  lemma SameEmptiness(a: seq<Entry>, b: seq<Entry>)
    requires forall t :: Where(a, HasTime(t)) == Where(b, HasTime(t))
    ensures a != [] ==> b != []
  {
    if a != [] {
      HeadComesFirst(a);
      assert Where(b, HasTime(TimeOfEntry(a[0]))) == Where(a, HasTime(TimeOfEntry(a[0])));
    }
  }

  lemma SameTail(a: seq<Entry>, b: seq<Entry>, t: Time)
    requires a != [] && b != [] && a[0] == b[0]
    requires Where(a, HasTime(t)) == Where(b, HasTime(t))
    ensures Where(a[1..], HasTime(t)) == Where(b[1..], HasTime(t))
  {
    assert a == [a[0]] + a[1..] && b == [b[0]] + b[1..];
    WhereFirst(a[0], a[1..], HasTime(t));
    WhereFirst(b[0], b[1..], HasTime(t));
    SameAfter(if TimeOfEntry(a[0]) == t then [a[0]] else [], Where(a[1..], HasTime(t)), Where(b[1..], HasTime(t)));
  }

  lemma SameAfter(x: seq<Entry>, y: seq<Entry>, z: seq<Entry>)
    requires x + y == x + z
    ensures y == z
  {
    assert y == (x + y)[|x|..] && z == (x + z)[|x|..];
  }

  lemma SameHead(a: seq<Entry>, b: seq<Entry>)
    requires Sorted(a) && Sorted(b) && a != [] && b != []
    requires forall t :: Where(a, HasTime(t)) == Where(b, HasTime(t))
    ensures a[0] == b[0]
  {
    var t, u := TimeOfEntry(a[0]), TimeOfEntry(b[0]);
    HeadComesFirst(a);
    HeadComesFirst(b);
    NotBeforeHead(a, b[0]);
    NotBeforeHead(b, a[0]);
    assert t == u;
  }

  lemma HeadComesFirst(a: seq<Entry>)
    requires a != []
    ensures var w := Where(a, HasTime(TimeOfEntry(a[0]))); w != [] && w[0] == a[0]
  {
    assert a == [a[0]] + a[1..];
    WhereFirst(a[0], a[1..], HasTime(TimeOfEntry(a[0])));
  }

  lemma NotBeforeHead(a: seq<Entry>, e: Entry)
    requires Sorted(a) && a != [] && Where(a, HasTime(TimeOfEntry(e))) != []
    ensures !Less(TimeOfEntry(e), TimeOfEntry(a[0]))
  {
    var w := Where(a, HasTime(TimeOfEntry(e)));
    WhereMembers(a, HasTime(TimeOfEntry(e)));
    assert w[0] in w;
  }

  lemma {:induction false} WhereSorted(es: seq<Entry>, wanted: Entry -> bool)
    requires Sorted(es)
    ensures Sorted(Where(es, wanted))
    decreases |es|
  {
    if es != [] {
      var n := |es| - 1;
      WhereSorted(es[..n], wanted);
      WhereMembers(es[..n], wanted);
      forall x | x in Where(es[..n], wanted) ensures !Less(TimeOfEntry(es[n]), TimeOfEntry(x)) {
        assert x in es[..n];
      }
    }
  }
}
