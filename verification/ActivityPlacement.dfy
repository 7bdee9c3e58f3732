/** Where activity events go among the messages of a thread, and where the thread's day changes. */
module ActivityPlacement {
  import opened Wrappers
  import opened ActivityOrder

  /** The messages' time stamps; a message still streaming has none. */
  type Messages = seq<Option<Stamp>>

  datatype Placement = Placement(before: map<nat, seq<Entry>>, trailing: seq<Entry>)

  function MessageTime(messages: Messages, i: nat): Time
    requires i < |messages|
  {
    TimeOf(messages[i])
  }

  /** The first message written after `t`, or |messages|. */
  function SlotOf(messages: Messages, t: Time): (i: nat)
    ensures i <= |messages|
    ensures forall j :: 0 <= j < i ==> !Less(t, MessageTime(messages, j))
    ensures i < |messages| ==> Less(t, MessageTime(messages, i))
  {
    SlotFrom(messages, t, 0)
  }

  function SlotFrom(messages: Messages, t: Time, from: nat): (i: nat)
    requires from <= |messages|
    ensures from <= i <= |messages|
    ensures forall j :: from <= j < i ==> !Less(t, MessageTime(messages, j))
    ensures i < |messages| ==> Less(t, MessageTime(messages, i))
    decreases |messages| - from
  {
    if from == |messages| || Less(t, MessageTime(messages, from)) then from else SlotFrom(messages, t, from + 1)
  }

  /** Older than the first loaded message, while older messages are not loaded. */
  predicate LeftOut(messages: Messages, hasOlder: bool, e: Entry) {
    hasOlder && Less(TimeOfEntry(e), if messages == [] then Infinite else MessageTime(messages, 0))
  }

  /** The slot an event goes to, or -1 where it is left out. */
  function Slots(messages: Messages, hasOlder: bool): Entry -> int {
    (e: Entry) => if LeftOut(messages, hasOlder, e) then -1 else SlotOf(messages, TimeOfEntry(e))
  }

  function InSlot(slots: Entry -> int, i: nat): Entry -> bool {
    (e: Entry) => slots(e) == i
  }

  function GoesTo(messages: Messages, hasOlder: bool, slot: nat): Entry -> bool {
    InSlot(Slots(messages, hasOlder), slot)
  }

  function IsKept(messages: Messages, hasOlder: bool): Entry -> bool {
    (e: Entry) => !LeftOut(messages, hasOlder, e)
  }

  function Before(p: Placement, i: nat): seq<Entry> {
    if i in p.before then p.before[i] else []
  }

  /** `p` holds in each slot, in order, the events of `ordered` that go there. */
  ghost predicate Places(messages: Messages, hasOlder: bool, ordered: seq<Entry>, p: Placement) {
    && (forall i :: 0 <= i < |messages| ==> Before(p, i) == Where(ordered, GoesTo(messages, hasOlder, i)))
    && (forall i :: i in p.before ==> i < |messages|)
    && p.trailing == Where(ordered, GoesTo(messages, hasOlder, |messages|))
  }

  /** The placement with one more event, later than the others or at least not earlier. */
  function PlaceLast(messages: Messages, hasOlder: bool, p: Placement, event: Entry): Placement {
    var index := SlotOf(messages, TimeOfEntry(event));
    if LeftOut(messages, hasOlder, event) then p
    else if index == |messages| then p.(trailing := p.trailing + [event])
    else p.(before := p.before[index := Before(p, index) + [event]])
  }

  lemma PlacesLast(messages: Messages, hasOlder: bool, ordered: seq<Entry>, p: Placement, event: Entry)
    requires Places(messages, hasOlder, ordered, p)
    ensures Places(messages, hasOlder, ordered + [event], PlaceLast(messages, hasOlder, p, event))
  {
    var r, all := PlaceLast(messages, hasOlder, p, event), ordered + [event];
    WhereLast(ordered, event, GoesTo(messages, hasOlder, |messages|));
    forall i | 0 <= i < |messages| ensures Before(r, i) == Where(all, GoesTo(messages, hasOlder, i)) {
      WhereLast(ordered, event, GoesTo(messages, hasOlder, i));
    }
  }

  method PlaceActivity(messages: Messages, activity: seq<Entry>, hasOlder: bool) returns (p: Placement)
    ensures Places(messages, hasOlder, Sort(activity), p)
  {
    var before: map<nat, seq<Entry>> := map[];
    var trailing: seq<Entry> := [];
    var firstMessageTime := if messages != [] then MessageTime(messages, 0) else Infinite;
    var ordered := Sort(activity);
    for n := 0 to |ordered|
      invariant Places(messages, hasOlder, ordered[..n], Placement(before, trailing))
    {
      var event := ordered[n];
      assert ordered[..n + 1] == ordered[..n] + [event];
      PlacesLast(messages, hasOlder, ordered[..n], Placement(before, trailing), event);
      before, trailing := PlaceEvent(messages, hasOlder, firstMessageTime, before, trailing, event);
    }
    assert ordered[..|ordered|] == ordered;
    p := Placement(before, trailing);
  }

  /** The body of the loop above. */
  method PlaceEvent(
    messages: Messages, hasOlder: bool, firstMessageTime: Time, before: map<nat, seq<Entry>>, trailing: seq<Entry>,
    event: Entry) returns (before': map<nat, seq<Entry>>, trailing': seq<Entry>)
    requires firstMessageTime == if messages != [] then MessageTime(messages, 0) else Infinite
    ensures Placement(before', trailing') == PlaceLast(messages, hasOlder, Placement(before, trailing), event)
  {
    before', trailing' := before, trailing;
    if hasOlder && Less(TimeOfEntry(event), firstMessageTime) { return; }
    var index := SlotOf(messages, TimeOfEntry(event));
    if index == |messages| {
      trailing' := trailing + [event];
      return;
    }
    before' := before[index := (if index in before then before[index] else []) + [event]];
  }

  // ----- every event once, in time order -----

  /** The events of the first `n` slots, as they render. */
  function Rendered(slots: Entry -> int, ordered: seq<Entry>, n: nat): seq<Entry> {
    if n == 0 then [] else Rendered(slots, ordered, n - 1) + Where(ordered, InSlot(slots, n - 1))
  }

  /** Later events do not go to earlier slots. */
  ghost predicate SlotsRise(slots: Entry -> int, ordered: seq<Entry>) {
    forall i, j :: 0 <= i < j < |ordered| && slots(ordered[j]) >= 0 ==> slots(ordered[i]) <= slots(ordered[j])
  }

  lemma LaterSlotIsEmpty(slots: Entry -> int, ordered: seq<Entry>, slot: int, i: nat)
    requires slot < i && forall j :: 0 <= j < |ordered| ==> slots(ordered[j]) <= slot
    ensures Where(ordered, InSlot(slots, i)) == []
  {
    WhereMembers(ordered, InSlot(slots, i));
    var events := Where(ordered, InSlot(slots, i));
    assert forall x :: x !in events;
  }

  lemma SlotLast(slots: Entry -> int, ordered: seq<Entry>, e: Entry, i: nat)
    requires slots(e) >= 0 ==> forall j :: 0 <= j < |ordered| ==> slots(ordered[j]) <= slots(e)
    ensures Where(ordered + [e], InSlot(slots, i)) == Where(ordered, InSlot(slots, i)) + if slots(e) == i then [e] else []
    ensures 0 <= slots(e) < i ==> Where(ordered, InSlot(slots, i)) == []
  {
    WhereLast(ordered, e, InSlot(slots, i));
    if 0 <= slots(e) < i { LaterSlotIsEmpty(slots, ordered, slots(e), i); }
  }

  /** The last event renders last in its slot, and so after all the others. */
  lemma {:induction false} RenderedLast(slots: Entry -> int, ordered: seq<Entry>, e: Entry, n: nat)
    requires slots(e) >= 0 ==> forall j :: 0 <= j < |ordered| ==> slots(ordered[j]) <= slots(e)
    ensures Rendered(slots, ordered + [e], n)
            == Rendered(slots, ordered, n) + if 0 <= slots(e) < n then [e] else []
    decreases n
  {
    if n > 0 {
      RenderedLast(slots, ordered, e, n - 1);
      SlotLast(slots, ordered, e, n - 1);
      var r, s := Rendered(slots, ordered, n - 1), Where(ordered, InSlot(slots, n - 1));
      AppendOnce(r, s, e, 0 <= slots(e) < n - 1, slots(e) == n - 1);
    }
  }

  lemma AppendOnce(r: seq<Entry>, s: seq<Entry>, e: Entry, early: bool, here: bool)
    requires !(early && here) && (early ==> s == [])
    ensures (r + if early then [e] else []) + (s + if here then [e] else [])
            == (r + s) + if early || here then [e] else []
  {
    assert r + [] == r && s + [] == s;
  }

  function HasSlot(slots: Entry -> int): Entry -> bool {
    (e: Entry) => slots(e) >= 0
  }

  lemma {:induction false} RenderedIsOrdered(slots: Entry -> int, ordered: seq<Entry>, n: nat)
    requires SlotsRise(slots, ordered) && forall e :: slots(e) < n
    ensures Rendered(slots, ordered, n) == Where(ordered, HasSlot(slots))
    decreases |ordered|
  {
    if ordered == [] {
      RenderedNothing(slots, n);
    } else {
      var m := |ordered| - 1;
      assert ordered == ordered[..m] + [ordered[m]];
      RenderedLast(slots, ordered[..m], ordered[m], n);
      RenderedIsOrdered(slots, ordered[..m], n);
    }
  }

  lemma {:induction false} RenderedNothing(slots: Entry -> int, n: nat)
    ensures Rendered(slots, [], n) == []
    decreases n
  {
    if n > 0 { RenderedNothing(slots, n - 1); }
  }

  lemma SlotIsMonotone(messages: Messages, t: Time, u: Time)
    requires !Less(u, t)
    ensures SlotOf(messages, t) <= SlotOf(messages, u)
  {
    var i := SlotOf(messages, u);
    if i < |messages| { assert Less(t, MessageTime(messages, i)); }
  }

  lemma SortedSlotsRise(messages: Messages, hasOlder: bool, ordered: seq<Entry>)
    requires Sorted(ordered)
    ensures SlotsRise(Slots(messages, hasOlder), ordered)
  {
    var slots := Slots(messages, hasOlder);
    forall i, j | 0 <= i < j < |ordered| && slots(ordered[j]) >= 0 ensures slots(ordered[i]) <= slots(ordered[j]) {
      SlotIsMonotone(messages, TimeOfEntry(ordered[i]), TimeOfEntry(ordered[j]));
    }
  }

  lemma {:induction false} SameWhere(es: seq<Entry>, f: Entry -> bool, g: Entry -> bool)
    requires forall e :: f(e) == g(e)
    ensures Where(es, f) == Where(es, g)
    decreases |es|
  {
    if es != [] { SameWhere(es[..|es| - 1], f, g); }
  }

  /**
    A placement's thread shows the sorted activity less exactly the events left out: every other event
    once, in time order, even where the messages are not in time order.
    */
  lemma EventsRenderOnceInOrder(messages: Messages, hasOlder: bool, activity: seq<Entry>, p: Placement)
    requires Places(messages, hasOlder, Sort(activity), p)
    ensures var r := EventsOf(Thread(messages, p));
            && r == Where(Sort(activity), IsKept(messages, hasOlder))
            && Sorted(r)
            && (forall e :: multiset(r)[e] == if LeftOut(messages, hasOlder, e) then 0 else multiset(activity)[e])
  {
    SortSorts(activity);
    OrderedEventsRender(messages, hasOlder, Sort(activity));
    WholePlacementRenders(messages, hasOlder, Sort(activity), p);
  }

  /** Left out is what is older than the first loaded message, while older messages are not loaded. */
  lemma LeftOutReads(messages: Messages, hasOlder: bool, e: Entry)
    ensures LeftOut(messages, hasOlder, e) <==>
              && hasOlder && e.createdAt.At?
              && (messages == [] || messages[0] == None || messages[0].value.NoDate?
                  || e.createdAt.ms < messages[0].value.ms)
  {}

  lemma OrderedEventsRender(messages: Messages, hasOlder: bool, ordered: seq<Entry>)
    requires Sorted(ordered)
    ensures var r := Rendered(Slots(messages, hasOlder), ordered, |messages| + 1);
            && r == Where(ordered, IsKept(messages, hasOlder)) && Sorted(r)
            && (forall e :: multiset(r)[e] == if LeftOut(messages, hasOlder, e) then 0 else multiset(ordered)[e])
  {
    var slots := Slots(messages, hasOlder);
    SortedSlotsRise(messages, hasOlder, ordered);
    RenderedIsOrdered(slots, ordered, |messages| + 1);
    SameWhere(ordered, HasSlot(slots), IsKept(messages, hasOlder));
    WhereSorted(ordered, IsKept(messages, hasOlder));
    forall e { WhereCount(ordered, IsKept(messages, hasOlder), e); }
  }

  ghost predicate HoldsSlots(slots: Entry -> int, ordered: seq<Entry>, p: Placement, n: nat) {
    forall i: nat :: i < n ==> Before(p, i) == Where(ordered, InSlot(slots, i))
  }

  /** A placement renders as `Rendered` says. */
  lemma {:induction false} PlacementRenders(
    messages: Messages, slots: Entry -> int, ordered: seq<Entry>, p: Placement, n: nat)
    requires n <= |messages| && HoldsSlots(slots, ordered, p, n)
    ensures EventsOf(ThreadTo(messages, p, n)) == Rendered(slots, ordered, n)
    decreases n
  {
    if n > 0 {
      PlacementRenders(messages, slots, ordered, p, n - 1);
      SlotRenders(messages, slots, ordered, p, n);
    }
  }

  lemma SlotRenders(messages: Messages, slots: Entry -> int, ordered: seq<Entry>, p: Placement, n: nat)
    requires 0 < n <= |messages| && Before(p, n - 1) == Where(ordered, InSlot(slots, n - 1))
    requires EventsOf(ThreadTo(messages, p, n - 1)) == Rendered(slots, ordered, n - 1)
    ensures EventsOf(ThreadTo(messages, p, n)) == Rendered(slots, ordered, n)
  {
    ThreadNext(messages, p, n);
  }

  lemma WholePlacementRenders(messages: Messages, hasOlder: bool, ordered: seq<Entry>, p: Placement)
    requires Places(messages, hasOlder, ordered, p)
    ensures EventsOf(Thread(messages, p)) == Rendered(Slots(messages, hasOlder), ordered, |messages| + 1)
  {
    forall i: nat | i < |messages| ensures Before(p, i) == Where(ordered, InSlot(Slots(messages, hasOlder), i)) {
      SlotIsPlaced(messages, hasOlder, ordered, p, i);
    }
    PlacementRenders(messages, Slots(messages, hasOlder), ordered, p, |messages|);
    ThreadEnd(messages, p);
  }

  lemma ThreadNext(messages: Messages, p: Placement, n: nat)
    requires 0 < n <= |messages|
    ensures EventsOf(ThreadTo(messages, p, n)) == EventsOf(ThreadTo(messages, p, n - 1)) + Before(p, n - 1)
  {
    var a, b := ThreadTo(messages, p, n - 1), EventItems(Before(p, n - 1));
    EventsOfConcat(a, b);
    EventsOfItems(Before(p, n - 1));
    EventsOfConcat(a + b, [MessageItem(n - 1, messages[n - 1])]);
  }

  lemma ThreadEnd(messages: Messages, p: Placement)
    ensures EventsOf(Thread(messages, p)) == EventsOf(ThreadTo(messages, p, |messages|)) + p.trailing
  {
    EventsOfConcat(ThreadTo(messages, p, |messages|), EventItems(p.trailing));
    EventsOfItems(p.trailing);
  }

  function EventsOf(items: seq<Item>): seq<Entry> {
    if items == [] then [] else
    EventsOf(items[..|items| - 1]) + if items[|items| - 1].EventItem? then [items[|items| - 1].event] else []
  }

  lemma {:induction false} EventsOfConcat(a: seq<Item>, b: seq<Item>)
    ensures EventsOf(a + b) == EventsOf(a) + EventsOf(b)
    decreases |b|
  {
    if b == [] {
      assert a + b == a;
    } else {
      assert (a + b)[..|a + b| - 1] == a + b[..|b| - 1];
      EventsOfConcat(a, b[..|b| - 1]);
    }
  }

  lemma {:induction false} EventsOfItems(es: seq<Entry>)
    ensures EventsOf(EventItems(es)) == es
    decreases |es|
  {
    if es != [] {
      assert EventItems(es)[..|es| - 1] == EventItems(es[..|es| - 1]);
      EventsOfItems(es[..|es| - 1]);
    }
  }

  lemma {:induction false} WhereCount(es: seq<Entry>, wanted: Entry -> bool, e: Entry)
    ensures multiset(Where(es, wanted))[e] == if wanted(e) then multiset(es)[e] else 0
    decreases |es|
  {
    if es != [] {
      var n := |es| - 1;
      WhereCount(es[..n], wanted, e);
      assert es == es[..n] + [es[n]];
    }
  }

  // ----- the thread, messages and events together -----

  datatype Item = MessageItem(index: nat, messageStamp: Option<Stamp>) | EventItem(event: Entry)

  function StampOf(x: Item): Option<Stamp> {
    if x.MessageItem? then x.messageStamp else Some(x.event.createdAt)
  }

  function TimeOfItem(x: Item): Time {
    TimeOf(StampOf(x))
  }

  function EventItems(es: seq<Entry>): (r: seq<Item>)
    ensures |r| == |es| && forall i :: 0 <= i < |r| ==> r[i] == EventItem(es[i])
  {
    seq(|es|, i requires 0 <= i < |es| => EventItem(es[i]))
  }

  /** The first `n` messages, each after the events placed before it. */
  function ThreadTo(messages: Messages, p: Placement, n: nat): seq<Item>
    requires n <= |messages|
  {
    if n == 0 then []
    else ThreadTo(messages, p, n - 1) + EventItems(Before(p, n - 1)) + [MessageItem(n - 1, messages[n - 1])]
  }

  function Thread(messages: Messages, p: Placement): seq<Item> {
    ThreadTo(messages, p, |messages|) + EventItems(p.trailing)
  }

  ghost predicate ItemsSorted(items: seq<Item>) {
    forall i, j :: 0 <= i < j < |items| ==> !Less(TimeOfItem(items[j]), TimeOfItem(items[i]))
  }

  ghost predicate MessagesSorted(messages: Messages) {
    forall i, j :: 0 <= i < j < |messages| ==> !Less(MessageTime(messages, j), MessageTime(messages, i))
  }

  ghost predicate NoneLater(items: seq<Item>, t: Time) {
    forall x :: x in items ==> !Less(t, TimeOfItem(x))
  }

  ghost predicate NoneEarlier(items: seq<Item>, t: Time) {
    forall x :: x in items ==> !Less(TimeOfItem(x), t)
  }

  lemma SlotItems(messages: Messages, hasOlder: bool, ordered: seq<Entry>, i: nat)
    requires Sorted(ordered) && i <= |messages|
    ensures var items := EventItems(Where(ordered, GoesTo(messages, hasOlder, i)));
            && ItemsSorted(items)
            && (i > 0 ==> NoneEarlier(items, MessageTime(messages, i - 1)))
            && (i < |messages| ==> NoneLater(items, MessageTime(messages, i)))
  {
    WhereSorted(ordered, GoesTo(messages, hasOlder, i));
    WhereMembers(ordered, GoesTo(messages, hasOlder, i));
    var es := Where(ordered, GoesTo(messages, hasOlder, i));
    forall x | x in EventItems(es)
      ensures i > 0 ==> !Less(TimeOfItem(x), MessageTime(messages, i - 1))
      ensures i < |messages| ==> Less(TimeOfItem(x), MessageTime(messages, i))
    {
      var k :| 0 <= k < |es| && EventItems(es)[k] == x;
      assert es[k] in es;
    }
  }

  lemma SortedConcat(a: seq<Item>, b: seq<Item>, t: Time)
    requires ItemsSorted(a) && ItemsSorted(b) && (a == [] || (NoneLater(a, t) && NoneEarlier(b, t)))
    ensures ItemsSorted(a + b)
  {
    var c := a + b;
    forall i, j | 0 <= i < j < |c| ensures !Less(TimeOfItem(c[j]), TimeOfItem(c[i])) {
      if i < |a| <= j { assert c[i] in a && c[j] in b; }
    }
  }

  /** Events `b` and then the message `m` come after the items `a`, which are not later than `t`. */
  lemma SortedStep(a: seq<Item>, b: seq<Item>, m: Item, t: Time)
    requires ItemsSorted(a) && ItemsSorted(b) && NoneLater(b, TimeOfItem(m))
    requires a == [] || (NoneLater(a, t) && NoneEarlier(b, t) && !Less(TimeOfItem(m), t))
    ensures ItemsSorted(a + b + [m]) && NoneLater(a + b + [m], TimeOfItem(m))
  {
    SortedConcat(a, b, t);
    assert NoneLater(a, TimeOfItem(m));
    SortedConcat(a + b, [m], TimeOfItem(m));
  }

  lemma SlotIsPlaced(messages: Messages, hasOlder: bool, ordered: seq<Entry>, p: Placement, i: nat)
    requires Places(messages, hasOlder, ordered, p) && i <= |messages|
    ensures (if i < |messages| then Before(p, i) else p.trailing) == Where(ordered, GoesTo(messages, hasOlder, i))
  {}

  /** Events `es` are in time order, and fit between the messages around slot `i`. */
  ghost predicate FitsSlot(messages: Messages, es: seq<Entry>, i: nat)
    requires i <= |messages|
  {
    && ItemsSorted(EventItems(es))
    && (i > 0 ==> NoneEarlier(EventItems(es), MessageTime(messages, i - 1)))
    && (i < |messages| ==> NoneLater(EventItems(es), MessageTime(messages, i)))
  }

  lemma PlacedFitsSlot(messages: Messages, hasOlder: bool, ordered: seq<Entry>, p: Placement, i: nat)
    requires Sorted(ordered) && Places(messages, hasOlder, ordered, p) && i <= |messages|
    ensures FitsSlot(messages, if i < |messages| then Before(p, i) else p.trailing, i)
  {
    SlotItems(messages, hasOlder, ordered, i);
    SlotIsPlaced(messages, hasOlder, ordered, p, i);
  }

  lemma {:induction false} ThreadToIsSorted(messages: Messages, p: Placement, n: nat)
    requires MessagesSorted(messages) && n <= |messages|
    requires forall i: nat :: i < n ==> FitsSlot(messages, Before(p, i), i)
    ensures ItemsSorted(ThreadTo(messages, p, n))
    ensures n > 0 ==> NoneLater(ThreadTo(messages, p, n), MessageTime(messages, n - 1))
    decreases n
  {
    if n > 0 {
      ThreadToIsSorted(messages, p, n - 1);
      SortedStep(ThreadTo(messages, p, n - 1), EventItems(Before(p, n - 1)), MessageItem(n - 1, messages[n - 1]),
                 if n > 1 then MessageTime(messages, n - 2) else Infinite);
    }
  }

  lemma FittingThreadIsSorted(messages: Messages, p: Placement)
    requires MessagesSorted(messages) && FitsSlot(messages, p.trailing, |messages|)
    requires forall i: nat :: i < |messages| ==> FitsSlot(messages, Before(p, i), i)
    ensures ItemsSorted(Thread(messages, p))
  {
    var n := |messages|;
    ThreadToIsSorted(messages, p, n);
    SortedConcat(ThreadTo(messages, p, n), EventItems(p.trailing), if n > 0 then MessageTime(messages, n - 1) else Infinite);
  }

  /** When the messages are in time order, so is the whole thread. */
  lemma ThreadIsSorted(messages: Messages, hasOlder: bool, activity: seq<Entry>, p: Placement)
    requires MessagesSorted(messages) && Places(messages, hasOlder, Sort(activity), p)
    ensures ItemsSorted(Thread(messages, p))
  {
    SortSorts(activity);
    forall i: nat | i < |messages| ensures FitsSlot(messages, Before(p, i), i) {
      PlacedFitsSlot(messages, hasOlder, Sort(activity), p, i);
    }
    PlacedFitsSlot(messages, hasOlder, Sort(activity), p, |messages|);
    FittingThreadIsSorted(messages, p);
  }

  // ----- day breaks -----

  type DayOf = Stamp -> string

  /** A missing or empty stamp has no day. */
  function DayOfStamp(stamp: Option<Stamp>, dayOf: DayOf): Option<string> {
    if stamp.None? || stamp.value == NoDate("") then None else Some(dayOf(stamp.value))
  }

  function Day(x: Item, dayOf: DayOf): Option<string> {
    DayOfStamp(StampOf(x), dayOf)
  }

  /** The item's day differs from the day of the item just above it. */
  predicate IsBreak(items: seq<Item>, dayOf: DayOf, p: nat)
    requires p < |items|
  {
    p > 0 && Day(items[p], dayOf).Some? && Day(items[p - 1], dayOf).Some?
    && Day(items[p], dayOf) != Day(items[p - 1], dayOf)
  }

  datatype DayBreaks = DayBreaks(messages: set<nat>, activity: set<string>)

  ghost predicate MarksDayBreaks(items: seq<Item>, dayOf: DayOf, b: DayBreaks) {
    && (forall i :: i in b.messages <==>
                      exists p :: 0 <= p < |items| && IsBreak(items, dayOf, p) && items[p].MessageItem? && items[p].index == i)
    && (forall id :: id in b.activity <==>
                       exists p :: 0 <= p < |items| && IsBreak(items, dayOf, p) && items[p].EventItem? && items[p].event.id == id)
  }

  /** The walk's state: the breaks so far and the day of the last item. */
  ghost predicate Walked(items: seq<Item>, dayOf: DayOf, b: DayBreaks, previousDay: Option<string>) {
    && MarksDayBreaks(items, dayOf, b)
    && previousDay == if items == [] then None else Day(items[|items| - 1], dayOf)
  }

  lemma WalkItem(items: seq<Item>, dayOf: DayOf, b: DayBreaks, previousDay: Option<string>, x: Item)
    requires Walked(items, dayOf, b, previousDay)
    ensures var day := Day(x, dayOf); var changed := day.Some? && previousDay.Some? && day != previousDay;
            Walked(items + [x], dayOf,
                   if !changed then b
                   else if x.MessageItem? then b.(messages := b.messages + {x.index})
                   else b.(activity := b.activity + {x.event.id}),
                   day)
  {
    var all, n := items + [x], |items|;
    assert forall p :: 0 <= p < n ==> all[p] == items[p] && (IsBreak(all, dayOf, p) <==> IsBreak(items, dayOf, p));
    assert all[n] == x;
  }

  method WalkEvents(ghost items: seq<Item>, events: seq<Entry>, dayOf: DayOf, b0: DayBreaks, day0: Option<string>)
    returns (b: DayBreaks, previousDay: Option<string>)
    requires Walked(items, dayOf, b0, day0)
    ensures Walked(items + EventItems(events), dayOf, b, previousDay)
  {
    b, previousDay := b0, day0;
    assert items + EventItems(events)[..0] == items;
    for k := 0 to |events|
      invariant Walked(items + EventItems(events)[..k], dayOf, b, previousDay)
    {
      WalkItem(items + EventItems(events)[..k], dayOf, b, previousDay, EventItem(events[k]));
      assert items + EventItems(events)[..k + 1] == items + EventItems(events)[..k] + [EventItem(events[k])];
      var day := DayOfStamp(Some(events[k].createdAt), dayOf);
      if day.Some? && previousDay.Some? && day != previousDay {
        b := b.(activity := b.activity + {events[k].id});
      }
      previousDay := day;
    }
    assert items + EventItems(events)[..|events|] == items + EventItems(events);
  }

  method ThreadDayBreaks(messages: Messages, p: Placement, dayOf: DayOf) returns (b: DayBreaks)
    ensures MarksDayBreaks(Thread(messages, p), dayOf, b)
  {
    b := DayBreaks({}, {});
    var previousDay: Option<string> := None;
    for i := 0 to |messages|
      invariant Walked(ThreadTo(messages, p, i), dayOf, b, previousDay)
    {
      b, previousDay := WalkEvents(ThreadTo(messages, p, i), Before(p, i), dayOf, b, previousDay);
      ghost var items := ThreadTo(messages, p, i) + EventItems(Before(p, i));
      WalkItem(items, dayOf, b, previousDay, MessageItem(i, messages[i]));
      var day := DayOfStamp(messages[i], dayOf);
      if day.Some? && previousDay.Some? && day != previousDay {
        b := b.(messages := b.messages + {i});
      }
      previousDay := day;
    }
    b, previousDay := WalkEvents(ThreadTo(messages, p, |messages|), p.trailing, dayOf, b, previousDay);
  }
}
