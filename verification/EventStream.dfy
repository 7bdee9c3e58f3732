/**
  The incremental readers of server-sent events: a stream arrives cut at arbitrary places, and a buffer
  loop hands over each event as soon as the blank line that ends it has arrived.
  */
module EventStream {
  import opened Text
  import opened Wrappers

  /** The chat reader ends an event at "\n\n"; the copilot's reader also takes CRLF line ends. */
  datatype Delimiter = BlankLine | TolerantBlankLine

  /** The length of the delimiter that `s` starts with, or 0. */
  function DelimiterOf(d: Delimiter, s: string): (n: nat)
    ensures n > 0 ==> 2 <= n <= |s|
  {
    match d
    case BlankLine => if 2 <= |s| && s[0] == '\n' && s[1] == '\n' then 2 else 0
    case TolerantBlankLine =>
      var a := if 0 < |s| && s[0] == '\r' then 1 else 0;
      if a < |s| && s[a] == '\n' then
        var b := if a + 1 < |s| && s[a + 1] == '\r' then a + 2 else a + 1;
        if b < |s| && s[b] == '\n' then b + 1 else 0
      else 0
  }

  /** A first event, and the text after the delimiter that ends it. */
  datatype First = First(event: string, after: string)

  function CutFirst(d: Delimiter, s: string): (r: Option<First>)
    ensures r.Some? ==> |r.value.event| + |r.value.after| + 2 <= |s|
  {
    if DelimiterOf(d, s) > 0 then Some(First("", s[DelimiterOf(d, s)..]))
    else if s == "" then None
    else
      var r := CutFirst(d, s[1..]);
      if r.None? then None else Some(First([s[0]] + r.value.event, r.value.after))
  }

  /** Where the leftmost delimiter starts, or |s|: `indexOf` and `match(...).index`. */
  function Find(d: Delimiter, s: string): nat {
    var r := CutFirst(d, s);
    if r.None? then |s| else |r.value.event|
  }

  lemma {:induction false} FindBound(d: Delimiter, s: string)
    ensures Find(d, s) <= |s| && (Find(d, s) == |s| <==> CutFirst(d, s).None?)
    decreases |s|
  {
    if DelimiterOf(d, s) == 0 && s != "" { FindBound(d, s[1..]); }
  }

  /** The first event of `s` ends at `i`, and what follows starts after the delimiter there. */
  predicate IsCutAt(d: Delimiter, s: string, i: nat) {
    i <= |s| && CutFirst(d, s) == Some(First(s[..i], s[i + DelimiterOf(d, s[i..])..]))
  }

  /** `CutFirst` slices `s` at the place `Find` gives. */
  lemma {:induction false} FindSlices(d: Delimiter, s: string)
    requires Find(d, s) < |s|
    ensures IsCutAt(d, s, Find(d, s))
    decreases |s|
  {
    if DelimiterOf(d, s) > 0 {
      FirstHere(d, s);
    } else {
      var i := Find(d, s[1..]);
      FindBound(d, s);
      FindSlices(d, s[1..]);
      FirstNext(d, s, i);
    }
  }

  lemma FirstHere(d: Delimiter, s: string)
    requires DelimiterOf(d, s) > 0
    ensures Find(d, s) == 0 && s[0..] == s
    ensures IsCutAt(d, s, 0)
  {}

  lemma FirstNext(d: Delimiter, s: string, i: nat)
    requires s != "" && DelimiterOf(d, s) == 0 && IsCutAt(d, s[1..], i)
    ensures IsCutAt(d, s, i + 1)
  {
    SliceNext(s, i, DelimiterOf(d, s[1..][i..]));
  }

  lemma SliceNext(s: string, i: nat, n: nat)
    requires i + n + 1 <= |s|
    ensures s[i + 1..] == s[1..][i..]
    ensures s[..i + 1] == [s[0]] + s[1..][..i] && s[i + 1 + n..] == s[1..][i + n..]
  {}

  /** `Find` gives the leftmost place: no delimiter starts before it, and one starts there. */
  lemma {:induction false} FindIsLeftmost(d: Delimiter, s: string, j: nat)
    requires j <= Find(d, s) <= |s|
    ensures j < Find(d, s) ==> DelimiterOf(d, s[j..]) == 0
    ensures j == Find(d, s) < |s| ==> DelimiterOf(d, s[j..]) > 0
    decreases j
  {
    if j == 0 {
      assert s[0..] == s;
    } else {
      assert s[j..] == s[1..][j - 1..];
      FindBound(d, s[1..]);
      FindIsLeftmost(d, s[1..], j - 1);
    }
  }

  // ----- the whole text, cut at its delimiters -----

  datatype Cut = Cut(events: seq<string>, rest: string) {
    /** This cut's events, then those of the text that follows it. */
    function Then(next: Cut): Cut {
      Cut(events + next.events, next.rest)
    }

    lemma AfterNothing()
      ensures Cut([], "").Then(this) == this
    {}

    lemma ThenAssociates(b: Cut, c: Cut)
      ensures Then(b).Then(c) == Then(b.Then(c))
    {}
  }

  /** `s` split at leftmost non-overlapping delimiters. */
  function Split(d: Delimiter, s: string): (r: Cut)
    ensures CutFirst(d, r.rest).None?
    decreases |s|
  {
    var first := CutFirst(d, s);
    if first.None? then Cut([], s)
    else Cut([first.value.event], "").Then(Split(d, first.value.after))
  }

  /** What the reader hands over: the split events, and the rest unless it is blank. */
  function RawEvents(d: Delimiter, s: string): seq<string> {
    Flushed(Split(d, s))
  }

  function Flushed(cut: Cut): (r: seq<string>)
    ensures cut.events <= r
  {
    if Trim(cut.rest) == "" then cut.events else cut.events + [cut.rest]
  }

  /** Cutting the first event off the buffer moves it to the events cut so far. */
  lemma CutNext(d: Delimiter, whole: Cut, events: seq<string>, buffer: string, i: nat, n: nat)
    requires i == Find(d, buffer) < |buffer| && n == DelimiterOf(d, buffer[i..])
    requires whole == Cut(events, "").Then(Split(d, buffer))
    ensures n > 0 && i + n <= |buffer|
    ensures whole == Cut(events + [buffer[..i]], "").Then(Split(d, buffer[i + n..]))
  {
    CutAtFind(d, buffer, i, n);
    ThenNext(d, events, buffer, First(buffer[..i], buffer[i + n..]));
  }

  lemma CutAtFind(d: Delimiter, buffer: string, i: nat, n: nat)
    requires i == Find(d, buffer) < |buffer| && n == DelimiterOf(d, buffer[i..])
    ensures n > 0 && i + n <= |buffer|
    ensures CutFirst(d, buffer) == Some(First(buffer[..i], buffer[i + n..]))
  {
    FindBound(d, buffer);
    FindIsLeftmost(d, buffer, i);
    FindSlices(d, buffer);
  }

  lemma NothingLeft(d: Delimiter, events: seq<string>, buffer: string)
    requires Find(d, buffer) >= |buffer|
    ensures Find(d, buffer) == |buffer| && CutFirst(d, buffer).None?
    ensures Cut(events, "").Then(Split(d, buffer)) == Cut(events, buffer)
  {
    FindBound(d, buffer);
  }

  lemma ThenNext(d: Delimiter, events: seq<string>, buffer: string, first: First)
    requires CutFirst(d, buffer) == Some(first)
    ensures Cut(events, "").Then(Split(d, buffer)) == Cut(events + [first.event], "").Then(Split(d, first.after))
  {
    Cut(events, "").ThenAssociates(Cut([first.event], ""), Split(d, first.after));
  }

  lemma ShortCut(d: Delimiter, s: string)
    requires |s| <= 2 && CutFirst(d, s).Some?
    ensures s == "\n\n"
  {}

  /** A delimiter found in the buffer stays the first one when text is appended. */
  lemma {:induction false} FoundStays(d: Delimiter, a: string, b: string)
    requires CutFirst(d, a).Some?
    ensures var r := CutFirst(d, a).value; CutFirst(d, a + b) == Some(First(r.event, r.after + b))
    decreases |a|
  {
    if DelimiterOf(d, a) > 0 {
      HeadStays(d, a, b);
    } else {
      assert (a + b)[1..] == a[1..] + b;
      NoneAtHead(d, a, b);
      FoundStays(d, a[1..], b);
    }
  }

  lemma HeadStays(d: Delimiter, a: string, b: string)
    requires DelimiterOf(d, a) > 0
    ensures CutFirst(d, a + b) == Some(First("", a[DelimiterOf(d, a)..] + b))
  {
    DelimiterStays(d, a, b);
    SuffixOfConcat(a, b, DelimiterOf(d, a));
  }

  lemma DelimiterStays(d: Delimiter, a: string, b: string)
    requires DelimiterOf(d, a) > 0
    ensures DelimiterOf(d, a + b) == DelimiterOf(d, a)
  {}

  lemma SuffixOfConcat(a: string, b: string, n: nat)
    requires n <= |a|
    ensures (a + b)[n..] == a[n..] + b
  {}

  lemma NoneAtHead(d: Delimiter, a: string, b: string)
    requires DelimiterOf(d, a) == 0 && CutFirst(d, a).Some?
    ensures DelimiterOf(d, a + b) == 0
  {
    if |a| == 3 { ShortCut(d, a[1..]); }
  }

  lemma {:induction false} SplitAppend(d: Delimiter, a: string, b: string)
    ensures Split(d, a + b) == Split(d, a).Then(Split(d, Split(d, a).rest + b))
    decreases |a|
  {
    if CutFirst(d, a).Some? {
      FoundStays(d, a, b);
      var first, after := Cut([CutFirst(d, a).value.event], ""), CutFirst(d, a).value.after;
      SplitAppend(d, after, b);
      first.ThenAssociates(Split(d, after), Split(d, Split(d, after).rest + b));
    }
  }

  /** The inner loop: cuts every complete event off the buffer. */
  method Drain(d: Delimiter, buffer: string) returns (events: seq<string>, rest: string)
    ensures Cut(events, rest) == Split(d, buffer)
    ensures Find(d, rest) == |rest|
  {
    events, rest := [], buffer;
    var i := Find(d, rest);
    ghost var whole := Split(d, buffer);
    whole.AfterNothing();
    while i < |rest|
      invariant i == Find(d, rest)
      invariant whole == Cut(events, "").Then(Split(d, rest))
      decreases |rest|
    {
      events, rest := CutOff(d, whole, events, rest, i);
      i := Find(d, rest);
    }
    NothingLeft(d, events, rest);
  }

  /** The body of the loop above. */
  method CutOff(d: Delimiter, ghost whole: Cut, events: seq<string>, rest: string, i: nat)
    returns (events': seq<string>, rest': string)
    requires i == Find(d, rest) < |rest| && whole == Cut(events, "").Then(Split(d, rest))
    ensures whole == Cut(events', "").Then(Split(d, rest')) && |rest'| < |rest|
    ensures events' == events + [rest[..i]]
  {
    var n := DelimiterOf(d, rest[i..]);
    CutNext(d, whole, events, rest, i, n);
    events', rest' := events + [rest[..i]], rest[i + n..];
  }

  /**
    The reading loop. However the text is cut into chunks, the events handed over are those of the
    whole text.
    */
  method ReadRawEvents(d: Delimiter, chunks: seq<string>) returns (raw: seq<string>)
    ensures raw == RawEvents(d, Concat(chunks))
  {
    raw := [];
    var buffer := "";
    for i := 0 to |chunks|
      invariant Cut(raw, buffer) == Split(d, Concat(chunks[..i]))
      invariant Find(d, buffer) == |buffer|
    {
      assert chunks[..i + 1][..i] == chunks[..i];
      SplitAppend(d, Concat(chunks[..i]), chunks[i]);
      buffer := buffer + chunks[i];
      var events;
      events, buffer := Drain(d, buffer);
      raw := raw + events;
    }
    assert chunks[..|chunks|] == chunks;
    if Trim(buffer) != "" {
      raw := raw + [buffer];
    }
  }

  /** What was handed over after some chunks is never taken back by later ones. */
  lemma EventsArriveInOrder(d: Delimiter, chunks: seq<string>, n: nat)
    requires n <= |chunks|
    ensures Split(d, Concat(chunks[..n])).events <= RawEvents(d, Concat(chunks))
  {
    PrefixOfConcat(chunks, n);
    var b :| Concat(chunks) == Concat(chunks[..n]) + b;
    SplitIsMonotone(d, Concat(chunks[..n]), b);
  }

  lemma SplitIsMonotone(d: Delimiter, a: string, b: string)
    ensures Split(d, a).events <= RawEvents(d, a + b)
  {
    SplitAppend(d, a, b);
    assert Split(d, a).events <= Split(d, a + b).events;
  }

  lemma {:induction false} PrefixOfConcat(chunks: seq<string>, n: nat)
    requires n <= |chunks|
    ensures exists b :: Concat(chunks) == Concat(chunks[..n]) + b
    decreases |chunks|
  {
    if n == |chunks| {
      assert chunks[..n] == chunks && Concat(chunks) == Concat(chunks) + "";
    } else {
      var last := |chunks| - 1;
      PrefixOfConcat(chunks[..last], n);
      assert chunks[..last][..n] == chunks[..n];
      var b :| Concat(chunks[..last]) == Concat(chunks[..n]) + b;
      assert Concat(chunks) == Concat(chunks[..n]) + (b + chunks[last]);
    }
  }

  // ----- splitting undoes writing -----

  function Written(events: seq<string>): string {
    if events == [] then "" else events[0] + "\n\n" + Written(events[1..])
  }

  /** An event's text holds no blank line and does not end in a line end. */
  predicate IsEventText(s: string) {
    CutFirst(BlankLine, s).None? && (s == "" || s[|s| - 1] != '\n')
  }

  lemma {:induction false} FirstWritten(e: string, tail: string)
    requires IsEventText(e)
    ensures CutFirst(BlankLine, e + "\n\n" + tail) == Some(First(e, tail))
    decreases |e|
  {
    var s := e + "\n\n" + tail;
    if e == "" {
      assert s[2..] == tail;
    } else {
      assert s[1..] == e[1..] + "\n\n" + tail;
      assert DelimiterOf(BlankLine, s) == 0;
      FirstWritten(e[1..], tail);
      assert [s[0]] + e[1..] == e;
    }
  }

  lemma {:induction false} SplitOfWritten(events: seq<string>, rest: string)
    requires forall i :: 0 <= i < |events| ==> IsEventText(events[i])
    requires CutFirst(BlankLine, rest).None?
    ensures Split(BlankLine, Written(events) + rest) == Cut(events, rest)
    decreases |events|
  {
    if events == [] {
      assert "" + rest == rest;
    } else {
      SplitOfWritten(events[1..], rest);
      SplitOfFirstWritten(events, rest);
    }
  }

  lemma SplitOfFirstWritten(events: seq<string>, rest: string)
    requires events != [] && IsEventText(events[0])
    requires Split(BlankLine, Written(events[1..]) + rest) == Cut(events[1..], rest)
    ensures Split(BlankLine, Written(events) + rest) == Cut(events, rest)
  {
    var tail := Written(events[1..]) + rest;
    WrittenNext(events[0], Written(events[1..]), rest);
    FirstWritten(events[0], tail);
    ThenNext(BlankLine, [], Written(events) + rest, First(events[0], tail));
    Split(BlankLine, Written(events) + rest).AfterNothing();
    FirstEvent(events, rest);
  }

  lemma WrittenNext(e: string, written: string, rest: string)
    ensures (e + "\n\n" + written) + rest == e + "\n\n" + (written + rest)
  {}

  lemma FirstEvent(events: seq<string>, rest: string)
    requires events != []
    ensures Cut([] + [events[0]], "").Then(Cut(events[1..], rest)) == Cut(events, rest)
  {
    assert [] + [events[0]] + events[1..] == events;
  }

  // ----- line ends -----

  function WithoutCr(s: string): string {
    if s == "" then "" else if s[0] == '\r' then WithoutCr(s[1..]) else [s[0]] + WithoutCr(s[1..])
  }

  function MapWithoutCr(events: seq<string>): (r: seq<string>)
    ensures |r| == |events| && forall i :: 0 <= i < |r| ==> r[i] == WithoutCr(events[i])
  {
    seq(|events|, i requires 0 <= i < |events| => WithoutCr(events[i]))
  }

  lemma {:induction false} WithoutCrIdentity(s: string)
    requires '\r' !in s
    ensures WithoutCr(s) == s
    decreases |s|
  {
    if s != "" { WithoutCrIdentity(s[1..]); }
  }

  lemma {:induction false} WithoutCrBlank(s: string)
    ensures IsBlank(WithoutCr(s)) <==> IsBlank(s)
    decreases |s|
  {
    if s != "" {
      WithoutCrBlank(s[1..]);
      BlankHead(s);
      if s[0] != '\r' {
        BlankHead(WithoutCr(s));
        assert WithoutCr(s)[1..] == WithoutCr(s[1..]);
      }
    }
  }

  lemma BlankHead(s: string)
    requires s != ""
    ensures IsBlank(s) <==> IsSpace(s[0]) && IsBlank(s[1..])
  {
    assert s == [s[0]] + s[1..];
  }

  lemma MapWithoutCrConcat(a: seq<string>, b: seq<string>)
    ensures MapWithoutCr(a + b) == MapWithoutCr(a) + MapWithoutCr(b)
  {}

  lemma TrimWithoutCr(s: string)
    ensures Trim(WithoutCr(s)) == "" <==> Trim(s) == ""
  {
    WithoutCrBlank(s);
    TrimOfBlank(s);
    TrimOfBlank(WithoutCr(s));
  }

  /** A text in which every line feed comes after a carriage return. */
  predicate HasNoBareLf(s: string) {
    forall i :: 0 <= i < |s| && s[i] == '\n' ==> i > 0 && s[i - 1] == '\r'
  }

  lemma FindsNothing(s: string)
    requires HasNoBareLf(s)
    ensures CutFirst(BlankLine, s).None?
  {
    var i := Find(BlankLine, s);
    FindBound(BlankLine, s);
    if i < |s| { FindIsLeftmost(BlankLine, s, i); }
  }

  /** The plain reader never sees a blank line in such a text: it hands it over whole, at the end. */
  lemma PlainReaderMissesCrlf(s: string)
    requires HasNoBareLf(s)
    ensures RawEvents(BlankLine, s) == if IsBlank(s) then [] else [s]
  {
    FindsNothing(s);
    assert Split(BlankLine, s) == Cut([], s);
    TrimOfBlank(s);
  }
}
