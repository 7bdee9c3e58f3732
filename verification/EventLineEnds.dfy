/** When each reader reads a text with carriage returns as the plain reader reads it without them. */
module EventLineEnds {
  import opened Text
  import opened Wrappers
  import opened EventStream

  /** The length of the carriage returns and the line feed that `s` starts with, or 0. */
  function ToLineFeed(s: string): (n: nat)
    ensures n <= |s|
  {
    if s == "" then 0
    else if s[0] == '\n' then 1
    else if s[0] == '\r' && ToLineFeed(s[1..]) > 0 then 1 + ToLineFeed(s[1..])
    else 0
  }

  /** The length of the blank line that `s` starts with, whatever carriage returns it has, or 0. */
  function AnyBlankLine(s: string): (n: nat)
    ensures n <= |s| && (n > 0 ==> n >= 2)
  {
    if s != "" && s[0] == '\n' && ToLineFeed(s[1..]) > 0 then 1 + ToLineFeed(s[1..]) else 0
  }

  /** The text before the first blank line, how many carriage returns stand in that line, and the text after it. */
  datatype AnyCut = AnyCut(event: string, crs: nat, after: string)

  function CutAny(s: string): (r: Option<AnyCut>)
    ensures r.Some? ==> |r.value.after| < |s|
  {
    if AnyBlankLine(s) > 0 then Some(AnyCut("", AnyBlankLine(s) - 2, s[AnyBlankLine(s)..]))
    else if s == "" then None
    else
      var r := CutAny(s[1..]);
      if r.None? then None else Some(r.value.(event := [s[0]] + r.value.event))
  }

  /** A blank line with this many carriage returns is no delimiter. */
  predicate IsHidden(d: Delimiter, crs: nat) {
    crs > match d case BlankLine => 0 case TolerantBlankLine => 1
  }

  /** No blank line is hidden, where lines are looked for one after the other. */
  predicate HidesNoBlankLine(d: Delimiter, s: string)
    decreases |s|
  {
    var c := CutAny(s);
    c.None? || (!IsHidden(d, c.value.crs) && HidesNoBlankLine(d, c.value.after))
  }

  lemma {:induction false} ToLineFeedWithoutCr(s: string)
    ensures ToLineFeed(s) > 0 <==> WithoutCr(s) != "" && WithoutCr(s)[0] == '\n'
    ensures ToLineFeed(s) > 0 ==> WithoutCr(s[ToLineFeed(s)..]) == WithoutCr(s)[1..]
    decreases |s|
  {
    if s != "" && s[0] == '\r' {
      ToLineFeedWithoutCr(s[1..]);
      if ToLineFeed(s) > 0 { assert s[ToLineFeed(s)..] == s[1..][ToLineFeed(s) - 1..]; }
    }
  }

  lemma AnyBlankLineWithoutCr(s: string)
    requires s != "" && s[0] != '\r'
    ensures AnyBlankLine(s) > 0 <==> DelimiterOf(BlankLine, WithoutCr(s)) > 0
    ensures AnyBlankLine(s) > 0 ==> WithoutCr(s[AnyBlankLine(s)..]) == WithoutCr(s)[2..]
  {
    var t, n := s[1..], AnyBlankLine(s);
    ToLineFeedWithoutCr(t);
    assert WithoutCr(s) == [s[0]] + WithoutCr(t);
    if n > 0 {
      assert s[n..] == t[n - 1..];
      assert WithoutCr(s)[2..] == WithoutCr(t)[1..];
    }
  }

  /** Without the carriage returns, the first blank line is where the text ends its first event. */
  lemma {:induction false} CutAnyWithoutCr(s: string)
    ensures CutFirst(BlankLine, WithoutCr(s))
            == if CutAny(s).None? then None
               else Some(First(WithoutCr(CutAny(s).value.event), WithoutCr(CutAny(s).value.after)))
    decreases |s|
  {
    if s != "" {
      CutAnyWithoutCr(s[1..]);
      if s[0] == '\r' {
        CrAtHead(s);
      } else {
        AnyBlankLineWithoutCr(s);
        if AnyBlankLine(s) == 0 { OtherAtHead(s); }
      }
    }
  }

  lemma CrAtHead(s: string)
    requires s != "" && s[0] == '\r'
    ensures WithoutCr(s) == WithoutCr(s[1..])
    ensures var c, c1 := CutAny(s), CutAny(s[1..]);
            && (c.None? <==> c1.None?)
            && (c.Some? ==> c.value.after == c1.value.after && WithoutCr(c.value.event) == WithoutCr(c1.value.event))
  {
    var c1 := CutAny(s[1..]);
    if c1.Some? { assert ([s[0]] + c1.value.event)[1..] == c1.value.event; }
  }

  lemma OtherAtHead(s: string)
    requires s != "" && s[0] != '\r' && AnyBlankLine(s) == 0
    ensures WithoutCr(s) == [s[0]] + WithoutCr(s[1..]) && WithoutCr(s)[1..] == WithoutCr(s[1..])
    ensures var c, c1 := CutAny(s), CutAny(s[1..]);
            && (c.None? <==> c1.None?)
            && (c.Some? ==> c.value.after == c1.value.after
                            && WithoutCr(c.value.event) == [s[0]] + WithoutCr(c1.value.event))
  {
    var c1 := CutAny(s[1..]);
    if c1.Some? { assert ([s[0]] + c1.value.event)[1..] == c1.value.event; }
  }

  /**
    A reader's first event is longer than the text before the first blank line where that line is hidden, and
    the same up to carriage returns where it is not.
    */
  ghost predicate CutsAs(d: Delimiter, s: string, c: Option<AnyCut>) {
    var first := CutFirst(d, s);
    if c.None? then first.None?
    else if !IsHidden(d, c.value.crs) then
      first.Some? && first.value.after == c.value.after && WithoutCr(first.value.event) == WithoutCr(c.value.event)
    else
      && |WithoutCr(c.value.event)| < |WithoutCr(s)|
      && (first.Some? ==> |WithoutCr(c.value.event)| < |WithoutCr(first.value.event)|)
  }

  lemma {:induction false} CutsAtAny(d: Delimiter, s: string)
    ensures CutsAs(d, s, CutAny(s))
    decreases |s|
  {
    if AnyBlankLine(s) > 0 {
      BlankLineAtHead(d, s);
    } else if DelimiterOf(d, s) > 0 {
      CrBeforeBlankLine(d, s);
    } else if s != "" {
      CutsAtAny(d, s[1..]);
      CutNextChar(d, s);
    }
  }

  lemma BlankLineAtHead(d: Delimiter, s: string)
    requires AnyBlankLine(s) > 0
    ensures CutsAs(d, s, CutAny(s))
  {
    var n := AnyBlankLine(s);
    LineFeedStays(s[1..]);
    assert [s[0]] + s[1..] == s;
    if IsHidden(d, n - 2) {
      HiddenAtHead(d, s);
      var first := CutFirst(d, s[1..]);
      if first.Some? { LineFeedStays(first.value.event); }
    } else {
      ShownAtHead(d, s);
    }
  }

  /** A line feed after no or one carriage return. */
  lemma ShortToLineFeed(s: string)
    ensures ToLineFeed(s) == 1 <==> |s| >= 1 && s[0] == '\n'
    ensures ToLineFeed(s) == 2 <==> |s| >= 2 && s[0] == '\r' && s[1] == '\n'
  {
    if |s| >= 2 && s[0] == '\r' {
      assert s[1..][0] == s[1];
      assert ToLineFeed(s[1..]) == 1 <==> s[1] == '\n';
    }
  }

  lemma HiddenAtHead(d: Delimiter, s: string)
    requires AnyBlankLine(s) > 0 && IsHidden(d, AnyBlankLine(s) - 2)
    ensures DelimiterOf(d, s) == 0
  {
    ShortToLineFeed(s[1..]);
  }

  lemma ShownAtHead(d: Delimiter, s: string)
    requires AnyBlankLine(s) > 0 && !IsHidden(d, AnyBlankLine(s) - 2)
    ensures DelimiterOf(d, s) == AnyBlankLine(s)
  {
    ShortToLineFeed(s[1..]);
  }

  /** The tolerant delimiter may start with a carriage return. */
  lemma CrBeforeBlankLine(d: Delimiter, s: string)
    requires AnyBlankLine(s) == 0 && DelimiterOf(d, s) > 0
    ensures CutsAs(d, s, CutAny(s))
  {
    var t, n := s[1..], DelimiterOf(d, s);
    assert s[0] == '\r' && t[0] == '\n';
    ShortToLineFeed(t[1..]);
    assert AnyBlankLine(t) == n - 1;
    assert t[n - 1..] == s[n..];
    assert CutAny(s) == Some(AnyCut(['\r'] + "", n - 3, s[n..]));
    HeadWithoutCr('\r', "");
  }

  lemma LineFeedStays(rest: string)
    ensures WithoutCr(['\n'] + rest) == ['\n'] + WithoutCr(rest)
  {
    assert (['\n'] + rest)[1..] == rest;
  }

  lemma CutNextChar(d: Delimiter, s: string)
    requires s != "" && AnyBlankLine(s) == 0 && DelimiterOf(d, s) == 0 && CutsAs(d, s[1..], CutAny(s[1..]))
    ensures CutsAs(d, s, CutAny(s))
  {
    var c1, first1 := CutAny(s[1..]), CutFirst(d, s[1..]);
    if c1.Some? {
      if IsHidden(d, c1.value.crs) {
        LongerWithHead(s[0], c1.value.event, s[1..]);
        assert [s[0]] + s[1..] == s;
        if first1.Some? { LongerWithHead(s[0], c1.value.event, first1.value.event); }
      } else {
        SameWithHead(s[0], first1.value.event, c1.value.event);
      }
    }
  }

  lemma SameWithHead(c: char, x: string, y: string)
    requires WithoutCr(x) == WithoutCr(y)
    ensures WithoutCr([c] + x) == WithoutCr([c] + y)
  {
    HeadWithoutCr(c, x);
    HeadWithoutCr(c, y);
  }

  lemma LongerWithHead(c: char, x: string, y: string)
    requires |WithoutCr(x)| < |WithoutCr(y)|
    ensures |WithoutCr([c] + x)| < |WithoutCr([c] + y)|
  {
    HeadWithoutCr(c, x);
    HeadWithoutCr(c, y);
  }

  lemma HeadWithoutCr(c: char, rest: string)
    ensures WithoutCr([c] + rest) == (if c == '\r' then [] else [c]) + WithoutCr(rest)
  {
    assert ([c] + rest)[1..] == rest;
  }

  lemma RawNext(d: Delimiter, s: string, first: First)
    requires CutFirst(d, s) == Some(first)
    ensures RawEvents(d, s) == [first.event] + RawEvents(d, first.after)
  {
    FlushedNext(first.event, Split(d, first.after));
  }

  lemma FlushedNext(event: string, cut: Cut)
    ensures Flushed(Cut([event], "").Then(cut)) == [event] + Flushed(cut)
  {
    assert [event] + (cut.events + [cut.rest]) == ([event] + cut.events) + [cut.rest];
  }

  lemma RawOfUncut(d: Delimiter, s: string)
    requires CutFirst(d, s).None?
    ensures RawEvents(d, s) == if Trim(s) == "" then [] else [s]
  {
    assert Split(d, s) == Cut([], s);
    FlushedRest(s);
  }

  lemma FlushedRest(s: string)
    ensures Flushed(Cut([], s)) == if Trim(s) == "" then [] else [s]
  {
    assert [] + [s] == [s];
  }

  lemma SameAfterHead(x: string, event: string, a: seq<string>, b: seq<string>)
    requires x == WithoutCr(event)
    ensures MapWithoutCr([event] + a) == [x] + b <==> MapWithoutCr(a) == b
  {
    MapWithoutCrConcat([event], a);
    assert MapWithoutCr([event]) == [x];
    assert ([x] + b)[1..] == b && ([x] + MapWithoutCr(a))[1..] == MapWithoutCr(a);
  }

  /**
    A reader hands over the events that the plain reader has of the text without carriage returns, up to those
    that parsing an event ignores, if and only if no blank line is hidden from it: by any carriage return
    between the two line feeds for the plain reader, and by more than one for the tolerant reader.
    */
  lemma {:induction false} ReadsAsWithoutCr(d: Delimiter, s: string)
    ensures MapWithoutCr(RawEvents(d, s)) == RawEvents(BlankLine, WithoutCr(s)) <==> HidesNoBlankLine(d, s)
    decreases |s|
  {
    var c, first := CutAny(s), CutFirst(d, s);
    CutAnyWithoutCr(s);
    CutsAtAny(d, s);
    if c.None? {
      RawOfUncut(d, s);
      RawOfUncut(BlankLine, WithoutCr(s));
      TrimWithoutCr(s);
    } else {
      var event, after := WithoutCr(c.value.event), c.value.after;
      RawNext(BlankLine, WithoutCr(s), First(event, WithoutCr(after)));
      if IsHidden(d, c.value.crs) {
        HiddenIsMissed(d, s, event, RawEvents(BlankLine, WithoutCr(after)));
      } else {
        RawNext(d, s, first.value);
        ReadsAsWithoutCr(d, after);
        SameAfterHead(event, first.value.event, RawEvents(d, after), RawEvents(BlankLine, WithoutCr(after)));
      }
    }
  }

  lemma HiddenIsMissed(d: Delimiter, s: string, event: string, rest: seq<string>)
    requires |event| < |WithoutCr(s)|
    requires var first := CutFirst(d, s); first.Some? ==> |event| < |WithoutCr(first.value.event)|
    ensures MapWithoutCr(RawEvents(d, s)) != [event] + rest
  {
    var first, raw := CutFirst(d, s), RawEvents(d, s);
    if first.Some? { RawNext(d, s, first.value); } else { RawOfUncut(d, s); }
    if raw != [] { assert MapWithoutCr(raw)[0] == WithoutCr(raw[0]); }
  }

  // ----- texts whose line ends are all alike -----

  /** Where every line feed follows a carriage return, nothing is hidden exactly when there is no blank line at all. */
  lemma CrlfHidesEveryBlankLine(s: string)
    requires HasNoBareLf(s)
    ensures HidesNoBlankLine(BlankLine, s) <==> CutFirst(BlankLine, WithoutCr(s)).None?
  {
    CutAnyWithoutCr(s);
    CutsAtAny(BlankLine, s);
    FindsNothing(s);
  }

  /** Each carriage return is part of a CRLF line end. */
  predicate HasCrlfOnly(s: string) {
    forall i :: 0 <= i < |s| && s[i] == '\r' ==> i + 1 < |s| && s[i + 1] == '\n'
  }

  lemma {:induction false} CrlfCut(s: string)
    requires HasCrlfOnly(s)
    ensures CutAny(s).Some? ==> CutAny(s).value.crs <= 1 && HasCrlfOnly(CutAny(s).value.after)
    decreases |s|
  {
    if AnyBlankLine(s) > 0 {
      ShortToLineFeed(s[1..]);
    } else if s != "" {
      CrlfCut(s[1..]);
    }
  }

  lemma {:induction false} CrlfHidesNothing(s: string)
    requires HasCrlfOnly(s)
    ensures HidesNoBlankLine(TolerantBlankLine, s)
    decreases |s|
  {
    CrlfCut(s);
    if CutAny(s).Some? { CrlfHidesNothing(CutAny(s).value.after); }
  }

  /**
    On a text with CRLF line ends the tolerant reader hands over what the plain reader hands over for
    the same text with LF line ends.
    */
  lemma TolerantReaderReadsCrlf(s: string)
    requires HasCrlfOnly(s)
    ensures MapWithoutCr(RawEvents(TolerantBlankLine, s)) == RawEvents(BlankLine, WithoutCr(s))
  {
    CrlfHidesNothing(s);
    ReadsAsWithoutCr(TolerantBlankLine, s);
  }
}
