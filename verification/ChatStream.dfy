/** The chat stream: events parsed from the raw text, and the answer put together from them. */
module ChatStream {
  import opened Text
  import opened EventStream

  // ----- one event's text -----

  datatype SseEvent = SseEvent(name: string, data: string)

  function Lines(s: string): (r: seq<string>)
    ensures r != []
  {
    if s == "" then [""]
    else
      var rest := Lines(s[1..]);
      if s[0] == '\n' then [""] + rest else [[s[0]] + rest[0]] + rest[1..]
  }

  const EVENT := "event:"
  const DATA := "data:"

  /** The last event line names the event. */
  function NameOf(lines: seq<string>): string {
    if lines == [] then "message"
    else if EVENT <= lines[|lines| - 1] then Trim(lines[|lines| - 1][6..])
    else NameOf(lines[..|lines| - 1])
  }

  function DataLine(line: string): seq<string> {
    if !(EVENT <= line) && DATA <= line then [Trim(line[5..])] else []
  }

  function DataOf(lines: seq<string>): seq<string> {
    if lines == [] then [] else DataOf(lines[..|lines| - 1]) + DataLine(lines[|lines| - 1])
  }

  function Parsed(raw: string): SseEvent {
    var lines := Lines(WithoutCr(raw));
    SseEvent(NameOf(lines), Join(DataOf(lines), "\n"))
  }

  lemma ReadLine(lines: seq<string>, i: nat)
    requires i < |lines|
    ensures NameOf(lines[..i + 1]) == if EVENT <= lines[i] then Trim(lines[i][6..]) else NameOf(lines[..i])
    ensures DataOf(lines[..i + 1]) == DataOf(lines[..i]) + DataLine(lines[i])
  {
    assert lines[..i + 1][..i] == lines[..i];
  }

  method ParseSseEvent(raw: string) returns (e: SseEvent)
    ensures e == Parsed(raw)
  {
    var lines := Lines(WithoutCr(raw));
    var eventName := "message";
    var dataLines: seq<string> := [];
    for i := 0 to |lines|
      invariant eventName == NameOf(lines[..i]) && dataLines == DataOf(lines[..i])
    {
      var line := lines[i];
      ReadLine(lines, i);
      if EVENT <= line {
        eventName := Trim(line[6..]);
      } else if DATA <= line {
        dataLines := dataLines + [Trim(line[5..])];
      }
    }
    assert lines[..|lines|] == lines;
    e := SseEvent(eventName, Join(dataLines, "\n"));
  }

  // ----- what any event's text reads, line by line -----

  /** A line as the format has it: it names the event, it is data, or it is something else. */
  datatype Line = Event(value: string) | Data(value: string) | Other(text: string)

  function LineText(line: Line): string {
    match line
    case Event(value) => "event:" + value
    case Data(value) => "data:" + value
    case Other(text) => text
  }

  predicate IsLine(line: Line) {
    && '\n' !in LineText(line)
    && (line.Other? ==> !("event:" <= line.text) && !("data:" <= line.text))
  }

  function Texts(lines: seq<Line>): (r: seq<string>)
    ensures |r| == |lines| && forall i :: 0 <= i < |r| ==> r[i] == LineText(lines[i])
  {
    seq(|lines|, i requires 0 <= i < |lines| => LineText(lines[i]))
  }

  /** The last name given, trimmed, or "message". */
  function LastName(lines: seq<Line>): string {
    if lines == [] then "message"
    else if lines[|lines| - 1].Event? then Trim(lines[|lines| - 1].value)
    else LastName(lines[..|lines| - 1])
  }

  /** The data, each line trimmed, in order. */
  function DataValues(lines: seq<Line>): seq<string> {
    if lines == [] then [] else
    DataValues(lines[..|lines| - 1]) + if lines[|lines| - 1].Data? then [Trim(lines[|lines| - 1].value)] else []
  }

  lemma LineReads(line: Line)
    requires IsLine(line)
    ensures var text := LineText(line);
            && (EVENT <= text <==> line.Event?)
            && (line.Event? ==> Trim(text[6..]) == Trim(line.value))
            && DataLine(text) == if line.Data? then [Trim(line.value)] else []
  {
    var text := LineText(line);
    match line {
      case Event(value) => assert text[6..] == value;
      case Data(value) => assert text[5..] == value && text[0] == 'd';
      case Other(_) =>
    }
  }

  lemma {:induction false} LinesRead(lines: seq<Line>)
    requires forall i :: 0 <= i < |lines| ==> IsLine(lines[i])
    ensures NameOf(Texts(lines)) == LastName(lines) && DataOf(Texts(lines)) == DataValues(lines)
    decreases |lines|
  {
    if lines != [] {
      var n := |lines| - 1;
      LinesRead(lines[..n]);
      LineReads(lines[n]);
      TextsNext(lines);
    }
  }

  lemma TextsNext(lines: seq<Line>)
    requires lines != []
    ensures var n := |lines| - 1;
            && NameOf(Texts(lines)) == (if EVENT <= LineText(lines[n]) then Trim(LineText(lines[n])[6..]) else NameOf(Texts(lines[..n])))
            && DataOf(Texts(lines)) == DataOf(Texts(lines[..n])) + DataLine(LineText(lines[n]))
  {
    assert Texts(lines)[..|lines| - 1] == Texts(lines[..|lines| - 1]);
  }

  /**
    An event's text reads, up to carriage returns, as its lines say: the last name given, and all its data, each
    trimmed and joined by line feeds.
    */
  lemma ParsedLines(raw: string, lines: seq<Line>)
    requires lines != [] && forall i :: 0 <= i < |lines| ==> IsLine(lines[i])
    requires WithoutCr(raw) == Join(Texts(lines), "\n")
    ensures Parsed(raw) == SseEvent(LastName(lines), Join(DataValues(lines), "\n"))
  {
    forall x | x in Texts(lines) ensures '\n' !in x {
      var i :| 0 <= i < |lines| && Texts(lines)[i] == x;
      assert IsLine(lines[i]);
    }
    LinesOfJoin(Texts(lines));
    LinesRead(lines);
  }

  // ----- parsing undoes formatting -----

  /** Text that fits on one line and keeps its ends when trimmed. */
  predicate IsField(s: string) {
    '\n' !in s && '\r' !in s && IsTrimmed(s)
  }

  function FieldLine(prefix: string, x: string): string {
    prefix + " " + x
  }

  function DataLines(data: seq<string>): (r: seq<string>)
    ensures |r| == |data| && forall i :: 0 <= i < |r| ==> r[i] == FieldLine(DATA, data[i])
  {
    seq(|data|, i requires 0 <= i < |data| => FieldLine(DATA, data[i]))
  }

  function Format(name: string, data: seq<string>): string {
    Join([FieldLine(EVENT, name)] + DataLines(data), "\n")
  }

  lemma {:induction false} LinesOfFirst(x: string, rest: string)
    requires '\n' !in x
    ensures Lines(x + "\n" + rest) == [x] + Lines(rest)
    decreases |x|
  {
    var s := x + "\n" + rest;
    if x == "" {
      assert s[1..] == rest;
    } else {
      assert s[1..] == x[1..] + "\n" + rest;
      LinesOfFirst(x[1..], rest);
      assert [s[0]] + x[1..] == x;
    }
  }

  lemma {:induction false} LinesOfOne(x: string)
    requires '\n' !in x
    ensures Lines(x) == [x]
    decreases |x|
  {
    if x != "" {
      LinesOfOne(x[1..]);
      assert [x[0]] + x[1..] == x;
    }
  }

  lemma {:induction false} LinesOfJoin(lines: seq<string>)
    requires lines != [] && forall x :: x in lines ==> '\n' !in x
    ensures Lines(Join(lines, "\n")) == lines
    decreases |lines|
  {
    if |lines| == 1 {
      LinesOfOne(lines[0]);
    } else {
      LinesOfJoin(lines[1..]);
      LinesOfFirst(lines[0], Join(lines[1..], "\n"));
    }
  }

  lemma {:induction false} JoinHasNo(lines: seq<string>, c: char)
    requires c != '\n' && forall x :: x in lines ==> c !in x
    ensures c !in Join(lines, "\n")
    decreases |lines|
  {
    if |lines| > 1 { JoinHasNo(lines[1..], c); }
  }

  lemma FormatLine(prefix: string, x: string)
    requires prefix == EVENT || prefix == DATA
    requires IsField(x)
    ensures var line := FieldLine(prefix, x);
            prefix <= line && line[0] == prefix[0] && Trim(line[|prefix|..]) == x
  {
    assert FieldLine(prefix, x)[|prefix|..] == [' '] + x;
    TrimDropsSpace(x);
    TrimKeeps(x);
  }

  lemma FieldLineIsOneLine(prefix: string, x: string)
    requires prefix == EVENT || prefix == DATA
    requires IsField(x)
    ensures '\n' !in FieldLine(prefix, x) && '\r' !in FieldLine(prefix, x)
  {}

  lemma FormattedDataLine(x: string)
    requires IsField(x)
    ensures DataLine(FieldLine(DATA, x)) == [x] && !(EVENT <= FieldLine(DATA, x))
  {
    FormatLine(DATA, x);
    var line := FieldLine(DATA, x);
    assert line[0] != EVENT[0];
  }

  /** `lines` is an event line and one data line for each element of `data`. */
  ghost predicate Carries(lines: seq<string>, data: seq<string>) {
    && |lines| == |data| + 1 && EVENT <= lines[0]
    && forall i :: 0 <= i < |data| ==> !(EVENT <= lines[i + 1]) && DataLine(lines[i + 1]) == [data[i]]
  }

  lemma {:induction false} DataOfLines(lines: seq<string>, data: seq<string>, n: nat)
    requires Carries(lines, data) && n <= |data|
    ensures DataOf(lines[..n + 1]) == data[..n] && NameOf(lines[..n + 1]) == Trim(lines[0][6..])
    decreases n
  {
    ReadLine(lines, n);
    if n == 0 {
      assert lines[..0] == [];
    } else {
      DataOfLines(lines, data, n - 1);
      TakeNext(data, n - 1);
    }
  }

  lemma TakeNext<T>(s: seq<T>, n: nat)
    requires n < |s|
    ensures s[..n + 1] == s[..n] + [s[n]]
  {}

  /** Whatever was formatted is what parsing reads. */
  lemma ParsedFormat(name: string, data: seq<string>)
    requires IsField(name) && forall x :: x in data ==> IsField(x)
    ensures Parsed(Format(name, data)) == SseEvent(name, Join(data, "\n"))
  {
    var lines := [FieldLine(EVENT, name)] + DataLines(data);
    LinesOfFormat(name, data);
    FormatLine(EVENT, name);
    FormatCarries(name, data);
    DataOfLines(lines, data, |data|);
    assert lines[..|data| + 1] == lines && data[..|data|] == data;
  }

  lemma FormatCarries(name: string, data: seq<string>)
    requires IsField(name) && forall x :: x in data ==> IsField(x)
    ensures Carries([FieldLine(EVENT, name)] + DataLines(data), data)
  {
    FormatLine(EVENT, name);
    forall i | 0 <= i < |data| ensures var line := DataLines(data)[i]; !(EVENT <= line) && DataLine(line) == [data[i]] {
      FormattedDataLine(data[i]);
    }
  }

  lemma LinesOfFormat(name: string, data: seq<string>)
    requires IsField(name) && forall x :: x in data ==> IsField(x)
    ensures Lines(WithoutCr(Format(name, data))) == [FieldLine(EVENT, name)] + DataLines(data)
  {
    var lines := [FieldLine(EVENT, name)] + DataLines(data);
    FormattedLines(name, data);
    JoinHasNo(lines, '\r');
    WithoutCrIdentity(Join(lines, "\n"));
    LinesOfJoin(lines);
  }

  lemma FormattedLines(name: string, data: seq<string>)
    requires IsField(name) && forall x :: x in data ==> IsField(x)
    ensures forall x :: x in [FieldLine(EVENT, name)] + DataLines(data) ==> '\n' !in x && '\r' !in x && x != ""
  {
    FieldLineIsOneLine(EVENT, name);
    forall x | x in DataLines(data) ensures '\n' !in x && '\r' !in x && x != "" {
      var i :| 0 <= i < |data| && DataLines(data)[i] == x;
      FieldLineIsOneLine(DATA, data[i]);
    }
  }

  lemma {:induction false} JoinIsEventText(lines: seq<string>)
    requires lines != [] && forall i :: 0 <= i < |lines| ==> '\n' !in lines[i] && lines[i] != ""
    ensures IsEventText(Join(lines, "\n")) && Join(lines, "\n") != "" && Join(lines, "\n")[0] != '\n'
    decreases |lines|
  {
    if |lines| == 1 {
      TextIsEventText(lines[0], "");
      assert lines[0] + "" == lines[0];
    } else {
      JoinIsEventText(lines[1..]);
      var rest := Join(lines[1..], "\n");
      assert Join(lines, "\n") == lines[0] + ("\n" + rest);
      assert ("\n" + rest)[1..] == rest;
      TextIsEventText(lines[0], "\n" + rest);
    }
  }

  lemma {:induction false} TextIsEventText(x: string, rest: string)
    requires '\n' !in x && CutFirst(BlankLine, rest).None?
    ensures CutFirst(BlankLine, x + rest).None?
    decreases |x|
  {
    if x == "" {
      assert x + rest == rest;
    } else {
      assert (x + rest)[1..] == x[1..] + rest;
      TextIsEventText(x[1..], rest);
    }
  }

  datatype Outgoing = Outgoing(name: string, data: seq<string>)

  function FormatAll(events: seq<Outgoing>): (r: seq<string>)
    ensures |r| == |events| && forall i :: 0 <= i < |r| ==> r[i] == Format(events[i].name, events[i].data)
  {
    seq(|events|, i requires 0 <= i < |events| => Format(events[i].name, events[i].data))
  }

  /** The whole way: what a server writes, cut into chunks anyhow, is read back event by event. */
  lemma ReaderInvertsWriter(events: seq<Outgoing>, chunks: seq<string>)
    requires forall e :: e in events ==> IsField(e.name) && forall x :: x in e.data ==> IsField(x)
    requires Concat(chunks) == Written(FormatAll(events))
    ensures var raw := RawEvents(BlankLine, Concat(chunks));
            && |raw| == |events|
            && forall i :: 0 <= i < |raw| ==> Parsed(raw[i]) == SseEvent(events[i].name, Join(events[i].data, "\n"))
  {
    var texts := FormatAll(events);
    forall i | 0 <= i < |events|
      ensures IsEventText(texts[i])
      ensures Parsed(texts[i]) == SseEvent(events[i].name, Join(events[i].data, "\n"))
    {
      var e := events[i];
      FormattedLines(e.name, e.data);
      JoinIsEventText([FieldLine(EVENT, e.name)] + DataLines(e.data));
      ParsedFormat(e.name, e.data);
    }
    SplitOfWritten(texts, "");
    assert Written(texts) + "" == Written(texts);
    assert Flushed(Cut(texts, "")) == texts by { TrimOfBlank(""); }
  }
}
