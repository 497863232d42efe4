/** Server-sent events: the formatter of `oxyroute/sse.py` read back by the event stream
    interpretation of the HTML Living Standard, sections 9.2.5 and 9.2.6. */
module Sse {
  import opened Text
  import opened Decimal

  // ---- Formatting ----------------------------------------------------------------------------

  datatype SseEvent = SseEvent(data: string, event: Option<string>, id: Option<string>, retry: Option<int>)

  /** An item handed to `send_sse`: plain text or an event. */
  datatype Item = Plain(text: string) | Event(ev: SseEvent)

  datatype SseError = NewlineInEvent | NewlineInId

  predicate IsNewline(c: char) {
    c == '\r' || c == '\n'
  }

  predicate HasNewline(s: string) {
    exists i :: 0 <= i < |s| && IsNewline(s[i])
  }

  /** The line boundaries of Python's `str.splitlines`. */
  predicate IsLineBoundary(c: char) {
    IsNewline(c) || c == '\U{0B}' || c == '\U{0C}' || '\U{1C}' <= c <= '\U{1E}'
    || c == '\U{85}' || c == '\U{2028}' || c == '\U{2029}'
  }

  /** Length of the first line of `s`, its boundary not included. */
  function FirstLine(s: string): (n: nat)
    ensures n <= |s|
    ensures forall i | 0 <= i < n :: !IsLineBoundary(s[i])
    ensures n < |s| ==> IsLineBoundary(s[n])
  {
    if s == "" || IsLineBoundary(s[0]) then 0 else 1 + FirstLine(s[1..])
  }

  /** Where the second line starts: a carriage return and line feed count as one boundary. */
  function NextLine(s: string): (n: nat)
    requires s != ""
    ensures 0 < n <= |s|
  {
    var n := FirstLine(s);
    if n == |s| then n
    else if s[n] == '\r' && n + 1 < |s| && s[n + 1] == '\n' then n + 2
    else n + 1
  }

  /** `str.splitlines()`. */
  function SplitLines(s: string): (lines: seq<string>)
    ensures forall line | line in lines :: !HasNewline(line)
    decreases |s|
  {
    if s == "" then [] else
      [s[..FirstLine(s)]] + SplitLines(s[NextLine(s)..])
  }

  /** `ev.data.splitlines() or [""]`. */
  function DataLines(data: string): (lines: seq<string>)
    ensures lines != [] && forall line | line in lines :: !HasNewline(line)
  {
    if SplitLines(data) == [] then [""] else SplitLines(data)
  }

  function FieldLines(ev: SseEvent): seq<string> {
    (if ev.event.Some? && ev.event.value != "" then ["event: " + ev.event.value] else [])
    + (if ev.id.Some? && ev.id.value != "" then ["id: " + ev.id.value] else [])
    + (if ev.retry.Some? then ["retry: " + PrintInt(ev.retry.value)] else [])
  }

  function Prefixed(lines: seq<string>): (r: seq<string>)
    ensures |r| == |lines| && forall i | 0 <= i < |lines| :: r[i] == "data: " + lines[i]
  {
    seq(|lines|, i requires 0 <= i < |lines| => "data: " + lines[i])
  }

  function ChunkLines(ev: SseEvent): seq<string> {
    FieldLines(ev) + Prefixed(DataLines(ev.data))
  }

  predicate Acceptable(ev: SseEvent) {
    && (ev.event.Some? ==> !HasNewline(ev.event.value))
    && (ev.id.Some? ==> !HasNewline(ev.id.value))
  }

  /** The loop over the data lines. */
  method AppendDataLines(start: seq<string>, data: string) returns (lines: seq<string>)
    ensures lines == start + Prefixed(DataLines(data))
  {
    lines := start;
    var dataLines := DataLines(data);
    for i := 0 to |dataLines|
      invariant lines == start + Prefixed(dataLines)[..i]
    {
      lines := lines + ["data: " + dataLines[i]];
      assert Prefixed(dataLines)[..i + 1] == Prefixed(dataLines)[..i] + ["data: " + dataLines[i]];
    }
    assert Prefixed(dataLines)[..|dataLines|] == Prefixed(dataLines);
  }

  /** `_format_sse_event`. */
  method FormatSseEvent(ev: SseEvent) returns (r: Result<string, SseError>)
    ensures r.Ok? <==> Acceptable(ev)
    ensures r.Ok? ==> r.value == Join(ChunkLines(ev), "\n") + "\n\n"
    ensures r == Err(NewlineInEvent) <==> ev.event.Some? && HasNewline(ev.event.value)
  {
    var lines: seq<string> := [];
    if ev.event.Some? && ev.event.value != "" {
      if HasNewline(ev.event.value) {
        return Err(NewlineInEvent);
      }
      lines := lines + ["event: " + ev.event.value];
    }
    if ev.id.Some? && ev.id.value != "" {
      if HasNewline(ev.id.value) {
        return Err(NewlineInId);
      }
      lines := lines + ["id: " + ev.id.value];
    }
    if ev.retry.Some? {
      lines := lines + ["retry: " + PrintInt(ev.retry.value)];
    }
    assert lines == FieldLines(ev);
    lines := AppendDataLines(lines, ev.data);
    return Ok(Join(lines, "\n") + "\n\n");
  }

  function EventOf(item: Item): SseEvent {
    match item
    case Plain(text) => SseEvent(text, None, None, None)
    case Event(ev) => ev
  }

  function Chunk(item: Item): string {
    Join(ChunkLines(EventOf(item)), "\n") + "\n\n"
  }

  /** The body of a response: the chunks of all items, in order. */
  function Stream(items: seq<Item>): string {
    if items == [] then "" else Chunk(items[0]) + Stream(items[1..])
  }

  // ---- Reading (sections 9.2.5 and 9.2.6) -----------------------------------------------------

  datatype Message = Message(eventType: string, data: string, lastEventId: string)

  datatype Reader = Reader(
    dataBuffer: string,
    typeBuffer: string,
    idBuffer: string,
    reconnectionTime: Option<nat>,
    dispatched: seq<Message>)

  const START := Reader("", "", "", None, [])

  /** Length of the first line, ended by a carriage return, a line feed or both. */
  function LineLength(s: string): (n: nat)
    ensures n <= |s|
    ensures forall i | 0 <= i < n :: !IsNewline(s[i])
    ensures n < |s| ==> IsNewline(s[n])
  {
    if s == "" || IsNewline(s[0]) then 0 else 1 + LineLength(s[1..])
  }

  /** The complete lines of a stream; an unfinished last line is discarded. */
  function StreamLines(s: string): seq<string>
    decreases |s|
  {
    var n := LineLength(s);
    if n == |s| then []
    else
      var next := if s[n] == '\r' && n + 1 < |s| && s[n + 1] == '\n' then n + 2 else n + 1;
      [s[..n]] + StreamLines(s[next..])
  }

  function ColonIndex(line: string): (i: nat)
    ensures i <= |line|
    ensures i < |line| ==> line[i] == ':'
    ensures forall k | 0 <= k < i :: line[k] != ':'
  {
    if line == "" || line[0] == ':' then 0 else 1 + ColonIndex(line[1..])
  }

  /** Dispatch the event when a blank line is met. */
  function Dispatch(r: Reader): Reader {
    if r.dataBuffer == "" then r.(typeBuffer := "")
    else
      var data := if r.dataBuffer[|r.dataBuffer| - 1] == '\n' then r.dataBuffer[..|r.dataBuffer| - 1] else r.dataBuffer;
      var eventType := if r.typeBuffer == "" then "message" else r.typeBuffer;
      r.(dispatched := r.dispatched + [Message(eventType, data, r.idBuffer)], dataBuffer := "", typeBuffer := "")
  }

  function Field(r: Reader, name: string, value: string): Reader {
    if name == "event" then r.(typeBuffer := value)
    else if name == "data" then r.(dataBuffer := r.dataBuffer + value + "\n")
    else if name == "id" then
      if '\0' in value then r else r.(idBuffer := value)
    else if name == "retry" then
      if value != "" && AllDigits(value) then r.(reconnectionTime := Some(ReadNat(value))) else r
    else r
  }

  function ReadLine(r: Reader, line: string): Reader {
    if line == "" then Dispatch(r)
    else
      var c := ColonIndex(line);
      if c == 0 then r
      else if c == |line| then Field(r, line, "")
      else
        var rest := line[c + 1..];
        Field(r, line[..c], if rest != "" && rest[0] == ' ' then rest[1..] else rest)
  }

  function ReadLines(r: Reader, lines: seq<string>): Reader
    decreases lines
  {
    if lines == [] then r else ReadLines(ReadLine(r, lines[0]), lines[1..])
  }

  /** Interpret a stream from its beginning; one leading byte order mark is dropped. */
  function Interpret(s: string): Reader {
    ReadLines(START, StreamLines(if s != "" && s[0] == '\U{FEFF}' then s[1..] else s))
  }

  // ---- What is dispatched ---------------------------------------------------------------------

  /** The identifier in force after an event: its own, unless it is empty or contains a null,
      which readers ignore. */
  function NextId(ev: SseEvent, last: string): string {
    if ev.id.Some? && ev.id.value != "" && '\0' !in ev.id.value then ev.id.value else last
  }

  function NextRetry(ev: SseEvent, last: Option<nat>): Option<nat> {
    if ev.retry.Some? && ev.retry.value >= 0 then Some(ev.retry.value) else last
  }

  function EventType(ev: SseEvent): string {
    if ev.event.Some? && ev.event.value != "" then ev.event.value else "message"
  }

  /** One message per item: its name, its lines joined by line feeds, and the last identifier
      carried over. */
  function Expected(items: seq<Item>, last: string): seq<Message> {
    if items == [] then [] else
      var ev := EventOf(items[0]);
      [Message(EventType(ev), Join(DataLines(ev.data), "\n"), NextId(ev, last))]
      + Expected(items[1..], NextId(ev, last))
  }

  function LastRetry(items: seq<Item>, last: Option<nat>): Option<nat> {
    if items == [] then last else LastRetry(items[1..], NextRetry(EventOf(items[0]), last))
  }

  /** The events that are accepted: no line break in the name and none in the identifier. */
  lemma AcceptableExactly(ev: SseEvent)
    ensures Acceptable(ev) <==>
            (ev.event.Some? ==> '\r' !in ev.event.value && '\n' !in ev.event.value)
            && (ev.id.Some? ==> '\r' !in ev.id.value && '\n' !in ev.id.value)
  {
    if ev.event.Some? {
      NewlineIn(ev.event.value);
    }
    if ev.id.Some? {
      NewlineIn(ev.id.value);
    }
  }

  lemma NewlineIn(s: string)
    ensures HasNewline(s) <==> '\r' in s || '\n' in s
  {
    if HasNewline(s) {
      var i :| 0 <= i < |s| && IsNewline(s[i]);
      assert s[i] in s;
    }
    if c :| c in s && IsNewline(c) {
      var i :| 0 <= i < |s| && s[i] == c;
      assert IsNewline(s[i]);
    }
  }

  lemma {:induction false} FirstLineIs(line: string, rest: string)
    requires (forall c | c in line :: !IsLineBoundary(c)) && rest != "" && IsLineBoundary(rest[0])
    ensures FirstLine(line + rest) == |line|
  {
    if line == "" {
      assert line + rest == rest;
    } else {
      assert line[0] in line && (line + rest)[1..] == line[1..] + rest;
      assert forall c | c in line[1..] :: c in line;
      FirstLineIs(line[1..], rest);
    }
  }

  /** Data is cut at every line boundary, a carriage return with its line feed being one. */
  lemma SplitsAtBoundary(line: string, boundary: char, rest: string)
    requires (forall c | c in line :: !IsLineBoundary(c)) && IsLineBoundary(boundary)
    requires boundary == '\r' && rest != "" ==> rest[0] != '\n'
    ensures SplitLines(line + [boundary] + rest) == [line] + SplitLines(rest)
    ensures SplitLines(line + "\r\n" + rest) == [line] + SplitLines(rest)
  {
    var s, t := line + [boundary] + rest, line + "\r\n" + rest;
    assert s == line + ([boundary] + rest) && t == line + ("\r\n" + rest);
    FirstLineIs(line, [boundary] + rest);
    FirstLineIs(line, "\r\n" + rest);
    assert s[|line|] == boundary && s[..|line|] == line && s[|line| + 1..] == rest;
    assert t[|line|] == '\r' && t[|line| + 1] == '\n' && t[..|line|] == line && t[|line| + 2..] == rest;
  }

  lemma {:induction false} FirstLineLength(line: string, rest: string)
    requires !HasNewline(line) && rest != "" && rest[0] == '\n'
    ensures LineLength(line + rest) == |line|
  {
    var s := line + rest;
    if line == "" {
      assert s == rest;
    } else {
      assert s[0] == line[0] && !IsNewline(line[0]);
      assert s[1..] == line[1..] + rest;
      assert forall i | 0 <= i < |line[1..]| :: line[1..][i] == line[i + 1];
      FirstLineLength(line[1..], rest);
    }
  }

  lemma OneLine(line: string, rest: string)
    requires !HasNewline(line)
    ensures StreamLines(line + "\n" + rest) == [line] + StreamLines(rest)
  {
    var s := line + "\n" + rest;
    assert s == line + ("\n" + rest);
    FirstLineLength(line, "\n" + rest);
    assert s[|line|] == '\n' && s[..|line|] == line && s[|line| + 1..] == rest;
  }

  lemma {:induction false} ManyLines(lines: seq<string>, rest: string)
    requires lines != [] && forall line | line in lines :: !HasNewline(line)
    ensures StreamLines(Join(lines, "\n") + "\n" + rest) == lines + StreamLines(rest)
  {
    assert lines[0] in lines;
    if |lines| == 1 {
      OneLine(lines[0], rest);
      assert lines == [lines[0]];
    } else {
      var others := Join(lines[1..], "\n");
      var tail := others + "\n" + rest;
      JoinTail(lines[0], others, rest);
      OneLine(lines[0], tail);
      ManyLines(lines[1..], rest);
      FirstThenRest(lines, StreamLines(rest));
    }
  }

  lemma JoinTail(first: string, others: string, rest: string)
    ensures first + "\n" + others + "\n" + rest == first + "\n" + (others + "\n" + rest)
  {}

  lemma FirstThenRest(lines: seq<string>, more: seq<string>)
    requires lines != []
    ensures [lines[0]] + (lines[1..] + more) == lines + more
  {}

  lemma PrintedHasNoNewline(i: int)
    ensures !HasNewline(PrintInt(i))
    ensures i >= 0 ==> PrintInt(i) != "" && AllDigits(PrintInt(i)) && ReadNat(PrintInt(i)) == i
    ensures i < 0 ==> !AllDigits(PrintInt(i))
  {
    ReadAfterPrint(if i < 0 then -i else i);
    if i < 0 {
      assert PrintInt(i)[0] == '-' && PrintInt(i)[1..] == PrintNat(-i);
    }
  }

  lemma PrefixKeepsLine(prefix: string, value: string)
    requires !HasNewline(prefix) && !HasNewline(value)
    ensures !HasNewline(prefix + value)
  {}

  lemma ChunkLinesAreLines(ev: SseEvent)
    requires Acceptable(ev)
    ensures forall line | line in ChunkLines(ev) :: !HasNewline(line)
  {
    if ev.event.Some? { PrefixKeepsLine("event: ", ev.event.value); }
    if ev.id.Some? { PrefixKeepsLine("id: ", ev.id.value); }
    if ev.retry.Some? {
      PrintedHasNoNewline(ev.retry.value);
      PrefixKeepsLine("retry: ", PrintInt(ev.retry.value));
    }
    var lines := DataLines(ev.data);
    forall i | 0 <= i < |lines| ensures !HasNewline(Prefixed(lines)[i]) {
      assert lines[i] in lines;
      PrefixKeepsLine("data: ", lines[i]);
    }
  }

  lemma LinesThenBlank(lines: seq<string>, rest: string)
    requires lines != [] && forall line | line in lines :: !HasNewline(line)
    ensures StreamLines(Join(lines, "\n") + "\n\n" + rest) == lines + [""] + StreamLines(rest)
  {
    BlankLine(Join(lines, "\n"), rest);
    ManyLines(lines, "\n" + rest);
    assert "\n" + rest == "" + "\n" + rest;
    OneLine("", rest);
    Associative(lines, [""], StreamLines(rest));
  }

  /** A chunk is read as its own lines and a blank one, whatever follows. */
  lemma LinesOfChunk(ev: SseEvent, rest: string)
    requires Acceptable(ev)
    ensures StreamLines(Join(ChunkLines(ev), "\n") + "\n\n" + rest) == ChunkLines(ev) + [""] + StreamLines(rest)
  {
    ChunkLinesAreLines(ev);
    LinesThenBlank(ChunkLines(ev), rest);
  }

  lemma BlankLine(text: string, rest: string)
    ensures text + "\n\n" + rest == text + "\n" + ("\n" + rest)
  {}

  lemma {:induction false} ReadInStages(r: Reader, a: seq<string>, b: seq<string>)
    ensures ReadLines(r, a + b) == ReadLines(ReadLines(r, a), b)
    decreases a
  {
    if a == [] {
      assert a + b == b;
    } else {
      assert (a + b)[1..] == a[1..] + b;
      ReadInStages(ReadLine(r, a[0]), a[1..], b);
    }
  }

  lemma {:induction false} ColonAfter(name: string, rest: string)
    requires ':' !in name && rest != "" && rest[0] == ':'
    ensures ColonIndex(name + rest) == |name|
  {
    if name == "" {
      assert name + rest == rest;
    } else {
      assert name[0] in name && (name + rest)[1..] == name[1..] + rest;
      assert forall c | c in name[1..] :: c in name;
      ColonAfter(name[1..], rest);
    }
  }

  /** A line `name: value` is read as that field with that value, leading spaces of the value
      included. */
  lemma FieldLine(r: Reader, name: string, value: string)
    requires name != "" && ':' !in name
    ensures ReadLine(r, name + ": " + value) == Field(r, name, value)
  {
    var line := name + ": " + value;
    assert line == name + (": " + value);
    ColonAfter(name, ": " + value);
    assert line[..|name|] == name && line[|name| + 1..] == " " + value;
    assert (" " + value)[1..] == value;
  }

  lemma ReadEventLine(r: Reader, value: string)
    ensures ReadLine(r, "event: " + value) == r.(typeBuffer := value)
  {
    assert "event: " + value == "event" + ": " + value;
    FieldLine(r, "event", value);
  }

  lemma ReadIdLine(r: Reader, value: string)
    ensures ReadLine(r, "id: " + value) == if '\0' in value then r else r.(idBuffer := value)
  {
    assert "id: " + value == "id" + ": " + value;
    FieldLine(r, "id", value);
  }

  lemma ReadRetryLine(r: Reader, i: int)
    ensures ReadLine(r, "retry: " + PrintInt(i)) == if i >= 0 then r.(reconnectionTime := Some(i)) else r
  {
    assert "retry: " + PrintInt(i) == "retry" + ": " + PrintInt(i);
    FieldLine(r, "retry", PrintInt(i));
    PrintedHasNoNewline(i);
  }

  lemma ReadDataLine(r: Reader, value: string)
    ensures ReadLine(r, "data: " + value) == r.(dataBuffer := r.dataBuffer + value + "\n")
  {
    assert "data: " + value == "data" + ": " + value;
    FieldLine(r, "data", value);
  }

  lemma FirstPrefixed(lines: seq<string>)
    requires lines != []
    ensures Prefixed(lines)[0] == "data: " + lines[0] && Prefixed(lines)[1..] == Prefixed(lines[1..])
  {}

  lemma BufferStep(buffer: string, first: string, others: string)
    ensures buffer + first + "\n" + others + "\n" == buffer + (first + "\n" + others) + "\n"
  {}

  lemma {:induction false} ReadDataLines(r: Reader, lines: seq<string>)
    requires lines != []
    ensures ReadLines(r, Prefixed(lines)) == r.(dataBuffer := r.dataBuffer + Join(lines, "\n") + "\n")
    decreases lines
  {
    ReadDataLine(r, lines[0]);
    FirstPrefixed(lines);
    var next := r.(dataBuffer := r.dataBuffer + lines[0] + "\n");
    assert ReadLines(r, Prefixed(lines)) == ReadLines(next, Prefixed(lines[1..]));
    if |lines| == 1 {
      assert Prefixed(lines[1..]) == [];
    } else {
      ReadDataLines(next, lines[1..]);
      BufferStep(r.dataBuffer, lines[0], Join(lines[1..], "\n"));
    }
  }

  /** The name, identifier and retry lines of an event, read with empty buffers. */
  lemma ReadFieldLines(r: Reader, ev: SseEvent)
    requires r.typeBuffer == ""
    ensures ReadLines(r, FieldLines(ev))
            == r.(typeBuffer := if ev.event.Some? then ev.event.value else "",
                  idBuffer := NextId(ev, r.idBuffer),
                  reconnectionTime := NextRetry(ev, r.reconnectionTime))
  {
    var a := if ev.event.Some? && ev.event.value != "" then ["event: " + ev.event.value] else [];
    var b := if ev.id.Some? && ev.id.value != "" then ["id: " + ev.id.value] else [];
    var c := if ev.retry.Some? then ["retry: " + PrintInt(ev.retry.value)] else [];
    ReadInStages(r, a + b, c);
    ReadInStages(r, a, b);
    var r1 := ReadLines(r, a);
    assert r1 == r.(typeBuffer := if ev.event.Some? then ev.event.value else "") by {
      if a != [] {
        ReadEventLine(r, ev.event.value);
        assert a[1..] == [];
      }
    }
    var r2 := ReadLines(r1, b);
    assert r2 == r1.(idBuffer := NextId(ev, r.idBuffer)) by {
      if b != [] {
        ReadIdLine(r1, ev.id.value);
        assert b[1..] == [];
      }
    }
    if c != [] {
      ReadRetryLine(r2, ev.retry.value);
      assert c[1..] == [];
    }
  }

  /** The reader after one more item. */
  ghost function AfterItem(r: Reader, ev: SseEvent): Reader {
    Reader("", "", NextId(ev, r.idBuffer), NextRetry(ev, r.reconnectionTime),
           r.dispatched + [Message(EventType(ev), Join(DataLines(ev.data), "\n"), NextId(ev, r.idBuffer))])
  }

  lemma ReadInThree(r: Reader, a: seq<string>, b: seq<string>, c: seq<string>)
    ensures ReadLines(r, a + b + c) == ReadLines(ReadLines(ReadLines(r, a), b), c)
  {
    ReadInStages(r, a + b, c);
    ReadInStages(r, a, b);
  }

  /** Reading one chunk dispatches exactly one message and empties the buffers. */
  lemma ReadChunk(r: Reader, ev: SseEvent)
    requires r.typeBuffer == "" && r.dataBuffer == ""
    ensures ReadLines(r, ChunkLines(ev) + [""]) == AfterItem(r, ev)
  {
    var lines := DataLines(ev.data);
    var data := Join(lines, "\n");
    ReadInThree(r, FieldLines(ev), Prefixed(lines), [""]);
    ReadFieldLines(r, ev);
    var r1 := ReadLines(r, FieldLines(ev));
    ReadDataLines(r1, lines);
    assert "" + data + "\n" == data + "\n";
    BlankLineDispatches(r1.(dataBuffer := data + "\n"), data);
  }

  /** A blank line dispatches the data collected so far without its last line feed. */
  lemma BlankLineDispatches(r: Reader, data: string)
    requires r.dataBuffer == data + "\n"
    ensures ReadLines(r, [""])
            == Reader("", "", r.idBuffer, r.reconnectionTime,
                      r.dispatched
                      + [Message(if r.typeBuffer == "" then "message" else r.typeBuffer, data, r.idBuffer)])
  {
    assert (data + "\n")[..|data|] == data;
    assert [""][1..] == [];
    assert ReadLines(r, [""]) == Dispatch(r);
  }

  ghost predicate AllAcceptable(items: seq<Item>) {
    forall i | 0 <= i < |items| :: Acceptable(EventOf(items[i]))
  }

  lemma ReadFirstItem(r: Reader, items: seq<Item>)
    requires r.typeBuffer == "" && r.dataBuffer == "" && items != [] && Acceptable(EventOf(items[0]))
    ensures ReadLines(r, StreamLines(Stream(items)))
            == ReadLines(AfterItem(r, EventOf(items[0])), StreamLines(Stream(items[1..])))
  {
    var ev, rest := EventOf(items[0]), StreamLines(Stream(items[1..]));
    LinesOfChunk(ev, Stream(items[1..]));
    ReadInStages(r, ChunkLines(ev) + [""], rest);
    ReadChunk(r, ev);
  }

  lemma {:induction false} ReadStream(r: Reader, items: seq<Item>)
    requires r.typeBuffer == "" && r.dataBuffer == "" && AllAcceptable(items)
    ensures var after := ReadLines(r, StreamLines(Stream(items)));
            && after.dispatched == r.dispatched + Expected(items, r.idBuffer)
            && after.reconnectionTime == LastRetry(items, r.reconnectionTime)
    decreases items
  {
    if items != [] {
      var ev, rest := EventOf(items[0]), items[1..];
      assert Acceptable(ev);
      forall i | 0 <= i < |rest| ensures Acceptable(EventOf(rest[i])) {
        assert rest[i] == items[i + 1];
      }
      ReadFirstItem(r, items);
      ReadStream(AfterItem(r, ev), rest);
      var message := Message(EventType(ev), Join(DataLines(ev.data), "\n"), NextId(ev, r.idBuffer));
      Associative(r.dispatched, [message], Expected(rest, NextId(ev, r.idBuffer)));
    }
  }

  /** For every list of acceptable items, a standard reader of the response dispatches exactly
      one message per item, in order, with the item's name, its lines joined by line feeds and
      the last identifier carried over; the reconnection time is the last non-negative retry. */
  lemma StreamIsReadBack(items: seq<Item>)
    requires AllAcceptable(items)
    ensures Interpret(Stream(items)).dispatched == Expected(items, "")
    ensures |Interpret(Stream(items)).dispatched| == |items|
    ensures Interpret(Stream(items)).reconnectionTime == LastRetry(items, None)
  {
    ReadStream(START, items);
    OneMessageEach(items, "");
    NoByteOrderMark(items);
  }

  lemma {:induction false} OneMessageEach(items: seq<Item>, last: string)
    ensures |Expected(items, last)| == |items|
  {
    if items != [] {
      OneMessageEach(items[1..], NextId(EventOf(items[0]), last));
    }
  }

  lemma NoByteOrderMark(items: seq<Item>)
    ensures Stream(items) != "" ==> Stream(items)[0] != '\U{FEFF}'
  {
    if items != [] {
      var lines := ChunkLines(EventOf(items[0]));
      assert lines[0] != "" && lines[0][0] in {'e', 'i', 'r', 'd'};
      assert Join(lines, "\n")[0] == lines[0][0];
    }
  }

  // ---- When data arrives unchanged --------------------------------------------------------------

  predicate EndsWithBoundary(s: string) {
    s != "" && IsLineBoundary(s[|s| - 1])
  }

  predicate OnlyLineFeeds(s: string) {
    forall c | c in s && IsLineBoundary(c) :: c == '\n'
  }

  lemma LinesOfText(s: string)
    ensures s != "" ==> SplitLines(s) != []
  {}

  /** The joined lines of a text are its first line and those of the rest. */
  lemma JoinFirst(s: string)
    requires s != ""
    ensures var first, rest := s[..FirstLine(s)], s[NextLine(s)..];
            Join(SplitLines(s), "\n")
            == if rest == "" then first else first + "\n" + Join(SplitLines(rest), "\n")
  {
    var rest := s[NextLine(s)..];
    LinesOfText(rest);
    assert SplitLines(s)[1..] == SplitLines(rest);
  }

  lemma LineFeedsConcat(a: string, b: string)
    requires OnlyLineFeeds(a) && OnlyLineFeeds(b)
    ensures OnlyLineFeeds(a + "\n" + b)
  {}

  lemma FirstLineIsPlain(s: string)
    ensures OnlyLineFeeds(s[..FirstLine(s)])
  {
    var first := s[..FirstLine(s)];
    assert forall i | 0 <= i < |first| :: first[i] == s[i];
  }

  lemma {:induction false} JoinedHasOnlyLineFeeds(s: string)
    ensures OnlyLineFeeds(Join(SplitLines(s), "\n"))
    decreases |s|
  {
    if s != "" {
      var rest := s[NextLine(s)..];
      JoinedHasOnlyLineFeeds(rest);
      JoinFirst(s);
      FirstLineIsPlain(s);
      LineFeedsConcat(s[..FirstLine(s)], Join(SplitLines(rest), "\n"));
    }
  }

  lemma {:induction false} JoinedIsShorter(s: string)
    ensures |Join(SplitLines(s), "\n")| <= |s|
    ensures EndsWithBoundary(s) ==> |Join(SplitLines(s), "\n")| < |s|
    decreases |s|
  {
    if s != "" {
      var rest := s[NextLine(s)..];
      JoinedIsShorter(rest);
      JoinFirst(s);
      assert rest != "" ==> rest[|rest| - 1] == s[|s| - 1];
    }
  }

  lemma PlainRest(s: string)
    requires s != "" && OnlyLineFeeds(s) && !EndsWithBoundary(s)
    ensures var n, rest := FirstLine(s), s[NextLine(s)..];
            && OnlyLineFeeds(rest) && !EndsWithBoundary(rest)
            && (if rest == "" then s == s[..n] else s == s[..n] + "\n" + rest)
  {
    var n, next := FirstLine(s), NextLine(s);
    var rest := s[next..];
    forall c | c in rest ensures c in s {
      var i :| 0 <= i < |rest| && rest[i] == c;
      assert s[next + i] == c;
    }
    if n < |s| {
      assert s[n] in s && s[n] == '\n';
      assert next == n + 1 && n < |s| - 1;
      assert rest[|rest| - 1] == s[|s| - 1];
      assert s == s[..n] + [s[n]] + rest;
    }
  }

  lemma {:induction false} PlainLinesRejoin(s: string)
    requires OnlyLineFeeds(s) && !EndsWithBoundary(s)
    ensures Join(SplitLines(s), "\n") == s
    decreases |s|
  {
    if s != "" {
      PlainRest(s);
      PlainLinesRejoin(s[NextLine(s)..]);
      JoinFirst(s);
    }
  }

  /** The data of an item arrives exactly as it was given if and only if it contains no line
      boundary but line feeds and does not end in one: Python's `splitlines` also breaks at form
      feeds, separators and the like, and drops a final line break. */
  lemma DataArrivesUnchanged(data: string)
    ensures Join(DataLines(data), "\n") == data <==> OnlyLineFeeds(data) && !EndsWithBoundary(data)
  {
    LinesOfText(data);
    JoinedHasOnlyLineFeeds(data);
    JoinedIsShorter(data);
    if OnlyLineFeeds(data) && !EndsWithBoundary(data) {
      PlainLinesRejoin(data);
    }
  }
}
