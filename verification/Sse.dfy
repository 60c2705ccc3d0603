/**
 Server-sent events: the formatter, the reader of sections 9.2.5 and 9.2.6 of the
 HTML Living Standard, and that reading undoes formatting. Texts are octet strings;
 whether they are well-formed UTF-8 is not modelled.
 */
module Sse {
  import opened Octets
  import opened Decimals

  datatype Event = Event(event: Option<string>, id: Option<string>, retry: Option<nat>, data: Option<string>)

  predicate SingleLine(s: string) {
    forall i :: 0 <= i < |s| ==> s[i] != CR && s[i] != LF && s[i] != NUL
  }

  /** chttp_web_sse_event_valid */
  predicate EventValid(e: Event) {
    && (e.event.Some? || e.id.Some? || e.retry.Some? || e.data.Some?)
    && (e.event.Some? ==> SingleLine(e.event.value))
    && (e.id.Some? ==> SingleLine(e.id.value))
    && (e.retry.Some? ==> e.retry.value < 0x1_0000_0000_0000_0000)
  }

  // ---------------------------------------------------------------- formatting

  function FieldLine(name: string, value: string): string {
    name + ":" + (if value == "" then "" else " " + value) + [LF]
  }

  /** Index of the first line break, or |s|. */
  function BreakAt(s: string): (k: nat)
    ensures k <= |s| && (k < |s| ==> s[k] == CR || s[k] == LF)
    ensures forall i :: 0 <= i < k ==> s[i] != CR && s[i] != LF
  {
    if s == [] || s[0] == CR || s[0] == LF then 0 else 1 + BreakAt(s[1..])
  }

  /** What follows the first line break. */
  function AfterBreak(s: string): (r: string)
    requires BreakAt(s) < |s|
    ensures |r| < |s|
  {
    var k := BreakAt(s);
    if s[k] == CR && k + 1 < |s| && s[k + 1] == LF then s[k + 2..] else s[k + 1..]
  }

  function Lines(d: string): (r: seq<string>)
    ensures r != []
    decreases |d|
  {
    if BreakAt(d) == |d| then [d] else [d[..BreakAt(d)]] + Lines(AfterBreak(d))
  }

  function DataLines(lines: seq<string>): string {
    if lines == [] then "" else FieldLine("data", lines[0]) + DataLines(lines[1..])
  }

  function OptionalField(name: string, value: Option<string>): string {
    if value.Some? then FieldLine(name, value.value) else ""
  }

  function Retry(retry: Option<nat>): Option<string> {
    if retry.Some? then Some(Show(retry.value)) else None
  }

  function DataText(data: Option<string>): string {
    if data.Some? then DataLines(Lines(data.value)) else ""
  }

  /** chttp_web_sse_format_core */
  function Format(e: Event): string {
    OptionalField("event", e.event) + (OptionalField("id", e.id) + (OptionalField("retry", Retry(e.retry)) + (DataText(e.data) + [LF])))
  }

  // ---------------------------------------------------------------- reading

  datatype Message = Message(kind: string, data: string, lastId: string)

  datatype Reader = Reader(kind: string, data: string, lastId: string, retry: Option<nat>, messages: seq<Message>)

  function Field(r: Reader, name: string, value: string): Reader {
    if name == "event" then r.(kind := value)
    else if name == "data" then r.(data := r.data + value + [LF])
    else if name == "id" then if NUL in value then r else r.(lastId := value)
    else if name == "retry" then if value != "" && Digits(value) then r.(retry := Some(Value(value))) else r
    else r
  }

  function Dispatch(r: Reader): Reader {
    if r.data == "" then r.(kind := "")
    else
      var text := if r.data[|r.data| - 1] == LF then r.data[..|r.data| - 1] else r.data;
      r.(kind := "", data := "", messages := r.messages + [Message(if r.kind == "" then "message" else r.kind, text, r.lastId)])
  }

  function ProcessLine(r: Reader, line: string): Reader {
    if line == "" then Dispatch(r)
    else
      var c := IndexOf(line, ':');
      if c == 0 then r
      else if c == |line| then Field(r, line, "")
      else
        var v := line[c + 1..];
        Field(r, line[..c], if v != "" && v[0] == ' ' then v[1..] else v)
  }

  /** All complete lines of the stream, in order. */
  function Read(r: Reader, s: string): Reader
    decreases |s|
  {
    if BreakAt(s) == |s| then r else Read(ProcessLine(r, s[..BreakAt(s)]), AfterBreak(s))
  }

  // ---------------------------------------------------------------- reading undoes formatting

  predicate Plain(s: string) {
    forall i :: 0 <= i < |s| ==> s[i] != CR && s[i] != LF
  }

  /** Line breaks of either kind become LF. */
  function Normalised(d: string): string {
    if d == [] then []
    else if d[0] == CR then [LF] + Normalised(if |d| > 1 && d[1] == LF then d[2..] else d[1..])
    else [d[0]] + Normalised(d[1..])
  }

  function Joined(lines: seq<string>): string
    requires lines != []
  {
    if |lines| == 1 then lines[0] else lines[0] + [LF] + Joined(lines[1..])
  }

  function Ended(lines: seq<string>): string {
    if lines == [] then "" else lines[0] + [LF] + Ended(lines[1..])
  }

  lemma {:induction false} EndedIsJoined(lines: seq<string>)
    requires lines != []
    ensures Ended(lines) == Joined(lines) + [LF]
    decreases |lines|
  {
    if |lines| == 1 {
      assert Ended(lines[1..]) == "";
    } else {
      EndedIsJoined(lines[1..]);
    }
  }

  lemma {:induction false} PlainNormalised(a: string, b: string)
    requires Plain(a)
    ensures Normalised(a + b) == a + Normalised(b)
    decreases |a|
  {
    if a == [] {
      assert a + b == b;
    } else {
      assert (a + b)[1..] == a[1..] + b;
      PlainNormalised(a[1..], b);
    }
  }

  /** Splitting at line breaks and joining with LF is normalising. */
  lemma {:induction false} JoinedIsNormalised(d: string)
    ensures Joined(Lines(d)) == Normalised(d)
    decreases |d|
  {
    var k := BreakAt(d);
    if k == |d| {
      PlainNormalised(d, "");
      assert d + "" == d;
    } else {
      assert d == d[..k] + d[k..];
      PlainNormalised(d[..k], d[k..]);
      BreakNormalised(d);
      JoinedIsNormalised(AfterBreak(d));
      assert Lines(d) == [d[..k]] + Lines(AfterBreak(d)) && Lines(d)[1..] == Lines(AfterBreak(d));
      assert d[..k] + [LF] + Normalised(AfterBreak(d)) == d[..k] + ([LF] + Normalised(AfterBreak(d)));
    }
  }

  lemma BreakNormalised(d: string)
    requires BreakAt(d) < |d|
    ensures Normalised(d[BreakAt(d)..]) == [LF] + Normalised(AfterBreak(d))
  {
    var k := BreakAt(d);
    assert d[k..][1..] == d[k + 1..];
    if d[k] == CR && k + 1 < |d| && d[k + 1] == LF {
      assert d[k..][2..] == d[k + 2..];
    }
  }

  lemma {:induction false} BreakAfter(line: string, rest: string)
    requires Plain(line)
    ensures BreakAt(line + [LF] + rest) == |line|
    decreases |line|
  {
    var s := line + [LF] + rest;
    if line != [] {
      assert s[1..] == line[1..] + [LF] + rest;
      BreakAfter(line[1..], rest);
    }
  }

  lemma LineRead(r: Reader, line: string, rest: string)
    requires Plain(line)
    ensures Read(r, line + [LF] + rest) == Read(ProcessLine(r, line), rest)
  {
    var s := line + [LF] + rest;
    BreakAfter(line, rest);
    assert s[..|line|] == line && s[|line| + 1..] == rest;
  }

  predicate FieldName(name: string) {
    name != "" && forall i :: 0 <= i < |name| ==> name[i] != ':' && name[i] != CR && name[i] != LF
  }

  /** A field line gives the reader exactly its name and value. */
  lemma FieldRead(r: Reader, name: string, value: string, rest: string)
    requires FieldName(name) && Plain(value)
    ensures Read(r, FieldLine(name, value) + rest) == Read(Field(r, name, value), rest)
  {
    var line := name + ":" + (if value == "" then "" else " " + value);
    forall i | 0 <= i < |line|
      ensures line[i] != CR && line[i] != LF
    {
      if i < |name| {
        assert line[i] == name[i];
      } else if i > |name| + 1 {
        assert line[i] == value[i - |name| - 2];
      }
    }
    assert FieldLine(name, value) + rest == line + [LF] + rest;
    LineRead(r, line, rest);
    assert line[..|name|] == name && line[|name|] == ':';
    IndexOfUnique(line, ':', |name|);
    var v := line[|name| + 1..];
    assert v == if value == "" then "" else " " + value;
    assert value != "" ==> v[1..] == value;
  }

  lemma {:induction false} LinesPlain(d: string, j: nat)
    requires j < |Lines(d)|
    ensures Plain(Lines(d)[j])
    decreases |d|
  {
    if BreakAt(d) < |d| && j > 0 {
      LinesPlain(AfterBreak(d), j - 1);
    }
  }

  lemma DataLineRead(r: Reader, line: string, rest: string)
    requires Plain(line)
    ensures Read(r, FieldLine("data", line) + rest) == Read(r.(data := r.data + line + [LF]), rest)
  {
    FieldRead(r, "data", line, rest);
  }

  lemma {:induction false} DataRead(r: Reader, lines: seq<string>, rest: string)
    requires forall j :: 0 <= j < |lines| ==> Plain(lines[j])
    ensures Read(r, DataLines(lines) + rest) == Read(r.(data := r.data + Ended(lines)), rest)
    decreases |lines|
  {
    if lines == [] {
      assert r.data + Ended(lines) == r.data && DataLines(lines) + rest == rest;
    } else {
      assert lines == [lines[0]] + lines[1..];
      var line, more := lines[0], lines[1..];
      DataSplit(r.data, line, more, rest);
      DataLineRead(r, line, DataLines(more) + rest);
      DataRead(r.(data := r.data + line + [LF]), more, rest);
    }
  }

  lemma DataSplit(d: string, line: string, more: seq<string>, rest: string)
    ensures DataLines([line] + more) + rest == FieldLine("data", line) + (DataLines(more) + rest)
    ensures d + line + [LF] + Ended(more) == d + Ended([line] + more)
  {
    assert ([line] + more)[1..] == more;
    var f, m := FieldLine("data", line), DataLines(more);
    assert f + m + rest == f + (m + rest);
    assert d + line + [LF] + Ended(more) == d + (line + [LF] + Ended(more));
  }

  /** What one event does to a reader that stands between events. */
  function After(r: Reader, e: Event): Reader {
    var lastId := if e.id.Some? then e.id.value else r.lastId;
    var kind := if e.event.Some? && e.event.value != "" then e.event.value else "message";
    r.(lastId := lastId,
       retry := if e.retry.Some? then e.retry else r.retry,
       messages := if e.data.Some? then r.messages + [Message(kind, Normalised(e.data.value), lastId)] else r.messages)
  }

  lemma DataEventRead(r: Reader, d: string, rest: string)
    requires r.data == ""
    ensures Read(r, DataText(Some(d)) + ([LF] + rest)) == Read(Dispatch(r.(data := Normalised(d) + [LF])), rest)
  {
    forall j | 0 <= j < |Lines(d)|
      ensures Plain(Lines(d)[j])
    {
      LinesPlain(d, j);
    }
    DataRead(r, Lines(d), [LF] + rest);
    NormalisedLines(d);
    assert r.data + Ended(Lines(d)) == Normalised(d) + [LF];
    BlankRead(r.(data := Normalised(d) + [LF]), rest);
  }

  lemma NormalisedLines(d: string)
    ensures Ended(Lines(d)) == Normalised(d) + [LF]
  {
    EndedIsJoined(Lines(d));
    JoinedIsNormalised(d);
  }

  /** An empty line dispatches. */
  lemma BlankRead(r: Reader, rest: string)
    ensures Read(r, [LF] + rest) == Read(Dispatch(r), rest)
  {
    assert "" + [LF] + rest == [LF] + rest;
    LineRead(r, "", rest);
  }

  lemma NoDataRead(r: Reader, rest: string)
    requires r.data == ""
    ensures Read(r, DataText(None) + ([LF] + rest)) == Read(r.(kind := ""), rest)
  {
    assert "" + ([LF] + rest) == [LF] + rest;
    BlankRead(r, rest);
  }

  lemma KindRead(r: Reader, value: Option<string>, rest: string)
    requires value.Some? ==> SingleLine(value.value)
    ensures Read(r, OptionalField("event", value) + rest) == Read(if value.Some? then r.(kind := value.value) else r, rest)
  {
    if value.Some? {
      FieldRead(r, "event", value.value, rest);
    } else {
      assert "" + rest == rest;
    }
  }

  lemma IdRead(r: Reader, value: Option<string>, rest: string)
    requires value.Some? ==> SingleLine(value.value)
    ensures Read(r, OptionalField("id", value) + rest) == Read(if value.Some? then r.(lastId := value.value) else r, rest)
  {
    if value.Some? {
      FieldRead(r, "id", value.value, rest);
    } else {
      assert "" + rest == rest;
    }
  }

  lemma RetryRead(r: Reader, value: Option<nat>, rest: string)
    ensures Read(r, OptionalField("retry", Retry(value)) + rest) == Read(if value.Some? then r.(retry := value) else r, rest)
  {
    if value.Some? {
      ValueOfShow(value.value);
      FieldRead(r, "retry", Show(value.value), rest);
    } else {
      assert "" + rest == rest;
    }
  }

  /** The fields before the data. */
  function Announced(r: Reader, e: Event): Reader {
    var a := if e.event.Some? then r.(kind := e.event.value) else r;
    var b := if e.id.Some? then a.(lastId := e.id.value) else a;
    if e.retry.Some? then b.(retry := e.retry) else b
  }

  lemma AnnouncedRead(r: Reader, e: Event, rest: string)
    requires EventValid(e)
    ensures Read(r, OptionalField("event", e.event) + (OptionalField("id", e.id) + (OptionalField("retry", Retry(e.retry)) + rest))) ==
      Read(Announced(r, e), rest)
  {
    var c := OptionalField("retry", Retry(e.retry)) + rest;
    KindRead(r, e.event, OptionalField("id", e.id) + c);
    var a := if e.event.Some? then r.(kind := e.event.value) else r;
    IdRead(a, e.id, c);
    RetryRead(if e.id.Some? then a.(lastId := e.id.value) else a, e.retry, rest);
  }

  /**
   A formatted event, whatever follows it in the stream, reaches the reader as
   written: its type, identifier, retry time and normalised data, dispatched exactly
   when it has data.
   */
  lemma EventReadsBack(r: Reader, e: Event, rest: string)
    requires EventValid(e) && r.kind == "" && r.data == ""
    ensures Read(r, Format(e) + rest) == Read(After(r, e), rest)
  {
    var tail := DataText(e.data) + ([LF] + rest);
    FormatSplit(e, rest);
    AnnouncedRead(r, e, tail);
    var a := Announced(r, e);
    if e.data.Some? {
      DataEventRead(a, e.data.value, rest);
      DispatchedData(a, Normalised(e.data.value));
    } else {
      NoDataRead(a, rest);
    }
  }

  lemma FormatSplit(e: Event, rest: string)
    ensures Format(e) + rest ==
      OptionalField("event", e.event) + (OptionalField("id", e.id) + (OptionalField("retry", Retry(e.retry)) + (DataText(e.data) + ([LF] + rest))))
  {
    var a, b, c, d := OptionalField("event", e.event), OptionalField("id", e.id), OptionalField("retry", Retry(e.retry)), DataText(e.data);
    Regroup(a, b, c, d, rest);
  }

  lemma Regroup(a: string, b: string, c: string, d: string, rest: string)
    ensures a + (b + (c + (d + [LF]))) + rest == a + (b + (c + (d + ([LF] + rest))))
  {
  }

  lemma DispatchedData(a: Reader, text: string)
    ensures Dispatch(a.(data := text + [LF])) ==
      a.(kind := "", data := "", messages := a.messages + [Message(if a.kind == "" then "message" else a.kind, text, a.lastId)])
  {
    var t := text + [LF];
    assert t[..|t| - 1] == text;
  }

  function FormatAll(events: seq<Event>): string {
    if events == [] then "" else Format(events[0]) + FormatAll(events[1..])
  }

  function AfterAll(r: Reader, events: seq<Event>): Reader
    decreases |events|
  {
    if events == [] then r else AfterAll(After(r, events[0]), events[1..])
  }

  /** A whole stream of events reads back event by event. */
  lemma {:induction false} StreamReadsBack(r: Reader, events: seq<Event>)
    requires (forall i :: 0 <= i < |events| ==> EventValid(events[i])) && r.kind == "" && r.data == ""
    ensures Read(r, FormatAll(events)) == AfterAll(r, events)
    decreases |events|
  {
    if events != [] {
      EventReadsBack(r, events[0], FormatAll(events[1..]));
      StreamReadsBack(After(r, events[0]), events[1..]);
    }
  }

  lemma {:induction false} FormatAllSnoc(events: seq<Event>, e: Event)
    ensures FormatAll(events + [e]) == FormatAll(events) + Format(e)
    decreases |events|
  {
    if events == [] {
      assert (events + [e])[1..] == [] && FormatAll([]) == "";
      assert Format(e) + "" == "" + Format(e);
    } else {
      assert (events + [e])[1..] == events[1..] + [e] && (events + [e])[0] == events[0];
      FormatAllSnoc(events[1..], e);
      var a, b, c := Format(events[0]), FormatAll(events[1..]), Format(e);
      assert a + (b + c) == (a + b) + c;
    }
  }
}
