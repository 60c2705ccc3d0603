/**
 The formatter as the source runs it, once to measure and once to write, and the
 body source that hands formatted events out in pieces of any size.
 */
module SseWriter {
  import opened Octets
  import opened Decimals
  import opened ChunkedBody
  import opened Sse

  /** Without a buffer the writer only counts. */
  class Writer {
    const data: array?<char>
    var size: nat
    ghost var text: string

    ghost predicate Valid()
      reads this, data
    {
      && size == |text| <= SIZE_MAX
      && (data != null ==> size <= data.Length && data[..size] == text)
    }

    constructor (data: array?<char>)
      ensures Valid() && this.data == data && text == ""
    {
      this.data := data;
      size, text := 0, "";
    }

    /** Whether `n` more octets can be taken. */
    predicate Room(n: nat)
      reads this
    {
      n <= SIZE_MAX - size && (data != null ==> size <= data.Length && n <= data.Length - size)
    }

    method Append(s: string) returns (ok: bool)
      requires Valid()
      modifies this, data
      ensures Valid() && ok == old(Room(|s|))
      ensures text == if ok then old(text) + s else old(text)
    {
      if |s| > SIZE_MAX - size || (data != null && |s| > data.Length - size) {
        return false;
      }
      if data != null {
        ghost var before := data[..];
        Put(data, size, s);
        assert data[..size + |s|] == data[..][..size + |s|] == before[..size] + s;
      }
      size := size + |s|;
      text := text + s;
      ok := true;
    }

    /** Appends all of `a` and then all of `b`, or reports that it could not. */
    method AppendTwo(a: string, b: string) returns (ok: bool)
      requires Valid()
      modifies this, data
      ensures Valid() && old(text) <= text
      ensures ok == old(Room(|a| + |b|))
      ensures ok ==> text == old(text) + (a + b)
    {
      ok := Append(a);
      if ok {
        ok := Append(b);
      }
    }

    method AppendField(name: string, value: string) returns (ok: bool)
      requires Valid()
      modifies this, data
      ensures Valid() && old(text) <= text
      ensures ok == old(Room(|FieldLine(name, value)|))
      ensures ok ==> text == old(text) + FieldLine(name, value)
    {
      ok := AppendTwo(name, ":");
      if ok && value != "" {
        ok := AppendTwo(" ", value);
      }
      if ok {
        ok := Append([LF]);
      }
    }

    /** The loop over the data's line breaks. */
    method AppendData(d: string) returns (ok: bool)
      requires Valid()
      modifies this, data
      ensures Valid() && old(text) <= text
      ensures ok == old(Room(|DataLines(Lines(d))|))
      ensures ok ==> text == old(text) + DataLines(Lines(d))
    {
      var rest, more := d, true;
      ok := true;
      while more
        invariant Valid() && ok && old(text) <= text
        invariant text + (if more then DataLines(Lines(rest)) else "") == old(text) + DataLines(Lines(d))
        decreases |rest|, more
      {
        var cursor := ScanLine(rest);
        ghost var line := FieldLine("data", rest[..cursor]);
        ghost var left := if cursor < |rest| then DataLines(Lines(AfterBreak(rest))) else "";
        LinesHead(rest);
        assert (text + line) + left == text + (line + left);
        ok := AppendField("data", rest[..cursor]);
        if !ok {
          return;
        }
        if cursor == |rest| {
          more := false;
        } else {
          rest := if rest[cursor] == CR && cursor + 1 < |rest| && rest[cursor + 1] == LF then rest[cursor + 2..] else rest[cursor + 1..];
        }
      }
    }

    method AppendOptional(name: string, value: Option<string>) returns (ok: bool)
      requires Valid()
      modifies this, data
      ensures Valid() && old(text) <= text
      ensures ok == old(Room(|OptionalField(name, value)|))
      ensures ok ==> text == old(text) + OptionalField(name, value)
    {
      ok := true;
      if value.Some? {
        ok := AppendField(name, value.value);
      }
    }

    method AppendHead(e: Event) returns (ok: bool)
      requires Valid()
      modifies this, data
      ensures Valid() && old(text) <= text
      ensures ok == old(Room(|OptionalField("event", e.event)| + |OptionalField("id", e.id)| + |OptionalField("retry", Retry(e.retry))|))
      ensures ok ==> text == old(text) + OptionalField("event", e.event) + OptionalField("id", e.id) + OptionalField("retry", Retry(e.retry))
    {
      ok := AppendOptional("event", e.event);
      if ok {
        ok := AppendOptional("id", e.id);
      }
      if ok {
        ok := AppendOptional("retry", Retry(e.retry));
      }
    }

    /** chttp_web_sse_format_core: all of the event, or a report that it does not fit. */
    method FormatCore(e: Event) returns (ok: bool)
      requires Valid()
      modifies this, data
      ensures Valid() && old(text) <= text
      ensures ok == old(Room(|Format(e)|))
      ensures ok ==> text == old(text) + Format(e)
    {
      ghost var before := text;
      ok := AppendHead(e);
      if ok {
        ok := AppendTail(e.data);
      }
      Grouped(before, OptionalField("event", e.event), OptionalField("id", e.id), OptionalField("retry", Retry(e.retry)), DataText(e.data));
    }

    method AppendTail(d: Option<string>) returns (ok: bool)
      requires Valid()
      modifies this, data
      ensures Valid() && old(text) <= text
      ensures ok == old(Room(|DataText(d)| + 1))
      ensures ok ==> text == old(text) + (DataText(d) + [LF])
    {
      ok := true;
      if d.Some? {
        ok := AppendData(d.value);
      }
      if ok {
        ok := Append([LF]);
      }
    }
  }

  lemma Grouped(t: string, a: string, b: string, c: string, d: string)
    ensures (t + a + b + c) + (d + [LF]) == t + (a + (b + (c + (d + [LF]))))
  {
  }

  datatype Status = Ok | InvalidArgument | Capacity

  /**
   chttp_web_sse_format_event: the measuring pass decides, and the writing pass
   then never fails and writes exactly what was measured.
   */
  method FormatEvent(e: Event, buffer: array<char>) returns (status: Status, size: nat)
    modifies buffer
    ensures status == InvalidArgument <==> !EventValid(e) || buffer.Length == 0
    ensures status != InvalidArgument ==> (status == Ok <==> |Format(e)| <= buffer.Length && |Format(e)| <= SIZE_MAX)
    ensures status == Ok ==> size == |Format(e)| && buffer[..size] == Format(e)
    ensures status != Ok ==> size == 0
  {
    if !EventValid(e) || buffer.Length == 0 {
      return InvalidArgument, 0;
    }
    var measure := new Writer(null);
    var measured := measure.FormatCore(e);
    if !measured || measure.size > buffer.Length {
      return Capacity, 0;
    }
    var output := new Writer(buffer);
    var written := output.FormatCore(e);
    assert written && output.size == measure.size;
    status, size := Ok, output.size;
  }

  // ---------------------------------------------------------------- the body source

  /** What the application's next-event callback answers. */
  datatype Next = Got(event: Event) | NoMore | Broken

  /** The events before the stream ends. */
  function EventsOf(script: seq<Next>): seq<Event> {
    if script == [] || !script[0].Got? then [] else [script[0].event] + EventsOf(script[1..])
  }

  lemma {:induction false} EventsOfStep(script: seq<Next>, i: nat)
    requires i < |script| && script[i].Got? && AllGot(script, i)
    ensures EventsOf(script[..i + 1]) == EventsOf(script[..i]) + [script[i].event]
    decreases i
  {
    if i == 0 {
      assert script[..1][1..] == [] && script[..0] == [];
    } else {
      assert script[..i + 1][1..] == script[1..][..i] && script[..i][1..] == script[1..][..i - 1];
      EventsOfStep(script[1..], i - 1);
    }
  }

  /** An answer that does not break the stream: an event that can be formatted into the scratch buffer, or the end. */
  predicate Deliverable(n: Next, capacity: nat) {
    || n.NoMore?
    || (n.Got? && EventValid(n.event) && |Format(n.event)| <= capacity && |Format(n.event)| <= SIZE_MAX)
  }

  predicate AllGot(script: seq<Next>, i: nat) {
    i <= |script| && forall k :: 0 <= k < i ==> script[k].Got?
  }

  /** Nothing the application answers before the end breaks the stream. */
  predicate Sendable(script: seq<Next>, capacity: nat) {
    forall k :: 0 <= k < |script| && AllGot(script, k) ==> Deliverable(script[k], capacity)
  }

  /** What was read and what is still buffered are together the events taken so far. */
  ghost predicate Conserved(out: string, buffered: string, script: seq<Next>, position: nat, capacity: nat) {
    && AllGot(script, position) && (forall k :: 0 <= k < position ==> Deliverable(script[k], capacity))
    && out + buffered == FormatAll(EventsOf(script[..position]))
  }

  lemma Taken(out: string, script: seq<Next>, i: nat, capacity: nat)
    requires Conserved(out, "", script, i, capacity) && i < |script| && script[i].Got? && Deliverable(script[i], capacity)
    ensures Conserved(out, Format(script[i].event), script, i + 1, capacity)
  {
    assert out + "" == out;
    EventsOfStep(script, i);
    FormatAllSnoc(EventsOf(script[..i]), script[i].event);
  }

  lemma {:induction false} TakenIsPrefix(script: seq<Next>, i: nat)
    requires AllGot(script, i)
    ensures FormatAll(EventsOf(script[..i])) <= FormatAll(EventsOf(script))
    decreases i
  {
    if i > 0 {
      var e := script[0].event;
      assert script[..i][1..] == script[1..][..i - 1];
      assert forall k :: 0 <= k < i - 1 ==> script[1..][k] == script[k + 1];
      TakenIsPrefix(script[1..], i - 1);
      assert ([e] + EventsOf(script[1..][..i - 1]))[1..] == EventsOf(script[1..][..i - 1]);
      assert ([e] + EventsOf(script[1..]))[1..] == EventsOf(script[1..]);
    }
  }

  lemma SendableAtEnd(script: seq<Next>, i: nat, capacity: nat)
    requires AllGot(script, i) && (i == |script| || script[i].NoMore?)
    requires forall k :: 0 <= k < i ==> Deliverable(script[k], capacity)
    ensures Sendable(script, capacity)
  {
    forall k | 0 <= k < |script| && AllGot(script, k)
      ensures Deliverable(script[k], capacity)
    {
      if i < k {
        assert false;
      }
    }
  }

  lemma Moved(out: string, a: string, b: string, script: seq<Next>, i: nat, capacity: nat)
    requires Conserved(out, a + b, script, i, capacity)
    ensures Conserved(out + a, b, script, i, capacity)
  {
    assert out + (a + b) == (out + a) + b;
  }

  class Stream {
    const script: seq<Next>
    const scratch: array<char>
    var position: nat
    var offset: nat
    var size: nat
    var eof: bool
    ghost var out: string

    ghost predicate Valid()
      reads this, scratch
    {
      && scratch.Length > 0
      && offset <= size <= scratch.Length
      && Conserved(out, scratch[offset..size], script, position, scratch.Length)
      && (eof ==> offset == size && (position == |script| || script[position].NoMore?))
    }

    constructor (script: seq<Next>, capacity: nat)
      requires capacity > 0
      ensures Valid() && this.script == script && out == "" && fresh(scratch) && scratch.Length == capacity && !eof
    {
      this.script := script;
      scratch := new char[capacity](_ => NUL);
      position, offset, size, eof, out := 0, 0, 0, false, "";
    }

    /** Fetches and formats the next event into the scratch buffer. */
    method Fill() returns (ok: bool)
      requires Valid() && offset == size && !eof
      modifies `position, `offset, `size, `eof, scratch
      ensures out == old(out) && Valid()
      ensures ok && !eof ==> position == old(position) + 1
      ensures Sendable(script, scratch.Length) ==> ok
      ensures eof ==> position == old(position)
    {
      assert scratch[offset..size] == "";
      offset, size := 0, 0;
      assert scratch[0..0] == "";
      if position == |script| || script[position].NoMore? {
        eof := true;
        return true;
      }
      if script[position].Broken? {
        return false;
      }
      var status, n := FormatEvent(script[position].event, scratch);
      if status != Ok {
        return false;
      }
      Taken(out, script, position, scratch.Length);
      assert scratch[0..n] == scratch[..n];
      position, size := position + 1, n;
      ok := true;
    }

    /** chttp_web_sse_source_read, with room for `capacity` octets. */
    method Read(capacity: nat) returns (ok: bool, chunk: string)
      requires Valid() && capacity > 0
      modifies this, scratch
      ensures Valid() && out == old(out) + chunk && |chunk| <= capacity
      ensures ok && chunk == "" <==> ok && eof
      ensures Sendable(script, scratch.Length) ==> ok
      ensures !ok ==> chunk == ""
      ensures ok && eof ==> out == FormatAll(EventsOf(script))
    {
      while offset == size
        invariant Valid() && out == old(out)
        decreases |script| - position
      {
        if eof {
          AtEnd();
          return true, "";
        }
        ok := Fill();
        if !ok {
          return false, "";
        }
        if eof {
          AtEnd();
          return true, "";
        }
      }
      var copied := if size - offset < capacity then size - offset else capacity;
      chunk := scratch[offset..offset + copied];
      assert scratch[offset..size] == chunk + scratch[offset + copied..size];
      Moved(out, chunk, scratch[offset + copied..size], script, position, scratch.Length);
      offset := offset + copied;
      out := out + chunk;
      ok := true;
    }

    lemma OutIsPrefix()
      requires Valid()
      ensures out <= FormatAll(EventsOf(script))
    {
      TakenIsPrefix(script, position);
      assert out <= out + scratch[offset..size];
    }

    lemma AtEnd()
      requires Valid() && eof
      ensures out == FormatAll(EventsOf(script))
    {
      assert scratch[offset..size] == "" && out + "" == out;
      EventsOfPrefix(script, position);
    }
  }

  lemma {:induction false} EventsOfPrefix(script: seq<Next>, i: nat)
    requires AllGot(script, i) && (i == |script| || !script[i].Got?)
    ensures EventsOf(script[..i]) == EventsOf(script)
    decreases i
  {
    if i > 0 {
      assert script[..i][1..] == script[1..][..i - 1];
      EventsOfPrefix(script[1..], i - 1);
    }
  }

  /**
   However the reader sizes its buffers, what it has read is a prefix of the formatted
   events; reads enough for all of them end the stream exactly when no answer of the
   application breaks it, and then nothing is missing.
   */
  method ReadAll(script: seq<Next>, scratchCapacity: nat, capacities: seq<nat>) returns (text: string, ended: bool)
    requires scratchCapacity > 0 && forall i :: 0 <= i < |capacities| ==> capacities[i] > 0
    ensures text <= FormatAll(EventsOf(script))
    ensures ended ==> text == FormatAll(EventsOf(script)) && Sendable(script, scratchCapacity)
    ensures Sendable(script, scratchCapacity) && |capacities| > |FormatAll(EventsOf(script))| ==> ended
  {
    var stream := new Stream(script, scratchCapacity);
    text, ended := "", false;
    for i := 0 to |capacities|
      invariant stream.Valid() && text == stream.out && fresh(stream) && fresh(stream.scratch)
      invariant stream.script == script && stream.scratch.Length == scratchCapacity
      invariant i <= |text|
    {
      var ok, chunk := stream.Read(capacities[i]);
      text := text + chunk;
      if !ok || chunk == "" {
        stream.OutIsPrefix();
        if ok {
          SendableAtEnd(script, stream.position, scratchCapacity);
        }
        return text, ok;
      }
    }
    stream.OutIsPrefix();
  }

  method ScanLine(s: string) returns (cursor: nat)
    ensures cursor == BreakAt(s)
  {
    cursor := 0;
    while cursor < |s| && s[cursor] != CR && s[cursor] != LF
      invariant cursor <= |s| && forall i :: 0 <= i < cursor ==> s[i] != CR && s[i] != LF
    {
      cursor := cursor + 1;
    }
    BreakUnique(s, cursor);
  }

  lemma {:induction false} BreakUnique(s: string, k: nat)
    requires k <= |s| && (k < |s| ==> s[k] == CR || s[k] == LF)
    requires forall i :: 0 <= i < k ==> s[i] != CR && s[i] != LF
    ensures BreakAt(s) == k
  {
    if k > 0 {
      BreakUnique(s[1..], k - 1);
    }
  }

  lemma LinesHead(d: string)
    ensures DataLines(Lines(d)) ==
      FieldLine("data", d[..BreakAt(d)]) + if BreakAt(d) < |d| then DataLines(Lines(AfterBreak(d))) else ""
  {
    if BreakAt(d) == |d| {
      assert d[..|d|] == d && [d] + [] == [d];
      DataLinesCons(d, []);
    } else {
      DataLinesCons(d[..BreakAt(d)], Lines(AfterBreak(d)));
    }
  }

  lemma DataLinesCons(line: string, lines: seq<string>)
    ensures DataLines([line] + lines) == FieldLine("data", line) + DataLines(lines)
  {
    assert ([line] + lines)[1..] == lines;
  }
}
