/**
 The parser object: the fields of the source's parser struct, updated in place
 by the loop of its feed call, and proved against `Multipart.FeedCall`.
 */
module MultipartParser {
  import opened Octets
  import opened MultipartHeaders
  import opened Multipart

  function InitialChar(boundary: string, i: nat): (c: char)
    requires i < |boundary| + 4
    ensures c == Opening(boundary)[i]
  {
    if i < 2 then '-'
    else if i < 2 + |boundary| then boundary[i - 2]
    else if i == 2 + |boundary| then CR else LF
  }

  function MarkerChar(boundary: string, i: nat): (c: char)
    requires i < |boundary| + 4
    ensures c == Marker(boundary)[i]
  {
    if i == 0 then CR
    else if i == 1 then LF
    else if i == 2 || i == 3 then '-'
    else boundary[i - 4]
  }

  /** One unfolding of the feed loop where it looks at a single octet. */
  lemma FeedLoopOctet<U>(c: Config<U>, s: State<U>, d: string, at: nat)
    requires at < |d| && WellFormed(c, s)
    ensures s.phase != Body || (s.pending != [] && Matches(c, s, d[at])) ==>
      FeedLoop(c, s, d[at..]) ==
      var o := Step(c, s, d[at]); if o.status != Ok then o else FeedLoop(c, o.s, d[at + 1..])
    ensures s.phase == Body && s.pending != [] && !Matches(c, s, d[at]) ==>
      FeedLoop(c, s, d[at..]) ==
      var o := Emit(c, s, s.pending); if o.status != Ok then o else FeedLoop(c, o.s.(pending := ""), d[at..])
  {
    assert d[at..][0] == d[at] && d[at..][1..] == d[at + 1..];
  }

  /** What an iteration does with no prefix pending: the run up to a CR, then that CR. */
  function BodyRun<U>(c: Config<U>, s: State<U>, d: string): (Outcome<U>, nat) {
    var n := IndexOf(d, CR);
    var o := Emit(c, s, d[..n]);
    if o.status != Ok then (o, n)
    else
      var t := o.s.(total := o.s.total + n);
      if n == |d| then (Good(t), n) else (Good(t.(pending := [CR], total := t.total + 1)), n + 1)
  }

  lemma FeedLoopCr<U>(c: Config<U>, s: State<U>, d: string)
    requires d != [] && d[0] == CR && s.phase == Body && s.pending == []
    ensures FeedLoop(c, s, d) == FeedLoop(c, s.(pending := [CR], total := s.total + 1), d[1..])
  {
  }

  lemma FeedLoopRun<U>(c: Config<U>, s: State<U>, d: string)
    requires d != [] && s.phase == Body && s.pending == []
    ensures var (o, n) := BodyRun(c, s, d);
      FeedLoop(c, s, d) == if o.status != Ok then o else FeedLoop(c, o.s, d[n..])
  {
    var n := IndexOf(d, CR);
    var o := Emit(c, s, d[..n]);
    if n == 0 {
      FeedLoopCr(c, s, d);
    } else if n < |d| && o.status == Ok {
      FeedLoopCr(c, o.s.(total := o.s.total + n), d[n..]);
      assert d[n..][1..] == d[n + 1..];
    }
  }

  lemma BodyRunShape<U>(c: Config<U>, s: State<U>, d: string)
    requires d != [] && WellFormed(c, s) && s.phase == Body && s.pending == []
    requires s.total + |d| <= c.limits.maxTotalBytes
    ensures var (o, n) := BodyRun(c, s, d);
      && n <= |d| && WellFormed(c, o.s)
      && (o.status == Ok ==> 0 < n && o.s.phase == Body && o.s.total == s.total + n)
  {
    EmitShape(c, s, d[..IndexOf(d, CR)]);
    assert Marker(c.boundary)[0] == CR;
  }

  class Parser<U> {
    const c: Config<U>
    var phase: Phase
    var initialIndex: nat
    var header: string
    var pending: string
    var suffixState: nat
    var currentFile: bool
    var fieldBytes: nat
    var partCount: nat
    var total: nat
    var active: bool
    var user: U

    ghost function View(): State<U>
      reads this
    {
      State(phase, initialIndex, header, pending, suffixState, currentFile, fieldBytes, partCount, total, user)
    }

    ghost predicate Valid()
      reads this
    {
      ConfigValid(c) && WellFormed(c, View())
    }

    constructor (c: Config<U>, user: U)
      requires ConfigValid(c)
      ensures this.c == c && Valid() && View() == Start(user) && active
    {
      this.c := c;
      this.user := user;
      phase, initialIndex, header, pending, suffixState := Initial, 0, "", "", 0;
      currentFile, fieldBytes, partCount, total, active := false, 0, 0, 0, true;
    }

    method FailWith(status: Status) returns (r: Status)
      modifies this
      ensures Outcome(r, View()) == Fail(old(View()), status)
      ensures active == old(active)
    {
      phase := Failed;
      r := status;
    }

    method EmitData(d: string) returns (r: Status)
      modifies this
      ensures Outcome(r, View()) == Emit(c, old(View()), d)
      ensures active == old(active)
    {
      if d == [] { return Ok; }
      if !currentFile && |d| > c.limits.maxFieldBytes - fieldBytes {
        r := FailWith(Capacity);
        return;
      }
      var reply := c.callbacks.data(user, d);
      user := reply.user;
      if !reply.ok {
        r := FailWith(Malformed);
        return;
      }
      if !currentFile {
        fieldBytes := fieldBytes + |d|;
      }
      r := Ok;
    }

    method Admit(part: Part) returns (r: Status)
      modifies this
      ensures Outcome(r, View()) == AdmitPart(c, old(View()), part)
      ensures active == old(active)
    {
      if partCount >= c.limits.maxParts {
        r := FailWith(Capacity);
        return;
      }
      var reply := c.callbacks.begin(user, part);
      user := reply.user;
      if !reply.ok {
        r := FailWith(Malformed);
        return;
      }
      partCount := partCount + 1;
      currentFile := part.filename.Some?;
      fieldBytes, pending, suffixState, phase := 0, "", 0, Body;
      r := Ok;
    }

    method Begin() returns (r: Status)
      modifies this
      ensures Outcome(r, View()) == BeginPart(c, old(View()))
      ensures active == old(active)
    {
      var block := ParseHeaderBlock(c.limits, header);
      if block.BlockPart? {
        assert BeginPart(c, View()) == AdmitPart(c, View(), block.part);
        r := Admit(block.part);
      } else {
        r := FailWith(if block.BlockCapacity? then Capacity else Malformed);
      }
    }

    method End(final: bool) returns (r: Status)
      modifies this
      ensures Outcome(r, View()) == EndPart(c, old(View()), final)
      ensures active == old(active)
    {
      var reply := c.callbacks.end(user);
      user := reply.user;
      if !reply.ok {
        r := FailWith(Malformed);
        return;
      }
      if final {
        phase := Done;
      } else {
        header, pending, fieldBytes, suffixState, currentFile := "", "", 0, 0, false;
        phase := Headers;
      }
      r := Ok;
    }

    method FeedHeaderByte(b: char) returns (r: Status)
      modifies this
      ensures Outcome(r, View()) == HeaderByte(c, old(View()), b)
      ensures active == old(active)
    {
      var n := |header|;
      if b == NUL {
        r := FailWith(Malformed);
      } else if n >= c.limits.maxHeaderBytes {
        r := FailWith(Capacity);
      } else if n != 0 && header[n - 1] == CR && b != LF {
        r := FailWith(Malformed);
      } else if b == LF && (n == 0 || header[n - 1] != CR) {
        r := FailWith(Malformed);
      } else {
        header := header + [b];
        if n + 1 >= 4 && header[n - 3..] == "\r\n\r\n" {
          r := Begin();
        } else {
          r := Ok;
        }
      }
    }

    method FeedSuffixByte(b: char) returns (r: Status)
      modifies this
      ensures Outcome(r, View()) == SuffixByte(c, old(View()), b)
      ensures active == old(active)
    {
      r := Ok;
      if suffixState == 0 && b == CR {
        suffixState := 1;
      } else if suffixState == 0 && b == '-' {
        suffixState := 2;
      } else if suffixState == 1 && b == LF {
        suffixState := 0;
        r := End(false);
      } else if suffixState == 2 && b == '-' {
        suffixState := 3;
      } else if suffixState == 3 && b == CR {
        suffixState := 4;
      } else if suffixState == 4 && b == LF {
        suffixState := 0;
        r := End(true);
      } else {
        r := FailWith(Malformed);
      }
    }

    /** Length of the run of octets from `start` before the next CR. */
    static method ScanRun(d: string, start: nat) returns (position: nat)
      requires start <= |d|
      ensures start <= position <= |d|
      ensures position < |d| ==> d[position] == CR
      ensures position - start == IndexOf(d[start..], CR)
    {
      position := start;
      while position < |d| && d[position] != CR
        invariant start <= position <= |d|
        invariant forall i :: start <= i < position ==> d[i] != CR
      {
        position := position + 1;
      }
      IndexOfUnique(d[start..], CR, position - start);
    }

    /** The run of octets from `at` to the next CR, emitted at once, and that CR. */
    method FeedRun(d: string, at: nat) returns (r: Status, position: nat)
      requires phase == Body && pending == [] && at < |d|
      modifies this
      ensures active == old(active)
      ensures at <= position <= |d|
      ensures (Outcome(r, View()), position - at) == BodyRun(c, old(View()), d[at..])
    {
      position := ScanRun(d, at);
      assert d[at..][..position - at] == d[at..position];
      r := EmitData(d[at..position]);
      if r != Ok { return; }
      total := total + (position - at);
      if position == |d| { return; }
      pending := [CR];
      position := position + 1;
      total := total + 1;
    }

    /** A body octet while a delimiter prefix is pending; a mismatch keeps the octet. */
    method FeedPending(b: char) returns (r: Status, consumed: bool)
      requires Valid() && phase == Body && pending != []
      modifies this
      ensures active == old(active)
      ensures consumed == Matches(c, old(View()), b)
      ensures consumed ==> r == Ok && View() == Advance(c, old(View()), b)
      ensures !consumed && r != Ok ==> Outcome(r, View()) == Emit(c, old(View()), old(pending))
      ensures !consumed && r == Ok ==>
        var o := Emit(c, old(View()), old(pending));
        o.status == Ok && View() == o.s.(pending := "")
    {
      if b == MarkerChar(c.boundary, |pending|) {
        pending := pending + [b];
        total := total + 1;
        if |pending| == |c.boundary| + 4 {
          pending, suffixState, phase := "", 0, Suffix;
        }
        return Ok, true;
      }
      consumed := false;
      r := EmitData(pending);
      if r == Ok { pending := ""; }
    }

    /** One octet in any phase but the body. */
    method FeedOctet(b: char) returns (r: Status)
      requires Valid() && phase != Body && phase != Failed
      modifies this
      ensures active == old(active)
      ensures Outcome(r, View()) == Step(c, old(View()), b)
    {
      if phase == Done {
        r := FailWith(Malformed);
      } else if phase == Initial {
        if b != InitialChar(c.boundary, initialIndex) {
          r := FailWith(Malformed);
          return;
        }
        initialIndex := initialIndex + 1;
        total := total + 1;
        if initialIndex == |c.boundary| + 4 {
          initialIndex := 0;
          phase := Headers;
        }
        r := Ok;
      } else if phase == Headers {
        r := FeedHeaderByte(b);
        total := total + 1;
      } else {
        r := FeedSuffixByte(b);
        total := total + 1;
      }
    }

    method Feed(d: string) returns (status: Status)
      requires Valid()
      modifies this
      ensures active == old(active) && Valid()
      ensures !old(active) ==> status == InvalidArgument && View() == old(View())
      ensures old(active) ==> Outcome(status, View()) == FeedCall(c, old(View()), d)
    {
      if !active || phase == Failed { return InvalidArgument; }
      if |d| > c.limits.maxTotalBytes - total {
        status := FailWith(Capacity);
        return;
      }
      var position := 0;
      assert d[0..] == d;
      ghost var whole := FeedLoop(c, View(), d);
      status := Ok;
      while position < |d| && status == Ok
        invariant 0 <= position <= |d|
        invariant active == old(active) && Valid()
        invariant status == Ok ==> Live() && total + (|d| - position) <= c.limits.maxTotalBytes
        invariant if status == Ok then FeedLoop(c, View(), d[position..]) == whole else Outcome(status, View()) == whole
        decreases if status == Ok then 1 else 0, |d| - position, |pending|
      {
        status, position := FeedOnce(d, position);
      }
    }

    ghost predicate Live()
      reads this
    {
      Valid() && phase != Failed
    }

    /** One iteration of the feed loop. */
    method FeedOnce(d: string, at: nat) returns (r: Status, position: nat)
      requires Live() && at < |d| && total + (|d| - at) <= c.limits.maxTotalBytes
      modifies this
      ensures active == old(active) && Valid()
      ensures at <= position <= |d|
      ensures r != Ok ==> Outcome(r, View()) == FeedLoop(c, old(View()), d[at..])
      ensures r == Ok ==>
        && Live()
        && total + (|d| - position) <= c.limits.maxTotalBytes
        && FeedLoop(c, View(), d[position..]) == FeedLoop(c, old(View()), d[at..])
        && (position > at || |pending| < |old(pending)|)
    {
      var b := d[at];
      FeedLoopOctet(c, View(), d, at);
      StepKeepsWellFormed(c, View(), b);
      if phase != Body {
        r := FeedOctet(b);
        position := at + 1;
      } else if pending == [] {
        FeedLoopRun(c, View(), d[at..]);
        BodyRunShape(c, View(), d[at..]);
        r, position := FeedRun(d, at);
        assert d[at..][position - at..] == d[position..];
      } else {
        var consumed;
        EmitShape(c, View(), pending);
        r, consumed := FeedPending(b);
        position := if consumed then at + 1 else at;
      }
    }

    method Finish() returns (status: Status)
      requires Valid()
      modifies this
      ensures !old(active) ==> status == InvalidArgument && View() == old(View()) && active == old(active)
      ensures old(active) ==> Outcome(status, View()) == FinishCall(old(View()))
      ensures old(active) ==> active == (status != Ok)
      ensures Valid()
    {
      if !active || phase == Failed { return InvalidArgument; }
      if phase != Done {
        status := FailWith(Malformed);
        return;
      }
      active := false;
      status := Ok;
    }

    method Reset() returns (status: Status)
      requires Valid()
      modifies this
      ensures status == (if old(active) && old(phase) != Failed then InvalidArgument else Ok)
      ensures status != Ok ==> View() == old(View()) && active == old(active)
      ensures status == Ok ==> View() == Start(old(user)) && active
      ensures Valid()
    {
      if active && phase != Failed { return InvalidArgument; }
      phase, initialIndex, header, pending, suffixState := Initial, 0, "", "", 0;
      currentFile, fieldBytes, partCount, total, active := false, 0, 0, 0, true;
      status := Ok;
    }
  }

  /** chttp_web_multipart_init: a parser exactly for valid limits and an acceptable Content-Type. */
  method Open<U>(contentType: string, limits: Limits, callbacks: Callbacks<U>, user: U)
    returns (status: Status, parser: Parser?<U>)
    ensures status == Ok <==> LimitsValid(limits) && ParseOuterBoundary(contentType).Some?
    ensures status != Ok ==> status == InvalidArgument && parser == null
    ensures status == Ok ==>
      && parser != null && fresh(parser) && parser.Valid() && parser.active
      && parser.c == Config(ParseOuterBoundary(contentType).value, limits, callbacks)
      && parser.View() == Start(user)
  {
    if !LimitsValid(limits) { return InvalidArgument, null; }
    var b := ParseOuterBoundary(contentType);
    if b.None? { return InvalidArgument, null; }
    parser := new Parser(Config(b.value, limits, callbacks), user);
    status := Ok;
  }
}
