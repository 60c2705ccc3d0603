/**
 The incremental multipart/form-data parser. `Step`/`Fold` is the reference
 reading, one octet at a time; `FeedLoop` is what one feed call does to a whole
 chunk; the class refines `FeedLoop` with the loop of the source.
 Callbacks act on a user state of type `U`.
 */
module Multipart {
  import opened Octets
  import opened MultipartHeaders

  datatype Status = Ok | InvalidArgument | Capacity | Malformed

  datatype Reply<U> = Reply(ok: bool, user: U)

  datatype Callbacks<!U> = Callbacks(
    begin: (U, Part) -> Reply<U>,
    data: (U, string) -> Reply<U>,
    end: U -> Reply<U>)

  datatype Config<!U> = Config(boundary: string, limits: Limits, callbacks: Callbacks<U>)

  datatype Phase = Initial | Headers | Body | Suffix | Done | Failed

  datatype State<U> = State(
    phase: Phase, initialIndex: nat, header: string, pending: string, suffixState: nat,
    currentFile: bool, fieldBytes: nat, partCount: nat, total: nat, user: U)

  datatype Outcome<U> = Outcome(status: Status, s: State<U>)

  function Opening(boundary: string): string {
    "--" + boundary + CRLF
  }

  function Marker(boundary: string): string {
    "\r\n--" + boundary
  }

  ghost predicate ConfigValid<U>(c: Config<U>) {
    BoundaryValid(c.boundary) && LimitsValid(c.limits)
  }

  /** What every reachable parser state satisfies. */
  ghost predicate WellFormed<U>(c: Config<U>, s: State<U>) {
    && (s.phase == Initial ==> s.initialIndex < |Opening(c.boundary)|)
    && (s.phase == Body ==> |s.pending| < |Marker(c.boundary)| && s.pending <= Marker(c.boundary))
    && (s.phase != Body && s.phase != Failed ==> s.pending == [])
    && s.suffixState <= 4
    && s.fieldBytes <= c.limits.maxFieldBytes
    && s.total <= c.limits.maxTotalBytes
  }

  function Start<U>(user: U): State<U> {
    State(Initial, 0, "", "", 0, false, 0, 0, 0, user)
  }

  function Fail<U>(s: State<U>, status: Status): Outcome<U> {
    Outcome(status, s.(phase := Failed))
  }

  function Good<U>(s: State<U>): Outcome<U> {
    Outcome(Ok, s)
  }

  /** chttp_web_multipart_emit */
  function Emit<U>(c: Config<U>, s: State<U>, d: string): Outcome<U> {
    if d == [] then Good(s)
    else if !s.currentFile && |d| > c.limits.maxFieldBytes - s.fieldBytes then Fail(s, Capacity)
    else
      var r := c.callbacks.data(s.user, d);
      var t := s.(user := r.user);
      if !r.ok then Fail(t, Malformed)
      else Good(if s.currentFile then t else t.(fieldBytes := s.fieldBytes + |d|))
  }

  /** chttp_web_multipart_begin_part */
  function BeginPart<U>(c: Config<U>, s: State<U>): Outcome<U> {
    match ParseHeaderBlock(c.limits, s.header)
    case BlockMalformed => Fail(s, Malformed)
    case BlockCapacity => Fail(s, Capacity)
    case BlockPart(part) => AdmitPart(c, s, part)
  }

  function AdmitPart<U>(c: Config<U>, s: State<U>, part: Part): Outcome<U> {
    if s.partCount >= c.limits.maxParts then Fail(s, Capacity)
    else
      var r := c.callbacks.begin(s.user, part);
      var t := s.(user := r.user);
      if !r.ok then Fail(t, Malformed)
      else Good(t.(partCount := s.partCount + 1, currentFile := part.filename.Some?,
                   fieldBytes := 0, pending := "", suffixState := 0, phase := Body))
  }

  /** chttp_web_multipart_end_part */
  function EndPart<U>(c: Config<U>, s: State<U>, final: bool): Outcome<U> {
    var r := c.callbacks.end(s.user);
    var t := s.(user := r.user);
    if !r.ok then Fail(t, Malformed)
    else if final then Good(t.(phase := Done))
    else Good(t.(header := "", pending := "", fieldBytes := 0, suffixState := 0,
                 currentFile := false, phase := Headers))
  }

  function HeaderByte<U>(c: Config<U>, s: State<U>, b: char): Outcome<U> {
    var n := |s.header|;
    if b == NUL then Fail(s, Malformed)
    else if n >= c.limits.maxHeaderBytes then Fail(s, Capacity)
    else if n != 0 && s.header[n - 1] == CR && b != LF then Fail(s, Malformed)
    else if b == LF && (n == 0 || s.header[n - 1] != CR) then Fail(s, Malformed)
    else
      var t := s.(header := s.header + [b]);
      if n + 1 >= 4 && t.header[n - 3..] == "\r\n\r\n" then BeginPart(c, t) else Good(t)
  }

  function SuffixByte<U>(c: Config<U>, s: State<U>, b: char): Outcome<U> {
    if s.suffixState == 0 && b == CR then Good(s.(suffixState := 1))
    else if s.suffixState == 0 && b == '-' then Good(s.(suffixState := 2))
    else if s.suffixState == 1 && b == LF then EndPart(c, s.(suffixState := 0), false)
    else if s.suffixState == 2 && b == '-' then Good(s.(suffixState := 3))
    else if s.suffixState == 3 && b == CR then Good(s.(suffixState := 4))
    else if s.suffixState == 4 && b == LF then EndPart(c, s.(suffixState := 0), true)
    else Fail(s, Malformed)
  }

  /** The header and suffix branches count the octet even when they fail on it. */
  function Counted<U>(o: Outcome<U>): Outcome<U> {
    o.(s := o.s.(total := o.s.total + 1))
  }

  /** A body octet while no delimiter prefix is pending. */
  function BodyByte<U>(c: Config<U>, s: State<U>, b: char): Outcome<U> {
    if b == CR then Good(s.(pending := [CR], total := s.total + 1))
    else
      var o := Emit(c, s, [b]);
      if o.status != Ok then o else Counted(o)
  }

  predicate Matches<U>(c: Config<U>, s: State<U>, b: char) {
    |s.pending| < |Marker(c.boundary)| && b == Marker(c.boundary)[|s.pending|]
  }

  function Advance<U>(c: Config<U>, s: State<U>, b: char): State<U> {
    var t := s.(pending := s.pending + [b], total := s.total + 1);
    if |t.pending| == |Marker(c.boundary)| then t.(pending := "", suffixState := 0, phase := Suffix) else t
  }

  /** The effect of one octet. */
  function Step<U>(c: Config<U>, s: State<U>, b: char): Outcome<U> {
    match s.phase
    case Done => Fail(s, Malformed)
    case Failed => Fail(s, Malformed)
    case Initial =>
      if s.initialIndex >= |Opening(c.boundary)| || b != Opening(c.boundary)[s.initialIndex] then Fail(s, Malformed)
      else
        var t := s.(initialIndex := s.initialIndex + 1, total := s.total + 1);
        Good(if t.initialIndex == |Opening(c.boundary)| then t.(initialIndex := 0, phase := Headers) else t)
    case Headers => Counted(HeaderByte(c, s, b))
    case Suffix => Counted(SuffixByte(c, s, b))
    case Body =>
      if s.pending == [] then BodyByte(c, s, b)
      else if Matches(c, s, b) then Good(Advance(c, s, b))
      else
        var o := Emit(c, s, s.pending);
        if o.status != Ok then o else BodyByte(c, o.s.(pending := ""), b)
  }

  function Fold<U>(c: Config<U>, s: State<U>, bytes: string): Outcome<U>
    decreases |bytes|
  {
    if bytes == [] then Good(s)
    else
      var o := Step(c, s, bytes[0]);
      if o.status != Ok then o else Fold(c, o.s, bytes[1..])
  }

  /** The chunk loop of chttp_web_multipart_feed. */
  function FeedLoop<U>(c: Config<U>, s: State<U>, d: string): Outcome<U>
    decreases |d|, |s.pending|
  {
    if d == [] then Good(s)
    else if s.phase == Body && s.pending == [] then
      var n := IndexOf(d, CR);
      if n > 0 then
        var o := Emit(c, s, d[..n]);
        if o.status != Ok then o else FeedLoop(c, o.s.(total := o.s.total + n), d[n..])
      else FeedLoop(c, s.(pending := [CR], total := s.total + 1), d[1..])
    else if s.phase == Body && !Matches(c, s, d[0]) then
      var o := Emit(c, s, s.pending);
      if o.status != Ok then o else FeedLoop(c, o.s.(pending := ""), d)
    else
      var o := Step(c, s, d[0]);
      if o.status != Ok then o else FeedLoop(c, o.s, d[1..])
  }

  /** A feed call on an active parser: the total limit is checked before the loop. */
  function FeedCall<U>(c: Config<U>, s: State<U>, d: string): Outcome<U> {
    if s.phase == Failed then Outcome(InvalidArgument, s)
    else if |d| > c.limits.maxTotalBytes - s.total then Fail(s, Capacity)
    else FeedLoop(c, s, d)
  }

  /** chttp_web_multipart_finish */
  function FinishCall<U>(s: State<U>): Outcome<U> {
    if s.phase == Failed then Outcome(InvalidArgument, s)
    else if s.phase != Done then Fail(s, Malformed)
    else Good(s)
  }

  /** Feeding the chunks in order, then finishing; stops at the first failure. */
  function ParseChunks<U>(c: Config<U>, s: State<U>, chunks: seq<string>): Outcome<U>
    decreases |chunks|
  {
    if chunks == [] then FinishCall(s)
    else
      var o := FeedCall(c, s, chunks[0]);
      if o.status != Ok then o else ParseChunks(c, o.s, chunks[1..])
  }

  // ---------------------------------------------------------------- invariant

  /** What one octet may do to a well-formed state. */
  ghost predicate StepResult<U>(c: Config<U>, s: State<U>, o: Outcome<U>) {
    && WellFormed(c, o.s)
    && (o.status == Ok <==> o.s.phase != Failed)
    && (o.status == Ok ==> o.s.total == s.total + 1)
  }

  lemma EmitShape<U>(c: Config<U>, s: State<U>, d: string)
    requires s.phase != Failed && s.fieldBytes <= c.limits.maxFieldBytes
    ensures var o := Emit(c, s, d);
            && (o.status == Ok <==> o.s.phase != Failed)
            && o.s.fieldBytes <= c.limits.maxFieldBytes
            && o.s == s.(phase := o.s.phase, user := o.s.user, fieldBytes := o.s.fieldBytes)
            && (o.status == Ok ==> o.s.phase == s.phase)
  {
  }

  lemma BeginPartShape<U>(c: Config<U>, s: State<U>)
    requires s.phase == Headers
    ensures var o := BeginPart(c, s);
            && (o.status == Ok ==> o.s.phase == Body && o.s.pending == [] && o.s.fieldBytes == 0)
            && (o.status != Ok ==> o.s == s.(phase := Failed, user := o.s.user))
            && o.s.total == s.total && o.s.suffixState <= s.suffixState
  {
  }

  lemma HeaderStep<U>(c: Config<U>, s: State<U>, b: char)
    requires WellFormed(c, s) && s.total < c.limits.maxTotalBytes && s.phase == Headers
    ensures StepResult(c, s, Step(c, s, b))
  {
    var t := s.(header := s.header + [b]);
    var o, r := BeginPart(c, t), HeaderByte(c, s, b);
    assert r == Fail(s, Malformed) || r == Fail(s, Capacity) || r == Good(t) || r == o;
    assert Step(c, s, b) == Counted(r);
    BeginPartShape(c, t);
    HeaderResult(c, s, t, o, r);
  }

  lemma HeaderResult<U>(c: Config<U>, s: State<U>, t: State<U>, o: Outcome<U>, r: Outcome<U>)
    requires WellFormed(c, s) && s.total < c.limits.maxTotalBytes && s.phase == Headers && t == s.(header := t.header)
    requires o.status == Ok ==> o.s.phase == Body && o.s.pending == [] && o.s.fieldBytes == 0
    requires o.status != Ok ==> o.s == t.(phase := Failed, user := o.s.user)
    requires o.s.total == t.total && o.s.suffixState <= t.suffixState
    requires r == Fail(s, Malformed) || r == Fail(s, Capacity) || r == Good(t) || r == o
    ensures StepResult(c, s, Counted(r))
  {
  }

  lemma BodyStep<U>(c: Config<U>, s: State<U>, b: char)
    requires WellFormed(c, s) && s.total < c.limits.maxTotalBytes && s.phase == Body
    ensures StepResult(c, s, Step(c, s, b))
  {
    var m := Marker(c.boundary);
    assert m[0] == CR;
    if s.pending == [] {
      EmitShape(c, s, [b]);
    } else if Matches(c, s, b) {
      assert s.pending + [b] <= m;
    } else {
      EmitShape(c, s, s.pending);
      EmitShape(c, Emit(c, s, s.pending).s.(pending := "", phase := Body), [b]);
    }
  }

  /** Every octet keeps the parser well formed and is counted once. */
  lemma StepKeepsWellFormed<U>(c: Config<U>, s: State<U>, b: char)
    requires WellFormed(c, s) && s.total < c.limits.maxTotalBytes && s.phase != Failed
    ensures StepResult(c, s, Step(c, s, b))
  {
    match s.phase
    case Headers => HeaderStep(c, s, b);
    case Body => BodyStep(c, s, b);
    case _ =>
  }

  lemma {:induction false} FoldAppend<U>(c: Config<U>, s: State<U>, a: string, b: string)
    ensures Fold(c, s, a + b) ==
            var o := Fold(c, s, a); if o.status != Ok then o else Fold(c, o.s, b)
    decreases |a|
  {
    if a == [] {
      assert a + b == b;
    } else {
      assert (a + b)[1..] == a[1..] + b;
      var o := Step(c, s, a[0]);
      if o.status == Ok {
        FoldAppend(c, o.s, a[1..], b);
      }
    }
  }

  lemma {:induction false} FoldKeepsWellFormed<U>(c: Config<U>, s: State<U>, d: string)
    requires WellFormed(c, s) && s.total + |d| <= c.limits.maxTotalBytes && s.phase != Failed
    ensures WellFormed(c, Fold(c, s, d).s)
    ensures (Fold(c, s, d).status == Ok) == (Fold(c, s, d).s.phase != Failed)
    ensures Fold(c, s, d).status == Ok ==> Fold(c, s, d).s.total == s.total + |d|
    decreases |d|
  {
    if d != [] {
      StepKeepsWellFormed(c, s, d[0]);
      var o := Step(c, s, d[0]);
      if o.status == Ok {
        FoldKeepsWellFormed(c, o.s, d[1..]);
      }
    }
  }

  // ------------------------------------------------- independence of chunking

  /** Delivering data in two pieces has the effect of delivering it at once. */
  ghost predicate Splittable<U(!new)>(k: Callbacks<U>) {
    forall u: U, a: string, b: string :: a != [] && b != [] ==>
      var first, whole := k.data(u, a), k.data(u, a + b);
      && (whole.ok <==> first.ok && k.data(first.user, b).ok)
      && (whole.ok ==> whole.user == k.data(first.user, b).user)
  }

  ghost predicate Accepting<U(!new)>(k: Callbacks<U>) {
    forall u: U, a: string :: k.data(u, a).ok
  }

  /** Same verdict; same everything on success; same status when data is never refused. */
  ghost predicate Agree<U(!new)>(c: Config<U>, x: Outcome<U>, y: Outcome<U>) {
    && (x.status == Ok <==> y.status == Ok)
    && (x.status == Ok ==> x == y)
    && (Accepting(c.callbacks) ==> x.status == y.status)
  }

  /** Emitting a run of body octets at once is folding over it. */
  lemma {:induction false} RunIsFold<U(!new)>(c: Config<U>, s: State<U>, d: string)
    requires Splittable(c.callbacks)
    requires s.phase == Body && s.pending == [] && d != [] && CR !in d
    ensures var o := Emit(c, s, d);
            Agree(c, Fold(c, s, d), if o.status != Ok then o else Good(o.s.(total := s.total + |d|)))
    decreases |d|
  {
    var o := Step(c, s, d[0]);
    if |d| == 1 {
      assert d == [d[0]];
      if o.status == Ok { assert Fold(c, o.s, d[1..]) == Good(o.s); }
    } else {
      var rest := d[1..];
      assert d == [d[0]] + rest;
      var first := c.callbacks.data(s.user, [d[0]]);
      assert c.callbacks.data(s.user, [d[0]] + rest) == c.callbacks.data(s.user, d);
      if o.status == Ok {
        RunIsFold(c, o.s, rest);
      }
    }
  }

  lemma {:induction false} FeedLoopIsFold<U(!new)>(c: Config<U>, s: State<U>, d: string)
    requires Splittable(c.callbacks)
    ensures Agree(c, Fold(c, s, d), FeedLoop(c, s, d))
    decreases |d|, |s.pending|
  {
    if d == [] {
    } else if s.phase == Body && s.pending == [] {
      var n := IndexOf(d, CR);
      if n > 0 {
        var run, rest := d[..n], d[n..];
        assert d == run + rest;
        RunIsFold(c, s, run);
        FoldAppend(c, s, run, rest);
        var o := Emit(c, s, run);
        assert FeedLoop(c, s, d) == if o.status != Ok then o else FeedLoop(c, o.s.(total := o.s.total + n), rest);
        if o.status == Ok {
          FeedLoopIsFold(c, o.s.(total := o.s.total + n), rest);
        }
      } else {
        FeedLoopIsFold(c, s.(pending := [CR], total := s.total + 1), d[1..]);
      }
    } else if s.phase == Body && !Matches(c, s, d[0]) {
      var o := Emit(c, s, s.pending);
      if o.status == Ok {
        FeedLoopIsFold(c, o.s.(pending := ""), d);
        assert Step(c, s, d[0]) == Step(c, o.s.(pending := ""), d[0]);
      }
    } else {
      var o := Step(c, s, d[0]);
      assert FeedLoop(c, s, d) == if o.status != Ok then o else FeedLoop(c, o.s, d[1..]);
      if o.status == Ok {
        FeedLoopIsFold(c, o.s, d[1..]);
      }
    }
  }

  /** A chunked parse within the total limit is one fold over the whole body. */
  lemma {:induction false} ChunksAreFold<U(!new)>(c: Config<U>, s: State<U>, chunks: seq<string>)
    requires Splittable(c.callbacks) && WellFormed(c, s) && s.phase != Failed
    requires s.total + |Concat(chunks)| <= c.limits.maxTotalBytes
    ensures var o := Fold(c, s, Concat(chunks));
            Agree(c, if o.status != Ok then o else FinishCall(o.s), ParseChunks(c, s, chunks))
    decreases |chunks|
  {
    if chunks != [] {
      var d, rest := chunks[0], Concat(chunks[1..]);
      FoldAppend(c, s, d, rest);
      FeedLoopIsFold(c, s, d);
      FoldKeepsWellFormed(c, s, d);
      var o := FeedCall(c, s, d);
      if o.status == Ok {
        ChunksAreFold(c, o.s, chunks[1..]);
      }
    }
  }

  /** Two chunkings of the same body, within the total limit, are indistinguishable. */
  lemma ChunkingIrrelevant<U(!new)>(c: Config<U>, s: State<U>, x: seq<string>, y: seq<string>)
    requires Splittable(c.callbacks) && WellFormed(c, s) && s.phase != Failed
    requires Concat(x) == Concat(y)
    requires s.total + |Concat(x)| <= c.limits.maxTotalBytes
    ensures Agree(c, ParseChunks(c, s, x), ParseChunks(c, s, y))
  {
    ChunksAreFold(c, s, x);
    ChunksAreFold(c, s, y);
  }
}
