/**
 What the application ends up with: exactly one terminal call, a commit only
 behind every gate, and exactly the parts of the body except the CSRF part.
 */
module UploadDelivery {
  import opened Octets
  import opened MultipartHeaders
  import opened Multipart
  import opened MultipartSim
  import RT = MultipartRoundTrip
  import opened Upload

  // ---------------------------------------------------------- terminal outcome

  function Commits(t: seq<Entry>): nat
    decreases |t|
  {
    if t == [] then 0 else Commits(t[..|t| - 1]) + if t[|t| - 1].call == Commit then 1 else 0
  }

  function Aborts(t: seq<Entry>): nat
    decreases |t|
  {
    if t == [] then 0 else Aborts(t[..|t| - 1]) + if t[|t| - 1].call.Abort? then 1 else 0
  }

  /** A legal trace tries commit at most once, aborts at most once, and never ends both ways. */
  lemma {:induction false} OneTerminal(t: seq<Entry>)
    requires ShapeOf(t) != Illegal
    ensures Commits(t) <= 1 && Aborts(t) <= 1
    ensures ShapeOf(t) == Accepted ==> Commits(t) == 1 && Aborts(t) == 0 && t[|t| - 1] == Entry(Commit, NativeOk)
    ensures ShapeOf(t) == RolledBack <==> Aborts(t) == 1
    ensures Commits(t) == 1 ==> ShapeOf(t) in {Accepted, CommitRefused, RolledBack}
    decreases |t|
  {
    if t != [] {
      OneTerminal(t[..|t| - 1]);
    }
  }

  lemma {:induction false} CommitCounted(t: seq<Entry>, i: nat)
    requires i < |t| && t[i].call == Commit
    ensures Commits(t) > 0
    decreases |t|
  {
    if i < |t| - 1 {
      CommitCounted(t[..|t| - 1], i);
    }
  }

  ghost predicate TriesCommit(before: seq<Entry>, after: seq<Entry>) {
    exists i :: |before| <= i < |after| && after[i].call == Commit
  }

  lemma AbortTriesNoCommit(app: App, m: Upload, status: WebStatus, native: Native)
    ensures !TriesCommit(m.Trace(), AbortOnce(app, m, status, native).Trace())
  {
  }

  lemma OnlyFinalizeCommits(app: App, m: Upload, op: Op)
    requires Consistent(app, m) && !op.Finalize?
    ensures !TriesCommit(m.Trace(), Apply(app, m, op).Trace())
  {
    match op
    case Write(d) =>
      WriteStreams(app, m, d);
      var t := WriteStep(m, d).Trace();
      if TriesCommit(m.Trace(), t) && m.Stage() == Streaming {
        var i :| |m.Trace()| <= i < |t| && t[i].call == Commit;
        CommitCounted(t, i);
        OneTerminal(t);
        assert false;
      }
    case Close(t) =>
      AbortTriesNoCommit(app, m, if m.terminal != WebOk then m.terminal else WebServer,
                         if m.native != NativeOk then m.native else t);
      AbortTriesNoCommit(app, m, m.terminal, m.native);
      var o := FinishCall(m.parser);
      AbortTriesNoCommit(app, m.(parser := o.s), ToWeb(o.status), NativeOk);
    case RequestAbort(st, n) => AbortTriesNoCommit(app, m, st, n);
  }

  /** Commit is tried only by a finalizer whose body is parsed to the end and whose gates all passed. */
  lemma CommitNeedsEveryGate(app: App, m: Upload, op: Op)
    requires Consistent(app, m)
    requires TriesCommit(m.Trace(), Apply(app, m, op).Trace())
    ensures op.Finalize? && op.request.bodyStreamed && op.request.sinkIsThisUpload
    ensures m.Stage() == BodyComplete && m.parser.phase == Done && !m.active
    ensures CsrfStatus(op.request, Candidate(op.request, m.parser.user)) == WebOk
    ensures op.validation == NotSupplied || op.validation == Checked(true)
  {
    if !op.Finalize? {
      OnlyFinalizeCommits(app, m, op);
    } else {
      AbortTriesNoCommit(app, m, CsrfStatus(op.request, Candidate(op.request, m.parser.user)), NativeOk);
      AbortTriesNoCommit(app, m, WebInvalidArgument, NativeOk);
      AbortTriesNoCommit(app, m, WebValidation, NativeOk);
    }
  }

  // ------------------------------------------------------------------ delivery

  function DeliverNext(v: seq<RT.Received>, call: Call): seq<RT.Received> {
    match call
    case PartBegin(p) => RT.RecordBegin(v, p).user
    case PartData(d) => RT.RecordData(v, d).user
    case PartEnd => RT.RecordEnd(v).user
    case _ => v
  }

  /** The parts the application was handed, as it received them. */
  function Delivered(t: seq<Entry>): seq<RT.Received>
    decreases |t|
  {
    if t == [] then [] else DeliverNext(Delivered(t[..|t| - 1]), t[|t| - 1].call)
  }

  lemma DeliveredSnoc(t: seq<Entry>, e: Entry)
    ensures Delivered(t + [e]) == DeliverNext(Delivered(t), e.call)
  {
    assert (t + [e])[..|t|] == t;
  }

  function WithoutCsrf(v: seq<RT.Received>): seq<RT.Received>
    decreases |v|
  {
    if v == [] then []
    else
      var k := |v| - 1;
      if IsCsrf(v[k].part) then WithoutCsrf(v[..k]) else WithoutCsrf(v[..k]) + [v[k]]
  }

  lemma WithoutCsrfSnoc(v: seq<RT.Received>, r: RT.Received)
    ensures WithoutCsrf(v + [r]) == if IsCsrf(r.part) then WithoutCsrf(v) else WithoutCsrf(v) + [r]
  {
    assert (v + [r])[..|v|] == v;
  }

  /** Data of the completed CSRF parts. */
  function Tokens(v: seq<RT.Received>): seq<string>
    decreases |v|
  {
    if v == [] then []
    else
      var k := |v| - 1;
      Tokens(v[..k]) + if IsCsrf(v[k].part) && v[k].ended then [v[k].data] else []
  }

  lemma TokensSnoc(v: seq<RT.Received>, r: RT.Received)
    ensures Tokens(v + [r]) == Tokens(v) + if IsCsrf(r.part) && r.ended then [r.data] else []
  {
    assert (v + [r])[..|v|] == v;
  }

  /** The upload record against a recording of everything the parser saw. */
  ghost predicate Mirrors(inside: bool, u: Record, v: seq<RT.Received>) {
    && Delivered(u.trace) == WithoutCsrf(v)
    && u.csrfCount == |Tokens(v)| <= 1
    && (u.csrfCount == 1 ==> Tokens(v) == [u.csrfToken])
    && (inside ==>
      && v != []
      && !v[|v| - 1].ended
      && u.csrfPart == IsCsrf(v[|v| - 1].part)
      && (u.csrfPart ==> u.csrfCount == 0 && u.csrfToken == v[|v| - 1].data))
  }

  lemma MirrorBegin(app: App, u: Record, v: seq<RT.Received>, p: Part)
    requires Mirrors(false, u, v) && OnPartBegin(app, u, p).ok
    ensures Mirrors(true, OnPartBegin(app, u, p).user, RT.RecordBegin(v, p).user)
  {
    var r := RT.Received(p, "", false);
    WithoutCsrfSnoc(v, r);
    TokensSnoc(v, r);
    DeliveredSnoc(u.trace, Entry(PartBegin(p), app(u.trace, PartBegin(p))));
  }

  lemma MirrorData(app: App, u: Record, v: seq<RT.Received>, d: string)
    requires Mirrors(true, u, v) && OnPartData(app, u, d).ok
    ensures Mirrors(true, OnPartData(app, u, d).user, RT.RecordData(v, d).user)
  {
    var k := |v| - 1;
    var r := v[k].(data := v[k].data + d);
    assert v == v[..k] + [v[k]];
    WithoutCsrfSnoc(v[..k], v[k]);
    WithoutCsrfSnoc(v[..k], r);
    TokensSnoc(v[..k], v[k]);
    TokensSnoc(v[..k], r);
    DeliveredSnoc(u.trace, Entry(PartData(d), app(u.trace, PartData(d))));
  }

  lemma MirrorEnd(app: App, u: Record, v: seq<RT.Received>)
    requires Mirrors(true, u, v) && OnPartEnd(app, u).ok
    ensures Mirrors(false, OnPartEnd(app, u).user, RT.RecordEnd(v).user)
  {
    var k := |v| - 1;
    var r := v[k].(ended := true);
    assert v == v[..k] + [v[k]];
    WithoutCsrfSnoc(v[..k], v[k]);
    WithoutCsrfSnoc(v[..k], r);
    TokensSnoc(v[..k], v[k]);
    TokensSnoc(v[..k], r);
    DeliveredSnoc(u.trace, Entry(PartEnd, app(u.trace, PartEnd)));
  }

  lemma HooksMirrorRecorder(app: App)
    ensures Simulates(Hooks(app), RT.Recorder(), Mirrors, (u: Record) => false)
    ensures Absorbing(Hooks(app), (u: Record) => false)
  {
    forall u, v, p | Mirrors(false, u, v) && OnPartBegin(app, u, p).ok
      ensures Mirrors(true, OnPartBegin(app, u, p).user, RT.RecordBegin(v, p).user)
    {
      MirrorBegin(app, u, v, p);
    }
    forall u, v, d | Mirrors(true, u, v) && OnPartData(app, u, d).ok
      ensures Mirrors(true, OnPartData(app, u, d).user, RT.RecordData(v, d).user)
    {
      MirrorData(app, u, v, d);
    }
    forall u, v | Mirrors(true, u, v) && OnPartEnd(app, u).ok
      ensures Mirrors(false, OnPartEnd(app, u).user, RT.RecordEnd(v).user)
    {
      MirrorEnd(app, u, v);
    }
  }

  function Writes(chunks: seq<string>): seq<Op> {
    if chunks == [] then [] else [Write(chunks[0])] + Writes(chunks[1..])
  }

  lemma {:induction false} FailureSticks(app: App, m: Upload, chunks: seq<string>)
    requires Consistent(app, m) && m.Stage() == Streaming && m.parser.phase == Failed && m.terminal != WebOk
    ensures Exec(app, m, Writes(chunks) + [Close(NativeOk)]).Stage() != BodyComplete
    decreases |chunks|
  {
    var ops := Writes(chunks) + [Close(NativeOk)];
    ApplyConsistent(app, m, ops[0]);
    if chunks == [] {
      assert Exec(app, m, ops) == Exec(app, Apply(app, m, ops[0]), []);
    } else {
      assert ops[0] == Write(chunks[0]) && ops[1..] == Writes(chunks[1..]) + [Close(NativeOk)];
      FailureSticks(app, Apply(app, m, ops[0]), chunks[1..]);
    }
  }

  lemma FeedFails(c: Config<Record>, s: State<Record>, d: string)
    requires s.phase != Failed && FeedCall(c, s, d).status != Ok
    ensures FeedCall(c, s, d).s.phase == Failed
  {
    if |d| <= c.limits.maxTotalBytes - s.total {
      LoopFails(c, s, d);
    }
  }

  lemma {:induction false} LoopFails(c: Config<Record>, s: State<Record>, d: string)
    requires s.phase != Failed
    ensures FeedLoop(c, s, d).status != Ok <==> FeedLoop(c, s, d).s.phase == Failed
    decreases |d|, |s.pending|
  {
    if d == [] {
    } else if s.phase == Body && s.pending == [] {
      var n := IndexOf(d, CR);
      if n > 0 {
        var o := Emit(c, s, d[..n]);
        assert FeedLoop(c, s, d) == if o.status != Ok then o else FeedLoop(c, o.s.(total := o.s.total + n), d[n..]);
        if o.status == Ok { LoopFails(c, o.s.(total := o.s.total + n), d[n..]); }
      } else {
        LoopFails(c, s.(pending := [CR], total := s.total + 1), d[1..]);
      }
    } else if s.phase == Body && !Matches(c, s, d[0]) {
      var o := Emit(c, s, s.pending);
      if o.status == Ok { LoopFails(c, o.s.(pending := ""), d); }
    } else {
      var o := Step(c, s, d[0]);
      assert FeedLoop(c, s, d) == if o.status != Ok then o else FeedLoop(c, o.s, d[1..]);
      StepFails(c, s, d[0]);
      if o.status == Ok { LoopFails(c, o.s, d[1..]); }
    }
  }

  lemma StepFails(c: Config<Record>, s: State<Record>, b: char)
    requires s.phase != Failed
    ensures Step(c, s, b).status != Ok <==> Step(c, s, b).s.phase == Failed
  {
    if s.phase == Headers {
      var t, r := s.(header := s.header + [b]), HeaderByte(c, s, b);
      assert r == Fail(s, Malformed) || r == Fail(s, Capacity) || r == Good(t) || r == BeginPart(c, t);
      assert Step(c, s, b) == Counted(r);
      BeginPartShape(c, t);
    }
  }

  /** Streaming the chunks and closing reaches the finalizer exactly when the parser accepts them. */
  lemma {:induction false} StreamIsParse(app: App, m: Upload, chunks: seq<string>)
    requires Consistent(app, m) && m.Stage() == Streaming && m.parser.phase != Failed && m.terminal == WebOk
    ensures var after := Exec(app, m, Writes(chunks) + [Close(NativeOk)]);
      var o := ParseChunks(m.c, m.parser, chunks);
      && (after.Stage() == BodyComplete <==> o.status == Ok)
      && (o.status == Ok ==> after.parser == o.s.(user := o.s.user.(stage := BodyComplete)))
    decreases |chunks|
  {
    var ops := Writes(chunks) + [Close(NativeOk)];
    ApplyConsistent(app, m, ops[0]);
    var next := Apply(app, m, ops[0]);
    if chunks == [] {
      assert ops[1..] == [];
      assert Exec(app, m, ops) == next;
    } else {
      assert ops[0] == Write(chunks[0]) && ops[1..] == Writes(chunks[1..]) + [Close(NativeOk)];
      WriteStreams(app, m, chunks[0]);
      if FeedCall(m.c, m.parser, chunks[0]).status == Ok {
        FeedStays(m.c, m.parser, chunks[0]);
        StreamIsParse(app, next, chunks[1..]);
      } else {
        FeedFails(m.c, m.parser, chunks[0]);
        FailureSticks(app, next, chunks[1..]);
      }
    }
  }

  lemma FeedStays(c: Config<Record>, s: State<Record>, d: string)
    requires s.phase != Failed && FeedCall(c, s, d).status == Ok
    ensures FeedCall(c, s, d).s.phase != Failed
  {
    LoopFails(c, s, d);
  }

  /**
   Whatever the bytes and whatever the application does, an upload that reaches its
   finalizer has handed the application exactly the parts that the parser found in
   the body other than the CSRF part, and captured exactly that part's data.
   */
  lemma DeliversWhatIsParsed(app: App, boundary: string, limits: Limits, chunks: seq<string>)
    requires OpenUpload(app, boundary, limits).Some?
    ensures var m := OpenUpload(app, boundary, limits).value;
      var after := Exec(app, m, Writes(chunks) + [Close(NativeOk)]);
      var parsed := ParseChunks(Config(boundary, limits, RT.Recorder()), Start([]), chunks);
      after.Stage() == BodyComplete ==>
        && parsed.status == Ok
        && Delivered(after.Trace()) == WithoutCsrf(parsed.s.user)
        && after.parser.user.csrfCount == |Tokens(parsed.s.user)| <= 1
        && (after.parser.user.csrfCount == 1 ==> Tokens(parsed.s.user) == [after.parser.user.csrfToken])
  {
    var m := OpenUpload(app, boundary, limits).value;
    OpenConsistent(app, boundary, limits);
    HooksMirrorRecorder(app);
    StreamIsParse(app, m, chunks);
    DeliveredSnoc([], Entry(BeginUpload, NativeOk));
    assert [] + [Entry(BeginUpload, NativeOk)] == [Entry(BeginUpload, NativeOk)];
    assert Mirrors(false, m.parser.user, []);
    ChunksSim(m.c, Config(boundary, limits, RT.Recorder()), Mirrors, (u: Record) => false, m.parser, Start([]), chunks);
  }

  /** So of a printed body exactly its parts, however it is cut into chunks. */
  lemma DeliversAllButCsrf(app: App, boundary: string, limits: Limits, items: seq<RT.Item>, chunks: seq<string>)
    requires OpenUpload(app, boundary, limits).Some?
    requires var d := Config(boundary, limits, RT.Recorder());
      RT.BodyFits(d, items) && RT.NoDelimiterInData(boundary, items)
    requires Concat(chunks) == RT.PrintBody(boundary, items)
    ensures var m := OpenUpload(app, boundary, limits).value;
      var after := Exec(app, m, Writes(chunks) + [Close(NativeOk)]);
      after.Stage() == BodyComplete ==>
        && Delivered(after.Trace()) == WithoutCsrf(RT.Complete(items))
        && after.parser.user.csrfCount == |Tokens(RT.Complete(items))| <= 1
        && (after.parser.user.csrfCount == 1 ==> Tokens(RT.Complete(items)) == [after.parser.user.csrfToken])
  {
    DeliversWhatIsParsed(app, boundary, limits, chunks);
    RT.RoundTrip(Config(boundary, limits, RT.Recorder()), items, chunks);
  }

  // ---------------------------------------------------------------- which bodies reach the finalizer

  predicate LawfulPart(r: RT.Received) {
    IsCsrf(r.part) ==> r.part.filename.None? && |r.data| <= CSRF_TOKEN_BYTES
  }

  predicate NoCsrf(v: seq<RT.Received>) {
    forall j :: 0 <= j < |v| ==> !IsCsrf(v[j].part)
  }

  /** At most one CSRF part, without a file name and no longer than a token. */
  predicate Lawful(v: seq<RT.Received>)
    decreases |v|
  {
    v == [] ||
    (var k := |v| - 1; Lawful(v[..k]) && LawfulPart(v[k]) && (IsCsrf(v[k].part) ==> NoCsrf(v[..k])))
  }

  lemma LawfulInit(v: seq<RT.Received>, r: RT.Received)
    ensures Lawful(v + [r]) <==> Lawful(v) && LawfulPart(r) && (IsCsrf(r.part) ==> NoCsrf(v))
  {
    assert (v + [r])[..|v|] == v;
  }

  lemma RecorderAbsorbs()
    ensures Absorbing(RT.Recorder(), (v: seq<RT.Received>) => !Lawful(v))
  {
    forall v: seq<RT.Received>, p: Part | !Lawful(v)
      ensures !Lawful(RT.RecordBegin(v, p).user)
    {
      LawfulInit(v, RT.Received(p, "", false));
    }
    forall v: seq<RT.Received>, d: string | !Lawful(v)
      ensures !Lawful(RT.RecordData(v, d).user)
    {
      ChangedLast(v, d, false);
    }
    forall v: seq<RT.Received> | !Lawful(v)
      ensures !Lawful(RT.RecordEnd(v).user)
    {
      ChangedLast(v, "", true);
    }
  }

  /** A part that only grows does not become lawful. */
  lemma ChangedLast(v: seq<RT.Received>, d: string, ended: bool)
    requires !Lawful(v)
    ensures v != []
    ensures var k := |v| - 1; !Lawful(v[..k] + [v[k].(data := v[k].data + d)]) && !Lawful(v[..k] + [v[k].(ended := true)])
  {
    var k := |v| - 1;
    assert v == v[..k] + [v[k]];
    LawfulInit(v[..k], v[k]);
    LawfulInit(v[..k], v[k].(data := v[k].data + d));
    LawfulInit(v[..k], v[k].(ended := true));
  }

  ghost predicate AllEnded(v: seq<RT.Received>) {
    forall i :: 0 <= i < |v| ==> v[i].ended
  }

  /** The recording against the record of an upload whose application accepts everything. */
  ghost predicate Reflects(inside: bool, v: seq<RT.Received>, u: Record) {
    && Mirrors(inside, u, v) && u.stage == Streaming && Lawful(v)
    && AllEnded(if inside && v != [] then v[..|v| - 1] else v)
  }

  lemma {:induction false} NoTokens(v: seq<RT.Received>)
    requires NoCsrf(v)
    ensures Tokens(v) == []
    decreases |v|
  {
    if v != [] {
      NoTokens(v[..|v| - 1]);
    }
  }

  ghost predicate Accepts(app: App) {
    forall t: seq<Entry>, call: Call :: app(t, call) == NativeOk
  }

  lemma ReflectBegin(app: App, v: seq<RT.Received>, u: Record, p: Part)
    requires Accepts(app) && Reflects(false, v, u) && Lawful(RT.RecordBegin(v, p).user)
    ensures OnPartBegin(app, u, p).ok && Reflects(true, RT.RecordBegin(v, p).user, OnPartBegin(app, u, p).user)
  {
    var r := RT.Received(p, "", false);
    LawfulInit(v, r);
    if IsCsrf(p) {
      NoTokens(v);
    }
    assert (v + [r])[..|v|] == v;
    MirrorBegin(app, u, v, p);
  }

  lemma ReflectData(app: App, v: seq<RT.Received>, u: Record, d: string)
    requires Accepts(app) && Reflects(true, v, u) && Lawful(RT.RecordData(v, d).user)
    ensures OnPartData(app, u, d).ok && Reflects(true, RT.RecordData(v, d).user, OnPartData(app, u, d).user)
  {
    var k := |v| - 1;
    var w := RT.RecordData(v, d).user;
    LawfulInit(v[..k], w[k]);
    assert w[..k] == v[..k];
    MirrorData(app, u, v, d);
  }

  lemma ReflectEnd(app: App, v: seq<RT.Received>, u: Record)
    requires Accepts(app) && Reflects(true, v, u) && Lawful(RT.RecordEnd(v).user)
    ensures OnPartEnd(app, u).ok && Reflects(false, RT.RecordEnd(v).user, OnPartEnd(app, u).user)
  {
    var k := |v| - 1;
    var w := RT.RecordEnd(v).user;
    forall i | 0 <= i < |w|
      ensures w[i].ended
    {
      assert i < k ==> w[i] == v[..k][i];
    }
    MirrorEnd(app, u, v);
  }

  lemma RecorderReflects(app: App)
    requires Accepts(app)
    ensures Simulates(RT.Recorder(), Hooks(app), Reflects, (v: seq<RT.Received>) => !Lawful(v))
  {
    forall v, u, p | Reflects(false, v, u) && Lawful(RT.RecordBegin(v, p).user)
      ensures OnPartBegin(app, u, p).ok && Reflects(true, RT.RecordBegin(v, p).user, OnPartBegin(app, u, p).user)
    {
      ReflectBegin(app, v, u, p);
    }
    forall v, u, d | Reflects(true, v, u) && Lawful(RT.RecordData(v, d).user)
      ensures OnPartData(app, u, d).ok && Reflects(true, RT.RecordData(v, d).user, OnPartData(app, u, d).user)
    {
      ReflectData(app, v, u, d);
    }
    forall v, u | Reflects(true, v, u) && Lawful(RT.RecordEnd(v).user)
      ensures OnPartEnd(app, u).ok && Reflects(false, RT.RecordEnd(v).user, OnPartEnd(app, u).user)
    {
      ReflectEnd(app, v, u);
    }
  }

  /** The hooks accept only lawful parts, whatever the application answers. */
  ghost predicate MirrorsLawfully(inside: bool, u: Record, v: seq<RT.Received>) {
    && Mirrors(inside, u, v) && Lawful(v) && AllEnded(if inside && v != [] then v[..|v| - 1] else v)
  }

  lemma {:induction false} SomeToken(v: seq<RT.Received>, i: nat)
    requires i < |v| && IsCsrf(v[i].part) && AllEnded(v)
    ensures Tokens(v) != []
    decreases |v|
  {
    if i < |v| - 1 {
      SomeToken(v[..|v| - 1], i);
    }
  }

  lemma LawfulBegin(app: App, u: Record, v: seq<RT.Received>, p: Part)
    requires MirrorsLawfully(false, u, v) && OnPartBegin(app, u, p).ok
    ensures MirrorsLawfully(true, OnPartBegin(app, u, p).user, RT.RecordBegin(v, p).user)
  {
    var r := RT.Received(p, "", false);
    LawfulInit(v, r);
    if IsCsrf(p) {
      forall j | 0 <= j < |v|
        ensures !IsCsrf(v[j].part)
      {
        if IsCsrf(v[j].part) {
          SomeToken(v, j);
        }
      }
    }
    assert (v + [r])[..|v|] == v;
    MirrorBegin(app, u, v, p);
  }

  lemma LawfulData(app: App, u: Record, v: seq<RT.Received>, d: string)
    requires MirrorsLawfully(true, u, v) && OnPartData(app, u, d).ok
    ensures MirrorsLawfully(true, OnPartData(app, u, d).user, RT.RecordData(v, d).user)
  {
    var k := |v| - 1;
    var w := RT.RecordData(v, d).user;
    assert v == v[..k] + [v[k]];
    LawfulInit(v[..k], v[k]);
    LawfulInit(v[..k], w[k]);
    assert w[..k] == v[..k];
    MirrorData(app, u, v, d);
  }

  lemma LawfulEnd(app: App, u: Record, v: seq<RT.Received>)
    requires MirrorsLawfully(true, u, v) && OnPartEnd(app, u).ok
    ensures MirrorsLawfully(false, OnPartEnd(app, u).user, RT.RecordEnd(v).user)
  {
    var k := |v| - 1;
    var w := RT.RecordEnd(v).user;
    assert v == v[..k] + [v[k]];
    LawfulInit(v[..k], v[k]);
    LawfulInit(v[..k], w[k]);
    forall i | 0 <= i < |w|
      ensures w[i].ended
    {
      assert i < k ==> w[i] == v[..k][i];
    }
    MirrorEnd(app, u, v);
  }

  lemma HooksAreLawful(app: App)
    ensures Simulates(Hooks(app), RT.Recorder(), MirrorsLawfully, (u: Record) => false)
    ensures Absorbing(Hooks(app), (u: Record) => false)
  {
    forall u, v, p | MirrorsLawfully(false, u, v) && OnPartBegin(app, u, p).ok
      ensures MirrorsLawfully(true, OnPartBegin(app, u, p).user, RT.RecordBegin(v, p).user)
    {
      LawfulBegin(app, u, v, p);
    }
    forall u, v, d | MirrorsLawfully(true, u, v) && OnPartData(app, u, d).ok
      ensures MirrorsLawfully(true, OnPartData(app, u, d).user, RT.RecordData(v, d).user)
    {
      LawfulData(app, u, v, d);
    }
    forall u, v | MirrorsLawfully(true, u, v) && OnPartEnd(app, u).ok
      ensures MirrorsLawfully(false, OnPartEnd(app, u).user, RT.RecordEnd(v).user)
    {
      LawfulEnd(app, u, v);
    }
  }

  /**
   With an application that accepts every call, a body reaches the finalizer exactly
   when it parses and holds at most one CSRF part, without a file name and of at
   most 64 octets. Whatever the application answers, no other body does.
   */
  lemma FinalizerReachedExactly(app: App, boundary: string, limits: Limits, chunks: seq<string>)
    requires OpenUpload(app, boundary, limits).Some?
    ensures var after := Exec(app, OpenUpload(app, boundary, limits).value, Writes(chunks) + [Close(NativeOk)]);
      var parsed := ParseChunks(Config(boundary, limits, RT.Recorder()), Start([]), chunks);
      && (after.Stage() == BodyComplete ==> parsed.status == Ok && Lawful(parsed.s.user))
      && (Accepts(app) && parsed.status == Ok && Lawful(parsed.s.user) ==> after.Stage() == BodyComplete)
  {
    var m := OpenUpload(app, boundary, limits).value;
    var d := Config(boundary, limits, RT.Recorder());
    OpenConsistent(app, boundary, limits);
    StreamIsParse(app, m, chunks);
    DeliveredSnoc([], Entry(BeginUpload, NativeOk));
    assert [] + [Entry(BeginUpload, NativeOk)] == [Entry(BeginUpload, NativeOk)];
    assert MirrorsLawfully(false, m.parser.user, []);
    HooksAreLawful(app);
    ChunksSim(m.c, d, MirrorsLawfully, (u: Record) => false, m.parser, Start([]), chunks);
    if Accepts(app) {
      RecorderReflects(app);
      RecorderAbsorbs();
      assert Reflects(false, [], m.parser.user);
      ChunksSim(d, m.c, Reflects, (v: seq<RT.Received>) => !Lawful(v), Start([]), m.parser, chunks);
    }
  }
}
