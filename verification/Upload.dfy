/**
 The upload transaction over the multipart parser: open, stream, complete, then
 commit or abort. The application's callbacks are an arbitrary function of what
 it has been told so far; every call it receives is kept in `trace`.
 */
module Upload {
  import opened Octets
  import opened MultipartHeaders
  import opened Multipart

  const CSRF_FIELD := "_csrf"
  const CSRF_TOKEN_BYTES: nat := 64

  /** Library status codes; the application may return any other code of its own. */
  datatype Native = NativeOk | EINVAL | EPROTO | EMSGSIZE | ENOBUFS | Other(code: nat)

  datatype WebStatus = WebOk | WebInvalidArgument | WebCapacity | WebMultipart | WebServer | WebUpload | WebCsrf | WebValidation

  datatype Call =
    | BeginUpload | PartBegin(part: Part) | PartData(data: string) | PartEnd
    | Commit | Abort(status: WebStatus, native: Native)

  /** A call the application received and the status it returned. */
  datatype Entry = Entry(call: Call, status: Native)

  /** The application: its answer to a call may depend on everything before it. */
  type App = (seq<Entry>, Call) -> Native

  datatype Stage = Streaming | BodyComplete | Committed | Aborted

  /** The part of the upload record its parser callbacks read and write. */
  datatype Record = Record(
    stage: Stage, csrfPart: bool, csrfCount: nat, csrfToken: string, native: Native, trace: seq<Entry>)

  function Ask(app: App, u: Record, call: Call): Record {
    var st := app(u.trace, call);
    u.(trace := u.trace + [Entry(call, st)], native := st)
  }

  function Answer(u: Record): Reply<Record> {
    Reply(u.native == NativeOk, u)
  }

  predicate IsCsrf(p: Part) {
    p.name == CSRF_FIELD
  }

  function OnPartBegin(app: App, u: Record, p: Part): Reply<Record> {
    if u.stage != Streaming then Answer(u.(native := EINVAL))
    else
      var v := u.(csrfPart := false);
      if IsCsrf(p) then
        if p.filename.Some? || u.csrfCount != 0 then Answer(v.(native := EPROTO))
        else Answer(v.(csrfToken := "", csrfPart := true, native := NativeOk))
      else Answer(Ask(app, v, PartBegin(p)))
  }

  function OnPartData(app: App, u: Record, d: string): Reply<Record> {
    if u.stage != Streaming then Answer(u.(native := EINVAL))
    else if !u.csrfPart then Answer(Ask(app, u, PartData(d)))
    else if |d| > CSRF_TOKEN_BYTES - |u.csrfToken| then Answer(u.(native := EMSGSIZE))
    else Answer(u.(csrfToken := u.csrfToken + d, native := NativeOk))
  }

  function OnPartEnd(app: App, u: Record): Reply<Record> {
    if u.stage != Streaming then Answer(u.(native := EINVAL))
    else if u.csrfPart then Answer(u.(csrfCount := u.csrfCount + 1, csrfPart := false, native := NativeOk))
    else Answer(Ask(app, u, PartEnd))
  }

  function Hooks(app: App): Callbacks<Record> {
    Callbacks((u, p) => OnPartBegin(app, u, p), (u, d) => OnPartData(app, u, d), u => OnPartEnd(app, u))
  }

  /** An opened upload; `parser.user` is the record its callbacks see. */
  datatype Upload = Upload(
    c: Config<Record>, parser: State<Record>, active: bool, terminal: WebStatus, native: Native)
  {
    function Stage(): Stage { parser.user.stage }
    function Trace(): seq<Entry> { parser.user.trace }
  }

  function ToWeb(s: Status): WebStatus {
    match s
    case Ok => WebOk
    case InvalidArgument => WebInvalidArgument
    case Capacity => WebCapacity
    case Malformed => WebMultipart
  }

  /** What the finalizer reads of the request. */
  datatype Request = Request(
    bodyStreamed: bool, sinkIsThisUpload: bool, htmx: bool, csrfHeader: Option<string>,
    unsafeMethod: bool, sessionToken: Option<string>)

  datatype Validation = NotSupplied | WrongSize | Checked(valid: bool)

  datatype Op =
    | Write(data: string)
    | Close(transport: Native)
    | Finalize(request: Request, validation: Validation)
    | RequestAbort(status: WebStatus, nativeStatus: Native)

  /** chttp_web_upload_open once the Content-Type gave `c`; None when the application refuses. */
  function OpenUpload(app: App, boundary: string, limits: Limits): Option<Upload> {
    var u := Ask(app, Record(Streaming, false, 0, "", NativeOk, []), BeginUpload);
    if u.native != NativeOk then None
    else Some(Upload(Config(boundary, limits, Hooks(app)), Start(u), true, WebOk, NativeOk))
  }

  function AbortOnce(app: App, m: Upload, status: WebStatus, native: Native): Upload {
    var u := m.parser.user;
    if u.stage == Aborted || u.stage == Committed then m
    else
      var t := if status == WebOk then WebUpload else status;
      var v := u.(stage := Aborted, trace := u.trace + [Entry(Abort(t, native), NativeOk)]);
      m.(terminal := t, native := native, parser := m.parser.(user := v))
  }

  /** The native status a failed feed reports: that of the callback it stopped in, if any. */
  function FeedNative(o: Outcome<Record>): Native {
    if o.status == InvalidArgument then NativeOk else o.s.user.native
  }

  function Feed(m: Upload, d: string): Outcome<Record> {
    if m.active then FeedCall(m.c, m.parser, d) else Outcome(InvalidArgument, m.parser)
  }

  function WriteStep(m: Upload, d: string): Upload {
    if m.Stage() != Streaming then m
    else
      var o := Feed(m, d);
      if o.status == Ok then m.(parser := o.s)
      else m.(parser := o.s, terminal := ToWeb(o.status), native := FeedNative(o))
  }

  function CloseStep(app: App, m: Upload, transport: Native): Upload {
    if m.Stage() != Streaming then m
    else if transport != NativeOk then
      AbortOnce(app, m, if m.terminal != WebOk then m.terminal else WebServer,
                if m.native != NativeOk then m.native else transport)
    else if m.terminal != WebOk then AbortOnce(app, m, m.terminal, m.native)
    else
      var o := if m.active then FinishCall(m.parser) else Outcome(InvalidArgument, m.parser);
      if o.status != Ok then AbortOnce(app, m.(parser := o.s), ToWeb(o.status), NativeOk)
      else
        m.(parser := o.s.(user := o.s.user.(stage := BodyComplete)), active := false,
           terminal := WebOk, native := NativeOk)
  }

  /** chttp_web_csrf_validate_token */
  function CsrfStatus(r: Request, candidate: Option<string>): WebStatus {
    if !r.unsafeMethod then WebOk
    else if r.sessionToken.None? then WebCsrf
    else if candidate.None? || |candidate.value| != CSRF_TOKEN_BYTES then WebCsrf
    else if candidate != r.sessionToken then WebCsrf
    else WebOk
  }

  function Candidate(r: Request, u: Record): Option<string> {
    if r.htmx && r.csrfHeader.Some? then r.csrfHeader
    else if u.csrfCount == 1 then Some(u.csrfToken)
    else None
  }

  function FinalizeStep(app: App, m: Upload, r: Request, v: Validation): Upload {
    if !r.bodyStreamed || !r.sinkIsThisUpload || m.Stage() != BodyComplete then m
    else
      var csrf := CsrfStatus(r, Candidate(r, m.parser.user));
      if csrf != WebOk then AbortOnce(app, m, csrf, NativeOk)
      else if v == WrongSize then AbortOnce(app, m, WebInvalidArgument, NativeOk)
      else if v == Checked(false) then AbortOnce(app, m, WebValidation, NativeOk)
      else CommitStep(app, m)
  }

  function AbortStep(app: App, m: Upload, status: WebStatus, native: Native): Upload {
    if status == WebOk || m.Stage() == Committed then m else AbortOnce(app, m, status, native)
  }

  function Apply(app: App, m: Upload, op: Op): Upload {
    match op
    case Write(d) => WriteStep(m, d)
    case Close(t) => CloseStep(app, m, t)
    case Finalize(r, v) => FinalizeStep(app, m, r, v)
    case RequestAbort(st, n) => AbortStep(app, m, st, n)
  }

  function Exec(app: App, m: Upload, ops: seq<Op>): Upload
    decreases |ops|
  {
    if ops == [] then m else Exec(app, Apply(app, m, ops[0]), ops[1..])
  }

  // ------------------------------------------------- the shape of a whole trace

  /** Where a legal sequence of application calls stands. */
  datatype Shape = Fresh | Between | InPart | Refused | CommitRefused | Accepted | RolledBack | Illegal

  /** Reference grammar: begin, nested parts, then one accepted commit or one abort. */
  function Next(q: Shape, e: Entry): Shape {
    var ok := e.status == NativeOk;
    match (q, e.call)
    case (Fresh, BeginUpload) => if ok then Between else Illegal
    case (Between, PartBegin(p)) => if IsCsrf(p) then Illegal else if ok then InPart else Refused
    case (InPart, PartData(_)) => if ok then InPart else Refused
    case (InPart, PartEnd) => if ok then Between else Refused
    case (Between, Commit) => if ok then Accepted else CommitRefused
    case (Between, Abort(st, _)) => if st != WebOk then RolledBack else Illegal
    case (InPart, Abort(st, _)) => if st != WebOk then RolledBack else Illegal
    case (Refused, Abort(st, _)) => if st != WebOk then RolledBack else Illegal
    case (CommitRefused, Abort(st, _)) => if st != WebOk then RolledBack else Illegal
    case (_, _) => Illegal
  }

  function ShapeOf(t: seq<Entry>): Shape
    decreases |t|
  {
    if t == [] then Fresh else Next(ShapeOf(t[..|t| - 1]), t[|t| - 1])
  }

  lemma ShapeSnoc(t: seq<Entry>, e: Entry)
    ensures ShapeOf(t + [e]) == Next(ShapeOf(t), e)
  {
    assert (t + [e])[..|t|] == t;
  }

  /** The parser's phase and the trace agree on whether the application is inside a part. */
  ghost predicate Nested(s: State<Record>) {
    var q := ShapeOf(s.user.trace);
    && s.user.stage == Streaming
    && (s.phase == Initial || s.phase == Headers || s.phase == Done ==> q == Between)
    && (s.phase == Body || s.phase == Suffix ==> q == if s.user.csrfPart then Between else InPart)
    && (s.phase == Failed ==> q == Between || q == InPart || q == Refused)
  }

  lemma EmitNested(app: App, c: Config<Record>, s: State<Record>, d: string)
    requires c.callbacks == Hooks(app) && s.phase == Body && Nested(s)
    ensures Nested(Emit(c, s, d).s)
    ensures Emit(c, s, d).status == Ok ==> Emit(c, s, d).s.phase == Body
  {
    ShapeSnoc(s.user.trace, Entry(PartData(d), app(s.user.trace, PartData(d))));
  }

  lemma BeginNested(app: App, c: Config<Record>, s: State<Record>)
    requires c.callbacks == Hooks(app) && s.phase == Headers && Nested(s)
    ensures Nested(BeginPart(c, s).s)
  {
    match ParseHeaderBlock(c.limits, s.header)
    case BlockPart(p) => AdmitNested(app, c, s, p);
    case _ =>
  }

  lemma AdmitNested(app: App, c: Config<Record>, s: State<Record>, p: Part)
    requires c.callbacks == Hooks(app) && s.phase == Headers && Nested(s)
    ensures Nested(AdmitPart(c, s, p).s)
  {
    ShapeSnoc(s.user.trace, Entry(PartBegin(p), app(s.user.trace, PartBegin(p))));
  }

  lemma EndNested(app: App, c: Config<Record>, s: State<Record>, final: bool)
    requires c.callbacks == Hooks(app) && s.phase == Suffix && Nested(s)
    ensures Nested(EndPart(c, s, final).s)
  {
    ShapeSnoc(s.user.trace, Entry(PartEnd, app(s.user.trace, PartEnd)));
  }

  lemma StepNested(app: App, c: Config<Record>, s: State<Record>, b: char)
    requires c.callbacks == Hooks(app) && Nested(s) && s.phase != Body
    ensures Nested(Step(c, s, b).s)
  {
    match s.phase
    case Headers => HeaderNested(app, c, s, b);
    case Suffix => SuffixNested(app, c, s, b);
    case _ =>
  }

  lemma HeaderNested(app: App, c: Config<Record>, s: State<Record>, b: char)
    requires c.callbacks == Hooks(app) && Nested(s) && s.phase == Headers
    ensures Nested(HeaderByte(c, s, b).s)
  {
    var t, r := s.(header := s.header + [b]), HeaderByte(c, s, b);
    assert r == Fail(s, Malformed) || r == Fail(s, Capacity) || r == Good(t) || r == BeginPart(c, t);
    BeginNested(app, c, t);
  }

  lemma SuffixNested(app: App, c: Config<Record>, s: State<Record>, b: char)
    requires c.callbacks == Hooks(app) && Nested(s) && s.phase == Suffix
    ensures Nested(SuffixByte(c, s, b).s)
  {
    if s.suffixState == 1 && b == LF {
      EndNested(app, c, s.(suffixState := 0), false);
    } else if s.suffixState == 4 && b == LF {
      EndNested(app, c, s.(suffixState := 0), true);
    }
  }

  /** Feeding any chunk, whatever the application answers, keeps its calls nested. */
  lemma {:induction false} FeedNested(app: App, c: Config<Record>, s: State<Record>, d: string)
    requires c.callbacks == Hooks(app) && Nested(s)
    ensures Nested(FeedLoop(c, s, d).s)
    decreases |d|, |s.pending|
  {
    if d == [] {
    } else if s.phase == Body && s.pending == [] {
      var n := IndexOf(d, CR);
      if n > 0 {
        EmitNested(app, c, s, d[..n]);
        var o := Emit(c, s, d[..n]);
        if o.status == Ok { FeedNested(app, c, o.s.(total := o.s.total + n), d[n..]); }
      } else {
        FeedNested(app, c, s.(pending := [CR], total := s.total + 1), d[1..]);
      }
    } else if s.phase == Body && !Matches(c, s, d[0]) {
      EmitNested(app, c, s, s.pending);
      var o := Emit(c, s, s.pending);
      if o.status == Ok { FeedNested(app, c, o.s.(pending := ""), d); }
    } else if s.phase == Body {
      FeedNested(app, c, Advance(c, s, d[0]), d[1..]);
    } else {
      StepNested(app, c, s, d[0]);
      var o := Step(c, s, d[0]);
      if o.status == Ok { FeedNested(app, c, o.s, d[1..]); }
    }
  }

  /** What holds of an upload between any two calls. */
  ghost predicate Consistent(app: App, m: Upload) {
    var q := ShapeOf(m.Trace());
    && m.c.callbacks == Hooks(app)
    && match m.Stage()
       case Streaming => m.active && Nested(m.parser)
       case BodyComplete => q == Between && m.parser.phase == Done && !m.active
       case Committed => q == Accepted
       case Aborted => q == RolledBack
  }

  lemma OpenConsistent(app: App, boundary: string, limits: Limits)
    ensures var r := OpenUpload(app, boundary, limits);
      r.Some? ==> Consistent(app, r.value) && r.value.Trace() == [Entry(BeginUpload, NativeOk)]
  {
    var st := app([], BeginUpload);
    ShapeSnoc([], Entry(BeginUpload, st));
    assert [] + [Entry(BeginUpload, st)] == [Entry(BeginUpload, st)];
  }

  lemma AbortConsistent(app: App, m: Upload, status: WebStatus, native: Native)
    requires m.c.callbacks == Hooks(app)
    requires m.Stage() == Committed || m.Stage() == Aborted ==> Consistent(app, m)
    requires m.Stage() == Streaming || m.Stage() == BodyComplete ==>
      ShapeOf(m.Trace()) in {Between, InPart, Refused, CommitRefused}
    ensures Consistent(app, AbortOnce(app, m, status, native))
    ensures m.Stage() != Committed ==> AbortOnce(app, m, status, native).Stage() == Aborted
  {
    ShapeSnoc(m.Trace(), Entry(Abort(if status == WebOk then WebUpload else status, native), NativeOk));
  }

  lemma FinalizeConsistent(app: App, m: Upload, r: Request, v: Validation)
    requires Consistent(app, m)
    ensures Consistent(app, FinalizeStep(app, m, r, v))
  {
    if r.bodyStreamed && r.sinkIsThisUpload && m.Stage() == BodyComplete {
      var csrf := CsrfStatus(r, Candidate(r, m.parser.user));
      if csrf != WebOk || v == WrongSize || v == Checked(false) {
        var st := if csrf != WebOk then csrf else if v == WrongSize then WebInvalidArgument else WebValidation;
        assert FinalizeStep(app, m, r, v) == AbortOnce(app, m, st, NativeOk);
        AbortConsistent(app, m, st, NativeOk);
      } else {
        CommitConsistent(app, m);
      }
    }
  }

  /** The commit itself, refused or accepted. */
  function CommitStep(app: App, m: Upload): Upload {
    var u := Ask(app, m.parser.user, Commit);
    if u.native != NativeOk then AbortOnce(app, m.(parser := m.parser.(user := u)), WebUpload, u.native)
    else m.(parser := m.parser.(user := u.(stage := Committed)), terminal := WebOk, native := NativeOk)
  }

  lemma CommitConsistent(app: App, m: Upload)
    requires Consistent(app, m) && m.Stage() == BodyComplete
    ensures Consistent(app, CommitStep(app, m))
  {
    var u := Ask(app, m.parser.user, Commit);
    ShapeSnoc(m.Trace(), Entry(Commit, app(m.Trace(), Commit)));
    if u.native != NativeOk {
      AbortConsistent(app, m.(parser := m.parser.(user := u)), WebUpload, u.native);
    }
  }

  lemma CloseConsistent(app: App, m: Upload, t: Native)
    requires Consistent(app, m) && m.Stage() == Streaming
    ensures Consistent(app, CloseStep(app, m, t))
  {
    if t != NativeOk {
      AbortConsistent(app, m, if m.terminal != WebOk then m.terminal else WebServer,
                      if m.native != NativeOk then m.native else t);
    } else if m.terminal != WebOk {
      AbortConsistent(app, m, m.terminal, m.native);
    } else {
      var o := FinishCall(m.parser);
      if o.status != Ok {
        AbortConsistent(app, m.(parser := o.s), ToWeb(o.status), NativeOk);
      }
    }
  }

  lemma ApplyConsistent(app: App, m: Upload, op: Op)
    requires Consistent(app, m)
    ensures Consistent(app, Apply(app, m, op))
  {
    match op
    case Write(d) =>
      if m.Stage() == Streaming { FeedNested(app, m.c, m.parser, d); }
    case Close(t) =>
      if m.Stage() == Streaming { CloseConsistent(app, m, t); }
    case Finalize(r, v) => FinalizeConsistent(app, m, r, v);
    case RequestAbort(st, n) => AbortConsistent(app, m, st, n);
  }

  /** Writing never leaves the streaming stage by itself. */
  lemma WriteStreams(app: App, m: Upload, d: string)
    requires Consistent(app, m)
    ensures m.Stage() == Streaming ==> WriteStep(m, d).Stage() == Streaming && Nested(WriteStep(m, d).parser)
    ensures m.Stage() != Streaming ==> WriteStep(m, d) == m
  {
    if m.Stage() == Streaming { FeedNested(app, m.c, m.parser, d); }
  }

  /**
   Every run of an upload, whatever bytes arrive and whatever the application
   answers: its calls follow the reference grammar, and the stage tells where in
   the grammar they stand. Reset is accepted only after the last letter.
   */
  lemma {:induction false} EveryRunIsShaped(app: App, m: Upload, ops: seq<Op>)
    requires Consistent(app, m)
    ensures Consistent(app, Exec(app, m, ops))
    ensures ShapeOf(Exec(app, m, ops).Trace()) != Illegal
    decreases |ops|
  {
    if ops != [] {
      ApplyConsistent(app, m, ops[0]);
      EveryRunIsShaped(app, Apply(app, m, ops[0]), ops[1..]);
    }
  }
}
