/**
 The upload object: its parser, its terminal status, and the calls of the public
 interface updating them in place, proved against the transaction functions.
 */
module UploadRequest {
  import opened Octets
  import opened MultipartHeaders
  import opened Multipart
  import opened MultipartParser
  import opened Upload

  class UploadSlot {
    const app: App
    var parser: Parser?<Record>
    var terminal: WebStatus
    var native: Native

    ghost predicate Valid()
      reads this, parser
    {
      parser != null ==> parser.Valid() && Consistent(app, View())
    }

    ghost function View(): Upload
      requires parser != null
      reads this, parser
    {
      Upload(parser.c, parser.View(), parser.active, terminal, native)
    }

    constructor (app: App)
      ensures this.app == app && parser == null && Valid()
    {
      this.app := app;
      parser, terminal, native := null, WebOk, NativeOk;
    }

    method Open(contentType: Option<string>, limits: Limits) returns (status: WebStatus)
      requires Valid()
      modifies this
      ensures Valid()
      ensures old(parser) != null ==> status == WebInvalidArgument && parser == old(parser)
      ensures old(parser) == null && contentType.None? ==> status == WebMultipart && parser == null
      ensures old(parser) == null && contentType.Some? ==>
        if !LimitsValid(limits) || ParseOuterBoundary(contentType.value).None? then
          status == WebInvalidArgument && parser == null
        else
          var r := OpenUpload(app, ParseOuterBoundary(contentType.value).value, limits);
          if r.None? then status == WebUpload && parser == null
          else status == WebOk && parser != null && fresh(parser) && View() == r.value
    {
      if parser != null { return WebInvalidArgument; }
      if contentType.None? { return WebMultipart; }
      var blank := Record(Streaming, false, 0, "", NativeOk, []);
      var ready, p := MultipartParser.Open(contentType.value, limits, Hooks(app), blank);
      if ready != Ok { return WebInvalidArgument; }
      var begun := Ask(app, blank, BeginUpload);
      if begun.native != NativeOk { return WebUpload; }
      p.user := begun;
      parser, terminal, native := p, WebOk, NativeOk;
      OpenConsistent(app, p.c.boundary, limits);
      status := WebOk;
    }

    /** The sink the transport writes body bytes into. */
    method SinkWrite(d: string) returns (r: Native)
      requires Valid()
      modifies this, parser
      ensures Valid() && parser == old(parser)
      ensures parser == null ==> r == EINVAL
      ensures parser != null ==> View() == WriteStep(old(View()), d)
      ensures parser != null && old(View().Stage()) == Streaming ==>
        (r == NativeOk <==> Feed(old(View()), d).status == Ok)
    {
      if parser == null || parser.user.stage != Streaming { return EINVAL; }
      ApplyConsistent(app, View(), Write(d));
      var status := parser.Feed(d);
      if status == Ok { return NativeOk; }
      terminal := ToWeb(status);
      native := if status == InvalidArgument then NativeOk else parser.user.native;
      r := if native != NativeOk then native
           else if status == Capacity then ENOBUFS
           else if status == InvalidArgument then EINVAL
           else EPROTO;
    }

    method AbortNow(status: WebStatus, n: Native)
      requires parser != null
      modifies this, parser
      ensures parser == old(parser) && View() == AbortOnce(app, old(View()), status, n)
    {
      var u := parser.user;
      if u.stage == Aborted || u.stage == Committed { return; }
      terminal := if status == WebOk then WebUpload else status;
      native := n;
      parser.user := u.(stage := Aborted, trace := u.trace + [Entry(Abort(terminal, n), NativeOk)]);
    }

    method RunClose(transport: Native)
      requires parser != null && parser.Valid()
      modifies this, parser
      ensures parser == old(parser) && parser.Valid() && View() == CloseStep(app, old(View()), transport)
    {
      if parser.user.stage != Streaming { return; }
      if transport != NativeOk {
        AbortNow(if terminal != WebOk then terminal else WebServer,
                 if native != NativeOk then native else transport);
        return;
      }
      if terminal != WebOk {
        AbortNow(terminal, native);
        return;
      }
      var status := parser.Finish();
      if status != Ok {
        AbortNow(ToWeb(status), NativeOk);
        return;
      }
      terminal, native := WebOk, NativeOk;
      parser.user := parser.user.(stage := BodyComplete);
    }

    method Close(transport: Native)
      requires Valid()
      modifies this, parser
      ensures Valid() && parser == old(parser)
      ensures parser != null ==> View() == CloseStep(app, old(View()), transport)
    {
      if parser == null { return; }
      ApplyConsistent(app, View(), Op.Close(transport));
      RunClose(transport);
    }

    method RunCommit() returns (status: WebStatus)
      requires parser != null && parser.Valid() && parser.user.stage == BodyComplete
      modifies this, parser
      ensures parser == old(parser) && parser.Valid() && View() == CommitStep(app, old(View()))
      ensures parser.user.stage == (if status == WebOk then Committed else Aborted)
    {
      var u := Ask(app, parser.user, Commit);
      parser.user := u;
      if u.native != NativeOk {
        AbortNow(WebUpload, u.native);
        return WebUpload;
      }
      terminal, native := WebOk, NativeOk;
      parser.user := u.(stage := Committed);
      status := WebOk;
    }

    method RunFinalize(r: Request, v: Validation) returns (status: WebStatus)
      requires parser != null && parser.Valid() && r.bodyStreamed && r.sinkIsThisUpload && parser.user.stage == BodyComplete
      modifies this, parser
      ensures parser == old(parser) && parser.Valid() && View() == FinalizeStep(app, old(View()), r, v)
      ensures parser.user.stage == (if status == WebOk then Committed else Aborted)
    {
      status := CsrfStatus(r, Candidate(r, parser.user));
      if status != WebOk {
        AbortNow(status, NativeOk);
        return;
      }
      if v == WrongSize {
        AbortNow(WebInvalidArgument, NativeOk);
        return WebInvalidArgument;
      }
      if v == Checked(false) {
        AbortNow(WebValidation, NativeOk);
        return WebValidation;
      }
      status := RunCommit();
    }

    method Finalize(r: Request, v: Validation) returns (status: WebStatus)
      requires Valid()
      modifies this, parser
      ensures Valid() && parser == old(parser)
      ensures parser == null ==> status == WebInvalidArgument
      ensures parser != null ==> View() == FinalizeStep(app, old(View()), r, v)
      ensures parser != null && status == WebOk ==> View().Stage() == Committed && old(View()).Stage() == BodyComplete
      ensures parser != null && old(View()).Stage() == BodyComplete && r.bodyStreamed && r.sinkIsThisUpload ==>
        View().Stage() == (if status == WebOk then Committed else Aborted)
    {
      if parser == null || !r.bodyStreamed || !r.sinkIsThisUpload { return WebInvalidArgument; }
      if parser.user.stage == Aborted { return if terminal != WebOk then terminal else WebUpload; }
      if parser.user.stage != BodyComplete { return WebInvalidArgument; }
      ApplyConsistent(app, View(), Op.Finalize(r, v));
      status := RunFinalize(r, v);
    }

    method RequestAbort(status: WebStatus, n: Native) returns (r: WebStatus)
      requires Valid()
      modifies this, parser
      ensures Valid() && parser == old(parser)
      ensures parser != null ==> View() == AbortStep(app, old(View()), status, n)
      ensures r == WebOk <==> parser != null && status != WebOk && old(if parser == null then Committed else parser.user.stage) != Committed
    {
      if parser == null || status == WebOk || parser.user.stage == Committed { return WebInvalidArgument; }
      ghost var m := View();
      ApplyConsistent(app, m, Op.RequestAbort(status, n));
      AbortNow(status, n);
      assert View() == Apply(app, m, Op.RequestAbort(status, n));
      r := WebOk;
    }

    /** Storage is reused only once the transaction is over. */
    method Reset() returns (r: WebStatus)
      requires Valid()
      modifies this
      ensures Valid()
      ensures r == WebOk <==> old(parser) != null && ShapeOf(old(View().Trace())) in {Accepted, RolledBack}
      ensures parser == if r == WebOk then null else old(parser)
    {
      if parser == null || (parser.user.stage != Committed && parser.user.stage != Aborted) { return WebInvalidArgument; }
      parser, terminal, native := null, WebOk, NativeOk;
      r := WebOk;
    }
  }
}
