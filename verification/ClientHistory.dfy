/**
 Whole histories of the client: no step takes back what was recorded, so what a
 state says of a handle stays true in every later state.
 */
module ClientHistory {
  import opened Octets
  import opened ClientState
  import opened ClientH1
  import opened ClientH2
  import opened ClientPool
  import opened ClientRuns
  import opened ClientGrows

  lemma ApplicationGrows(c: State, e: Event)
    requires FromApplication(e)
    ensures Grows(c, Step(c, e))
  {
    match e
    case SubmitEvent(o, m, net) => SubmitGrows(c, o, m, net);
    case SubmitRpcEvent(o, m, net, w, d) => SubmitRpcGrows(c, o, m, net, w, d);
    case CancelEvent(call) => CancelGrows(c, call);
    case ExpireEvent(now, answers) => ExpireGrows(c, now, answers);
    case FilePendingEvent(i, pending) =>
      if i < |c.slots| && Live(c.slots[i]) {
        PutGrows(c, i, c.slots[i].(filePending := pending));
      }
    case StopEvent =>
  }

  lemma ConnectionGrows(c: State, e: Event)
    requires FromConnection(e)
    ensures Grows(c, Step(c, e))
  {
    match e
    case ConnectedEvent(j, send, arm, ending) => ConnectedGrows(c, j, send, arm, ending);
    case SentEvent(j, step, ending) => SentGrows(c, j, step, ending);
    case ReceiveEvent(j, parse, sink, arm, ending) => ReceiveGrows(c, j, parse, sink, arm, ending);
    case ClosedEvent(j, failed, parse, sink, ending) => ClosedGrows(c, j, failed, parse, sink, ending);
  }

  lemma H1Grows(c: State, e: Event)
    requires FromH1(e) && !FromConnection(e)
    ensures Grows(c, Step(c, e))
  {
    match e
    case FileReadyEvent(i, step, ending) => FileReadyGrows(c, i, step, ending);
    case FileSinkReadyEvent(i, sink, arm, ending) => FileSinkReadyGrows(c, i, sink, arm, ending);
    case RetryClosesEvent(net) => RetryClosesGrows(c, net);
    case PoolProgressEvent(net) => PoolProgressGrows(c, net);
  }

  lemma H2Grows(c: State, e: Event)
    requires !FromApplication(e) && !FromH1(e)
    ensures Grows(c, Step(c, e))
  {
    match e
    case H2ConnectedEvent(p, ready, flushing, u) => ConnectedH2Grows(c, p, ready, flushing, u);
    case H2StreamClosedEvent(p, k, deferred, cancels) => StreamClosedGrows(c, p, k, deferred, cancels);
    case H2GoawayEvent(p) => GoawayGrows(c, p);
    case H2FailEvent(p, u) => FailSessionGrows(c, p, u);
    case H2FlushEvent(p, flushing, u) => FlushGrows(c, p, flushing, u);
    case H2ProgressEvent(p, again, flushing, u) => ProgressGrows(c, p, again, flushing, u);
    case H2ClosedEvent(p, u) => ClosedH2Grows(c, p, u);
    case H2StopEvent(p, goaway, close) => BeginStopH2Grows(c, p, goaway, close);
    case H2ReapEvent => ReapSessionsGrows(c);
  }

  /** No step takes anything back. */
  lemma StepGrows(c: State, e: Event)
    ensures Grows(c, Step(c, e))
  {
    if FromApplication(e) {
      ApplicationGrows(c, e);
    } else if FromConnection(e) {
      ConnectionGrows(c, e);
    } else if FromH1(e) {
      H1Grows(c, e);
    } else {
      H2Grows(c, e);
    }
  }

  /** No run does: the ledger and the timeline of a state are there in every later one, and generations only rise. */
  lemma {:induction false} RunGrows(c: State, events: seq<Event>)
    ensures Grows(c, Run(c, events))
  {
    if events == [] {
      GrowsSelf(c);
    } else {
      var n := |events| - 1;
      RunGrows(c, events[..n]);
      StepGrows(Run(c, events[..n]), events[n]);
      GrowsTrans(c, Run(c, events[..n]), Run(c, events));
    }
  }

  lemma {:induction false} RunReachable(c: State, events: seq<Event>)
    requires Reachable(c)
    ensures Reachable(Run(c, events))
  {
    if events != [] {
      var n := |events| - 1;
      RunReachable(c, events[..n]);
      StepReachable(Run(c, events[..n]), events[n]);
    }
  }

  /** A callback is made once in the whole life of the client, whatever happens after it. */
  lemma CalledForever(c: State, events: seq<Event>, h: Handle)
    requires Reachable(c) && h in c.book.calls
    ensures Run(c, events).book.calls[h] == c.book.calls[h] == 1
  {
    RunGrows(c, events);
    RunReachable(c, events);
    CallbackOnce(c, h);
    CallbackOnce(Run(c, events), h);
    assert c.book.calls[h] <= Run(c, events).book.calls[h];
  }

  /** The handle of a recycled slot never names a request again, and is never given out again. */
  lemma RecycledForever(c: State, events: seq<Event>, h: Handle)
    requires Reachable(c) && h in c.book.recycled
    ensures Find(Run(c, events).slots, h) == None && Run(c, events).book.issued[h] == 1
  {
    var d := Run(c, events);
    RunGrows(c, events);
    RunReachable(c, events);
    ReachableValid(d);
    assert AccountedAt(d.slots, d.book, h);
  }

  /** A request that was submitted is, at any later time, still live under its handle or called back. */
  lemma SubmittedIsSettled(c: State, events: seq<Event>, h: Handle)
    requires Reachable(c) && h in c.book.submitted
    ensures var d := Run(c, events); Find(d.slots, h).Some? || d.book.calls[h] == 1
  {
    var d := Run(c, events);
    RunGrows(c, events);
    RunReachable(c, events);
    HandleResolves(d, h);
    CallbackOnce(d, h);
  }
}
