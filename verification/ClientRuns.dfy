/**
 Runs of the client: any sequence of application calls, network and file events,
 poll passes and protocol events, with any answers from the layers below, and what
 holds in every state such a run reaches.
 */
module ClientRuns {
  import opened Octets
  import opened ClientState
  import opened ClientH1
  import opened ClientH2
  import opened ClientPool
  import opened ClientH1Keeps
  import opened ClientH2Keeps
  import opened ClientReapKeeps
  import opened ClientSubmitKeeps

  datatype Event =
    | SubmitEvent(options: Options, meeting: Meeting, net: Net)
    | SubmitRpcEvent(options: Options, meeting: Meeting, net: Net, wireId: nat, deadline: nat)
    | CancelEvent(call: CancelCall)
    | ExpireEvent(now: nat, answers: nat -> CancelCall)
    | ConnectedEvent(h1: nat, send: Status, arm: Status, ending: Ending)
    | SentEvent(h1: nat, step: SourceStep, ending: Ending)
    | ReceiveEvent(h1: nat, parse: Parse, sink: SinkStep, arm: Status, ending: Ending)
    | ClosedEvent(h1: nat, failed: bool, parse: Parse, sink: SinkStep, ending: Ending)
    | FileReadyEvent(slot: nat, step: SourceStep, ending: Ending)
    | FileSinkReadyEvent(slot: nat, sink: SinkStep, arm: Status, ending: Ending)
    | FilePendingEvent(slot: nat, pending: bool)
    | RetryClosesEvent(net: Net)
    | PoolProgressEvent(net: Net)
    | StopEvent
    | H2ConnectedEvent(h2: nat, ready: bool, flushing: Flushing, upheaval: Upheaval)
    | H2StreamClosedEvent(h2: nat, entry: nat, deferred: bool, cancels: seq<CancelCall>)
    | H2GoawayEvent(h2: nat)
    | H2FailEvent(h2: nat, upheaval: Upheaval)
    | H2FlushEvent(h2: nat, flushing: Flushing, upheaval: Upheaval)
    | H2ProgressEvent(h2: nat, again: Status, flushing: Flushing, upheaval: Upheaval)
    | H2ClosedEvent(h2: nat, upheaval: Upheaval)
    | H2StopEvent(h2: nat, goaway: Status, close: Status)
    | H2ReapEvent

  function SetFilePending(c: State, i: nat, pending: bool): State {
    if i < |c.slots| && Live(c.slots[i]) then PutSlot(c, i, c.slots[i].(filePending := pending)) else c
  }

  function Step(c: State, e: Event): State {
    match e
    case SubmitEvent(o, m, net) => Submit(c, o, m, net).0
    case SubmitRpcEvent(o, m, net, w, d) => SubmitRpc(c, o, m, net, w, d).0
    case CancelEvent(call) => Cancel(c, call)
    case ExpireEvent(now, answers) => Expire(c, now, answers)
    case ConnectedEvent(j, send, arm, ending) => Connected(c, j, send, arm, ending)
    case SentEvent(j, step, ending) => Sent(c, j, step, ending)
    case ReceiveEvent(j, parse, sink, arm, ending) => Receive(c, j, parse, sink, arm, ending)
    case ClosedEvent(j, failed, parse, sink, ending) => Closed(c, j, failed, parse, sink, ending)
    case FileReadyEvent(i, step, ending) => FileReady(c, i, step, ending)
    case FileSinkReadyEvent(i, sink, arm, ending) => FileSinkReady(c, i, sink, arm, ending)
    case FilePendingEvent(i, pending) => SetFilePending(c, i, pending)
    case RetryClosesEvent(net) => RetryCloses(c, net)
    case PoolProgressEvent(net) => PoolProgress(c, net).0
    case StopEvent => BeginStop(c)
    case H2ConnectedEvent(p, ready, flushing, u) => ConnectedH2(c, p, ready, flushing, u)
    case H2StreamClosedEvent(p, k, deferred, cancels) => StreamClosed(c, p, k, deferred, cancels)
    case H2GoawayEvent(p) => Goaway(c, p)
    case H2FailEvent(p, u) => FailSession(c, p, u)
    case H2FlushEvent(p, flushing, u) => Flush(c, p, flushing, u)
    case H2ProgressEvent(p, again, flushing, u) => Progress(c, p, again, flushing, u)
    case H2ClosedEvent(p, u) => ClosedH2(c, p, u)
    case H2StopEvent(p, goaway, close) => BeginStopH2(c, p, goaway, close)
    case H2ReapEvent => ReapSessions(c)
  }

  predicate FromApplication(e: Event) {
    e.SubmitEvent? || e.SubmitRpcEvent? || e.CancelEvent? || e.ExpireEvent? || e.FilePendingEvent? || e.StopEvent?
  }

  predicate FromConnection(e: Event) {
    e.ConnectedEvent? || e.SentEvent? || e.ReceiveEvent? || e.ClosedEvent?
  }

  predicate FromH1(e: Event) {
    FromConnection(e) || e.FileReadyEvent? || e.FileSinkReadyEvent? || e.RetryClosesEvent? || e.PoolProgressEvent?
  }

  lemma ApplicationKeeps(c: State, e: Event)
    requires Valid(c) && FromApplication(e)
    ensures Valid(Step(c, e))
  {
    match e
    case SubmitEvent(o, m, net) => SubmitKeeps(c, o, m, net);
    case SubmitRpcEvent(o, m, net, w, d) => SubmitRpcKeeps(c, o, m, net, w, d);
    case CancelEvent(call) => CancelKeeps(c, call, None);
    case ExpireEvent(now, answers) => ExpireKeeps(c, now, answers);
    case FilePendingEvent(i, pending) =>
      if i < |c.slots| && Live(c.slots[i]) {
        FilePendingKeeps(c, i, pending);
      }
    case StopEvent => BeginStopKeeps(c);
  }

  lemma ConnectionKeeps(c: State, e: Event)
    requires Valid(c) && FromConnection(e)
    ensures Valid(Step(c, e))
  {
    match e
    case ConnectedEvent(j, send, arm, ending) => ConnectedKeeps(c, j, send, arm, ending);
    case SentEvent(j, step, ending) => SentKeeps(c, j, step, ending);
    case ReceiveEvent(j, parse, sink, arm, ending) => ReceiveKeeps(c, j, parse, sink, arm, ending);
    case ClosedEvent(j, failed, parse, sink, ending) => ClosedKeeps(c, j, failed, parse, sink, ending);
  }

  lemma H1Keeps(c: State, e: Event)
    requires Valid(c) && FromH1(e) && !FromConnection(e)
    ensures Valid(Step(c, e))
  {
    match e
    case FileReadyEvent(i, step, ending) => FileReadyKeeps(c, i, step, ending);
    case FileSinkReadyEvent(i, sink, arm, ending) => FileSinkReadyKeeps(c, i, sink, arm, ending);
    case RetryClosesEvent(net) => RetryClosesKeeps(c, net);
    case PoolProgressEvent(net) => PoolProgressKeeps(c, net);
  }

  lemma H2Keeps(c: State, e: Event)
    requires Valid(c) && !FromApplication(e) && !FromH1(e)
    ensures Valid(Step(c, e))
  {
    match e
    case H2ConnectedEvent(p, ready, flushing, u) => ConnectedH2Keeps(c, p, ready, flushing, u);
    case H2StreamClosedEvent(p, k, deferred, cancels) => StreamClosedKeeps(c, p, k, deferred, cancels);
    case H2GoawayEvent(p) => GoawayKeeps(c, p);
    case H2FailEvent(p, u) => FailSessionKeeps(c, p, u);
    case H2FlushEvent(p, flushing, u) => FlushKeeps(c, p, flushing, u);
    case H2ProgressEvent(p, again, flushing, u) => ProgressKeeps(c, p, again, flushing, u);
    case H2ClosedEvent(p, u) => ClosedH2Keeps(c, p, u);
    case H2StopEvent(p, goaway, close) => BeginStopH2Keeps(c, p, goaway, close);
    case H2ReapEvent => ReapSessionsKeeps(c);
  }

  lemma StepKeeps(c: State, e: Event)
    requires Valid(c)
    ensures Valid(Step(c, e))
  {
    if FromApplication(e) {
      ApplicationKeeps(c, e);
    } else if FromConnection(e) {
      ConnectionKeeps(c, e);
    } else if FromH1(e) {
      H1Keeps(c, e);
    } else {
      H2Keeps(c, e);
    }
  }

  function Run(c: State, events: seq<Event>): State {
    if events == [] then c else Step(Run(c, events[..|events| - 1]), events[|events| - 1])
  }

  /** A state the client can get into. */
  ghost predicate Reachable(c: State) {
    exists requests: nat, connections: nat, events: seq<Event> ::
      requests <= UINT32_MAX && c == Run(Initial(requests, connections), events)
  }

  lemma {:induction false} RunKeeps(c: State, events: seq<Event>)
    requires Valid(c)
    ensures Valid(Run(c, events))
  {
    if events != [] {
      RunKeeps(c, events[..|events| - 1]);
      StepKeeps(Run(c, events[..|events| - 1]), events[|events| - 1]);
    }
  }

  lemma ReachableValid(c: State)
    requires Reachable(c)
    ensures Valid(c)
  {
    var requests: nat, connections: nat, events: seq<Event> :| requests <= UINT32_MAX && c == Run(Initial(requests, connections), events);
    InitialValid(requests, connections);
    RunKeeps(Initial(requests, connections), events);
  }

  lemma InitialReachable(requests: nat, connections: nat)
    requires requests <= UINT32_MAX
    ensures Reachable(Initial(requests, connections))
  {
    assert Run(Initial(requests, connections), []) == Initial(requests, connections);
  }

  lemma RunAppend(c: State, events: seq<Event>, e: Event)
    ensures Run(c, events + [e]) == Step(Run(c, events), e)
  {
    assert (events + [e])[..|events|] == events;
  }

  lemma StepReachable(c: State, e: Event)
    requires Reachable(c)
    ensures Reachable(Step(c, e))
  {
    var requests: nat, connections: nat, events: seq<Event> :| requests <= UINT32_MAX && c == Run(Initial(requests, connections), events);
    RunAppend(Initial(requests, connections), events, e);
  }

  lemma SubmitReachable(c: State, o: Options, m: Meeting, net: Net)
    requires Reachable(c)
    ensures Reachable(Submit(c, o, m, net).0)
  {
    StepReachable(c, SubmitEvent(o, m, net));
  }

  lemma ConnectedReachable(c: State, j: nat, send: Status, arm: Status, e: Ending)
    requires Reachable(c)
    ensures Reachable(Connected(c, j, send, arm, e))
  {
    StepReachable(c, ConnectedEvent(j, send, arm, e));
  }

  lemma SentReachable(c: State, j: nat, step: SourceStep, e: Ending)
    requires Reachable(c)
    ensures Reachable(Sent(c, j, step, e))
  {
    StepReachable(c, SentEvent(j, step, e));
  }

  lemma ReceiveReachable(c: State, j: nat, parse: Parse, sink: SinkStep, arm: Status, e: Ending)
    requires Reachable(c)
    ensures Reachable(Receive(c, j, parse, sink, arm, e))
  {
    StepReachable(c, ReceiveEvent(j, parse, sink, arm, e));
  }

  lemma StopReachable(c: State)
    requires Reachable(c)
    ensures Reachable(BeginStop(c))
  {
    StepReachable(c, StopEvent);
  }

  lemma PoolProgressReachable(c: State, net: Net)
    requires Reachable(c)
    ensures Reachable(PoolProgress(c, net).0)
  {
    StepReachable(c, PoolProgressEvent(net));
  }

  // ---------------------------------------------------------------- what holds in every reachable state

  /**
   A handle is issued once and called back at most once; a slot is recycled only
   after exactly one callback; only admitted requests are called back.
   */
  lemma CallbackOnce(c: State, h: Handle)
    requires Reachable(c)
    ensures c.book.issued[h] <= 1 && c.book.calls[h] <= 1
    ensures h in c.book.recycled ==> c.book.calls[h] == 1
    ensures h in c.book.calls ==> h in c.book.submitted || h in c.book.leaked
  {
    ReachableValid(c);
    assert AccountedAt(c.slots, c.book, h);
  }

  /** A submitted request is either live under its own handle or over, called back and recycled. */
  lemma HandleResolves(c: State, h: Handle)
    requires Reachable(c)
    ensures Find(c.slots, h).Some? ==> h in c.book.submitted || h in c.book.leaked
    ensures h in c.book.submitted ==> (Find(c.slots, h).Some? <==> h !in c.book.recycled)
  {
    ReachableValid(c);
    assert AccountedAt(c.slots, c.book, h);
    var found := Find(c.slots, h);
    if found.Some? {
      assert AccountedSlot(c.slots, found.value, c.book);
    }
  }

  /** A request whose slot is terminal has been called back. */
  lemma TerminalWasCalled(c: State, i: nat)
    requires Reachable(c) && i < |c.slots| && c.slots[i].state == SlotTerminal
    ensures c.book.calls[HandleOf(c.slots, i)] == 1
  {
    ReachableValid(c);
    assert SlotAt(c.slots, c.h1, c.stopActive, i) && AccountedSlot(c.slots, i, c.book);
  }

  /** The wire identifiers of live RPC requests are distinct. */
  lemma WireIdsDistinct(c: State, i: nat, k: nat)
    requires Reachable(c) && i < |c.slots| && k < |c.slots| && i != k && c.slots[i].wireId.Some?
    ensures c.slots[i].wireId != c.slots[k].wireId && Live(c.slots[i])
  {
    ReachableValid(c);
    assert SlotAt(c.slots, c.h1, c.stopActive, i);
    if i < k {
      assert WirePair(c.slots, i, k);
    } else {
      assert WirePair(c.slots, k, i);
    }
  }

  /**
   An idle connection serves nobody and has nothing in flight, and every request
   whose bytes it took had a complete keep-alive response and its whole body sent.
   */
  lemma IdleIsClean(c: State, j: nat)
    requires Reachable(c) && j < |c.h1| && c.h1[j].state == H1Idle
    ensures |c.traffic| == |c.h1| && c.h1[j].request == None && c.h1[j].operation == 0
    ensures !c.h1[j].sendPending && c.traffic[j].inFlight == 0
    ensures forall h :: h in c.traffic[j].admitted ==> h in c.finished
  {
    ReachableValid(c);
    assert SessionAt(c.slots, c.h1, j) && CarriedAt(c.slots, c.h1, c.traffic, c.finished, j);
  }

  /** The connection that serves a slot is the one the slot points to, so no connection serves two. */
  lemma SessionPointsBack(c: State, j: nat)
    requires Reachable(c) && j < |c.h1| && c.h1[j].request.Some?
    ensures c.h1[j].request.value < |c.slots| && c.slots[c.h1[j].request.value].h1 == Some(j)
    ensures Live(c.slots[c.h1[j].request.value]) && c.slots[c.h1[j].request.value].protocol == Http1
  {
    ReachableValid(c);
    assert SessionAt(c.slots, c.h1, j);
  }

  /** A slot's session points back to it, unless the client is stopping and the request is over. */
  lemma SlotPointsBack(c: State, i: nat)
    requires Reachable(c) && i < |c.slots| && c.slots[i].h1.Some?
    ensures c.slots[i].h1.value < |c.h1|
    ensures c.h1[c.slots[i].h1.value].request == Some(i) || (c.stopActive && c.slots[i].state == SlotTerminal && c.h1[c.slots[i].h1.value].request == None)
  {
    ReachableValid(c);
    assert SlotAt(c.slots, c.h1, c.stopActive, i);
  }

  /** A registry counts its entries, and every entry is a live request that points back to it. */
  lemma RegistryPointsBack(c: State, p: nat, k: nat)
    requires Reachable(c) && p < |c.h2|
    ensures c.h2[p].active == Occupied(c.h2[p].requests)
    ensures k < |c.h2[p].requests| && c.h2[p].requests[k].Some? ==>
      EntryOk(c.slots, p, k, c.h2[p].requests[k])
    ensures c.h2[p].state == H2Free ==> c.h2[p].active == 0
  {
    ReachableValid(c);
    assert RegistryAt(c.slots, c.h2, p);
    if k < |c.h2[p].requests| {
      assert EntryAt(c.slots, p, c.h2[p], k);
    }
  }

  /** A live HTTP/2 request holds exactly its registry entry, until its slot is recycled. */
  lemma RequestIsRegistered(c: State, i: nat)
    requires Reachable(c) && i < |c.slots| && Live(c.slots[i]) && c.slots[i].protocol == Http2
    ensures c.slots[i].h2.Some? && c.slots[i].h2.value < |c.h2| && c.slots[i].entry < |c.h2[c.slots[i].h2.value].requests|
    ensures c.h2[c.slots[i].h2.value].requests[c.slots[i].entry] == Some(i)
    ensures c.slots[i].completed <==> c.slots[i].state == SlotTerminal
  {
    ReachableValid(c);
    assert SlotAt(c.slots, c.h1, c.stopActive, i) && RegisteredAt(c.slots, c.h2, i) && SettledAt(c.slots, i);
  }

  /** Nothing is admitted to a session after it has begun to drain. */
  lemma NothingAfterDraining(c: State, p: nat, q: nat)
    requires Reachable(c) && p < q < |c.timeline| && c.timeline[p].Retired? && c.timeline[q].Admitted?
    ensures c.timeline[p].session != c.timeline[q].session || c.timeline[p].epoch != c.timeline[q].epoch
  {
    ReachableValid(c);
    assert InOrder(c.timeline, p, q);
  }

  /** Draining, closing and closed sessions have their retirement on record. */
  lemma DrainingIsRecorded(c: State, p: nat)
    requires Reachable(c) && p < |c.h2| && Retiring(c.h2[p].state)
    ensures |c.epochs| == |c.h2| && Retired(p, c.epochs[p]) in c.timeline
  {
    ReachableValid(c);
    assert Epoch(c.h2, c.epochs, c.timeline, p);
  }

  /** Live HTTP/1.1 sessions share a pool key exactly when their origins are the same. */
  lemma H1KeysNameOrigins(c: State, j: nat, k: nat)
    requires Reachable(c) && j < |c.h1| && k < |c.h1| && c.h1[j].state != H1Free && c.h1[k].state != H1Free
    ensures c.h1[j].origin.key == c.h1[k].origin.key <==> c.h1[j].origin.identity == c.h1[k].origin.identity
  {
    ReachableValid(c);
    assert KeyPair1(c.h1, j, k);
  }

  /** Live HTTP/2 sessions share a pool key only if their origins are the same. */
  lemma H2KeysNameOrigins(c: State, p: nat, q: nat)
    requires Reachable(c) && p < |c.h2| && q < |c.h2| && c.h2[p].state != H2Free && c.h2[q].state != H2Free
    requires c.h2[p].origin.key == c.h2[q].origin.key
    ensures c.h2[p].origin == c.h2[q].origin
  {
    ReachableValid(c);
    assert KeyPair2(c.h2, p, q);
  }

  /** Sessions of different protocols never share a pool key. */
  lemma KeysNameProtocols(c: State, j: nat, p: nat)
    requires Reachable(c) && j < |c.h1| && p < |c.h2| && c.h1[j].state != H1Free && c.h2[p].state != H2Free
    ensures c.h1[j].origin.key != c.h2[p].origin.key
  {
    ReachableValid(c);
    assert KeyPair12(c.h1, c.h2, j, p) && KeyAt1(c.h1, c.nextIdentity, j) && KeyAt2(c.h2, c.nextIdentity, p);
  }

  // ---------------------------------------------------------------- submissions that fail

  /** Slots may be recycled, but nobody is called back and nothing is admitted. */
  predicate SameCalls(c: State, d: State) {
    d.book == c.book.(recycled := d.book.recycled)
  }

  lemma ReapSameCalls(c: State, i: nat, net: Net)
    ensures SameCalls(c, ReapSlot(c, i, net).0)
  {
  }

  lemma PassSameCalls(c: State, n: nat, step: (State, nat) -> (State, Status))
    requires forall d, k :: SameCalls(d, step(d, k).0)
    ensures SameCalls(c, Pass(c, n, step).0)
  {
    PassKeeps(c, n, step, (d: State) => SameCalls(c, d));
  }

  lemma GiveBackSameCalls(c: State, net: Net)
    ensures SameCalls(c, GiveBack(c, net).0)
  {
    PassSameCalls(c, |c.h1|, (d: State, j: nat) => ReturnOne(d, j, net));
    var e := Pass(c, |c.h1|, (d: State, j: nat) => ReturnOne(d, j, net)).0;
    PassSameCalls(e, |c.h2|, (d: State, p: nat) => PoolOne(d, p, net));
    var f := Pass(e, |c.h2|, (d: State, p: nat) => PoolOne(d, p, net)).0;
    PassSameCalls(f, |f.h2|, (d: State, p: nat) => (RecycleContext(d, p, net), Ok));
    var g := Pass(f, |f.h2|, (d: State, p: nat) => (RecycleContext(d, p, net), Ok)).0;
    PassSameCalls(g, |f.h1|, (d: State, j: nat) => (ClearOne(d, j, net), Ok));
  }

  lemma ProgressSameCalls(c: State, net: Net)
    ensures SameCalls(c, PoolProgress(c, net).0)
  {
    forall d: State, i: nat
      ensures SameCalls(d, ReapSlot(d, i, net).0)
    {
      ReapSameCalls(d, i, net);
    }
    PassSameCalls(c, |c.slots|, (d: State, i: nat) => ReapSlot(d, i, net));
    GiveBackSameCalls(Reap(c, net).0, net);
  }

  lemma EvictSameCalls(c: State, net: Net)
    ensures Evict(c, net).book == c.book
  {
  }

  lemma ReapSessionsSameCalls(c: State)
    ensures SameCalls(c, ReapSessions(c))
  {
    PassSameCalls(c, |c.h2|, (e: State, p: nat) => (ReapH2(e, p), Ok));
  }

  lemma FinishSameCalls(c: State, after: After, net: Net)
    ensures SameCalls(c, Finish(c, after, net))
  {
    match after
    case Nothing =>
    case Evicting => EvictSameCalls(c, net);
    case Cleanup(_) =>
      ProgressSameCalls(c, net);
      EvictSameCalls(PoolProgress(c, net).0, net);
    case CleanupH2(_) =>
      ProgressSameCalls(c, net);
      var d := PoolProgress(c, net).0;
      ReapSessionsSameCalls(d);
      EvictSameCalls(ReapSessions(d), net);
  }

  /** The submission gets as far as an idle pooled connection that refuses the request and keeps its lease. */
  predicate Strands(c: State, o: Options, m: Meeting) {
    && c.admissionOpen && m.prepared == Ok && FirstFree(c.slots, 0).Some? && m.streaming == Ok
    && o.protocol == Http1 && !o.pipe && PoolKey(c, o).Some?
    && Reusable(c, o, PoolKey(c, o).value.0, m).Some? && c.nextOperation < UINT64_MAX
    && m.send != Ok && m.release != Ok
  }

  /** The handle a submission would have got. */
  function NextHandle(c: State, i: nat): Handle
    requires i < |c.slots|
  {
    Handle(i + 1, c.slots[i].generation + 1)
  }

  lemma PlaceH1Book(c: State, i: nat, key: Key, o: Options, m: Meeting)
    requires i < |c.slots| && PlaceH1(c, i, key, o, m).handle.None? && |c.traffic| == |c.h1|
    ensures PlaceH1(c, i, key, o, m).state.book ==
      if !o.pipe && Reusable(c, o, key, m).Some? && c.nextOperation < UINT64_MAX && m.send != Ok && m.release != Ok
      then Leaked(c.book, NextHandle(c, i)) else c.book
  {
  }

  lemma OpenBook(c: State, i: nat, p: nat, key: Key, o: Options, m: Meeting, net: Net)
    requires i < |c.slots| && p < |c.h2| && OpenAndAdmit(c, i, p, key, o, m, net).handle.None?
    ensures OpenAndAdmit(c, i, p, key, o, m, net).state.book == c.book
  {
  }

  lemma PlaceH2Book(c: State, i: nat, key: Key, o: Options, m: Meeting, net: Net)
    requires i < |c.slots| && PlaceH2(c, i, key, o, m, net).handle.None?
    ensures PlaceH2(c, i, key, o, m, net).state.book == c.book
  {
    var spare, unpooled := FirstUnusedH2(c.h2, 0), FirstUnpooled(c.h2, o.identity, m.engine, 0);
    if unpooled.None? && spare.Some? && PlaceH2(c, i, key, o, m, net) == OpenAndAdmit(c, i, spare.value, key, o, m, net) {
      OpenBook(c, i, spare.value, key, o, m, net);
    }
  }

  lemma PlaceBook(c: State, i: nat, o: Options, m: Meeting, net: Net)
    requires c.admissionOpen && m.prepared == Ok && FirstFree(c.slots, 0) == Some(i) && |c.traffic| == |c.h1|
    requires Place(c, i, o, m, net).handle.None?
    ensures Place(c, i, o, m, net).state.book == if Strands(c, o, m) then Leaked(c.book, NextHandle(c, i)) else c.book
  {
    var key := PoolKey(c, o);
    if m.streaming == Ok && key.Some? {
      var d := c.(nextIdentity := key.value.1);
      if o.protocol == Http2 {
        assert Place(c, i, o, m, net) == PlaceH2(d, i, key.value.0, o, m, net);
        PlaceH2Book(d, i, key.value.0, o, m, net);
      } else {
        assert Place(c, i, o, m, net) == PlaceH1(d, i, key.value.0, o, m);
        PlaceH1Book(d, i, key.value.0, o, m);
      }
    }
  }

  /** What a submission that returns no handle does to the ledger. */
  lemma FailedBook(c: State, o: Options, m: Meeting, net: Net)
    requires |c.traffic| == |c.h1| && Submit(c, o, m, net).1 == None
    ensures var book := Submit(c, o, m, net).0.book;
      book == (if Strands(c, o, m) then Leaked(c.book, NextHandle(c, FirstFree(c.slots, 0).value)) else c.book).(recycled := book.recycled)
  {
    var free := FirstFree(c.slots, 0);
    if c.admissionOpen && m.prepared == Ok && free.Some? {
      var placing := Place(c, free.value, o, m, net);
      assert Submit(c, o, m, net) == (Finish(placing.state, placing.after, net), placing.handle);
      PlaceBook(c, free.value, o, m, net);
      FinishSameCalls(placing.state, placing.after, net);
    }
  }

  /**
   A failed submission calls nobody back and, exactly when it is not stranded,
   leaves no request behind that could ever be called back.
   */
  lemma FailedSubmit(c: State, o: Options, m: Meeting, net: Net)
    requires Reachable(c) && Submit(c, o, m, net).1 == None
    ensures Submit(c, o, m, net).0.book.calls == c.book.calls && Submit(c, o, m, net).0.book.submitted == c.book.submitted
    ensures Submit(c, o, m, net).0.book.issued == c.book.issued <==> !Strands(c, o, m)
    ensures Submit(c, o, m, net).0.book.leaked == c.book.leaked <==> !Strands(c, o, m)
  {
    FreshNext(c);
    FailedBook(c, o, m, net);
    if Strands(c, o, m) {
      LeakedDiffers(c.book, NextHandle(c, FirstFree(c.slots, 0).value));
    }
  }

  /**
   The same of an RPC request; one whose wire identifier is taken is refused before
   anything else happens.
   */
  lemma FailedSubmitRpc(c: State, o: Options, m: Meeting, net: Net, wireId: nat, deadline: nat)
    requires Reachable(c) && SubmitRpc(c, o, m, net, wireId, deadline).1 == None
    ensures var d := SubmitRpc(c, o, m, net, wireId, deadline).0;
      && d.book.calls == c.book.calls && d.book.submitted == c.book.submitted
      && (d.book.issued == c.book.issued <==> !(WireFree(c.slots, wireId) && Strands(c, o, m)))
      && (d.book.leaked == c.book.leaked <==> !(WireFree(c.slots, wireId) && Strands(c, o, m)))
      && (!WireFree(c.slots, wireId) ==> d == c)
  {
    if WireFree(c.slots, wireId) {
      FailedSubmit(c, o, m, net);
      assert SubmitRpc(c, o, m, net, wireId, deadline).0 == Submit(c, o, m, net).0;
    }
  }

  lemma FreshNext(c: State)
    requires Reachable(c)
    ensures |c.traffic| == |c.h1|
    ensures FirstFree(c.slots, 0).Some? ==> !Known(c.book, NextHandle(c, FirstFree(c.slots, 0).value))
  {
    ReachableValid(c);
    if FirstFree(c.slots, 0).Some? {
      FreshHandle(c.slots, c.book, FirstFree(c.slots, 0).value);
    }
  }

  lemma LeakedDiffers(book: Ledger, h: Handle)
    requires !Known(book, h)
    ensures Leaked(book, h).issued != book.issued && Leaked(book, h).leaked != book.leaked
  {
    assert h in Leaked(book, h).leaked;
    assert Leaked(book, h).issued[h] == book.issued[h] + 1;
  }
}
