/**
 Two promises of the client that do not hold without a condition, each with the run
 that breaks it: slot and session links stay mutually inverse, and a failed
 submission never calls back.
 */
module ClientWitness {
  import opened Octets
  import opened ClientState
  import opened ClientH1
  import opened ClientH2
  import opened ClientPool
  import opened ClientRuns

  // ---------------------------------------------------------------- the answers of the layers below

  /** Everything succeeds, except what is asked to fail. */
  function Answers(close: Status): Net {
    Net(_ => Ok, _ => close, _ => Ok, _ => Ok, _ => Ok, _ => Ok, _ => Ok, _ => false, _ => false, _ => Ok, _ => Ok, _ => Ok, _ => Ok,
        _ => false, Ok, _ => Ok, _ => Ok)
  }

  function Meets(offered: Option<nat>, send: Status, release: Status): Meeting {
    Meeting(Ok, Ok, offered, NoBufs, send, Ok, true, true, release, _ => Ok)
  }

  const QUIET := Ending([], Ok, Ok)

  function Asks(pipe: bool): Options {
    Options(Http1, Identity("tcp://h", "h", None, 0, 0), false, pipe, false, false)
  }

  // ---------------------------------------------------------------- one exchange, step by step

  /** A client with one slot and one session, admitting. */
  predicate At(c: State, s: Slot, t: H1, calls: multiset<Handle>) {
    && c.slots == [s] && c.h1 == [t] && |c.traffic| == 1 && c.h2 == [UNUSED_H2]
    && c.admissionOpen && !c.stopActive && c.nextOperation < 10 && c.nextIdentity < 10
    && c.book.calls == calls && c.book.submitted == {Handle(1, 1)}
  }

  function Slot1(pipe: bool, state: SlotState): Slot {
    FreshH1(1, 0, state, Asks(pipe), false)
  }

  function Session1(pipe: bool): H1 {
    NewSession(Asks(pipe), FreshKey(Asks(pipe), 1), !pipe, !pipe).(request := Some(0), operation := 1)
  }

  lemma SubmitRun(pipe: bool) returns (c: State)
    ensures Reachable(c) && At(c, Slot1(pipe, SlotConnecting), Session1(pipe), multiset{}) && c.traffic[0].inFlight == 0
  {
    InitialReachable(1, 1);
    SubmitReachable(Initial(1, 1), Asks(pipe), Meets(None, Ok, Ok), Answers(Ok));
    SubmittedAt(pipe);
    c := Submit(Initial(1, 1), Asks(pipe), Meets(None, Ok, Ok), Answers(Ok)).0;
  }

  lemma SubmittedAt(pipe: bool)
    ensures var c := Submit(Initial(1, 1), Asks(pipe), Meets(None, Ok, Ok), Answers(Ok)).0;
      At(c, Slot1(pipe, SlotConnecting), Session1(pipe), multiset{}) && c.traffic[0].inFlight == 0
  {
    var c := Initial(1, 1);
    var o := Asks(pipe);
    assert FirstFree(c.slots, 0) == Some(0);
    assert KeyInH1(c.h1, o.identity, 0) == None;
    assert FirstPipe(c.h1, o.identity, 0) == None;
    assert FirstUnused(c.h1, 0) == Some(0);
    assert c.h2 == [UNUSED_H2];
  }

  /** The connection comes up and the request goes out. */
  lemma ConnectedAt(c: State, s: Slot, t: H1)
    requires At(c, s, t, multiset{}) && c.traffic[0].inFlight == 0
    requires s.state == SlotConnecting && s.h1 == Some(0) && !s.delivered && !s.cancelRequested
    requires t.state == H1Connecting && t.request == Some(0) && !t.transportClosed && !t.receiveArmed
    ensures var d := Connected(c, 0, Ok, Ok, QUIET);
      && At(d, s.(state := SlotBusy), t.(state := H1Active, sendPending := true, receiveArmed := true), multiset{})
      && d.traffic[0].inFlight == 1
  {
    var d := PutPair(c, 0, s.(state := SlotBusy), 0, t.(state := H1Active));
    assert d.slots == [s.(state := SlotBusy)] && d.h1 == [t.(state := H1Active)];
    var e := Sending(d, 0, d.slots[0], 0, [HandleOf(c.slots, 0)]);
    assert e.slots == [s.(state := SlotBusy)] && e.h1 == [t.(state := H1Active, sendPending := true)];
    assert Connected(c, 0, Ok, Ok, QUIET) == ArmOrFail(e, 0, Ok, QUIET);
    ArmedAt(e, e.slots[0], e.h1[0]);
  }

  lemma ArmedAt(e: State, s: Slot, t: H1)
    requires e.slots == [s] && e.h1 == [t] && s.h1 == Some(0) && !t.receiveArmed
    ensures ArmOrFail(e, 0, Ok, QUIET) == e.(h1 := [t.(receiveArmed := true)])
  {
    assert e.slots[0 := s] == e.slots && e.h1[0 := t.(receiveArmed := true)] == [t.(receiveArmed := true)];
  }

  lemma SentAt(c: State, s: Slot, t: H1)
    requires At(c, s, t, multiset{}) && c.traffic[0].inFlight == 1
    requires s.state == SlotBusy && !s.delivered && !s.sourceEnabled && s.h1 == Some(0)
    requires t.state == H1Active && t.request == Some(0) && !t.transportClosed
    ensures At(Sent(c, 0, SourceEnds, QUIET), s, t.(sendPending := false), multiset{})
  {
    var d := c.(h1 := c.h1[0 := t.(sendPending := false)], traffic := c.traffic[0 := c.traffic[0].(inFlight := 0)]);
    assert d.h1 == [t.(sendPending := false)];
    assert Sent(c, 0, SourceEnds, QUIET) == SourceAdvance(d, 0, SourceEnds, QUIET) == d;
  }

  lemma CompletedAt(f: State, s: Slot, t: H1)
    requires f.slots == [s] && f.h1 == [t] && !f.stopActive
    requires s.state == SlotBusy && !s.delivered && !s.cancelRequested && s.sourceComplete && s.keepAlive && s.h1 == Some(0)
    requires !t.transportClosed && !t.sendPending
    ensures CompleteResponse(f, 0, QUIET) ==
      f.(slots := [s.(delivered := true, state := SlotTerminal)], book := f.book.(calls := f.book.calls + multiset{Handle(1, s.generation)}))
  {
    var g := MarkDelivered(f, 0);
    assert Deliver(f, 0, []) == g && g.slots == [s.(delivered := true)];
    assert CompleteResponse(f, 0, QUIET) == PutSlot(g, 0, g.slots[0].(state := SlotTerminal));
  }

  /** A complete keep-alive response ends the exchange and makes the callback. */
  lemma ReceivedAt(c: State, s: Slot, t: H1)
    requires c.slots == [s] && c.h1 == [t] && !c.stopActive
    requires s.state == SlotBusy && !s.delivered && !s.cancelRequested && !s.fileSink && s.sourceComplete && s.h1 == Some(0)
    requires t.state == H1Active && t.request == Some(0) && !t.transportClosed && !t.sendPending
    ensures Receive(c, 0, ParseComplete(true), SinkWait, Ok, QUIET) ==
      c.(slots := [s.(complete := true, keepAlive := true, delivered := true, state := SlotTerminal)],
         h1 := [t.(receiveArmed := false)], book := c.book.(calls := c.book.calls + multiset{Handle(1, s.generation)}))
  {
    var d := c.(h1 := c.h1[0 := t.(receiveArmed := false)]);
    var f := PutSlot(d, 0, s.(complete := true, keepAlive := true));
    assert f.slots == [s.(complete := true, keepAlive := true)] && f.h1 == [t.(receiveArmed := false)];
    assert Receive(c, 0, ParseComplete(true), SinkWait, Ok, QUIET) == ReceiveRequest(d, 0, ParseComplete(true), SinkWait, Ok, QUIET);
    assert ReceiveRequest(d, 0, ParseComplete(true), SinkWait, Ok, QUIET) == CompleteResponse(f, 0, QUIET);
    CompletedAt(f, f.slots[0], f.h1[0]);
  }

  /** One whole exchange: the slot waits for the reaper. */
  lemma ExchangeRun(pipe: bool) returns (c: State)
    ensures Reachable(c) && At(c, Slot1(pipe, SlotTerminal).(complete := true, keepAlive := true, delivered := true),
                               Session1(pipe).(state := H1Active), multiset{Handle(1, 1)})
  {
    var a := SubmitRun(pipe);
    var b := ConnectedRun(a, Slot1(pipe, SlotConnecting), Session1(pipe));
    c := AnsweredRun(b, Slot1(pipe, SlotBusy), Session1(pipe).(state := H1Active, sendPending := true, receiveArmed := true));
  }

  lemma ConnectedRun(a: State, s: Slot, t: H1) returns (b: State)
    requires Reachable(a) && At(a, s, t, multiset{}) && a.traffic[0].inFlight == 0
    requires s.state == SlotConnecting && s.h1 == Some(0) && !s.delivered && !s.cancelRequested
    requires t.state == H1Connecting && t.request == Some(0) && !t.transportClosed && !t.receiveArmed
    ensures Reachable(b) && b.slots == [s.(state := SlotBusy)] && |b.traffic| == 1 && b.traffic[0].inFlight == 1
    ensures At(b, s.(state := SlotBusy), t.(state := H1Active, sendPending := true, receiveArmed := true), multiset{})
  {
    ConnectedReachable(a, 0, Ok, Ok, QUIET);
    ConnectedAt(a, s, t);
    b := Connected(a, 0, Ok, Ok, QUIET);
  }

  lemma AnsweredRun(b: State, s: Slot, t: H1) returns (c: State)
    requires Reachable(b) && At(b, s, t, multiset{}) && b.traffic[0].inFlight == 1
    requires s.state == SlotBusy && !s.delivered && !s.cancelRequested && !s.fileSink && s.sourceComplete && !s.sourceEnabled
    requires s.h1 == Some(0) && s.generation == 1
    requires t.state == H1Active && t.request == Some(0) && !t.transportClosed
    ensures Reachable(c)
    ensures At(c, s.(complete := true, keepAlive := true, delivered := true, state := SlotTerminal),
               t.(sendPending := false, receiveArmed := false), multiset{Handle(1, 1)})
  {
    var d := SentRun(b, s, t);
    ReceiveReachable(d, 0, ParseComplete(true), SinkWait, Ok, QUIET);
    ReceivedAt(d, s, t.(sendPending := false));
    assert multiset{} + multiset{Handle(1, 1)} == multiset{Handle(1, 1)};
    c := Receive(d, 0, ParseComplete(true), SinkWait, Ok, QUIET);
  }

  lemma SentRun(b: State, s: Slot, t: H1) returns (c: State)
    requires Reachable(b) && At(b, s, t, multiset{}) && b.traffic[0].inFlight == 1
    requires s.state == SlotBusy && !s.delivered && !s.sourceEnabled && s.h1 == Some(0)
    requires t.state == H1Active && t.request == Some(0) && !t.transportClosed
    ensures Reachable(c) && At(c, s, t.(sendPending := false), multiset{})
  {
    SentReachable(b, 0, SourceEnds, QUIET);
    SentAt(b, s, t);
    c := Sent(b, 0, SourceEnds, QUIET);
  }

  // ---------------------------------------------------------------- links that are not inverse

  /**
   The reaper, asked to stop, unbinds a session whose close fails: exactly then the
   slot goes on pointing to a session that no longer points back.
   */
  predicate Sticks(c: State, i: nat, j: nat, net: Net)
    requires i < |c.slots| && j < |c.h1|
  {
    && c.stopActive && c.h1[j].state == H1Active && !c.h1[j].sendPending
    && (c.slots[i].lease ==> net.release(i) == Ok)
    && TryCloseStatus(c.h1[j], net.drain(j), net.close(j)) != Ok && TryCloseStatus(c.h1[j], net.drain(j), net.close(j)) != NoBufs
  }

  lemma StoppingStatus(t: H1, drain: Status, close: Status, arm: Status, bind: Status)
    ensures Reaped(t, true, drain, close, arm, bind).request == None
    ensures ReapedStatus(t, true, drain, close, arm, bind) != Ok <==>
      t.state == H1Active && TryCloseStatus(t, drain, close) != Ok && TryCloseStatus(t, drain, close) != NoBufs
  {
  }

  /** For every slot the reaper takes, bound to session `j`. */
  lemma StaleExactly(c: State, i: nat, j: nat, net: Net)
    requires i < |c.slots| && j < |c.h1| && c.slots[i].h1 == Some(j) && c.slots[i].state == SlotTerminal && !c.slots[i].filePending
    requires c.h1[j].request == Some(i)
    ensures var d := ReapSlot(c, i, net).0;
      |d.slots| == |c.slots| && |d.h1| == |c.h1| &&
      (Live(d.slots[i]) && d.slots[i].h1 == Some(j) && d.h1[j].request != Some(i) <==> Sticks(c, i, j, net))
  {
    assert ReapSlot(c, i, net) == ReapH1Slot(c, i, j, net);
    if c.stopActive {
      StoppingStatus(c.h1[j], net.drain(j), net.close(j), net.arm(j), net.bind(j));
    }
  }

  lemma PassOnce(c: State, step: (State, nat) -> (State, Status))
    ensures Pass(c, 1, step) == step(c, 0)
  {
    assert Pass(c, 0, step) == (c, Ok);
  }

  lemma StuckStatus(d: State, net: Net)
    requires |d.slots| == 1 && |d.h1| == 1 && d.stopActive && SessionOf(d, 0) == Some(0) && d.slots[0].state == SlotTerminal
    requires !d.slots[0].filePending && Sticks(d, 0, 0, net)
    ensures PoolProgress(d, net).0 == ReapSlot(d, 0, net).0
  {
    PassOnce(d, (f: State, i: nat) => ReapSlot(f, i, net));
    StoppingStatus(d.h1[0], net.drain(0), net.close(0), net.arm(0), net.bind(0));
  }

  /** A run that ends with a slot pointing to a session that does not point back. */
  lemma StaleLink() returns (c: State)
    ensures Reachable(c) && |c.slots| == 1 && |c.h1| == 1
    ensures Live(c.slots[0]) && c.slots[0].h1 == Some(0) && c.h1[0].request != Some(0)
  {
    var a := ExchangeRun(true);
    c := StuckRun(a, Slot1(true, SlotTerminal).(complete := true, keepAlive := true, delivered := true), Session1(true).(state := H1Active));
  }

  lemma StuckRun(a: State, s: Slot, t: H1) returns (c: State)
    requires Reachable(a) && a.slots == [s] && a.h1 == [t] && s.state == SlotTerminal && s.h1 == Some(0) && !s.filePending && !s.lease
    requires t.state == H1Active && t.request == Some(0) && !t.sendPending && !t.transportClosed && !t.closeAdmitted && !t.pooled
    ensures Reachable(c) && |c.slots| == 1 && |c.h1| == 1
    ensures Live(c.slots[0]) && c.slots[0].h1 == Some(0) && c.h1[0].request != Some(0)
  {
    StopReachable(a);
    var d, net := BeginStop(a), Answers(Failed);
    PoolProgressReachable(d, net);
    StaleExactly(d, 0, 0, net);
    StuckStatus(d, net);
    c := PoolProgress(d, net).0;
  }

  // ---------------------------------------------------------------- a failed submission that calls back

  function RestedSession(): H1 {
    Session1(false).(state := H1Idle, request := None, operation := 0, receiveArmed := true, poolReady := true)
  }

  /** The same exchange over the pool, reaped: the connection is idle and offered again. */
  lemma RestedRun() returns (c: State)
    ensures Reachable(c) && At(c, Vacant(1), RestedSession(), multiset{Handle(1, 1)})
  {
    var a := ExchangeRun(false);
    var net := Answers(Ok);
    PoolProgressReachable(a, net);
    ReapedAt(a, net);
    GiveBackAt(ReapSlot(a, 0, net).0, net);
    c := PoolProgress(a, net).0;
  }

  lemma ReapedAt(c: State, net: Net)
    requires c.slots == [Slot1(false, SlotTerminal).(complete := true, keepAlive := true, delivered := true)]
    requires c.h1 == [Session1(false).(state := H1Active)] && !c.stopActive && net == Answers(Ok)
    ensures ReapSlot(c, 0, net).1 == Ok && Reap(c, net) == ReapSlot(c, 0, net)
    ensures ReapSlot(c, 0, net).0 ==
      c.(slots := [Vacant(1)], h1 := [RestedSession()], finished := ReapSlot(c, 0, net).0.finished,
         book := c.book.(recycled := c.book.recycled + {Handle(1, 1)}))
  {
    PassOnce(c, (f: State, i: nat) => ReapSlot(f, i, net));
    assert ReapSlot(c, 0, net) == ReapH1Slot(c, 0, 0, net);
    assert Reaped(c.h1[0], false, Ok, Ok, Ok, Ok) == RestedSession() && ReapedStatus(c.h1[0], false, Ok, Ok, Ok, Ok) == Ok;
  }

  /** Nothing of a client with one idle connection is given back. */
  lemma GiveBackAt(c: State, net: Net)
    requires c.h1 == [RestedSession()] && c.h2 == [UNUSED_H2] && |c.traffic| == 1 && net == Answers(Ok)
    ensures GiveBack(c, net) == (c, Ok)
  {
    PassOnce(c, (d: State, j: nat) => ReturnOne(d, j, net));
    assert c.h1[0 := c.h1[0]] == c.h1;
    assert ReturnOne(c, 0, net) == (c, Ok);
    PassOnce(c, (d: State, p: nat) => PoolOne(d, p, net));
    assert PoolOne(c, 0, net) == (c, Ok);
    PassOnce(c, (d: State, p: nat) => (RecycleContext(d, p, net), Ok));
    PassOnce(c, (d: State, j: nat) => (ClearOne(d, j, net), Ok));
    assert ClearOne(c, 0, net) == c;
  }

  /** The second request is refused by the connection and its lease by the pool. */
  lemma StrandedAt(c: State)
    requires At(c, Vacant(1), RestedSession(), multiset{Handle(1, 1)})
    ensures var r := Submit(c, Asks(false), Meets(Some(0), Failed, Failed), Answers(Ok));
      && r.1 == None && !r.0.stopActive && r.0.book.calls == multiset{Handle(1, 1)} && r.0.book.submitted == {Handle(1, 1)}
      && r.0.slots == [FreshH1(2, 0, SlotBusy, Asks(false), true)] && r.0.h1 == [Taken(RestedSession(), 0, c.nextOperation + 1)]
  {
    var o, m := Asks(false), Meets(Some(0), Failed, Failed);
    assert FirstFree(c.slots, 0) == Some(0);
    assert KeyInH1(c.h1, o.identity, 0) == Some(FreshKey(o, 1));
    assert c.(nextIdentity := c.nextIdentity) == c;
    assert Place(c, 0, o, m, Answers(Ok)) == PlaceH1(c, 0, FreshKey(o, 1), o, m) == Reuse(c, 0, 0, o, m);
  }

  /** A run in which a submission fails and its request is called back all the same. */
  lemma FailedSubmitCallsBack() returns (c: State, m: Meeting, d: State)
    ensures Reachable(c) && Submit(c, Asks(false), m, Answers(Ok)).1 == None
    ensures d == Receive(Submit(c, Asks(false), m, Answers(Ok)).0, 0, ParseComplete(true), SinkWait, Ok, QUIET) && Reachable(d)
    ensures d.book.calls[Handle(1, 2)] == 1 && Handle(1, 2) !in d.book.submitted
  {
    c := RestedRun();
    m := Meets(Some(0), Failed, Failed);
    SubmitReachable(c, Asks(false), m, Answers(Ok));
    StrandedAt(c);
    d := CalledRun(Submit(c, Asks(false), m, Answers(Ok)).0, Taken(RestedSession(), 0, c.nextOperation + 1));
  }

  lemma CalledRun(c: State, t: H1) returns (d: State)
    requires Reachable(c) && !c.stopActive && c.book.calls == multiset{Handle(1, 1)} && c.book.submitted == {Handle(1, 1)}
    requires c.slots == [FreshH1(2, 0, SlotBusy, Asks(false), true)] && c.h1 == [t]
    requires t.state == H1Active && t.request == Some(0) && !t.transportClosed && !t.sendPending
    ensures d == Receive(c, 0, ParseComplete(true), SinkWait, Ok, QUIET) && Reachable(d)
    ensures d.book.calls[Handle(1, 2)] == 1 && Handle(1, 2) !in d.book.submitted
  {
    ReceiveReachable(c, 0, ParseComplete(true), SinkWait, Ok, QUIET);
    ReceivedAt(c, FreshH1(2, 0, SlotBusy, Asks(false), true), t);
    d := Receive(c, 0, ParseComplete(true), SinkWait, Ok, QUIET);
  }
}
