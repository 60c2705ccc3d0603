/**
 What no step of the client takes back: callbacks made, handles issued, submitted
 or recycled, exchanges finished, the record of the HTTP/2 sessions, and the
 generation of every slot.
 */
module ClientGrows {
  import opened Octets
  import opened ClientState
  import opened ClientH1
  import opened ClientH2
  import opened ClientPool

  predicate LedgerGrows(a: Ledger, b: Ledger) {
    && a.issued <= b.issued && a.calls <= b.calls
    && a.submitted <= b.submitted && a.leaked <= b.leaked && a.recycled <= b.recycled
  }

  predicate GenerationAt(a: seq<Slot>, b: seq<Slot>, i: nat)
    requires i < |a| == |b|
  {
    a[i].generation <= b[i].generation
  }

  predicate Generations(a: seq<Slot>, b: seq<Slot>) {
    |a| == |b| && forall i :: 0 <= i < |a| ==> GenerationAt(a, b, i)
  }

  predicate EpochAt(a: seq<nat>, b: seq<nat>, p: nat)
    requires p < |a| == |b|
  {
    a[p] <= b[p]
  }

  predicate Epochs(a: seq<nat>, b: seq<nat>) {
    |a| == |b| && forall p :: 0 <= p < |a| ==> EpochAt(a, b, p)
  }

  predicate Grows(c: State, d: State) {
    && LedgerGrows(c.book, d.book) && c.finished <= d.finished && c.timeline <= d.timeline
    && Generations(c.slots, d.slots) && Epochs(c.epochs, d.epochs)
    && c.nextOperation <= d.nextOperation && c.nextIdentity <= d.nextIdentity
    && (c.stopActive ==> d.stopActive) && (!c.admissionOpen ==> !d.admissionOpen)
  }

  lemma GrowsSelf(c: State)
    ensures Grows(c, c)
  {
  }

  lemma GrowsTrans(c: State, d: State, e: State)
    requires Grows(c, d) && Grows(d, e)
    ensures Grows(c, e)
  {
    forall i | 0 <= i < |c.slots|
      ensures GenerationAt(c.slots, e.slots, i)
    {
      assert GenerationAt(c.slots, d.slots, i) && GenerationAt(d.slots, e.slots, i);
    }
    forall p | 0 <= p < |c.epochs|
      ensures EpochAt(c.epochs, e.epochs, p)
    {
      assert EpochAt(c.epochs, d.epochs, p) && EpochAt(d.epochs, e.epochs, p);
    }
  }

  /** Steps that change only the sessions. */
  lemma SessionsGrow(c: State, h1: seq<H1>, h2: seq<H2>, traffic: seq<Traffic>)
    ensures Grows(c, c.(h1 := h1, h2 := h2, traffic := traffic))
  {
  }

  lemma PutGrows(c: State, i: nat, s: Slot)
    requires i < |c.slots| && c.slots[i].generation <= s.generation
    ensures Grows(c, PutSlot(c, i, s))
  {
  }

  lemma PairGrows(c: State, i: nat, s: Slot, j: nat, t: H1)
    requires i < |c.slots| && j < |c.h1| && c.slots[i].generation <= s.generation
    ensures Grows(c, PutPair(c, i, s, j, t))
  {
  }

  lemma {:induction false} PassGrows(c: State, n: nat, step: (State, nat) -> (State, Status))
    requires forall d, k :: Grows(d, step(d, k).0)
    ensures Grows(c, Pass(c, n, step).0)
  {
    if n == 0 {
      GrowsSelf(c);
    } else {
      PassGrows(c, n - 1, step);
      var prior := Pass(c, n - 1, step);
      if prior.1 == Ok {
        GrowsTrans(c, prior.0, step(prior.0, n - 1).0);
      }
    }
  }

  // ---------------------------------------------------------------- HTTP/1.1

  lemma CancelGrows(c: State, call: CancelCall)
    ensures Grows(c, Cancel(c, call))
  {
    var found := Find(c.slots, call.handle);
    if found.None? || c.slots[found.value].delivered || c.slots[found.value].cancelRequested {
      assert Cancel(c, call) == c;
      GrowsSelf(c);
    } else if c.slots[found.value].protocol == Http2 {
      assert Cancel(c, call) == CancelH2(c, found.value, call.reset, call.streamClosed);
      CancelH2Grows(c, found.value, call.reset, call.streamClosed);
    } else {
      assert Cancel(c, call) == CancelH1(c, found.value, call.close);
      CancelH1Grows(c, found.value, call.close);
    }
  }

  lemma CancelH1Grows(c: State, i: nat, close: Status)
    ensures Grows(c, CancelH1(c, i, close))
  {
    var session := SessionOf(c, i);
    if close != Ok || session.None? {
      GrowsSelf(c);
    } else {
      var j := session.value;
      PairGrows(c, i, c.slots[i].(cancelRequested := true, state := SlotClosing), j, c.h1[j].(closeAdmitted := true, state := H1Closing));
    }
  }

  lemma CancelH2Grows(c: State, i: nat, reset: Status, streamClosed: bool)
    ensures Grows(c, CancelH2(c, i, reset, streamClosed))
  {
    if i >= |c.slots| || c.slots[i].completed {
      GrowsSelf(c);
    } else {
      PutGrows(c, i, Reset(c.slots[i], reset == Ok, streamClosed));
    }
  }

  lemma {:induction false} CancelsGrow(c: State, calls: seq<CancelCall>)
    ensures Grows(c, Cancels(c, calls))
    decreases |calls|
  {
    if calls == [] {
      GrowsSelf(c);
    } else {
      CancelGrows(c, calls[0]);
      CancelsGrow(Cancel(c, calls[0]), calls[1..]);
      GrowsTrans(c, Cancel(c, calls[0]), Cancels(c, calls));
    }
  }

  lemma DeliverGrows(c: State, i: nat, cancels: seq<CancelCall>)
    ensures Grows(c, Deliver(c, i, cancels))
  {
    if Deliver(c, i, cancels) == c {
      GrowsSelf(c);
    } else {
      var d := MarkDelivered(c, i);
      assert Grows(c, d);
      CancelsGrow(d, cancels);
      GrowsTrans(c, d, Cancels(d, cancels));
    }
  }

  lemma SlotTryCloseGrows(c: State, i: nat, drain: Status, close: Status)
    ensures Grows(c, SlotTryClose(c, i, drain, close))
  {
  }

  lemma FailGrows(c: State, i: nat, e: Ending)
    ensures Grows(c, FailAndClose(c, i, e))
  {
    var d := Deliver(c, i, e.cancels);
    DeliverGrows(c, i, e.cancels);
    var session := SessionOf(d, i);
    if session.Some? {
      if d.h1[session.value].transportClosed {
        PairGrows(d, i, d.slots[i].(state := SlotTerminal), session.value, d.h1[session.value].(closePending := false));
      } else {
        SlotTryCloseGrows(d, i, e.drain, e.close);
      }
      GrowsTrans(c, d, FailAndClose(c, i, e));
    }
  }

  lemma CompleteResponseGrows(c: State, i: nat, e: Ending)
    ensures Grows(c, CompleteResponse(c, i, e))
  {
    var d := Deliver(c, i, e.cancels);
    DeliverGrows(c, i, e.cancels);
    var r := CompleteResponse(c, i, e);
    if SessionOf(d, i).Some? {
      if r == SlotTryClose(d, i, e.drain, e.close) {
        SlotTryCloseGrows(d, i, e.drain, e.close);
      } else if r == d {
        GrowsSelf(d);
      } else {
        PutGrows(d, i, d.slots[i].(state := SlotTerminal));
      }
      GrowsTrans(c, d, r);
    }
  }

  lemma ArmGrows(c: State, i: nat, arm: Status, e: Ending)
    ensures Grows(c, ArmOrFail(c, i, arm, e))
  {
    FailGrows(c, i, e);
  }

  lemma SendingGrows(c: State, i: nat, s: Slot, j: nat, admitted: seq<Handle>)
    requires i < |c.slots| && j < |c.h1| == |c.traffic| && c.slots[i].generation <= s.generation
    ensures Grows(c, Sending(c, i, s, j, admitted))
  {
  }

  lemma ConnectedGrows(c: State, j: nat, send: Status, arm: Status, e: Ending)
    ensures Grows(c, Connected(c, j, send, arm, e))
  {
    var r := Connected(c, j, send, arm, e);
    if r == c {
      GrowsSelf(c);
    } else {
      var i := RequestOf(c, j).value;
      var s := c.slots[i];
      var d := PutPair(c, i, s.(state := SlotBusy), j, c.h1[j].(state := H1Active));
      PairGrows(c, i, s.(state := SlotBusy), j, c.h1[j].(state := H1Active));
      if send != Ok {
        FailGrows(d, i, e);
        GrowsTrans(c, d, r);
      } else {
        var f := Sending(d, i, d.slots[i], j, [HandleOf(c.slots, i)]);
        SendingGrows(d, i, d.slots[i], j, [HandleOf(c.slots, i)]);
        ArmGrows(f, i, arm, e);
        GrowsTrans(d, f, r);
        GrowsTrans(c, d, r);
      }
    }
  }

  lemma SourceAdvanceGrows(c: State, i: nat, step: SourceStep, e: Ending)
    ensures Grows(c, SourceAdvance(c, i, step, e))
  {
    FailGrows(c, i, e);
    var session := SessionOf(c, i);
    if session.Some? && |c.traffic| == |c.h1| {
      var s := c.slots[i];
      PutGrows(c, i, SourceFinished(s));
      PutGrows(c, i, s.(fileWaiting := true));
      SendingGrows(c, i, s.(finalPending := step.SourceSendsFinal?), session.value, []);
    }
  }

  lemma SentGrows(c: State, j: nat, step: SourceStep, e: Ending)
    ensures Grows(c, Sent(c, j, step, e))
  {
    if !Connection(c, j) || |c.traffic| != |c.h1| || c.traffic[j].inFlight == 0 {
      GrowsSelf(c);
    } else {
      var d := c.(h1 := c.h1[j := c.h1[j].(sendPending := false)],
                  traffic := c.traffic[j := c.traffic[j].(inFlight := c.traffic[j].inFlight - 1)]);
      SessionsGrow(c, d.h1, c.h2, d.traffic);
      var request := RequestOf(d, j);
      if request.Some? {
        SettlesGrow(d, request.value, step, e);
        GrowsTrans(c, d, Sent(c, j, step, e));
      }
    }
  }

  lemma SettlesGrow(d: State, i: nat, step: SourceStep, e: Ending)
    requires i < |d.slots|
    ensures Grows(d, SourceAdvance(d, i, step, e)) && Grows(d, d) && Grows(d, PutSlot(d, i, d.slots[i].(state := SlotTerminal)))
  {
    SourceAdvanceGrows(d, i, step, e);
    GrowsSelf(d);
    PutGrows(d, i, d.slots[i].(state := SlotTerminal));
  }

  lemma FileReadyGrows(c: State, i: nat, step: SourceStep, e: Ending)
    ensures Grows(c, FileReady(c, i, step, e))
  {
    if i < |c.slots| && c.slots[i].fileWaiting {
      var d := PutSlot(c, i, c.slots[i].(fileWaiting := false));
      PutGrows(c, i, c.slots[i].(fileWaiting := false));
      SourceAdvanceGrows(d, i, step, e);
      GrowsTrans(c, d, FileReady(c, i, step, e));
    }
  }

  lemma AfterSinkGrows(c: State, i: nat, sink: SinkStep, arm: Status, e: Ending)
    ensures Grows(c, AfterSink(c, i, sink, arm, e))
  {
    FailGrows(c, i, e);
    CompleteResponseGrows(c, i, e);
    ArmGrows(c, i, arm, e);
    GrowsSelf(c);
  }

  lemma FileSinkReadyGrows(c: State, i: nat, sink: SinkStep, arm: Status, e: Ending)
    ensures Grows(c, FileSinkReady(c, i, sink, arm, e))
  {
    AfterSinkGrows(c, i, sink, arm, e);
    GrowsSelf(c);
  }

  lemma ReceiveRequestGrows(c: State, i: nat, parse: Parse, sink: SinkStep, arm: Status, e: Ending)
    requires i < |c.slots|
    ensures Grows(c, ReceiveRequest(c, i, parse, sink, arm, e))
  {
    var r := ReceiveRequest(c, i, parse, sink, arm, e);
    if c.slots[i].delivered || c.slots[i].cancelRequested || c.stopActive {
      SlotTryCloseGrows(c, i, e.drain, e.close);
    } else if parse.ParseFails? {
      FailGrows(c, i, e);
    } else {
      var d := PutSlot(c, i, Parsed(c.slots[i], parse));
      PutGrows(c, i, Parsed(c.slots[i], parse));
      AfterSinkGrows(d, i, sink, arm, e);
      GrowsTrans(c, d, r);
    }
  }

  lemma ReceiveGrows(c: State, j: nat, parse: Parse, sink: SinkStep, arm: Status, e: Ending)
    ensures Grows(c, Receive(c, j, parse, sink, arm, e))
  {
    if Connection(c, j) {
      var d := c.(h1 := c.h1[j := c.h1[j].(receiveArmed := false)]);
      var r := Receive(c, j, parse, sink, arm, e);
      SessionsGrow(c, d.h1, c.h2, c.traffic);
      var request := RequestOf(d, j);
      if request.None? || d.slots[request.value].state == SlotTerminal {
        SessionsGrow(d, TryClose(d, j, e.drain, e.close).h1, d.h2, d.traffic);
      } else {
        ReceiveRequestGrows(d, request.value, parse, sink, arm, e);
      }
      GrowsTrans(c, d, r);
    }
  }

  lemma EndClosedGrows(c: State, i: nat, j: nat)
    ensures Grows(c, EndClosed(c, i, j))
  {
  }

  lemma DeliverEndGrows(d: State, i: nat, j: nat, cancels: seq<CancelCall>)
    ensures Grows(d, EndClosed(Deliver(d, i, cancels), i, j))
  {
    DeliverGrows(d, i, cancels);
    EndClosedGrows(Deliver(d, i, cancels), i, j);
    GrowsTrans(d, Deliver(d, i, cancels), EndClosed(Deliver(d, i, cancels), i, j));
  }

  lemma ClosedRequestGrows(d: State, i: nat, j: nat, failed: bool, parse: Parse, sink: SinkStep, e: Ending)
    requires i < |d.slots|
    ensures Grows(d, ClosedRequest(d, i, j, failed, parse, sink, e))
  {
    var s := d.slots[i];
    if s.delivered {
      EndClosedGrows(d, i, j);
    } else if s.cancelRequested || d.stopActive || failed || !parse.ParseComplete? {
      DeliverEndGrows(d, i, j, e.cancels);
    } else {
      var f := PutSlot(d, i, Parsed(s, parse));
      PutGrows(d, i, Parsed(s, parse));
      GrowsSelf(f);
      CompleteResponseGrows(f, i, e);
      DeliverEndGrows(f, i, j, e.cancels);
      GrowsTrans(d, f, ClosedResponse(f, i, j, sink, e));
    }
  }

  lemma ClosedGrows(c: State, j: nat, failed: bool, parse: Parse, sink: SinkStep, e: Ending)
    ensures Grows(c, Closed(c, j, failed, parse, sink, e))
  {
    if Connection(c, j) && |c.traffic| == |c.h1| {
      var d := c.(h1 := c.h1[j := Shut(c.h1[j])], traffic := c.traffic[j := c.traffic[j].(inFlight := 0)]);
      SessionsGrow(c, d.h1, c.h2, d.traffic);
      var request := RequestOf(d, j);
      if request.Some? {
        ClosedRequestGrows(d, request.value, j, failed, parse, sink, e);
        GrowsTrans(c, d, Closed(c, j, failed, parse, sink, e));
      }
    }
  }

  // ---------------------------------------------------------------- HTTP/2

  lemma RetireGrows(c: State, p: nat, t: H2)
    requires p < |c.h2| && Retiring(t.state)
    ensures Grows(c, Retire(c, p, t))
  {
  }

  lemma TryCloseH2Grows(c: State, p: nat, close: Status)
    ensures Grows(c, TryCloseH2(c, p, close))
  {
  }

  lemma CompleteGrows(c: State, i: nat, cancels: seq<CancelCall>)
    ensures Grows(c, Complete(c, i, cancels))
  {
    if i < |c.slots| && !c.slots[i].completed && c.slots[i].protocol == Http2 {
      var b := PutSlot(c, i, c.slots[i].(completed := true));
      PutGrows(c, i, c.slots[i].(completed := true));
      var d := Deliver(b, i, cancels);
      DeliverGrows(b, i, cancels);
      GrowsTrans(c, b, d);
      PutGrows(d, i, d.slots[i].(state := SlotTerminal));
      GrowsTrans(c, d, PutSlot(d, i, d.slots[i].(state := SlotTerminal)));
    }
  }

  lemma FailRequestsGrows(c: State, p: nat, u: Upheaval)
    ensures Grows(c, FailRequests(c, p, u))
  {
    var step := (d: State, k: nat) => (FailEntry(d, p, k, u), Ok);
    forall d: State, k: nat
      ensures Grows(d, step(d, k).0)
    {
      FailEntryGrows(d, p, k, u);
    }
    PassGrows(c, Capacity(c, p), step);
  }

  lemma FailEntryGrows(c: State, p: nat, k: nat, u: Upheaval)
    ensures Grows(c, FailEntry(c, p, k, u))
  {
    var entry := Entry(c, p, k);
    if entry.Some? {
      CompleteGrows(c, entry.value, u.cancels(k));
    }
  }

  lemma FailSessionGrows(c: State, p: nat, u: Upheaval)
    ensures Grows(c, FailSession(c, p, u))
  {
    if ClientH2.Opened(c, p) {
      var b := PutH2(c, p, c.h2[p].(failed := true));
      SessionsGrow(c, c.h1, b.h2, c.traffic);
      var d := FailRequests(b, p, u);
      FailRequestsGrows(b, p, u);
      GrowsTrans(c, b, d);
      if ClientH2.Opened(d, p) {
        var f := Retire(d, p, d.h2[p].(state := H2Draining, closeAfterFlush := false));
        RetireGrows(d, p, d.h2[p].(state := H2Draining, closeAfterFlush := false));
        TryCloseH2Grows(f, p, u.close);
        GrowsTrans(d, f, TryCloseH2(f, p, u.close));
        GrowsTrans(c, d, TryCloseH2(f, p, u.close));
      }
    }
  }

  lemma FlushGrows(c: State, p: nat, flushing: Flushing, u: Upheaval)
    ensures Grows(c, Flush(c, p, flushing, u))
  {
    FailSessionGrows(c, p, u);
    TryCloseH2Grows(c, p, u.close);
    GrowsSelf(c);
  }

  lemma ConnectedH2Grows(c: State, p: nat, ready: bool, flushing: Flushing, u: Upheaval)
    ensures Grows(c, ConnectedH2(c, p, ready, flushing, u))
  {
    if ClientH2.Opened(c, p) && c.h2[p].state == H2Connecting {
      FailSessionGrows(c, p, u);
      var b := PutH2(c, p, c.h2[p].(state := H2Active));
      SessionsGrow(c, c.h1, b.h2, c.traffic);
      FlushGrows(b, p, flushing, u);
      GrowsTrans(c, b, Flush(b, p, flushing, u));
    }
  }

  lemma ClosedH2Grows(c: State, p: nat, u: Upheaval)
    ensures Grows(c, ClosedH2(c, p, u))
  {
    if ClientH2.Opened(c, p) {
      var d := FailRequests(c, p, u);
      FailRequestsGrows(c, p, u);
      if ClientH2.Opened(d, p) {
        RetireGrows(d, p, d.h2[p].(state := H2Terminal, closePending := false));
        GrowsTrans(c, d, ClosedH2(c, p, u));
      }
    }
  }

  lemma StreamClosedGrows(c: State, p: nat, k: nat, deferred: bool, cancels: seq<CancelCall>)
    ensures Grows(c, StreamClosed(c, p, k, deferred, cancels))
  {
    var entry := Entry(c, p, k);
    if entry.Some? && !c.slots[entry.value].completed {
      PutGrows(c, entry.value, c.slots[entry.value].(terminalPending := true));
      CompleteGrows(c, entry.value, cancels);
    }
  }

  lemma GoawayGrows(c: State, p: nat)
    ensures Grows(c, Goaway(c, p))
  {
  }

  lemma DeferredEntryGrows(c: State, p: nat, k: nat, u: Upheaval)
    ensures Grows(c, DeferredEntry(c, p, k, u))
  {
    var entry := Entry(c, p, k);
    if entry.Some? && c.slots[entry.value].terminalPending {
      var b := PutSlot(c, entry.value, c.slots[entry.value].(terminalPending := false));
      PutGrows(c, entry.value, c.slots[entry.value].(terminalPending := false));
      CompleteGrows(b, entry.value, u.cancels(k));
      GrowsTrans(c, b, Complete(b, entry.value, u.cancels(k)));
    }
  }

  lemma DeferredGrows(c: State, p: nat, u: Upheaval)
    ensures Grows(c, Deferred(c, p, u))
  {
    var step := (d: State, k: nat) => (DeferredEntry(d, p, k, u), Ok);
    forall d: State, k: nat
      ensures Grows(d, step(d, k).0)
    {
      DeferredEntryGrows(d, p, k, u);
    }
    PassGrows(c, Capacity(c, p), step);
  }

  lemma ProgressGrows(c: State, p: nat, again: Status, flushing: Flushing, u: Upheaval)
    ensures Grows(c, Progress(c, p, again, flushing, u))
  {
    if ClientH2.Opened(c, p) {
      var d := Deferred(c, p, u);
      var f := TryCloseH2(d, p, again);
      DeferredGrows(c, p, u);
      FlushGrows(d, p, flushing, u);
      TryCloseH2Grows(d, p, again);
      FlushGrows(f, p, flushing, u);
      GrowsTrans(d, f, Flush(f, p, flushing, u));
      GrowsTrans(c, d, Progress(c, p, again, flushing, u));
    }
  }

  lemma BeginStopH2Grows(c: State, p: nat, goaway: Status, close: Status)
    ensures Grows(c, BeginStopH2(c, p, goaway, close))
  {
    TryCloseH2Grows(c, p, close);
    if ClientH2.Opened(c, p) {
      RetireGrows(c, p, Waning(c.h2[p], H2Draining));
    }
  }

  // ---------------------------------------------------------------- the reaper and the pool

  lemma RecycleGrows(c: State, i: nat)
    requires i < |c.slots|
    ensures Grows(c, Recycle(c, i))
  {
  }

  lemma ReapH1SlotGrows(c: State, i: nat, j: nat, net: Net)
    requires i < |c.slots| && j < |c.h1|
    ensures Grows(c, ReapH1Slot(c, i, j, net).0)
  {
    var r := ReapH1Slot(c, i, j, net).0;
    if r == c {
      GrowsSelf(c);
    } else {
      var t := Reaped(c.h1[j], c.stopActive, net.drain(j), net.close(j), net.arm(j), net.bind(j));
      var d := c.(h1 := c.h1[j := t], finished := c.finished + Finishing(c, i, j));
      assert Grows(c, d);
      if r == Recycle(d, i) {
        RecycleGrows(d, i);
      } else {
        PutGrows(d, i, d.slots[i].(lease := false));
      }
      GrowsTrans(c, d, r);
    }
  }

  lemma ReapH2SlotGrows(c: State, i: nat, p: nat, net: Net)
    requires i < |c.slots| && p < |c.h2|
    ensures Grows(c, ReapH2Slot(c, i, p, net).0)
  {
    var r := ReapH2Slot(c, i, p, net).0;
    if r == c {
      GrowsSelf(c);
    } else {
      var d := PutH2(c, p, Unregister(c.h2[p], c.slots[i].entry));
      SessionsGrow(c, c.h1, d.h2, c.traffic);
      RecycleGrows(d, i);
      GrowsTrans(c, d, r);
    }
  }

  lemma ReapSlotGrows(c: State, i: nat, net: Net)
    ensures Grows(c, ReapSlot(c, i, net).0)
  {
    if i >= |c.slots| || c.slots[i].state != SlotTerminal || c.slots[i].filePending {
      GrowsSelf(c);
    } else if SessionOf(c, i).Some? {
      ReapH1SlotGrows(c, i, c.slots[i].h1.value, net);
    } else if c.slots[i].h2.Some? && c.slots[i].h2.value < |c.h2| {
      ReapH2SlotGrows(c, i, c.slots[i].h2.value, net);
    }
  }

  lemma GiveBackGrows(c: State, net: Net)
    ensures Grows(c, GiveBack(c, net).0)
  {
    var one, two := (d: State, j: nat) => ReturnOne(d, j, net), (d: State, p: nat) => PoolOne(d, p, net);
    PassGrows(c, |c.h1|, one);
    var e := Pass(c, |c.h1|, one).0;
    PassGrows(e, |c.h2|, two);
    var f := Pass(e, |c.h2|, two).0;
    GrowsTrans(c, e, f);
    ClearAllGrows(f, net);
    GrowsTrans(c, f, ClearAll(f, net));
  }

  lemma ClearAllGrows(c: State, net: Net)
    ensures Grows(c, ClearAll(c, net))
  {
    var one, two := (d: State, p: nat) => (RecycleContext(d, p, net), Ok), (d: State, j: nat) => (ClearOne(d, j, net), Ok);
    PassGrows(c, |c.h2|, one);
    var e := Pass(c, |c.h2|, one).0;
    PassGrows(e, |c.h1|, two);
    GrowsTrans(c, e, Pass(e, |c.h1|, two).0);
  }

  lemma PoolProgressGrows(c: State, net: Net)
    ensures Grows(c, PoolProgress(c, net).0)
  {
    var step := (d: State, i: nat) => ReapSlot(d, i, net);
    forall d: State, i: nat
      ensures Grows(d, step(d, i).0)
    {
      ReapSlotGrows(d, i, net);
    }
    PassGrows(c, |c.slots|, step);
    var e := Reap(c, net).0;
    GiveBackGrows(e, net);
    GrowsTrans(c, e, GiveBack(e, net).0);
  }

  lemma RetryClosesGrows(c: State, net: Net)
    ensures Grows(c, RetryCloses(c, net))
  {
    PassGrows(c, |c.h1|, (d: State, j: nat) => (RetryClose(d, j, net), Ok));
  }

  lemma ReapSessionsGrows(c: State)
    ensures Grows(c, ReapSessions(c))
  {
    PassGrows(c, |c.h2|, (d: State, p: nat) => (ReapH2(d, p), Ok));
  }

  lemma EvictGrows(c: State, net: Net)
    ensures Grows(c, Evict(c, net))
  {
    var idle, spare := FirstIdle(c.h1, 0), FirstIdleH2(c.h2, 0);
    if idle.Some? {
      SessionsGrow(c, Evict(c, net).h1, c.h2, c.traffic);
    } else if spare.Some? {
      BeginStopH2Grows(c, spare.value, net.goaway(spare.value), net.close2(spare.value));
    }
  }

  lemma FinishGrows(c: State, after: After, net: Net)
    ensures Grows(c, Finish(c, after, net))
  {
    GrowsSelf(c);
    EvictGrows(c, net);
    PoolProgressGrows(c, net);
    var d := PoolProgress(c, net).0;
    var f := ReapSessions(d);
    ReapSessionsGrows(d);
    GrowsTrans(c, d, f);
    EvictGrows(d, net);
    GrowsTrans(c, d, Evict(d, net));
    EvictGrows(f, net);
    GrowsTrans(c, f, Evict(f, net));
  }

  // ---------------------------------------------------------------- submission, deadlines

  /** A slot taken or given back by a submission, and what it does to the counters and the ledger. */
  lemma TakenGrows(c: State, d: State, i: nat, s: Slot)
    requires i < |c.slots| && c.slots[i].generation <= s.generation && d.slots == c.slots[i := s]
    requires LedgerGrows(c.book, d.book) && c.nextOperation <= d.nextOperation
    requires d == c.(slots := d.slots, h1 := d.h1, nextOperation := d.nextOperation, book := d.book, traffic := d.traffic)
    ensures Grows(c, d)
  {
    PutGrows(c, i, s);
  }

  lemma SentOnGrows(c: State, i: nat, s: Slot, j: nat)
    requires i < |c.slots| && j < |c.h1| == |c.traffic| && c.slots[i].generation <= s.generation
    ensures Grows(c, SentOn(c, i, s, j))
  {
    TakenGrows(c, SentOn(c, i, s, j), i, s);
  }

  lemma LeakedOnGrows(c: State, i: nat, s: Slot, j: nat)
    requires i < |c.slots| && j < |c.h1| && c.slots[i].generation <= s.generation
    ensures Grows(c, LeakedOn(c, i, s, j))
  {
    TakenGrows(c, LeakedOn(c, i, s, j), i, s);
  }

  lemma ReuseGrows(c: State, i: nat, j: nat, o: Options, m: Meeting)
    requires i < |c.slots| && j < |c.h1|
    ensures Grows(c, Reuse(c, i, j, o, m).state)
  {
    var s, r := FreshH1(c.slots[i].generation + 1, j, SlotBusy, o, !o.pipe), Reuse(c, i, j, o, m).state;
    if m.send == Ok && |c.traffic| == |c.h1| {
      assert r == SentOn(c, i, s, j);
      SentOnGrows(c, i, s, j);
    } else if s.lease && m.release != Ok {
      assert r == LeakedOn(c, i, s, j);
      LeakedOnGrows(c, i, s, j);
    } else {
      assert r == PutSlot(c.(nextOperation := c.nextOperation + 1), i, Vacant(s.generation));
      TakenGrows(c, r, i, Vacant(s.generation));
    }
  }

  lemma ConnectGrows(c: State, i: nat, j: nat, key: Key, o: Options, m: Meeting)
    requires i < |c.slots| && j < |c.h1|
    ensures Grows(c, Connect(c, i, j, key, o, m).state)
  {
    var s := FreshH1(c.slots[i].generation + 1, j, SlotConnecting, o, false);
    TakenGrows(c, Connect(c, i, j, key, o, m).state, i, if m.connect == Ok then s else Vacant(s.generation));
  }

  lemma PlaceH1Grows(c: State, i: nat, key: Key, o: Options, m: Meeting)
    requires i < |c.slots|
    ensures Grows(c, PlaceH1(c, i, key, o, m).state)
  {
    var reuse, spare := Reusable(c, o, key, m), FirstUnused(c.h1, 0);
    var placing := PlaceH1(c, i, key, o, m);
    if reuse.Some? && placing == Reuse(c, i, reuse.value, o, m) {
      ReuseGrows(c, i, reuse.value, o, m);
    } else if spare.Some? && placing == Connect(c, i, spare.value, key, o, m) {
      ConnectGrows(c, i, spare.value, key, o, m);
    } else {
      PutGrows(c, i, Vacant(c.slots[i].generation + 1));
    }
  }

  lemma AdmitGrows(c: State, i: nat, p: nat, o: Options, lease: bool)
    requires i < |c.slots| && p < |c.h2| && Accepts(c.h2[p], Ok)
    ensures Grows(c, Admit(c, i, p, o, lease).state)
  {
  }

  lemma OpenGrows(c: State, p: nat, key: Key, o: Options, pooled: bool, managed: bool)
    requires p < |c.h2|
    ensures Grows(c, OpenH2(c, p, key, o, pooled, managed))
  {
  }

  lemma OpenAndAdmitGrows(c: State, i: nat, p: nat, key: Key, o: Options, m: Meeting, net: Net)
    requires i < |c.slots| && p < |c.h2|
    ensures Grows(c, OpenAndAdmit(c, i, p, key, o, m, net).state)
  {
    if m.connect != Ok {
      var d := OpenH2(c, p, key, o, m.pooled, m.managed);
      OpenGrows(c, p, key, o, m.pooled, m.managed);
      var f := Dead(c, p, key, o, m);
      RetireGrows(d, p, d.h2[p].(state := H2Terminal));
      GrowsTrans(c, d, f);
      PutGrows(f, i, Vacant(c.slots[i].generation + 1));
      GrowsTrans(c, f, PutSlot(f, i, Vacant(c.slots[i].generation + 1)));
    } else {
      var d := OpenH2(c, p, key, o, true, true);
      OpenGrows(c, p, key, o, true, true);
      AdmitFirstGrows(d, i, p, o, m, net);
      GrowsTrans(c, d, AdmitFirst(d, i, p, o, m, net).state);
    }
  }

  lemma AdmitFirstGrows(c: State, i: nat, p: nat, o: Options, m: Meeting, net: Net)
    requires i < |c.slots| && p < |c.h2|
    ensures Grows(c, AdmitFirst(c, i, p, o, m, net).state)
  {
    var r := AdmitFirst(c, i, p, o, m, net);
    if Accepts(c.h2[p], m.engine(p)) {
      assert r == Admit(c, i, p, o, false);
      AdmitGrows(c, i, p, o, false);
    } else {
      assert r.state == BeginStopH2(PutSlot(c, i, Vacant(c.slots[i].generation + 1)), p, net.goaway(p), net.close2(p));
      VacatedStopGrows(c, i, p, net.goaway(p), net.close2(p));
    }
  }

  lemma VacatedStopGrows(c: State, i: nat, p: nat, goaway: Status, close: Status)
    requires i < |c.slots|
    ensures Grows(c, BeginStopH2(PutSlot(c, i, Vacant(c.slots[i].generation + 1)), p, goaway, close))
  {
    var d := PutSlot(c, i, Vacant(c.slots[i].generation + 1));
    PutGrows(c, i, Vacant(c.slots[i].generation + 1));
    BeginStopH2Grows(d, p, goaway, close);
    GrowsTrans(c, d, BeginStopH2(d, p, goaway, close));
  }

  lemma PlaceH2Grows(c: State, i: nat, key: Key, o: Options, m: Meeting, net: Net)
    requires i < |c.slots|
    ensures Grows(c, PlaceH2(c, i, key, o, m, net).state)
  {
    PutGrows(c, i, Vacant(c.slots[i].generation + 1));
    if m.offered.Some? && Offered(c, m.offered.value, key, m.engine(m.offered.value)) {
      AdmitGrows(c, i, m.offered.value, o, true);
    } else if m.acquire == Ok || m.acquire == NoBufs {
      PlaceUnpooledGrows(c, i, key, o, m, net);
    }
  }

  lemma PlaceUnpooledGrows(c: State, i: nat, key: Key, o: Options, m: Meeting, net: Net)
    requires i < |c.slots|
    ensures Grows(c, PlaceUnpooled(c, i, key, o, m, net).state)
  {
    PutGrows(c, i, Vacant(c.slots[i].generation + 1));
    var spare, unpooled := FirstUnusedH2(c.h2, 0), FirstUnpooled(c.h2, o.identity, m.engine, 0);
    if unpooled.Some? {
      AdmitGrows(c, i, unpooled.value, o, false);
    } else if spare.Some? {
      OpenAndAdmitGrows(c, i, spare.value, key, o, m, net);
    }
  }

  lemma PlaceGrows(c: State, i: nat, o: Options, m: Meeting, net: Net)
    requires i < |c.slots|
    ensures Grows(c, Place(c, i, o, m, net).state)
  {
    var key := PoolKey(c, o);
    PutGrows(c, i, Vacant(c.slots[i].generation + 1));
    if m.streaming == Ok && key.Some? {
      var d := c.(nextIdentity := key.value.1);
      assert Grows(c, d);
      if o.protocol == Http2 {
        PlaceH2Grows(d, i, key.value.0, o, m, net);
      } else {
        PlaceH1Grows(d, i, key.value.0, o, m);
      }
      GrowsTrans(c, d, Place(c, i, o, m, net).state);
    }
  }

  lemma SubmitGrows(c: State, o: Options, m: Meeting, net: Net)
    ensures Grows(c, Submit(c, o, m, net).0)
  {
    var free := FirstFree(c.slots, 0);
    if c.admissionOpen && m.prepared == Ok && free.Some? {
      var placing := Place(c, free.value, o, m, net);
      PlaceGrows(c, free.value, o, m, net);
      FinishGrows(placing.state, placing.after, net);
      GrowsTrans(c, placing.state, Finish(placing.state, placing.after, net));
    }
  }

  lemma SubmitRpcGrows(c: State, o: Options, m: Meeting, net: Net, wireId: nat, deadline: nat)
    ensures Grows(c, SubmitRpc(c, o, m, net, wireId, deadline).0)
  {
    if WireFree(c.slots, wireId) {
      SubmitGrows(c, o, m, net);
      var d := Submit(c, o, m, net);
      TaggedGrows(d.0, d.1, wireId, deadline);
      GrowsTrans(c, d.0, Tagged(d.0, d.1, wireId, deadline));
    }
  }

  lemma TaggedGrows(c: State, h: Option<Handle>, wireId: nat, deadline: nat)
    ensures Grows(c, Tagged(c, h, wireId, deadline))
  {
    if h.Some? && Find(c.slots, h.value).Some? {
      var i := Find(c.slots, h.value).value;
      PutGrows(c, i, c.slots[i].(wireId := Some(wireId), deadline := deadline));
    }
  }

  lemma ExpireSlotGrows(c: State, i: nat, now: nat, answer: CancelCall)
    ensures Grows(c, ExpireSlot(c, i, now, answer))
  {
    if i < |c.slots| && Expired(c.slots[i], now) {
      var noted := PutSlot(c, i, c.slots[i].(deadlineCancelled := true));
      PutGrows(c, i, c.slots[i].(deadlineCancelled := true));
      var call := answer.(handle := HandleOf(c.slots, i));
      var d := Cancel(noted, call);
      CancelGrows(noted, call);
      GrowsTrans(c, noted, d);
      PutGrows(d, i, d.slots[i].(deadlineCancelled := false));
      GrowsTrans(c, d, PutSlot(d, i, d.slots[i].(deadlineCancelled := false)));
    }
  }

  lemma ExpireGrows(c: State, now: nat, answers: nat -> CancelCall)
    ensures Grows(c, Expire(c, now, answers))
  {
    var step := (d: State, i: nat) => (ExpireSlot(d, i, now, answers(i)), Ok);
    forall d: State, i: nat
      ensures Grows(d, step(d, i).0)
    {
      ExpireSlotGrows(d, i, now, answers(i));
    }
    PassGrows(c, |c.slots|, step);
  }
}
