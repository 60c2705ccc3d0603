/** Every HTTP/1.1 operation keeps the client valid. */
module ClientH1Keeps {
  import opened Octets
  import opened ClientState
  import opened ClientH1
  import opened ClientSteps

  /** A cancellation touches only requests not yet delivered, and their sessions. */
  predicate Frame(c: State, d: State, but: Option<nat>) {
    && d == c.(slots := d.slots, h1 := d.h1)
    && |d.slots| == |c.slots| && |d.h1| == |c.h1|
    && (but.Some? && but.value < |c.slots| ==>
      && d.slots[but.value] == c.slots[but.value]
      && (forall j :: 0 <= j < |c.h1| && c.h1[j].request == but ==> d.h1[j] == c.h1[j]))
  }

  /** Slot `but`, if any, is in the middle of its delivery. */
  ghost predicate MidDelivery(c: State, but: Option<nat>) {
    && Core(c) && Settled(c.slots, but)
    && (but.Some? ==> but.value < |c.slots| && Live(c.slots[but.value]) && c.slots[but.value].delivered)
  }

  lemma SettledPut(slots: seq<Slot>, but: Option<nat>, i: nat, s: Slot)
    requires Settled(slots, but) && i < |slots| && SettledSlot(s)
    ensures Settled(slots[i := s], if but == Some(i) then None else but)
  {
    var slots' := slots[i := s];
    forall k | 0 <= k < |slots'| && (but == Some(i) || but != Some(k))
      ensures SettledAt(slots', k)
    {
      assert k != i ==> SettledAt(slots, k);
    }
  }

  lemma CancelH1Keeps(c: State, i: nat, close: Status, but: Option<nat>)
    requires Core(c) && Settled(c.slots, but) && i < |c.slots| && but != Some(i)
    requires Live(c.slots[i]) && c.slots[i].protocol == Http1 && !c.slots[i].delivered
    ensures Core(CancelH1(c, i, close)) && Settled(CancelH1(c, i, close).slots, but)
    ensures c.slots[i].h1.Some? && c.slots[i].h1.value < |c.h1| && c.h1[c.slots[i].h1.value].request == Some(i)
  {
    Exchange(c, i);
    var j := c.slots[i].h1.value;
    var s := c.slots[i].(cancelRequested := true, state := SlotClosing);
    PairCore(c, i, s, j, c.h1[j].(closeAdmitted := true, state := H1Closing));
    SettledPut(c.slots, but, i, s);
  }

  lemma ResetKeeps(c: State, i: nat, accepted: bool, streamClosed: bool, but: Option<nat>)
    requires Core(c) && Settled(c.slots, but) && i < |c.slots| && but != Some(i)
    requires Live(c.slots[i]) && c.slots[i].protocol == Http2 && !c.slots[i].delivered && !c.slots[i].completed
    ensures Core(PutSlot(c, i, Reset(c.slots[i], accepted, streamClosed)))
    ensures Settled(PutSlot(c, i, Reset(c.slots[i], accepted, streamClosed)).slots, but)
  {
    assert SlotAt(c.slots, c.h1, c.stopActive, i);
    SlotCore(c, i, Reset(c.slots[i], accepted, streamClosed));
    SettledPut(c.slots, but, i, Reset(c.slots[i], accepted, streamClosed));
  }

  lemma CancelH2Keeps(c: State, i: nat, reset: Status, streamClosed: bool, but: Option<nat>)
    requires Core(c) && Settled(c.slots, but) && i < |c.slots| && but != Some(i)
    requires Live(c.slots[i]) && c.slots[i].protocol == Http2 && !c.slots[i].delivered
    ensures Core(CancelH2(c, i, reset, streamClosed)) && Settled(CancelH2(c, i, reset, streamClosed).slots, but)
  {
    if !c.slots[i].completed {
      ResetKeeps(c, i, reset == Ok, streamClosed, but);
    }
  }

  lemma CancelFrame(c: State, call: CancelCall, but: Option<nat>)
    requires but.Some? ==> but.value < |c.slots| && c.slots[but.value].delivered
    requires Find(c.slots, call.handle).Some? && SessionOf(c, Find(c.slots, call.handle).value).Some? && but.Some? ==>
      c.slots[Find(c.slots, call.handle).value].delivered ||
      c.h1[c.slots[Find(c.slots, call.handle).value].h1.value].request != but
    ensures Frame(c, Cancel(c, call), but)
  {
  }

  lemma CancelKeeps(c: State, call: CancelCall, but: Option<nat>)
    requires MidDelivery(c, but)
    ensures MidDelivery(Cancel(c, call), but) && Frame(c, Cancel(c, call), but)
  {
    var found := Find(c.slots, call.handle);
    if found.Some? && !c.slots[found.value].delivered {
      if c.slots[found.value].protocol == Http2 {
        CancelH2Keeps(c, found.value, call.reset, call.streamClosed, but);
      } else {
        CancelH1Keeps(c, found.value, call.close, but);
      }
      assert SlotAt(c.slots, c.h1, c.stopActive, found.value);
    }
    CancelFrame(c, call, but);
  }

  lemma {:induction false} CancelsKeep(c: State, calls: seq<CancelCall>, but: Option<nat>)
    requires MidDelivery(c, but)
    ensures MidDelivery(Cancels(c, calls), but) && Frame(c, Cancels(c, calls), but)
    decreases |calls|
  {
    if calls != [] {
      CancelKeeps(c, calls[0], but);
      CancelsKeep(Cancel(c, calls[0]), calls[1..], but);
    }
  }

  /** Slot `i` is about to be delivered; every other slot is settled. */
  ghost predicate Due(c: State, i: nat) {
    && Core(c) && i < |c.slots| && Settled(c.slots, Some(i))
    && Live(c.slots[i]) && !c.slots[i].delivered
  }

  /** Delivery makes one callback, of this slot, and leaves its session alone. */
  lemma DeliverKeeps(c: State, i: nat, cancels: seq<CancelCall>)
    requires Due(c, i) && (c.slots[i].protocol == Http2 ==> c.slots[i].completed)
    ensures MidDelivery(Deliver(c, i, cancels), Some(i))
    ensures Frame(MarkDelivered(c, i), Deliver(c, i, cancels), Some(i))
  {
    assert SlotAt(c.slots, c.h1, c.stopActive, i);
    var d := MarkDelivered(c, i);
    DeliveredCore(c, i);
    assert Settled(d.slots, Some(i)) by {
      forall k | 0 <= k < |d.slots| && k != i
        ensures SettledAt(d.slots, k)
      {
        assert SettledAt(c.slots, k);
      }
    }
    CancelsKeep(d, cancels, Some(i));
  }

  lemma SlotTryCloseKeeps(c: State, i: nat, drain: Status, close: Status)
    requires Core(c) && i < |c.slots| && Settled(c.slots, Some(i))
    requires Live(c.slots[i]) && c.slots[i].protocol == Http1 && c.slots[i].state != SlotTerminal
    ensures Valid(SlotTryClose(c, i, drain, close))
  {
    Exchange(c, i);
    var j, s := c.slots[i].h1.value, c.slots[i].(state := SlotClosing);
    TryClosedOk(c.h1[j], drain, close);
    PairCore(c, i, s, j, TryClosed(c.h1[j], drain, close));
    SettledPut(c.slots, Some(i), i, s);
  }

  /** A delivered slot is ready to leave for the reaper. */
  ghost predicate Over(c: State, i: nat) {
    && MidDelivery(c, Some(i)) && c.slots[i].protocol == Http1 && SessionOf(c, i).Some?
    && c.h1[c.slots[i].h1.value].request == Some(i)
    && (c.h1[c.slots[i].h1.value].state == H1Active ==> Clean(c.slots[i]))
  }

  lemma EndKeeps(c: State, i: nat)
    requires Over(c, i)
    ensures Valid(PutSlot(c, i, c.slots[i].(state := SlotTerminal)))
  {
    Exchange(c, i);
    var s := c.slots[i].(state := SlotTerminal);
    SlotCore(c, i, s);
    SettledPut(c.slots, Some(i), i, s);
  }

  lemma EndClosedKeeps(c: State, i: nat)
    requires Over(c, i)
    ensures Valid(EndClosed(c, i, c.slots[i].h1.value))
  {
    var j, s := c.slots[i].h1.value, c.slots[i].(state := SlotTerminal);
    assert EndClosed(c, i, j) == PutPair(c, i, s, j, c.h1[j].(closePending := false));
    Exchange(c, i);
    PairCore(c, i, s, j, c.h1[j].(closePending := false));
    SettledPut(c.slots, Some(i), i, s);
  }

  lemma FailAndCloseKeeps(c: State, i: nat, e: Ending)
    requires Due(c, i) && c.slots[i].protocol == Http1
    ensures Valid(FailAndClose(c, i, e))
  {
    Exchange(c, i);
    DeliverKeeps(c, i, e.cancels);
    var d := Deliver(c, i, e.cancels);
    Exchange(d, i);
    var j := d.slots[i].h1.value;
    assert SlotAt(c.slots, c.h1, c.stopActive, i);
    if d.h1[j].transportClosed {
      EndClosedKeeps(d, i);
    } else {
      SlotTryCloseKeeps(d, i, e.drain, e.close);
    }
  }

  lemma CompleteResponseKeeps(c: State, i: nat, e: Ending)
    requires Due(c, i) && c.slots[i].protocol == Http1 && c.slots[i].complete
    ensures Valid(CompleteResponse(c, i, e))
  {
    Exchange(c, i);
    DeliverKeeps(c, i, e.cancels);
    var d := Deliver(c, i, e.cancels);
    Exchange(d, i);
    var j := d.slots[i].h1.value;
    if d.h1[j].transportClosed {
      EndKeeps(d, i);
    } else if !d.slots[i].keepAlive || !d.slots[i].sourceComplete || d.slots[i].cancelRequested || d.stopActive {
      SlotTryCloseKeeps(d, i, e.drain, e.close);
    } else if !d.h1[j].sendPending {
      EndKeeps(d, i);
    } else {
      SettledPut(d.slots, Some(i), i, d.slots[i]);
      assert d.slots[i := d.slots[i]] == d.slots;
    }
  }

  lemma ArmKeeps(c: State, i: nat)
    requires Due(c, i) && c.slots[i].protocol == Http1 && SettledSlot(c.slots[i]) && SessionOf(c, i).Some?
    ensures Valid(PutPair(c, i, c.slots[i], c.slots[i].h1.value, c.h1[c.slots[i].h1.value].(receiveArmed := true)))
  {
    Exchange(c, i);
    var j := c.slots[i].h1.value;
    PairCore(c, i, c.slots[i], j, c.h1[j].(receiveArmed := true));
    SettledPut(c.slots, Some(i), i, c.slots[i]);
  }

  lemma ArmOrFailKeeps(c: State, i: nat, arm: Status, e: Ending)
    requires Due(c, i) && c.slots[i].protocol == Http1 && SettledSlot(c.slots[i])
    ensures Valid(ArmOrFail(c, i, arm, e))
  {
    Exchange(c, i);
    if c.h1[c.slots[i].h1.value].receiveArmed {
      SettledPut(c.slots, Some(i), i, c.slots[i]);
      assert c.slots[i := c.slots[i]] == c.slots;
    } else if arm == Ok {
      ArmKeeps(c, i);
    } else {
      FailAndCloseKeeps(c, i, e);
    }
  }

  /** The network takes a send of the request being served, and no other send is in flight. */
  lemma SendingKeeps(c: State, i: nat, s: Slot, j: nat, admitted: seq<Handle>)
    requires Valid(c) && i < |c.slots| && j < |c.h1| && c.h1[j].request == Some(i) && c.slots[i].h1 == Some(j)
    requires Steady(c.slots[i], s) && SlotOk(s) && SettledSlot(s) && s.delivered == c.slots[i].delivered && !s.fileWaiting
    requires s.wireId == c.slots[i].wireId
    requires s.state == c.slots[i].state && (Clean(c.slots[i]) ==> Clean(s))
    requires c.h1[j].state != H1Connecting && !c.h1[j].transportClosed && !c.h1[j].sendPending && c.h1[j].state != H1Idle
    requires admitted == [] || admitted == [HandleOf(c.slots, i)]
    ensures |c.traffic| == |c.h1| && Valid(Sending(c, i, s, j, admitted))
  {
    assert SessionAt(c.slots, c.h1, j) && CarriedAt(c.slots, c.h1, c.traffic, c.finished, j);
    var t, carried := c.h1[j].(sendPending := true), Traffic(c.traffic[j].admitted + admitted, c.traffic[j].inFlight + 1);
    assert Sending(c, i, s, j, admitted) == PutPair(c, i, s, j, t).(traffic := c.traffic[j := carried]);
    PairCarriedCore(c, i, s, j, t, carried);
    SettledPut(c.slots, None, i, s);
  }

  lemma ServingFacts(c: State, j: nat)
    requires Core(c) && RequestOf(c, j).Some?
    ensures SessionOk(c.h1[j]) && Bound(c.slots[c.h1[j].request.value], j, c.h1[j])
    ensures SlotOk(c.slots[c.h1[j].request.value])
    ensures |c.traffic| == |c.h1| && CarriedBy(c.slots, c.h1[j], c.traffic[j], c.finished)
  {
    assert SessionAt(c.slots, c.h1, j);
    assert SlotAt(c.slots, c.h1, c.stopActive, c.h1[j].request.value);
    assert CarriedAt(c.slots, c.h1, c.traffic, c.finished, j);
  }

  /** The connection comes up for a request waiting for it. */
  lemma UpKeeps(c: State, j: nat)
    requires Valid(c) && Connection(c, j) && RequestOf(c, j).Some?
    requires c.slots[c.h1[j].request.value].state == SlotConnecting && !c.slots[c.h1[j].request.value].delivered
    ensures Valid(PutPair(c, c.h1[j].request.value, c.slots[c.h1[j].request.value].(state := SlotBusy), j, c.h1[j].(state := H1Active)))
  {
    ServingFacts(c, j);
    var i := c.h1[j].request.value;
    assert SettledAt(c.slots, i);
    var s := c.slots[i].(state := SlotBusy);
    PairCore(c, i, s, j, c.h1[j].(state := H1Active));
    SettledPut(c.slots, None, i, s);
  }

  lemma ConnectedKeeps(c: State, j: nat, send: Status, arm: Status, e: Ending)
    requires Valid(c)
    ensures Valid(Connected(c, j, send, arm, e))
  {
    var request := RequestOf(c, j);
    if Connection(c, j) && request.Some? {
      var i, s := request.value, c.slots[request.value];
      if s.state == SlotConnecting && !s.delivered && !s.cancelRequested && !c.stopActive {
        ServingFacts(c, j);
        UpKeeps(c, j);
        var d := PutPair(c, i, s.(state := SlotBusy), j, c.h1[j].(state := H1Active));
        if send != Ok {
          FailAndCloseKeeps(d, i, e);
        } else {
          AdmittedKeeps(d, i, j, arm, e);
        }
      }
    }
  }

  lemma AdmittedKeeps(d: State, i: nat, j: nat, arm: Status, e: Ending)
    requires Valid(d) && j < |d.h1| && RequestOf(d, j) == Some(i) && d.h1[j].state == H1Active && !d.h1[j].sendPending
    requires !d.slots[i].delivered && !d.slots[i].fileWaiting
    ensures |d.traffic| == |d.h1| && Valid(ArmOrFail(Sending(d, i, d.slots[i], j, [HandleOf(d.slots, i)]), i, arm, e))
  {
    ServingFacts(d, j);
    assert SettledAt(d.slots, i);
    SendingKeeps(d, i, d.slots[i], j, [HandleOf(d.slots, i)]);
    ArmOrFailKeeps(Sending(d, i, d.slots[i], j, [HandleOf(d.slots, i)]), i, arm, e);
  }

  /** A change of a busy slot that touches neither its links nor its delivery. */
  lemma BusyKeeps(c: State, i: nat, s: Slot)
    requires Valid(c) && i < |c.slots| && c.slots[i].state == SlotBusy && s.state == SlotBusy && !c.slots[i].delivered
    requires Steady(c.slots[i], s) && SlotOk(s) && SettledSlot(s) && !s.delivered && s.protocol == Http1 && s.wireId == c.slots[i].wireId
    requires s.fileWaiting && s.h1.Some? && s.h1.value < |c.h1| ==> !c.h1[s.h1.value].sendPending
    ensures Valid(PutSlot(c, i, s))
  {
    Exchange(c, i);
    SlotCore(c, i, s);
    SettledPut(c.slots, None, i, s);
  }

  lemma SourceAdvanceKeeps(c: State, i: nat, step: SourceStep, e: Ending)
    requires Valid(c) && i < |c.slots| && Live(c.slots[i]) && c.slots[i].protocol == Http1 && !c.slots[i].fileWaiting
    requires SessionOf(c, i).Some? ==> !c.h1[c.slots[i].h1.value].sendPending
    ensures Valid(SourceAdvance(c, i, step, e))
  {
    Exchange(c, i);
    var j, s := c.slots[i].h1.value, c.slots[i];
    if s.sourceEnabled && !s.sourceComplete && !s.delivered && !s.cancelRequested && !c.stopActive && s.state == SlotBusy {
      if s.finalPending || step.SourceEnds? {
        BusyKeeps(c, i, SourceFinished(s));
      } else if step.SourceWait? {
        BusyKeeps(c, i, s.(fileWaiting := true));
      } else {
        SourceMovesKeeps(c, i, step, e);
      }
    }
  }

  /** The source failed, or its octets go out. */
  lemma SourceMovesKeeps(c: State, i: nat, step: SourceStep, e: Ending)
    requires Valid(c) && i < |c.slots| && c.slots[i].protocol == Http1 && !c.slots[i].fileWaiting && c.slots[i].state == SlotBusy
    requires SessionOf(c, i).Some? ==> !c.h1[c.slots[i].h1.value].sendPending
    requires !c.slots[i].delivered && !c.slots[i].cancelRequested && !c.stopActive && !c.slots[i].finalPending
    requires c.slots[i].sourceEnabled && !c.slots[i].sourceComplete && !step.SourceEnds? && !step.SourceWait?
    ensures Valid(SourceAdvance(c, i, step, e))
  {
    Exchange(c, i);
    var j, s := c.slots[i].h1.value, c.slots[i];
    if step.SourceFails? || c.h1[j].transportClosed {
      assert SourceAdvance(c, i, step, e) == FailAndClose(c, i, e);
      FailAndCloseKeeps(c, i, e);
    } else {
      assert SourceAdvance(c, i, step, e) == Sending(c, i, s.(finalPending := step.SourceSendsFinal?), j, []);
      SendingKeeps(c, i, s.(finalPending := step.SourceSendsFinal?), j, []);
    }
  }

  /** The send in flight is over. */
  lemma SettleKeeps(c: State, j: nat)
    requires Valid(c) && Connection(c, j) && |c.traffic| == |c.h1| && c.traffic[j].inFlight > 0
    ensures c.h1[j].sendPending
    ensures Valid(c.(h1 := c.h1[j := c.h1[j].(sendPending := false)],
                     traffic := c.traffic[j := c.traffic[j].(inFlight := c.traffic[j].inFlight - 1)]))
  {
    assert SessionAt(c.slots, c.h1, j) && CarriedAt(c.slots, c.h1, c.traffic, c.finished, j);
    SessionCore(c, j, c.h1[j].(sendPending := false), c.traffic[j].(inFlight := c.traffic[j].inFlight - 1));
  }

  lemma SentKeeps(c: State, j: nat, step: SourceStep, e: Ending)
    requires Valid(c)
    ensures Valid(Sent(c, j, step, e))
  {
    if Connection(c, j) && |c.traffic| == |c.h1| && c.traffic[j].inFlight > 0 {
      SettleKeeps(c, j);
      var d := c.(h1 := c.h1[j := c.h1[j].(sendPending := false)],
                  traffic := c.traffic[j := c.traffic[j].(inFlight := c.traffic[j].inFlight - 1)]);
      if RequestOf(c, j).Some? {
        ServingFacts(c, j);
        SentRequestKeeps(d, j, c.h1[j].request.value, step, e);
      }
    }
  }

  lemma SentRequestKeeps(d: State, j: nat, i: nat, step: SourceStep, e: Ending)
    requires Valid(d) && RequestOf(d, j) == Some(i) && !d.h1[j].sendPending && !d.slots[i].fileWaiting
    ensures !d.slots[i].delivered ==> Valid(SourceAdvance(d, i, step, e))
    ensures d.slots[i].delivered && d.slots[i].state == SlotBusy ==> Valid(PutSlot(d, i, d.slots[i].(state := SlotTerminal)))
  {
    ServingFacts(d, j);
    if !d.slots[i].delivered {
      SourceAdvanceKeeps(d, i, step, e);
    } else if d.slots[i].state == SlotBusy {
      assert SettledAt(d.slots, i);
      EndKeeps(d, i);
    }
  }

  lemma FileReadyKeeps(c: State, i: nat, step: SourceStep, e: Ending)
    requires Valid(c)
    ensures Valid(FileReady(c, i, step, e))
  {
    if i < |c.slots| && c.slots[i].fileWaiting {
      assert SlotAt(c.slots, c.h1, c.stopActive, i) && SettledAt(c.slots, i);
      var s := c.slots[i].(fileWaiting := false);
      WokenKeeps(c, i);
      if s.protocol == Http1 && s.state == SlotBusy && !s.delivered {
        Exchange(c, i);
        SourceAdvanceKeeps(PutSlot(c, i, s), i, step, e);
      }
    }
  }

  lemma WokenKeeps(c: State, i: nat)
    requires Valid(c) && i < |c.slots| && c.slots[i].fileWaiting
    ensures Valid(PutSlot(c, i, c.slots[i].(fileWaiting := false)))
  {
    assert SlotAt(c.slots, c.h1, c.stopActive, i) && SettledAt(c.slots, i);
    if c.slots[i].h1.Some? {
      assert SessionAt(c.slots, c.h1, c.slots[i].h1.value);
    }
    var s := c.slots[i].(fileWaiting := false);
    SlotCore(c, i, s);
    SettledPut(c.slots, None, i, s);
  }

  lemma AfterSinkKeeps(c: State, i: nat, sink: SinkStep, arm: Status, e: Ending)
    requires Valid(c) && i < |c.slots| && Live(c.slots[i]) && c.slots[i].protocol == Http1 && !c.slots[i].delivered
    ensures Valid(AfterSink(c, i, sink, arm, e))
  {
    assert SettledAt(c.slots, i);
    if c.slots[i].fileSink && sink.SinkWait? {
    } else if c.slots[i].fileSink && sink.SinkFails? {
      FailAndCloseKeeps(c, i, e);
    } else if c.slots[i].complete {
      CompleteResponseKeeps(c, i, e);
    } else {
      ArmOrFailKeeps(c, i, arm, e);
    }
  }

  lemma FileSinkReadyKeeps(c: State, i: nat, sink: SinkStep, arm: Status, e: Ending)
    requires Valid(c)
    ensures Valid(FileSinkReady(c, i, sink, arm, e))
  {
    if i < |c.slots| && c.slots[i].protocol == Http1 && !c.slots[i].delivered && c.slots[i].state == SlotBusy {
      AfterSinkKeeps(c, i, sink, arm, e);
    }
  }

  /** A response parsed further, on a slot not delivered yet. */
  lemma ParsedKeeps(c: State, i: nat, parse: Parse)
    requires Valid(c) && i < |c.slots| && Live(c.slots[i]) && c.slots[i].protocol == Http1 && !c.slots[i].delivered
    ensures Valid(PutSlot(c, i, Parsed(c.slots[i], parse)))
  {
    Exchange(c, i);
    assert SettledAt(c.slots, i);
    SlotCore(c, i, Parsed(c.slots[i], parse));
    SettledPut(c.slots, None, i, Parsed(c.slots[i], parse));
  }

  lemma DisarmKeeps(c: State, j: nat)
    requires Valid(c) && j < |c.h1| && c.h1[j].state != H1Free
    ensures Valid(c.(h1 := c.h1[j := c.h1[j].(receiveArmed := false)]))
  {
    assert SessionAt(c.slots, c.h1, j) && CarriedAt(c.slots, c.h1, c.traffic, c.finished, j);
    SessionCore(c, j, c.h1[j].(receiveArmed := false), c.traffic[j]);
  }

  /** A session can be closed when no live exchange is bound to it. */
  lemma TryCloseKeeps(c: State, j: nat, drain: Status, close: Status)
    requires Valid(c)
    requires RequestOf(c, j).Some? ==> c.slots[c.h1[j].request.value].state != SlotConnecting || c.h1[j].transportClosed
    ensures Valid(TryClose(c, j, drain, close))
  {
    if j < |c.h1| {
      assert SessionAt(c.slots, c.h1, j) && CarriedAt(c.slots, c.h1, c.traffic, c.finished, j);
      TryClosedOk(c.h1[j], drain, close);
      SessionCore(c, j, TryClosed(c.h1[j], drain, close), c.traffic[j]);
    }
  }

  lemma ReceiveKeeps(c: State, j: nat, parse: Parse, sink: SinkStep, arm: Status, e: Ending)
    requires Valid(c)
    ensures Valid(Receive(c, j, parse, sink, arm, e))
  {
    if Connection(c, j) {
      DisarmKeeps(c, j);
      var d := c.(h1 := c.h1[j := c.h1[j].(receiveArmed := false)]);
      if RequestOf(d, j).None? || d.slots[d.h1[j].request.value].state == SlotTerminal {
        TryCloseKeeps(d, j, e.drain, e.close);
      } else {
        ReceiveRequestKeeps(d, j, d.h1[j].request.value, parse, sink, arm, e);
      }
    }
  }

  lemma ReceiveRequestKeeps(d: State, j: nat, i: nat, parse: Parse, sink: SinkStep, arm: Status, e: Ending)
    requires Valid(d) && RequestOf(d, j) == Some(i) && d.slots[i].state != SlotTerminal
    ensures Valid(ReceiveRequest(d, i, parse, sink, arm, e))
  {
    ServingFacts(d, j);
    if d.slots[i].delivered || d.slots[i].cancelRequested || d.stopActive {
      assert ReceiveRequest(d, i, parse, sink, arm, e) == SlotTryClose(d, i, e.drain, e.close);
      SlotTryCloseKeeps(d, i, e.drain, e.close);
    } else if parse.ParseFails? {
      assert ReceiveRequest(d, i, parse, sink, arm, e) == FailAndClose(d, i, e);
      FailAndCloseKeeps(d, i, e);
    } else {
      var f := PutSlot(d, i, Parsed(d.slots[i], parse));
      assert ReceiveRequest(d, i, parse, sink, arm, e) == AfterSink(f, i, sink, arm, e);
      ParsedKeeps(d, i, parse);
      AfterSinkKeeps(f, i, sink, arm, e);
    }
  }

  lemma ShutKeeps(c: State, j: nat)
    requires Valid(c) && Connection(c, j)
    ensures |c.traffic| == |c.h1|
    ensures Valid(c.(h1 := c.h1[j := Shut(c.h1[j])], traffic := c.traffic[j := c.traffic[j].(inFlight := 0)]))
  {
    assert SessionAt(c.slots, c.h1, j) && CarriedAt(c.slots, c.h1, c.traffic, c.finished, j);
    SessionCore(c, j, Shut(c.h1[j]), c.traffic[j].(inFlight := 0));
  }

  lemma ClosedKeeps(c: State, j: nat, failed: bool, parse: Parse, sink: SinkStep, e: Ending)
    requires Valid(c)
    ensures Valid(Closed(c, j, failed, parse, sink, e))
  {
    if Connection(c, j) {
      ShutKeeps(c, j);
      var d := c.(h1 := c.h1[j := Shut(c.h1[j])], traffic := c.traffic[j := c.traffic[j].(inFlight := 0)]);
      if RequestOf(d, j).Some? {
        ClosedRequestKeeps(d, d.h1[j].request.value, j, failed, parse, sink, e);
      }
    }
  }

  lemma DeliverEndKeeps(d: State, i: nat, j: nat, cancels: seq<CancelCall>)
    requires Valid(d) && RequestOf(d, j) == Some(i) && d.h1[j].state == H1Terminal && !d.slots[i].delivered
    ensures Valid(EndClosed(Deliver(d, i, cancels), i, j))
  {
    ServingFacts(d, j);
    DeliverKeeps(d, i, cancels);
    EndClosedKeeps(Deliver(d, i, cancels), i);
  }

  lemma ClosedRequestKeeps(d: State, i: nat, j: nat, failed: bool, parse: Parse, sink: SinkStep, e: Ending)
    requires Valid(d) && RequestOf(d, j) == Some(i) && d.h1[j].state == H1Terminal
    ensures Valid(ClosedRequest(d, i, j, failed, parse, sink, e))
  {
    ServingFacts(d, j);
    if d.slots[i].delivered {
      EndClosedKeeps(d, i);
    } else if d.slots[i].cancelRequested || d.stopActive || failed || !parse.ParseComplete? {
      DeliverEndKeeps(d, i, j, e.cancels);
    } else {
      ParsedKeeps(d, i, parse);
      ClosedResponseKeeps(PutSlot(d, i, Parsed(d.slots[i], parse)), i, j, sink, e);
    }
  }

  lemma ClosedResponseKeeps(d: State, i: nat, j: nat, sink: SinkStep, e: Ending)
    requires Valid(d) && RequestOf(d, j) == Some(i) && d.h1[j].state == H1Terminal
    requires !d.slots[i].delivered && d.slots[i].complete
    ensures Valid(ClosedResponse(d, i, j, sink, e))
  {
    ServingFacts(d, j);
    if d.slots[i].fileSink && sink.SinkReady? {
      CompleteResponseKeeps(d, i, e);
    } else {
      DeliverEndKeeps(d, i, j, e.cancels);
    }
  }
}
