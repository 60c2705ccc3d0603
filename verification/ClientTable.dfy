/**
 The client's tables as the source keeps them, fields updated in place by the
 event handlers and by the loops over the fixed tables. Every method is proved to
 compute the step of the same name on the client's state.
 */
module ClientTable {
  import opened Octets
  import opened ClientState
  import opened ClientH1
  import opened ClientH2
  import opened ClientPool

  class Client {
    var slots: seq<Slot>
    var h1: seq<H1>
    var h2: seq<H2>
    var nextOperation: nat
    var nextIdentity: nat
    var admissionOpen: bool
    var stopActive: bool
    ghost var book: Ledger
    ghost var traffic: seq<Traffic>
    ghost var finished: set<Handle>
    ghost var epochs: seq<nat>
    ghost var timeline: seq<Milestone>

    ghost function View(): State
      reads this
    {
      State(slots, h1, h2, nextOperation, nextIdentity, admissionOpen, stopActive, book, traffic, finished, epochs, timeline)
    }

    /** What holds whenever an event can reach the client. */
    ghost predicate Valid()
      reads this
    {
      ClientState.Valid(View())
    }

    constructor (requests: nat, connections: nat)
      requires requests <= UINT32_MAX
      ensures View() == Initial(requests, connections) && Valid()
    {
      slots := seq(requests, _ => Vacant(0));
      h1 := seq(connections, _ => UNUSED_H1);
      h2 := seq(connections, _ => UNUSED_H2);
      nextOperation, nextIdentity, admissionOpen, stopActive := 0, 0, true, false;
      book := Ledger(multiset{}, {}, {}, multiset{}, {});
      traffic := seq(connections, _ => Traffic([], 0));
      finished, epochs, timeline := {}, seq(connections, _ => 0), [];
      new;
      assert slots == Initial(requests, connections).slots && h1 == Initial(requests, connections).h1;
      assert h2 == Initial(requests, connections).h2 && traffic == Initial(requests, connections).traffic;
      assert epochs == Initial(requests, connections).epochs;
      InitialValid(requests, connections);
    }

    /** chttp_slot_find_free */
    method FindFree() returns (found: Option<nat>)
      ensures found == FirstFree(slots, 0)
    {
      for i := 0 to |slots|
        invariant FirstFree(slots, 0) == FirstFree(slots, i)
      {
        if slots[i].state == SlotFree && slots[i].generation != UINT32_MAX {
          return Some(i);
        }
      }
      found := None;
    }

    /** The search for a live session of the same origin in chttp_pool_key. */
    method FindKey(identity: Identity) returns (key: Option<Key>)
      ensures key == KeyInH1(h1, identity, 0)
    {
      for j := 0 to |h1|
        invariant KeyInH1(h1, identity, 0) == KeyInH1(h1, identity, j)
      {
        if h1[j].state != H1Free && h1[j].origin.identity == identity {
          return Some(h1[j].origin.key);
        }
      }
      key := None;
    }

    method CancelRequest(call: CancelCall)
      modifies `slots, `h1
      ensures View() == Cancel(old(View()), call)
    {
      var found := Find(slots, call.handle);
      if found.None? || slots[found.value].delivered || slots[found.value].cancelRequested {
        return;
      }
      var i := found.value;
      if slots[i].protocol == Http2 {
        if !slots[i].completed {
          slots := slots[i := Reset(slots[i], call.reset == Ok, call.streamClosed)];
        }
      } else if call.close == Ok && slots[i].h1.Some? && slots[i].h1.value < |h1| {
        var j := slots[i].h1.value;
        slots := slots[i := slots[i].(cancelRequested := true, state := SlotClosing)];
        h1 := h1[j := h1[j].(closeAdmitted := true, state := H1Closing)];
      }
    }

    /** The callback runs, and may cancel requests, between these two points of chttp_slot_deliver. */
    method DeliverTo(i: nat, cancels: seq<CancelCall>)
      requires i < |slots|
      modifies `slots, `h1, `book
      ensures View() == Deliver(old(View()), i, cancels)
    {
      if slots[i].state == SlotFree || slots[i].state == SlotTerminal || slots[i].delivered {
        return;
      }
      book := book.(calls := book.calls + multiset{HandleOf(slots, i)});
      slots := slots[i := slots[i].(delivered := true)];
      ghost var marked := View();
      for k := 0 to |cancels|
        invariant Cancels(marked, cancels) == Cancels(View(), cancels[k..])
      {
        CancelRequest(cancels[k]);
        assert cancels[k..][1..] == cancels[k + 1..];
      }
    }

    method CloseSession(j: nat, drain: Status, close: Status)
      requires j < |h1|
      modifies `h1
      ensures View() == TryClose(old(View()), j, drain, close)
    {
      if h1[j].state == H1Free || h1[j].transportClosed || h1[j].closeAdmitted {
        assert h1 == h1[j := h1[j]];
        return;
      }
      h1 := h1[j := h1[j].(state := H1Closing, closePending := true)];
      if h1[j].pooled && drain != Ok {
        return;
      }
      if close == Ok || close == Gone {
        h1 := h1[j := h1[j].(closeAdmitted := true, closePending := false)];
      }
    }

    method CloseSlot(i: nat, drain: Status, close: Status)
      requires SessionOf(View(), i).Some?
      modifies `slots, `h1
      ensures View() == SlotTryClose(old(View()), i, drain, close)
    {
      if slots[i].state == SlotFree || slots[i].state == SlotTerminal {
        return;
      }
      slots := slots[i := slots[i].(state := SlotClosing)];
      CloseSession(slots[i].h1.value, drain, close);
    }

    method Fail(i: nat, e: Ending)
      requires i < |slots|
      modifies `slots, `h1, `book
      ensures View() == FailAndClose(old(View()), i, e)
    {
      DeliverTo(i, e.cancels);
      if i < |slots| && slots[i].h1.Some? && slots[i].h1.value < |h1| {
        var j := slots[i].h1.value;
        if h1[j].transportClosed {
          slots := slots[i := slots[i].(state := SlotTerminal)];
          h1 := h1[j := h1[j].(closePending := false)];
        } else {
          CloseSlot(i, e.drain, e.close);
        }
      }
    }

    method Complete(i: nat, e: Ending)
      requires i < |slots|
      modifies `slots, `h1, `book
      ensures View() == CompleteResponse(old(View()), i, e)
    {
      DeliverTo(i, e.cancels);
      if i < |slots| && slots[i].h1.Some? && slots[i].h1.value < |h1| {
        var j := slots[i].h1.value;
        if h1[j].transportClosed {
          slots := slots[i := slots[i].(state := SlotTerminal)];
        } else if !slots[i].keepAlive || !slots[i].sourceComplete || slots[i].cancelRequested || stopActive {
          CloseSlot(i, e.drain, e.close);
        } else if !h1[j].sendPending {
          slots := slots[i := slots[i].(state := SlotTerminal)];
        }
      }
    }

    method Arm(i: nat, arm: Status, e: Ending)
      requires SessionOf(View(), i).Some?
      modifies `slots, `h1, `book
      ensures View() == ArmOrFail(old(View()), i, arm, e)
    {
      var j := slots[i].h1.value;
      if h1[j].receiveArmed {
        return;
      }
      if arm == Ok {
        h1 := h1[j := h1[j].(receiveArmed := true)];
        assert slots == slots[i := slots[i]];
      } else {
        Fail(i, e);
      }
    }

    method OnSink(i: nat, sink: SinkStep, arm: Status, e: Ending)
      requires SessionOf(View(), i).Some?
      modifies `slots, `h1, `book
      ensures View() == AfterSink(old(View()), i, sink, arm, e)
    {
      if slots[i].fileSink && sink.SinkWait? {
        return;
      }
      if slots[i].fileSink && sink.SinkFails? {
        Fail(i, e);
      } else if slots[i].complete {
        Complete(i, e);
      } else {
        Arm(i, arm, e);
      }
    }

    /** chttp_cnet_receive */
    method OnReceive(j: nat, parse: Parse, sink: SinkStep, arm: Status, e: Ending)
      requires (RequestOf(View(), j).Some? ==> SessionOf(View(), RequestOf(View(), j).value) == Some(j))
      modifies `slots, `h1, `book
      ensures View() == Receive(old(View()), j, parse, sink, arm, e)
    {
      if j >= |h1| || h1[j].state == H1Free || h1[j].transportClosed {
        return;
      }
      ghost var before := View();
      var request := h1[j].request;
      if request.Some? && request.value < |slots| && slots[request.value].state != SlotTerminal {
        assert RequestOf(before, j) == request && SessionOf(before, request.value) == Some(j);
        h1 := h1[j := h1[j].(receiveArmed := false)];
        assert Receive(before, j, parse, sink, arm, e) == ReceiveRequest(View(), request.value, parse, sink, arm, e);
        ReceiveFor(request.value, parse, sink, arm, e);
      } else {
        h1 := h1[j := h1[j].(receiveArmed := false)];
        assert Receive(before, j, parse, sink, arm, e) == TryClose(View(), j, e.drain, e.close);
        CloseSession(j, e.drain, e.close);
      }
    }

    /** Bytes for a request that is not over. */
    method ReceiveFor(i: nat, parse: Parse, sink: SinkStep, arm: Status, e: Ending)
      requires SessionOf(View(), i).Some? && slots[i].state != SlotTerminal
      modifies `slots, `h1, `book
      ensures View() == ReceiveRequest(old(View()), i, parse, sink, arm, e)
    {
      if slots[i].delivered || slots[i].cancelRequested || stopActive {
        CloseSlot(i, e.drain, e.close);
      } else if parse.ParseFails? {
        Fail(i, e);
      } else {
        if parse.ParseComplete? {
          slots := slots[i := slots[i].(complete := true, keepAlive := parse.keepAlive)];
        } else {
          assert slots == slots[i := slots[i]];
        }
        OnSink(i, sink, arm, e);
      }
    }

    /** chttp_retry_pending_closes */
    method RetryAllCloses(net: Net)
      modifies `h1
      ensures View() == RetryCloses(old(View()), net)
    {
      ghost var step := (d: State, j: nat) => (RetryClose(d, j, net), Ok);
      var n := |h1|;
      for j := 0 to n
        invariant Pass(old(View()), j, step) == (View(), Ok)
      {
        if j < |h1| && h1[j].closePending {
          CloseSession(j, net.drain(j), net.close(j));
        }
      }
    }

    /** One slot of chttp_reap_terminal_slots that was served over HTTP/1.1. */
    method ReapOne(i: nat, net: Net) returns (status: Status)
      requires i < |slots| && slots[i].state == SlotTerminal && !slots[i].filePending && SessionOf(View(), i).Some?
      modifies `slots, `h1, `book, `finished
      ensures (View(), status) == ReapSlot(old(View()), i, net)
    {
      var j := slots[i].h1.value;
      assert ReapSlot(View(), i, net) == ReapH1Slot(View(), i, j, net);
      if h1[j].sendPending {
        return Ok;
      }
      if slots[i].lease && net.release(i) != Ok {
        return net.release(i);
      }
      finished := finished + Finishing(View(), i, j);
      status := ReapedStatus(h1[j], stopActive, net.drain(j), net.close(j), net.arm(j), net.bind(j));
      h1 := h1[j := Reaped(h1[j], stopActive, net.drain(j), net.close(j), net.arm(j), net.bind(j))];
      if stopActive && status != Ok {
        slots := slots[i := slots[i].(lease := false)];
      } else {
        book := book.(recycled := book.recycled + {HandleOf(slots, i)});
        slots := slots[i := Vacant(slots[i].generation)];
      }
    }

    /** chttp_reap_terminal_slots: an error ends the pass. */
    method ReapAll(net: Net) returns (status: Status)
      modifies this
      ensures (View(), status) == Reap(old(View()), net)
    {
      ghost var step := (d: State, i: nat) => ReapSlot(d, i, net);
      status := Ok;
      var n := |slots|;
      for i := 0 to n
        invariant status == Ok && Pass(old(View()), i, step) == (View(), Ok)
      {
        ghost var before := View();
        if i < |slots| && slots[i].state == SlotTerminal && !slots[i].filePending {
          if slots[i].h1.Some? && slots[i].h1.value < |h1| {
            status := ReapOne(i, net);
          } else if slots[i].h2.Some? && slots[i].h2.value < |h2| {
            status := ReapStream(i, net);
          }
        }
        assert (View(), status) == step(before, i);
        if status != Ok {
          Stopped(old(View()), i + 1, n, step);
          return;
        }
      }
    }

    /** One slot of the same pass that was served over HTTP/2: its registry entry goes with it. */
    method ReapStream(i: nat, net: Net) returns (status: Status)
      requires i < |slots| && slots[i].state == SlotTerminal && !slots[i].filePending && SessionOf(View(), i).None?
      requires slots[i].h2.Some? && slots[i].h2.value < |h2|
      modifies `slots, `h2, `book
      ensures (View(), status) == ReapSlot(old(View()), i, net)
    {
      var p := slots[i].h2.value;
      assert ReapSlot(View(), i, net) == ReapH2Slot(View(), i, p, net);
      if h2[p].failed && h2[p].state != H2Terminal {
        return Ok;
      }
      if slots[i].lease && net.release(i) != Ok {
        return net.release(i);
      }
      if slots[i].entry < |h2[p].requests| && h2[p].active != 0 {
        h2 := h2[p := Unregister(h2[p], slots[i].entry)];
        book := book.(recycled := book.recycled + {HandleOf(slots, i)});
        slots := slots[i := Vacant(slots[i].generation)];
      }
      status := Ok;
    }

    method ExpireOne(i: nat, now: nat, answer: CancelCall)
      modifies `slots, `h1
      ensures View() == ExpireSlot(old(View()), i, now, answer)
    {
      if i < |slots| && Expired(slots[i], now) {
        var call := answer.(handle := HandleOf(slots, i));
        slots := slots[i := slots[i].(deadlineCancelled := true)];
        ghost var noted := View();
        CancelRequest(call);
        assert View() == Cancel(noted, call);
        if i < |slots| && !slots[i].cancelRequested {
          slots := slots[i := slots[i].(deadlineCancelled := false)];
        }
      }
    }

    /** chttp_rpc_expire_deadlines */
    method ExpireAll(now: nat, answers: nat -> CancelCall)
      modifies `slots, `h1
      ensures View() == Expire(old(View()), now, answers)
    {
      ghost var step := (d: State, i: nat) => (ExpireSlot(d, i, now, answers(i)), Ok);
      var n := |slots|;
      for i := 0 to n
        invariant Pass(old(View()), i, step) == (View(), Ok)
      {
        ExpireOne(i, now, answers(i));
      }
    }

    /** The network took a send for the request of slot `i`. */
    method Send(i: nat, j: nat, ghost admitted: seq<Handle>)
      requires i < |slots| && j < |h1| == |traffic|
      modifies `h1, `traffic
      ensures View() == Sending(old(View()), i, slots[i], j, admitted)
    {
      h1 := h1[j := h1[j].(sendPending := true)];
      traffic := traffic[j := Traffic(traffic[j].admitted + admitted, traffic[j].inFlight + 1)];
      assert slots == slots[i := slots[i]];
    }

    /** chttp_cnet_state on a connection that came up */
    method OnConnected(j: nat, send: Status, arm: Status, e: Ending)
      requires |traffic| == |h1| && (RequestOf(View(), j).Some? ==> SessionOf(View(), RequestOf(View(), j).value) == Some(j))
      modifies `slots, `h1, `book, `traffic
      ensures View() == Connected(old(View()), j, send, arm, e)
    {
      if j >= |h1| || h1[j].state == H1Free || h1[j].transportClosed || h1[j].request.None? || h1[j].request.value >= |slots| {
        return;
      }
      var i := h1[j].request.value;
      if slots[i].state != SlotConnecting || slots[i].delivered || slots[i].cancelRequested || stopActive {
        return;
      }
      ghost var handle := HandleOf(slots, i);
      assert RequestOf(View(), j) == Some(i);
      slots := slots[i := slots[i].(state := SlotBusy)];
      h1 := h1[j := h1[j].(state := H1Active)];
      assert Connected(old(View()), j, send, arm, e) == Dispatched(View(), i, j, handle, send, arm, e);
      SendFirst(i, j, handle, send, arm, e);
    }

    /** What a connection that came up does with its request. */
    static function Dispatched(c: State, i: nat, j: nat, handle: Handle, send: Status, arm: Status, e: Ending): State
      requires i < |c.slots| && j < |c.h1| == |c.traffic|
    {
      if send != Ok then FailAndClose(c, i, e) else ArmOrFail(Sending(c, i, c.slots[i], j, [handle]), i, arm, e)
    }

    method SendFirst(i: nat, j: nat, ghost handle: Handle, send: Status, arm: Status, e: Ending)
      requires SessionOf(View(), i) == Some(j) && |traffic| == |h1|
      modifies `slots, `h1, `book, `traffic
      ensures View() == Dispatched(old(View()), i, j, handle, send, arm, e)
    {
      if send != Ok {
        Fail(i, e);
      } else {
        SendAndArm(i, j, handle, arm, e);
      }
    }

    /** The request goes out on a connection that came up, which then listens. */
    method SendAndArm(i: nat, j: nat, ghost handle: Handle, arm: Status, e: Ending)
      requires SessionOf(View(), i) == Some(j) && |traffic| == |h1|
      modifies `slots, `h1, `book, `traffic
      ensures View() == ArmOrFail(Sending(old(View()), i, old(slots[i]), j, [handle]), i, arm, e)
    {
      Send(i, j, [handle]);
      Arm(i, arm, e);
    }

    /** chttp_slot_source_advance */
    method AdvanceSource(i: nat, step: SourceStep, e: Ending)
      requires SessionOf(View(), i).Some? && |traffic| == |h1|
      modifies `slots, `h1, `book, `traffic
      ensures View() == SourceAdvance(old(View()), i, step, e)
    {
      var s := slots[i];
      if !s.sourceEnabled || s.sourceComplete || s.delivered || s.cancelRequested || stopActive || s.state != SlotBusy {
        return;
      }
      if s.finalPending || step.SourceEnds? {
        slots := slots[i := SourceFinished(s)];
      } else if step.SourceWait? {
        slots := slots[i := s.(fileWaiting := true)];
      } else if step.SourceFails? || h1[s.h1.value].transportClosed {
        Fail(i, e);
      } else {
        slots := slots[i := s.(finalPending := step.SourceSendsFinal?)];
        Send(i, s.h1.value, []);
      }
    }

    /** chttp_cnet_send: called once for each send in flight */
    method OnSent(j: nat, step: SourceStep, e: Ending)
      requires |traffic| == |h1| && (j < |h1| ==> traffic[j].inFlight > 0)
      requires (RequestOf(View(), j).Some? ==> SessionOf(View(), RequestOf(View(), j).value) == Some(j))
      modifies `slots, `h1, `book, `traffic
      ensures View() == Sent(old(View()), j, step, e)
    {
      if j >= |h1| || h1[j].state == H1Free || h1[j].transportClosed {
        return;
      }
      h1 := h1[j := h1[j].(sendPending := false)];
      traffic := traffic[j := traffic[j].(inFlight := traffic[j].inFlight - 1)];
      if h1[j].request.None? || h1[j].request.value >= |slots| {
        return;
      }
      var i := h1[j].request.value;
      assert RequestOf(old(View()), j) == Some(i);
      if slots[i].delivered {
        if slots[i].state == SlotBusy {
          slots := slots[i := slots[i].(state := SlotTerminal)];
        }
      } else {
        AdvanceSource(i, step, e);
      }
    }

    /** chttp_cnet_state on a connection that closed or failed */
    method OnClosed(j: nat, failed: bool, parse: Parse, sink: SinkStep, e: Ending)
      requires |traffic| == |h1|
      modifies `slots, `h1, `book, `traffic
      ensures View() == Closed(old(View()), j, failed, parse, sink, e)
    {
      if j >= |h1| || h1[j].state == H1Free || h1[j].transportClosed {
        return;
      }
      h1 := h1[j := h1[j].(transportClosed := true, sendPending := false, receiveArmed := false, state := H1Terminal)];
      traffic := traffic[j := traffic[j].(inFlight := 0)];
      if h1[j].request.None? || h1[j].request.value >= |slots| {
        return;
      }
      EndRequest(h1[j].request.value, j, failed, parse, sink, e);
    }

    method EndRequest(i: nat, j: nat, failed: bool, parse: Parse, sink: SinkStep, e: Ending)
      requires i < |slots|
      modifies `slots, `h1, `book
      ensures View() == ClosedRequest(old(View()), i, j, failed, parse, sink, e)
    {
      if slots[i].delivered {
        End(i, j);
      } else if slots[i].cancelRequested || stopActive || failed || !parse.ParseComplete? {
        DeliverTo(i, e.cancels);
        End(i, j);
      } else {
        slots := slots[i := slots[i].(complete := true, keepAlive := parse.keepAlive)];
        EndResponse(i, j, sink, e);
      }
    }

    method EndResponse(i: nat, j: nat, sink: SinkStep, e: Ending)
      requires i < |slots|
      modifies `slots, `h1, `book
      ensures View() == ClosedResponse(old(View()), i, j, sink, e)
    {
      if slots[i].fileSink && sink.SinkWait? {
        return;
      }
      if slots[i].fileSink && sink.SinkReady? {
        Complete(i, e);
      } else {
        DeliverTo(i, e.cancels);
        End(i, j);
      }
    }

    method End(i: nat, j: nat)
      modifies `slots, `h1
      ensures View() == EndClosed(old(View()), i, j)
    {
      if i < |slots| && j < |h1| {
        slots := slots[i := slots[i].(state := SlotTerminal)];
        h1 := h1[j := h1[j].(closePending := false)];
      }
    }

    /** The file runtime answers a read that had to wait. */
    method OnFileReady(i: nat, step: SourceStep, e: Ending)
      requires |traffic| == |h1|
      modifies `slots, `h1, `book, `traffic
      ensures View() == FileReady(old(View()), i, step, e)
    {
      if i < |slots| && slots[i].fileWaiting {
        slots := slots[i := slots[i].(fileWaiting := false)];
        if slots[i].h1.Some? && slots[i].h1.value < |h1| {
          AdvanceSource(i, step, e);
        }
      }
    }

    /** chttp_slot_file_sink_ready */
    method OnFileSinkReady(i: nat, sink: SinkStep, arm: Status, e: Ending)
      requires i < |slots| && Live(slots[i]) && slots[i].protocol == Http1 ==> SessionOf(View(), i).Some?
      modifies `slots, `h1, `book
      ensures View() == FileSinkReady(old(View()), i, sink, arm, e)
    {
      if i < |slots| && slots[i].protocol == Http1 && slots[i].fileSink && !slots[i].delivered &&
         !slots[i].cancelRequested && !stopActive && slots[i].state == SlotBusy {
        OnSink(i, sink, arm, e);
      }
    }

    /** The session that serves a request is the one the request points to. */
    lemma Serves(j: nat)
      requires Valid()
      ensures |traffic| == |h1| && (RequestOf(View(), j).Some? ==> SessionOf(View(), RequestOf(View(), j).value) == Some(j))
    {
      if RequestOf(View(), j).Some? {
        assert SessionAt(slots, h1, j);
      }
    }

    lemma Pointed(i: nat)
      requires Valid()
      ensures i < |slots| && Live(slots[i]) && slots[i].protocol == Http1 ==> SessionOf(View(), i).Some?
    {
      if i < |slots| {
        assert SlotAt(slots, h1, stopActive, i);
      }
    }
  }

  /** A pass that met an error ends where it was. */
  lemma {:induction false} Stopped(c: State, n: nat, m: nat, step: (State, nat) -> (State, Status))
    requires n <= m && Pass(c, n, step).1 != Ok
    ensures Pass(c, m, step) == Pass(c, n, step)
  {
    if n < m {
      Stopped(c, n, m - 1, step);
    }
  }
}
