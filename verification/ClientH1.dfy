/**
 The HTTP/1.1 side of the client: delivery, cancellation and the events of a
 connection. Each function is one source function; what the network, the pool,
 the parser and the file runtime answer comes in as parameters.
 */
module ClientH1 {
  import opened Octets
  import opened ClientState

  /** A cancellation the application makes, with what the layers below answer. */
  datatype CancelCall = CancelCall(handle: Handle, close: Status, reset: Status, streamClosed: bool)

  /** What delivering a result and closing behind it meets. */
  datatype Ending = Ending(cancels: seq<CancelCall>, drain: Status, close: Status)

  /** One advance of a request body source. */
  datatype SourceStep = SourceWait | SourceFails | SourceEnds | SourceSends | SourceSendsFinal

  datatype SinkStep = SinkWait | SinkFails | SinkReady

  datatype Parse = ParseFails | ParseMore | ParseComplete(keepAlive: bool)

  function PutSlot(c: State, i: nat, s: Slot): State
    requires i < |c.slots|
  {
    c.(slots := c.slots[i := s])
  }

  function PutPair(c: State, i: nat, s: Slot, j: nat, t: H1): State
    requires i < |c.slots| && j < |c.h1|
  {
    c.(slots := c.slots[i := s], h1 := c.h1[j := t])
  }

  /** The session a slot points to. */
  function SessionOf(c: State, i: nat): (r: Option<nat>)
    ensures r.Some? ==> i < |c.slots| && r.value < |c.h1| && c.slots[i].h1 == r
  {
    if i < |c.slots| && c.slots[i].h1.Some? && c.slots[i].h1.value < |c.h1| then c.slots[i].h1 else None
  }

  /** The slot a connection serves, while the connection is up. */
  function RequestOf(c: State, j: nat): (r: Option<nat>)
    ensures r.Some? ==> j < |c.h1| && r.value < |c.slots| && c.h1[j].request == r
  {
    if j < |c.h1| && c.h1[j].request.Some? && c.h1[j].request.value < |c.slots| then c.h1[j].request else None
  }

  /** Events reach a session only while its connection is up. */
  predicate Connection(c: State, j: nat) {
    j < |c.h1| && c.h1[j].state != H1Free && !c.h1[j].transportClosed
  }

  // ---------------------------------------------------------------- cancelling and delivering

  /** chttp_async_request_cancel */
  function Cancel(c: State, call: CancelCall): State {
    var found := Find(c.slots, call.handle);
    if found.None? || c.slots[found.value].delivered || c.slots[found.value].cancelRequested then c
    else if c.slots[found.value].protocol == Http2 then CancelH2(c, found.value, call.reset, call.streamClosed)
    else CancelH1(c, found.value, call.close)
  }

  function CancelH1(c: State, i: nat, close: Status): State {
    var session := SessionOf(c, i);
    if close != Ok || session.None? then c
    else
      PutPair(c, i, c.slots[i].(cancelRequested := true, state := SlotClosing),
              session.value, c.h1[session.value].(closeAdmitted := true, state := H1Closing))
  }

  function Reset(s: Slot, accepted: bool, streamClosed: bool): Slot {
    s.(cancelRequested := accepted, terminalPending := s.terminalPending || streamClosed)
  }

  /** The reset may close the stream at once, which is then noted for the next progress pass. */
  function CancelH2(c: State, i: nat, reset: Status, streamClosed: bool): State {
    if i >= |c.slots| || c.slots[i].completed then c
    else
      PutSlot(c, i, Reset(c.slots[i], reset == Ok, streamClosed))
  }

  function Cancels(c: State, calls: seq<CancelCall>): State
    decreases |calls|
  {
    if calls == [] then c else Cancels(Cancel(c, calls[0]), calls[1..])
  }

  function MarkDelivered(c: State, i: nat): State
    requires i < |c.slots|
  {
    c.(slots := c.slots[i := c.slots[i].(delivered := true)],
       book := c.book.(calls := c.book.calls + multiset{HandleOf(c.slots, i)}))
  }

  /** chttp_slot_deliver: the callback may cancel any requests before it returns. */
  function Deliver(c: State, i: nat, cancels: seq<CancelCall>): State {
    if i >= |c.slots| || c.slots[i].state == SlotFree || c.slots[i].state == SlotTerminal || c.slots[i].delivered then c
    else Cancels(MarkDelivered(c, i), cancels)
  }

  // ---------------------------------------------------------------- closing

  /** chttp_h1_try_close on a session, with the pool's and the network's answers. */
  function TryClosed(t: H1, drain: Status, close: Status): H1 {
    if t.state == H1Free || t.transportClosed || t.closeAdmitted then t
    else if t.pooled && drain != Ok then t.(state := H1Closing, closePending := true)
    else if close == Ok || close == Gone then t.(state := H1Closing, closeAdmitted := true, closePending := false)
    else t.(state := H1Closing, closePending := true)
  }

  function TryCloseStatus(t: H1, drain: Status, close: Status): Status {
    if t.state == H1Free || t.transportClosed || t.closeAdmitted then Ok
    else if t.pooled && drain != Ok then drain
    else if close == Gone then Ok
    else close
  }

  function TryClose(c: State, j: nat, drain: Status, close: Status): State {
    if j < |c.h1| then c.(h1 := c.h1[j := TryClosed(c.h1[j], drain, close)]) else c
  }

  /** chttp_slot_try_close */
  function SlotTryClose(c: State, i: nat, drain: Status, close: Status): State {
    var session := SessionOf(c, i);
    if session.None? || c.slots[i].state == SlotFree || c.slots[i].state == SlotTerminal then c
    else
      PutPair(c, i, c.slots[i].(state := SlotClosing), session.value, TryClosed(c.h1[session.value], drain, close))
  }

  /** chttp_slot_fail_and_close */
  function FailAndClose(c: State, i: nat, e: Ending): State {
    var d := Deliver(c, i, e.cancels);
    var session := SessionOf(d, i);
    if session.None? then d
    else if d.h1[session.value].transportClosed then
      PutPair(d, i, d.slots[i].(state := SlotTerminal), session.value, d.h1[session.value].(closePending := false))
    else SlotTryClose(d, i, e.drain, e.close)
  }

  /** chttp_slot_complete_response */
  function CompleteResponse(c: State, i: nat, e: Ending): State {
    var d := Deliver(c, i, e.cancels);
    var session := SessionOf(d, i);
    if session.None? then d
    else if d.h1[session.value].transportClosed then PutSlot(d, i, d.slots[i].(state := SlotTerminal))
    else if !d.slots[i].keepAlive || !d.slots[i].sourceComplete || d.slots[i].cancelRequested || d.stopActive then
      SlotTryClose(d, i, e.drain, e.close)
    else if !d.h1[session.value].sendPending then PutSlot(d, i, d.slots[i].(state := SlotTerminal))
    else d
  }

  /** chttp_slot_arm_receive, and what follows when the network refuses. */
  function ArmOrFail(c: State, i: nat, arm: Status, e: Ending): State {
    var session := SessionOf(c, i);
    if session.None? || c.h1[session.value].receiveArmed then c
    else if arm == Ok then PutPair(c, i, c.slots[i], session.value, c.h1[session.value].(receiveArmed := true))
    else FailAndClose(c, i, e)
  }

  // ---------------------------------------------------------------- connection events

  /** A send the network took: it is in flight until the network says it completed. */
  function Sending(c: State, i: nat, s: Slot, j: nat, admitted: seq<Handle>): State
    requires i < |c.slots| && j < |c.h1| == |c.traffic|
  {
    PutPair(c, i, s, j, c.h1[j].(sendPending := true))
      .(traffic := c.traffic[j := Traffic(c.traffic[j].admitted + admitted, c.traffic[j].inFlight + 1)])
  }

  /** The connection came up: the request goes out. */
  function Connected(c: State, j: nat, send: Status, arm: Status, e: Ending): State {
    var request := RequestOf(c, j);
    if !Connection(c, j) || request.None? then c
    else
      var i, s := request.value, c.slots[request.value];
      if s.state != SlotConnecting || s.delivered || s.cancelRequested || c.stopActive || |c.traffic| != |c.h1| then c
      else
        var d := PutPair(c, i, s.(state := SlotBusy), j, c.h1[j].(state := H1Active));
        if send != Ok then FailAndClose(d, i, e)
        else ArmOrFail(Sending(d, i, d.slots[i], j, [HandleOf(c.slots, i)]), i, arm, e)
  }

  /** chttp_slot_source_finished */
  function SourceFinished(s: Slot): Slot {
    s.(sourceEnabled := false, sourceComplete := true, finalPending := false)
  }

  /**
   chttp_slot_source_advance, what the source produced given by the step; a
   connection that is down takes no send.
   */
  function SourceAdvance(c: State, i: nat, step: SourceStep, e: Ending): State {
    var session := SessionOf(c, i);
    if session.None? || |c.traffic| != |c.h1| then c
    else
      var s := c.slots[i];
      if !s.sourceEnabled || s.sourceComplete || s.delivered || s.cancelRequested || c.stopActive || s.state != SlotBusy then c
      else if s.finalPending then PutSlot(c, i, SourceFinished(s))
      else
        match step
        case SourceWait => PutSlot(c, i, s.(fileWaiting := true))
        case SourceEnds => PutSlot(c, i, SourceFinished(s))
        case SourceFails => FailAndClose(c, i, e)
        case _ =>
          if c.h1[session.value].transportClosed then FailAndClose(c, i, e)
          else Sending(c, i, s.(finalPending := step.SourceSendsFinal?), session.value, [])
  }

  /** A send completed. */
  function Sent(c: State, j: nat, step: SourceStep, e: Ending): State {
    if !Connection(c, j) || |c.traffic| != |c.h1| || c.traffic[j].inFlight == 0 then c
    else
      var d := c.(h1 := c.h1[j := c.h1[j].(sendPending := false)],
                  traffic := c.traffic[j := c.traffic[j].(inFlight := c.traffic[j].inFlight - 1)]);
      var request := RequestOf(d, j);
      if request.None? then d
      else if d.slots[request.value].delivered then
        if d.slots[request.value].state == SlotBusy then
          PutSlot(d, request.value, d.slots[request.value].(state := SlotTerminal))
        else d
      else SourceAdvance(d, request.value, step, e)
  }

  /** The file runtime answers a source read that had to wait. */
  function FileReady(c: State, i: nat, step: SourceStep, e: Ending): State {
    if i >= |c.slots| || !c.slots[i].fileWaiting then c
    else SourceAdvance(PutSlot(c, i, c.slots[i].(fileWaiting := false)), i, step, e)
  }

  /** What follows a response that parsed and whose file sink answered. */
  function AfterSink(c: State, i: nat, sink: SinkStep, arm: Status, e: Ending): State {
    if i >= |c.slots| || (c.slots[i].fileSink && sink.SinkWait?) then c
    else if c.slots[i].fileSink && sink.SinkFails? then FailAndClose(c, i, e)
    else if c.slots[i].complete then CompleteResponse(c, i, e)
    else ArmOrFail(c, i, arm, e)
  }

  /** chttp_slot_file_sink_ready */
  function FileSinkReady(c: State, i: nat, sink: SinkStep, arm: Status, e: Ending): State {
    if i >= |c.slots| || c.slots[i].protocol != Http1 || !c.slots[i].fileSink || c.slots[i].delivered ||
       c.slots[i].cancelRequested || c.stopActive || c.slots[i].state != SlotBusy then c
    else AfterSink(c, i, sink, arm, e)
  }

  function Parsed(s: Slot, parse: Parse): Slot {
    if parse.ParseComplete? then s.(complete := true, keepAlive := parse.keepAlive) else s
  }

  /** Bytes arrived. */
  function Receive(c: State, j: nat, parse: Parse, sink: SinkStep, arm: Status, e: Ending): State {
    if !Connection(c, j) then c
    else
      var d := c.(h1 := c.h1[j := c.h1[j].(receiveArmed := false)]);
      var request := RequestOf(d, j);
      if request.None? || d.slots[request.value].state == SlotTerminal then TryClose(d, j, e.drain, e.close)
      else ReceiveRequest(d, request.value, parse, sink, arm, e)
  }

  /** Bytes for a request that is not over. */
  function ReceiveRequest(c: State, i: nat, parse: Parse, sink: SinkStep, arm: Status, e: Ending): State
    requires i < |c.slots|
  {
    if c.slots[i].delivered || c.slots[i].cancelRequested || c.stopActive then SlotTryClose(c, i, e.drain, e.close)
    else if parse.ParseFails? then FailAndClose(c, i, e)
    else AfterSink(PutSlot(c, i, Parsed(c.slots[i], parse)), i, sink, arm, e)
  }

  /** The transport closed under the session. */
  function Shut(t: H1): H1 {
    t.(transportClosed := true, sendPending := false, receiveArmed := false, state := H1Terminal)
  }

  /**
   The connection closed or failed; a response that ends with the connection and
   still waits for its file keeps the slot until the file is written.
   */
  function Closed(c: State, j: nat, failed: bool, parse: Parse, sink: SinkStep, e: Ending): State {
    if !Connection(c, j) || |c.traffic| != |c.h1| then c
    else
      var d := c.(h1 := c.h1[j := Shut(c.h1[j])], traffic := c.traffic[j := c.traffic[j].(inFlight := 0)]);
      var request := RequestOf(d, j);
      if request.None? then d else ClosedRequest(d, request.value, j, failed, parse, sink, e)
  }

  function ClosedRequest(d: State, i: nat, j: nat, failed: bool, parse: Parse, sink: SinkStep, e: Ending): State
    requires i < |d.slots|
  {
    var s := d.slots[i];
    if s.delivered then EndClosed(d, i, j)
    else if s.cancelRequested || d.stopActive || failed || !parse.ParseComplete? then EndClosed(Deliver(d, i, e.cancels), i, j)
    else ClosedResponse(PutSlot(d, i, Parsed(s, parse)), i, j, sink, e)
  }

  function ClosedResponse(d: State, i: nat, j: nat, sink: SinkStep, e: Ending): State
    requires i < |d.slots|
  {
    if d.slots[i].fileSink && sink.SinkWait? then d
    else if d.slots[i].fileSink && sink.SinkReady? then CompleteResponse(d, i, e)
    else EndClosed(Deliver(d, i, e.cancels), i, j)
  }

  function EndClosed(c: State, i: nat, j: nat): State {
    if i < |c.slots| && j < |c.h1| then
      PutPair(c, i, c.slots[i].(state := SlotTerminal), j, c.h1[j].(closePending := false))
    else c
  }
}
