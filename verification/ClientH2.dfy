/**
 The HTTP/2 side of the client: the request registry of a session, completion,
 failure, draining and retirement. Each function is one source function; what the
 network and the protocol engine answer comes in as parameters.
 */
module ClientH2 {
  import opened Octets
  import opened ClientState
  import opened ClientH1

  /** What a flush of a session meets: an error, output still pending, or all written. */
  datatype Flushing = FlushFails | FlushPending | FlushDone

  /** The cancellations made in the callback of each registry entry, and the close of the session. */
  datatype Upheaval = Upheaval(cancels: nat -> seq<CancelCall>, close: Status)

  function PutH2(c: State, p: nat, t: H2): State
    requires p < |c.h2|
  {
    c.(h2 := c.h2[p := t])
  }

  predicate Opened(c: State, p: nat) {
    p < |c.h2| && c.h2[p].state != H2Free && c.h2[p].state != H2Terminal
  }

  /** A session stops taking requests: the first such step of an epoch is its retirement. */
  function Retire(c: State, p: nat, t: H2): State
    requires p < |c.h2| && Retiring(t.state)
  {
    if Retiring(c.h2[p].state) || p >= |c.epochs| then PutH2(c, p, t)
    else PutH2(c, p, t).(timeline := c.timeline + [Retired(p, c.epochs[p])])
  }

  /** chttp_h2_session_try_close */
  function TryCloseH2(c: State, p: nat, close: Status): State {
    if !Opened(c, p) || c.h2[p].closeAdmitted then c
    else if close == Ok || close == Gone then
      Retire(c, p, c.h2[p].(closeAdmitted := true, closePending := false, state := H2Closing))
    else if close == NoBufs || close == Busy then PutH2(c, p, c.h2[p].(closePending := true))
    else c
  }

  /** chttp_h2_session_complete and chttp_h2_complete: one delivery, and the slot is over. */
  function Complete(c: State, i: nat, cancels: seq<CancelCall>): State {
    if i >= |c.slots| || c.slots[i].completed || c.slots[i].protocol != Http2 then c
    else
      var d := Deliver(PutSlot(c, i, c.slots[i].(completed := true)), i, cancels);
      if i < |d.slots| then PutSlot(d, i, d.slots[i].(state := SlotTerminal)) else d
  }

  function Entry(c: State, p: nat, k: nat): (r: Option<nat>)
    ensures r.Some? ==> r.value < |c.slots| && p < |c.h2| && k < |c.h2[p].requests| && c.h2[p].requests[k] == r
  {
    if p < |c.h2| && k < |c.h2[p].requests| && c.h2[p].requests[k].Some? && c.h2[p].requests[k].value < |c.slots|
    then c.h2[p].requests[k] else None
  }

  function FailEntry(c: State, p: nat, k: nat, u: Upheaval): State {
    var entry := Entry(c, p, k);
    if entry.None? then c else Complete(c, entry.value, u.cancels(k))
  }

  /** chttp_h2_session_fail_requests */
  function FailRequests(c: State, p: nat, u: Upheaval): State {
    Pass(c, Capacity(c, p), (d: State, k: nat) => (FailEntry(d, p, k, u), Ok)).0
  }

  function Capacity(c: State, p: nat): nat {
    if p < |c.h2| then |c.h2[p].requests| else 0
  }

  /** chttp_h2_session_fail */
  function FailSession(c: State, p: nat, u: Upheaval): State {
    if !Opened(c, p) then c
    else
      var d := FailRequests(PutH2(c, p, c.h2[p].(failed := true)), p, u);
      if !Opened(d, p) then d
      else TryCloseH2(Retire(d, p, d.h2[p].(state := H2Draining, closeAfterFlush := false)), p, u.close)
  }

  /** chttp_h2_session_flush */
  function Flush(c: State, p: nat, flushing: Flushing, u: Upheaval): State {
    if !Opened(c, p) || c.h2[p].state == H2Connecting then c
    else if flushing.FlushFails? then FailSession(c, p, u)
    else if flushing.FlushDone? && c.h2[p].closeAfterFlush then TryCloseH2(c, p, u.close)
    else c
  }

  /** The connection came up: `ready` is the negotiated protocol and the first receive. */
  function ConnectedH2(c: State, p: nat, ready: bool, flushing: Flushing, u: Upheaval): State {
    if !Opened(c, p) || c.h2[p].state != H2Connecting then c
    else if !ready then FailSession(c, p, u)
    else Flush(PutH2(c, p, c.h2[p].(state := H2Active)), p, flushing, u)
  }

  /** The connection closed or failed. */
  function ClosedH2(c: State, p: nat, u: Upheaval): State {
    if !Opened(c, p) then c
    else
      var d := FailRequests(c, p, u);
      if !Opened(d, p) then d else Retire(d, p, d.h2[p].(state := H2Terminal, closePending := false))
  }

  /** The engine closed a stream; while completions are deferred it is only noted. */
  function StreamClosed(c: State, p: nat, k: nat, deferred: bool, cancels: seq<CancelCall>): State {
    var entry := Entry(c, p, k);
    if entry.None? || c.slots[entry.value].completed then c
    else if deferred then PutSlot(c, entry.value, c.slots[entry.value].(terminalPending := true))
    else Complete(c, entry.value, cancels)
  }

  /** A session with no request left closes once its output is written. */
  function Waning(t: H2, state: H2State): H2 {
    t.(state := state, closeAfterFlush := t.closeAfterFlush || t.active == 0)
  }

  /** chttp_h2_on_goaway */
  function Goaway(c: State, p: nat): State {
    if p >= |c.h2| || c.h2[p].state == H2Free then c
    else if c.h2[p].state == H2Active then Retire(c, p, Waning(c.h2[p], H2Draining))
    else PutH2(c, p, Waning(c.h2[p], c.h2[p].state))
  }

  function DeferredEntry(c: State, p: nat, k: nat, u: Upheaval): State {
    var entry := Entry(c, p, k);
    if entry.None? || !c.slots[entry.value].terminalPending then c
    else Complete(PutSlot(c, entry.value, c.slots[entry.value].(terminalPending := false)), entry.value, u.cancels(k))
  }

  /** The completions noted before. */
  function Deferred(c: State, p: nat, u: Upheaval): State {
    Pass(c, Capacity(c, p), (d: State, k: nat) => (DeferredEntry(d, p, k, u), Ok)).0
  }

  /** chttp_h2_session_progress; `again` is the answer to a close asked before. */
  function Progress(c: State, p: nat, again: Status, flushing: Flushing, u: Upheaval): State {
    if !Opened(c, p) then c
    else
      var d := Deferred(c, p, u);
      if !Opened(d, p) || !d.h2[p].closePending then Flush(d, p, flushing, u)
      else if again == Failed then TryCloseH2(d, p, again)
      else Flush(TryCloseH2(d, p, again), p, flushing, u)
  }

  /** chttp_h2_session_begin_stop */
  function BeginStopH2(c: State, p: nat, goaway: Status, close: Status): State {
    if !Opened(c, p) || c.h2[p].state == H2Closing then c
    else if c.h2[p].state == H2Connecting then TryCloseH2(c, p, close)
    else if c.h2[p].state != H2Draining && goaway != Ok then c
    else Retire(c, p, Waning(c.h2[p], H2Draining))
  }

  predicate Drains(t: H2) {
    (t.state == H2Draining || t.state == H2Closing) && !t.poolDraining && t.pooled
  }

  /** A closed session is given back to the pool, then its context to the manager. */
  function GivenBack(t: H2, terminal: Status, context: Status): H2 {
    if t.state != H2Terminal || t.active != 0 || (t.pooled && terminal != Ok) then t
    else if t.managed && !t.contextReleased && context != Ok then t.(pooled := false)
    else t.(pooled := false, contextReleased := t.contextReleased || t.managed)
  }

  function GivenBackStatus(t: H2, terminal: Status, context: Status): Status {
    if t.state != H2Terminal || t.active != 0 then Ok
    else if t.pooled && terminal != Ok then terminal
    else if t.managed && !t.contextReleased then context
    else Ok
  }

  predicate Binds(t: H2, settings: bool) {
    t.state == H2Active && !t.poolReady && settings
  }

  /** chttp_h2_session_pool_progress on a session, up to giving it back. */
  function Readied(t: H2, settings: bool, bind: Status, drain: Status): H2 {
    if Binds(t, settings) && bind == Ok then t.(poolReady := true)
    else if Drains(t) && drain == Ok then t.(poolDraining := true)
    else t
  }

  function ReadiedStatus(t: H2, settings: bool, bind: Status, drain: Status): Status {
    if Binds(t, settings) then bind else if Drains(t) then drain else Ok
  }

  /** chttp_h2_reap_terminal_sessions, on one session. */
  function ReapH2(c: State, p: nat): State {
    if p < |c.h2| && c.h2[p].state == H2Terminal && c.h2[p].active == 0 && !c.h2[p].managed && !c.h2[p].pooled
    then PutH2(c, p, UNUSED_H2)
    else c
  }
}
