/**
 Admission and retirement: submission over a pooled, piped or new connection, the
 rollback of a failed one, the reaper, and the passes that give connections back.
 */
module ClientPool {
  import opened Octets
  import opened ClientState
  import opened ClientH1
  import opened ClientH2

  /** What the network, the pool and the manager answer for each slot or session in one pass. */
  datatype Net = Net(
    drain: nat -> Status,
    close: nat -> Status,
    arm: nat -> Status,
    release: nat -> Status,
    bind: nat -> Status,
    terminal: nat -> Status,
    context: nat -> Status,
    recycled: nat -> bool,
    settings: nat -> bool,
    bind2: nat -> Status,
    drain2: nat -> Status,
    terminal2: nat -> Status,
    context2: nat -> Status,
    recycled2: nat -> bool,
    advance: Status,
    goaway: nat -> Status,
    close2: nat -> Status)

  // ---------------------------------------------------------------- the reaper

  /** chttp_slot_release of a slot whose request is over. */
  function Recycle(c: State, i: nat): State
    requires i < |c.slots|
  {
    c.(slots := c.slots[i := Vacant(c.slots[i].generation)],
       book := c.book.(recycled := c.book.recycled + {HandleOf(c.slots, i)}))
  }

  /** The connection can listen for its next request, and the pool knows it. */
  predicate Rests(t: H1, arm: Status, bind: Status) {
    (t.receiveArmed || arm == Ok) && (!t.pooled || t.poolReady || bind == Ok)
  }

  /** The session as the reaper leaves it. */
  function Reaped(t: H1, stopping: bool, drain: Status, close: Status, arm: Status, bind: Status): H1 {
    var u := t.(operation := 0, request := None);
    if u.state != H1Active then u
    else if stopping then TryClosed(u, drain, close)
    else if Rests(u, arm, bind) then u.(state := H1Idle, receiveArmed := true, poolReady := u.pooled || u.poolReady)
    else TryClosed(u.(state := H1Idle, receiveArmed := u.receiveArmed || arm == Ok), drain, close)
  }

  /** Only a failed close of a stopping client and a refusal of the pool end the pass. */
  function ReapedStatus(t: H1, stopping: bool, drain: Status, close: Status, arm: Status, bind: Status): Status {
    if t.state != H1Active then Ok
    else if stopping then
      if TryCloseStatus(t, drain, close) == NoBufs then Ok else TryCloseStatus(t, drain, close)
    else if (t.receiveArmed || arm == Ok) && t.pooled && !t.poolReady then bind
    else Ok
  }

  /** A keep-alive exchange whose response is complete and whose last send has settled. */
  function Finishing(c: State, i: nat, j: nat): set<Handle>
    requires i < |c.slots| && j < |c.h1|
  {
    if Clean(c.slots[i]) && !c.h1[j].sendPending then {HandleOf(c.slots, i)} else {}
  }

  function ReapH1Slot(c: State, i: nat, j: nat, net: Net): (State, Status)
    requires i < |c.slots| && j < |c.h1|
  {
    if c.h1[j].sendPending then (c, Ok)
    else if c.slots[i].lease && net.release(i) != Ok then (c, net.release(i))
    else
      var t := Reaped(c.h1[j], c.stopActive, net.drain(j), net.close(j), net.arm(j), net.bind(j));
      var status := ReapedStatus(c.h1[j], c.stopActive, net.drain(j), net.close(j), net.arm(j), net.bind(j));
      var d := c.(h1 := c.h1[j := t], finished := c.finished + Finishing(c, i, j));
      if c.stopActive && status != Ok then (PutSlot(d, i, d.slots[i].(lease := false)), status)
      else (Recycle(d, i), status)
  }

  /** chttp_h2_request_release: the entry is given up; the last one of a draining session ends it. */
  function Unregister(t: H2, k: nat): H2
    requires k < |t.requests| && t.active > 0
  {
    t.(requests := t.requests[k := None], active := t.active - 1,
       closeAfterFlush := t.closeAfterFlush || (t.state == H2Draining && t.active == 1))
  }

  function ReapH2Slot(c: State, i: nat, p: nat, net: Net): (State, Status)
    requires i < |c.slots| && p < |c.h2|
  {
    if c.h2[p].failed && c.h2[p].state != H2Terminal then (c, Ok)
    else if c.slots[i].lease && net.release(i) != Ok then (c, net.release(i))
    else if c.slots[i].entry >= |c.h2[p].requests| || c.h2[p].active == 0 then (c, Ok)
    else (Recycle(PutH2(c, p, Unregister(c.h2[p], c.slots[i].entry)), i), Ok)
  }

  /** chttp_reap_terminal_slots, on one slot. */
  function ReapSlot(c: State, i: nat, net: Net): (State, Status) {
    if i >= |c.slots| || c.slots[i].state != SlotTerminal || c.slots[i].filePending then (c, Ok)
    else if SessionOf(c, i).Some? then ReapH1Slot(c, i, c.slots[i].h1.value, net)
    else if c.slots[i].h2.Some? && c.slots[i].h2.value < |c.h2| then ReapH2Slot(c, i, c.slots[i].h2.value, net)
    else (c, Ok)
  }

  /** chttp_reap_terminal_slots */
  function Reap(c: State, net: Net): (State, Status) {
    Pass(c, |c.slots|, (d: State, i: nat) => ReapSlot(d, i, net))
  }

  // ---------------------------------------------------------------- giving connections back

  function RetryClose(c: State, j: nat, net: Net): State {
    if j < |c.h1| && c.h1[j].closePending then TryClose(c, j, net.drain(j), net.close(j)) else c
  }

  /** chttp_retry_pending_closes */
  function RetryCloses(c: State, net: Net): State {
    Pass(c, |c.h1|, (d: State, j: nat) => (RetryClose(d, j, net), Ok)).0
  }

  /** A closed session nobody uses is given back to the pool, then to the manager. */
  function Returned(t: H1, terminal: Status, context: Status): H1 {
    if !t.transportClosed || t.request != None || t.state == H1Free || (t.pooled && terminal != Ok) then t
    else if t.managed && !t.contextReleased && context != Ok then t.(pooled := false)
    else t.(pooled := false, contextReleased := t.contextReleased || t.managed)
  }

  function ReturnedStatus(t: H1, terminal: Status, context: Status): Status {
    if !t.transportClosed || t.request != None || t.state == H1Free then Ok
    else if t.pooled && terminal != Ok then terminal
    else if t.managed && !t.contextReleased then context
    else Ok
  }

  function ReturnOne(c: State, j: nat, net: Net): (State, Status) {
    if j >= |c.h1| then (c, Ok)
    else
      (c.(h1 := c.h1[j := Returned(c.h1[j], net.terminal(j), net.context(j))]),
       ReturnedStatus(c.h1[j], net.terminal(j), net.context(j)))
  }

  /** chttp_h2_session_pool_progress: a session that is not active needs no binding, one that is not closed is not given back. */
  function PoolOne(c: State, p: nat, net: Net): (State, Status) {
    if p >= |c.h2| || c.h2[p].state == H2Free then (c, Ok)
    else
      var status := ReadiedStatus(c.h2[p], net.settings(p), net.bind2(p), net.drain2(p));
      var d := PutH2(c, p, Readied(c.h2[p], net.settings(p), net.bind2(p), net.drain2(p)));
      if status != Ok then (d, status)
      else (PutH2(d, p, GivenBack(d.h2[p], net.terminal2(p), net.context2(p))), GivenBackStatus(d.h2[p], net.terminal2(p), net.context2(p)))
  }

  /** The manager recycles a context that was released; then the session can be cleared. */
  function Cleared(t: H1, recycled: bool): H1 {
    var u := if t.contextReleased && recycled then t.(managed := false) else t;
    if u.transportClosed && u.request == None && !u.managed then UNUSED_H1 else u
  }

  function ClearOne(c: State, j: nat, net: Net): State {
    if j >= |c.h1| || j >= |c.traffic| then c
    else
      var t := Cleared(c.h1[j], net.recycled(j));
      if t.state == H1Free then c.(h1 := c.h1[j := t], traffic := c.traffic[j := Traffic([], 0)])
      else c.(h1 := c.h1[j := t])
  }

  function RecycleContext(c: State, p: nat, net: Net): State {
    if p < |c.h2| && c.h2[p].contextReleased && net.recycled2(p) && c.h2[p].state != H2Free
    then PutH2(c, p, c.h2[p].(managed := false)) else c
  }

  /** chttp_client_pool_progress and its status */
  function PoolProgress(c: State, net: Net): (State, Status) {
    var reaped := Reap(c, net);
    if reaped.1 != Ok then reaped else GiveBack(reaped.0, net)
  }

  function GiveBack(c: State, net: Net): (State, Status) {
    var returned := Pass(c, |c.h1|, (d: State, j: nat) => ReturnOne(d, j, net));
    if returned.1 != Ok then returned
    else
      var pooled := Pass(returned.0, |c.h2|, (d: State, p: nat) => PoolOne(d, p, net));
      if pooled.1 != Ok then pooled
      else if net.advance != Ok then (pooled.0, net.advance)
      else (ClearAll(pooled.0, net), Ok)
  }

  function ClearAll(c: State, net: Net): State {
    Pass(Pass(c, |c.h2|, (d: State, p: nat) => (RecycleContext(d, p, net), Ok)).0, |c.h1|, (d: State, j: nat) => (ClearOne(d, j, net), Ok)).0
  }

  function FirstIdle(h1: seq<H1>, j: nat): (r: Option<nat>)
    ensures r.Some? ==> j <= r.value < |h1| && h1[r.value].state == H1Idle
    decreases |h1| - j
  {
    if j >= |h1| then None else if h1[j].state == H1Idle then Some(j) else FirstIdle(h1, j + 1)
  }

  function FirstIdleH2(h2: seq<H2>, p: nat): (r: Option<nat>)
    ensures r.Some? ==> p <= r.value < |h2|
    decreases |h2| - p
  {
    if p >= |h2| then None else if h2[p].state == H2Active && h2[p].active == 0 then Some(p) else FirstIdleH2(h2, p + 1)
  }

  /** chttp_begin_idle_eviction */
  function Evict(c: State, net: Net): State {
    var idle := FirstIdle(c.h1, 0);
    if idle.Some? then TryClose(c, idle.value, net.drain(idle.value), net.close(idle.value))
    else
      var spare := FirstIdleH2(c.h2, 0);
      if spare.Some? then BeginStopH2(c, spare.value, net.goaway(spare.value), net.close2(spare.value)) else c
  }

  // ---------------------------------------------------------------- submission

  /** `destination`: the caller named a resolved endpoint, whose numbers are then in the identity. */
  datatype Options = Options(protocol: Protocol, identity: Identity, destination: bool, pipe: bool, source: bool, fileSink: bool)

  /**
   What a submission meets: the request is built (`prepared`), its streaming set up,
   the pool offers a connection or refuses, the network takes the request or the
   connection, and a lease is given back if it must be.
   */
  datatype Meeting = Meeting(
    prepared: Status,
    streaming: Status,
    offered: Option<nat>,
    acquire: Status,
    send: Status,
    connect: Status,
    pooled: bool,
    managed: bool,
    release: Status,
    engine: nat -> Status)

  function FirstFree(slots: seq<Slot>, i: nat): (r: Option<nat>)
    ensures r.Some? ==> i <= r.value < |slots| && slots[r.value].state == SlotFree && slots[r.value].generation != UINT32_MAX
    decreases |slots| - i
  {
    if i >= |slots| then None
    else if slots[i].state == SlotFree && slots[i].generation != UINT32_MAX then Some(i)
    else FirstFree(slots, i + 1)
  }

  function KeyInH1(h1: seq<H1>, identity: Identity, j: nat): (r: Option<Key>)
    ensures r.Some? ==> exists k :: j <= k < |h1| && h1[k].state != H1Free && h1[k].origin.identity == identity && h1[k].origin.key == r.value
    ensures r.None? ==> forall k :: j <= k < |h1| && h1[k].state != H1Free ==> h1[k].origin.identity != identity
    decreases |h1| - j
  {
    if j >= |h1| then None
    else if h1[j].state != H1Free && h1[j].origin.identity == identity then Some(h1[j].origin.key)
    else KeyInH1(h1, identity, j + 1)
  }

  predicate MatchesH2(t: H2, identity: Identity) {
    (t.state == H2Connecting || t.state == H2Active) && t.origin.identity == identity
  }

  function KeyInH2(h2: seq<H2>, identity: Identity, p: nat): (r: Option<Key>)
    ensures r.Some? ==> exists k :: p <= k < |h2| && MatchesH2(h2[k], identity) && h2[k].origin.key == r.value
    decreases |h2| - p
  {
    if p >= |h2| then None
    else if MatchesH2(h2[p], identity) then Some(h2[p].origin.key)
    else KeyInH2(h2, identity, p + 1)
  }

  function ProtocolId(protocol: Protocol): nat {
    if protocol == Http1 then 1 else 2
  }

  function FreshKey(o: Options, identity: nat): Key {
    Key(if o.destination then o.identity.endpoint else identity,
        if o.destination then o.identity.snapshot else identity,
        identity,
        if "tls://" <= o.identity.uri then 2 else 1,
        if o.identity.tls.Some? then identity else 0,
        ProtocolId(o.protocol))
  }

  /** chttp_pool_key: the key of a live session of the same identity, else a new one. */
  function PoolKey(c: State, o: Options): Option<(Key, nat)> {
    var known := if o.protocol == Http1 then KeyInH1(c.h1, o.identity, 0) else KeyInH2(c.h2, o.identity, 0);
    if known.Some? then Some((known.value, c.nextIdentity))
    else if c.nextIdentity >= UINT64_MAX then None
    else Some((FreshKey(o, c.nextIdentity + 1), c.nextIdentity + 1))
  }

  /** The clean-up a submission that was not admitted ends with. */
  datatype After = Nothing | Cleanup(evict: bool) | CleanupH2(evict: bool) | Evicting

  /** Where a submission leaves the tables, its handle if it was admitted, and its clean-up. */
  datatype Placing = Placing(state: State, handle: Option<Handle>, after: After)

  function Finish(c: State, after: After, net: Net): State {
    match after
    case Nothing => c
    case Evicting => Evict(c, net)
    case Cleanup(evict) =>
      var progress := PoolProgress(c, net);
      if progress.1 == Ok && evict then Evict(progress.0, net) else progress.0
    case CleanupH2(evict) =>
      var progress := PoolProgress(c, net);
      if progress.1 != Ok then progress.0
      else if evict then Evict(ReapSessions(progress.0), net)
      else ReapSessions(progress.0)
  }

  function FreshH1(generation: nat, j: nat, state: SlotState, o: Options, lease: bool): Slot {
    Vacant(generation).(state := state, protocol := Http1, h1 := Some(j), lease := lease,
                        sourceEnabled := o.source, sourceComplete := !o.source, fileSink := o.fileSink)
  }

  function FreshH2(generation: nat, p: nat, k: nat, o: Options, lease: bool): Slot {
    Vacant(generation).(state := SlotBusy, protocol := Http2, h2 := Some(p), entry := k, lease := lease, fileSink := o.fileSink)
  }

  /** chttp_h1_reserve */
  predicate Reservable(t: H1) {
    t.state == H1Idle && t.request == None && t.operation == 0 && !t.sendPending && t.receiveArmed
  }

  function FirstPipe(h1: seq<H1>, identity: Identity, j: nat): (r: Option<nat>)
    ensures r.Some? ==> j <= r.value < |h1| && h1[r.value].state == H1Idle && h1[r.value].origin.identity == identity
    decreases |h1| - j
  {
    if j >= |h1| then None
    else if h1[j].state == H1Idle && h1[j].receiveArmed && h1[j].origin.identity == identity then Some(j)
    else FirstPipe(h1, identity, j + 1)
  }

  /** The idle connection a request may reuse; the pool offers only those filed under the key. */
  function Reusable(c: State, o: Options, key: Key, m: Meeting): (r: Option<nat>)
    ensures r.Some? ==> r.value < |c.h1| && c.h1[r.value].state == H1Idle
  {
    if o.pipe then FirstPipe(c.h1, o.identity, 0)
    else if m.offered.Some? && m.offered.value < |c.h1| && c.h1[m.offered.value].origin.key == key && Reservable(c.h1[m.offered.value])
    then m.offered
    else None
  }

  function Taken(t: H1, i: nat, operation: nat): H1 {
    t.(operation := operation, request := Some(i), state := H1Active)
  }

  function Submitted(book: Ledger, h: Handle): Ledger {
    book.(issued := book.issued + multiset{h}, submitted := book.submitted + {h})
  }

  function Leaked(book: Ledger, h: Handle): Ledger {
    book.(issued := book.issued + multiset{h}, leaked := book.leaked + {h})
  }

  /** The request goes out on an idle connection. */
  function SentOn(c: State, i: nat, s: Slot, j: nat): State
    requires i < |c.slots| && j < |c.h1| == |c.traffic|
  {
    PutPair(c, i, s, j, Taken(c.h1[j], i, c.nextOperation + 1).(sendPending := true))
      .(nextOperation := c.nextOperation + 1,
        book := Submitted(c.book, Handle(i + 1, s.generation)),
        traffic := c.traffic[j := Traffic(c.traffic[j].admitted + [Handle(i + 1, s.generation)], c.traffic[j].inFlight + 1)])
  }

  /** The request was refused and its lease could not be given back: the slot stays taken. */
  function LeakedOn(c: State, i: nat, s: Slot, j: nat): State
    requires i < |c.slots| && j < |c.h1|
  {
    PutPair(c, i, s, j, Taken(c.h1[j], i, c.nextOperation + 1))
      .(nextOperation := c.nextOperation + 1,
        book := Leaked(c.book, Handle(i + 1, s.generation)))
  }

  /** A request on an idle connection. */
  function Reuse(c: State, i: nat, j: nat, o: Options, m: Meeting): Placing
    requires i < |c.slots| && j < |c.h1|
  {
    var s := FreshH1(c.slots[i].generation + 1, j, SlotBusy, o, !o.pipe);
    if m.send == Ok && |c.traffic| == |c.h1| then Placing(SentOn(c, i, s, j), Some(Handle(i + 1, s.generation)), Nothing)
    else if s.lease && m.release != Ok then Placing(LeakedOn(c, i, s, j), None, Nothing)
    else Placing(PutSlot(c.(nextOperation := c.nextOperation + 1), i, Vacant(s.generation)), None, Cleanup(m.send == NoBufs))
  }

  function FirstUnused(h1: seq<H1>, j: nat): (r: Option<nat>)
    ensures r.Some? ==> j <= r.value < |h1| && h1[r.value].state == H1Free
    decreases |h1| - j
  {
    if j >= |h1| then None else if h1[j].state == H1Free then Some(j) else FirstUnused(h1, j + 1)
  }

  function NewSession(o: Options, key: Key, pooled: bool, managed: bool): H1 {
    UNUSED_H1.(state := H1Connecting, origin := Origin(Http1, o.identity, key), pooled := pooled, managed := managed)
  }

  function ConnectingOn(c: State, i: nat, s: Slot, j: nat, t: H1): State
    requires i < |c.slots| && j < |c.h1|
  {
    PutPair(c, i, s, j, t.(request := Some(i), operation := c.nextOperation + 1))
      .(nextOperation := c.nextOperation + 1,
        book := Submitted(c.book, Handle(i + 1, s.generation)))
  }

  /** A request on a connection of its own. */
  function Connect(c: State, i: nat, j: nat, key: Key, o: Options, m: Meeting): Placing
    requires i < |c.slots| && j < |c.h1|
  {
    var s := FreshH1(c.slots[i].generation + 1, j, SlotConnecting, o, false);
    if m.connect == Ok then
      Placing(ConnectingOn(c, i, s, j, NewSession(o, key, !o.pipe, !o.pipe)), Some(Handle(i + 1, s.generation)), Nothing)
    else
      Placing(PutPair(c.(nextOperation := c.nextOperation + 1), i, Vacant(s.generation), j,
                      NewSession(o, key, !o.pipe && m.pooled, !o.pipe && m.managed).(state := H1Terminal, transportClosed := true)),
              None, Cleanup(m.connect == NoBufs))
  }

  /** chttp_async_client_submit_impl over HTTP/1.1, on the slot found for it and under its key. */
  function PlaceH1(c: State, i: nat, key: Key, o: Options, m: Meeting): Placing
    requires i < |c.slots|
  {
    var reuse, spare := Reusable(c, o, key, m), FirstUnused(c.h1, 0);
    var vacated := PutSlot(c, i, Vacant(c.slots[i].generation + 1));
    if !o.pipe && reuse.None? && m.acquire != Ok && m.acquire != NoBufs then Placing(vacated, None, Cleanup(false))
    else if reuse.None? && spare.None? then Placing(vacated, None, Cleanup(true))
    else if c.nextOperation >= UINT64_MAX then Placing(vacated, None, Cleanup(false))
    else if reuse.Some? then Reuse(c, i, reuse.value, o, m)
    else Connect(c, i, spare.value, key, o, m)
  }

  // ---------------------------------------------------------------- submission over HTTP/2

  function FirstVacancy(requests: seq<Option<nat>>, k: nat): (r: Option<nat>)
    ensures r.Some? ==> k <= r.value < |requests| && requests[r.value] == None
    decreases |requests| - k
  {
    if k >= |requests| then None else if requests[k].None? then Some(k) else FirstVacancy(requests, k + 1)
  }

  /** chttp_h2_session_submit takes a request. */
  predicate Accepts(t: H2, engine: Status) {
    (t.state == H2Connecting || t.state == H2Active) && t.active < |t.requests| && FirstVacancy(t.requests, 0).Some? && engine == Ok
  }

  function AdmitOn(c: State, i: nat, s: Slot, p: nat): State
    requires i < |c.slots| && p < |c.h2| && s.entry < |c.h2[p].requests|
  {
    PutSlot(c, i, s)
      .(h2 := c.h2[p := c.h2[p].(requests := c.h2[p].requests[s.entry := Some(i)], active := c.h2[p].active + 1)],
        book := Submitted(c.book, Handle(i + 1, s.generation)),
        timeline := if p < |c.epochs| then c.timeline + [Admitted(p, c.epochs[p], Handle(i + 1, s.generation))] else c.timeline)
  }

  function Admit(c: State, i: nat, p: nat, o: Options, lease: bool): Placing
    requires i < |c.slots| && p < |c.h2| && Accepts(c.h2[p], Ok)
  {
    var s := FreshH2(c.slots[i].generation + 1, p, FirstVacancy(c.h2[p].requests, 0).value, o, lease);
    Placing(AdmitOn(c, i, s, p), Some(Handle(i + 1, s.generation)), Nothing)
  }

  /** chttp_h2_reserve: the pool offers only sessions filed under the key. */
  predicate Offered(c: State, p: nat, key: Key, engine: Status) {
    && p < |c.h2| && c.h2[p].state == H2Active && c.h2[p].poolReady && !c.h2[p].poolDraining
    && c.h2[p].origin.key == key && Accepts(c.h2[p], engine)
  }

  /** The first session the pool does not know yet whose stream table answers other than busy. */
  function FirstUnpooled(h2: seq<H2>, identity: Identity, engine: nat -> Status, p: nat): (r: Option<nat>)
    ensures r.Some? ==> p <= r.value < |h2| && MatchesH2(h2[r.value], identity) && Accepts(h2[r.value], Ok)
    decreases |h2| - p
  {
    if p >= |h2| then None
    else if !h2[p].poolReady && MatchesH2(h2[p], identity) && Accepts(h2[p], Ok) && engine(p) != Busy then Some(p)
    else FirstUnpooled(h2, identity, engine, p + 1)
  }

  function FirstUnusedH2(h2: seq<H2>, p: nat): (r: Option<nat>)
    ensures r.Some? ==> p <= r.value < |h2| && h2[r.value].state == H2Free
    decreases |h2| - p
  {
    if p >= |h2| then None else if h2[p].state == H2Free then Some(p) else FirstUnusedH2(h2, p + 1)
  }

  /** chttp_h2_session_open: a new epoch of the session. */
  function OpenH2(c: State, p: nat, key: Key, o: Options, pooled: bool, managed: bool): State
    requires p < |c.h2|
  {
    PutH2(c, p, UNUSED_H2.(state := H2Connecting, requests := seq(|c.slots|, _ => None), origin := Origin(Http2, o.identity, key),
                           pooled := pooled, managed := managed))
      .(epochs := if p < |c.epochs| then c.epochs[p := c.epochs[p] + 1] else c.epochs)
  }

  /** A session of its own: one that cannot connect is given back at once. */
  function OpenAndAdmit(c: State, i: nat, p: nat, key: Key, o: Options, m: Meeting, net: Net): Placing
    requires i < |c.slots| && p < |c.h2|
  {
    if m.connect != Ok then
      Placing(PutSlot(Dead(c, p, key, o, m), i, Vacant(c.slots[i].generation + 1)), None, CleanupH2(m.connect == NoBufs))
    else AdmitFirst(OpenH2(c, p, key, o, true, true), i, p, o, m, net)
  }

  /** The first request of a new session. */
  function AdmitFirst(c: State, i: nat, p: nat, o: Options, m: Meeting, net: Net): Placing
    requires i < |c.slots| && p < |c.h2|
  {
    if Accepts(c.h2[p], m.engine(p)) then Admit(c, i, p, o, false)
    else Placing(BeginStopH2(PutSlot(c, i, Vacant(c.slots[i].generation + 1)), p, net.goaway(p), net.close2(p)), None, Nothing)
  }

  function Dead(c: State, p: nat, key: Key, o: Options, m: Meeting): State
    requires p < |c.h2|
  {
    var d := OpenH2(c, p, key, o, m.pooled, m.managed);
    Retire(d, p, d.h2[p].(state := H2Terminal))
  }

  /** chttp_h2_reap_terminal_sessions */
  function ReapSessions(c: State): State {
    Pass(c, |c.h2|, (d: State, p: nat) => (ReapH2(d, p), Ok)).0
  }

  /** chttp_h2_submit, on the slot found for it and under its key. */
  function PlaceH2(c: State, i: nat, key: Key, o: Options, m: Meeting, net: Net): Placing
    requires i < |c.slots|
  {
    if m.offered.Some? && Offered(c, m.offered.value, key, m.engine(m.offered.value)) then Admit(c, i, m.offered.value, o, true)
    else if m.acquire != Ok && m.acquire != NoBufs then Placing(PutSlot(c, i, Vacant(c.slots[i].generation + 1)), None, Nothing)
    else PlaceUnpooled(c, i, key, o, m, net)
  }

  /** The pool has nothing: a session it does not know yet, or a new one. */
  function PlaceUnpooled(c: State, i: nat, key: Key, o: Options, m: Meeting, net: Net): Placing
    requires i < |c.slots|
  {
    var spare, unpooled := FirstUnusedH2(c.h2, 0), FirstUnpooled(c.h2, o.identity, m.engine, 0);
    if unpooled.Some? && m.engine(unpooled.value) == Ok then Admit(c, i, unpooled.value, o, false)
    else if unpooled.Some? then Placing(PutSlot(c, i, Vacant(c.slots[i].generation + 1)), None, Nothing)
    else if spare.None? then Placing(PutSlot(c, i, Vacant(c.slots[i].generation + 1)), None, Evicting)
    else OpenAndAdmit(c, i, spare.value, key, o, m, net)
  }

  function Place(c: State, i: nat, o: Options, m: Meeting, net: Net): Placing
    requires i < |c.slots|
  {
    var key := PoolKey(c, o);
    if m.streaming != Ok || key.None? then
      Placing(PutSlot(c, i, Vacant(c.slots[i].generation + 1)), None,
              if o.protocol == Http2 then Nothing else Cleanup(m.streaming == NoBufs))
    else PlaceKeyed(c.(nextIdentity := key.value.1), i, key.value.0, o, m, net)
  }

  function PlaceKeyed(c: State, i: nat, key: Key, o: Options, m: Meeting, net: Net): Placing
    requires i < |c.slots|
  {
    if o.protocol == Http2 then PlaceH2(c, i, key, o, m, net) else PlaceH1(c, i, key, o, m)
  }

  /** chttp_async_client_submit: the handle of an admitted request, or none. */
  function Submit(c: State, o: Options, m: Meeting, net: Net): (State, Option<Handle>) {
    var free := FirstFree(c.slots, 0);
    if !c.admissionOpen || m.prepared != Ok || free.None? then (c, None)
    else
      var placing := Place(c, free.value, o, m, net);
      (Finish(placing.state, placing.after, net), placing.handle)
  }

  predicate WireFree(slots: seq<Slot>, wireId: nat) {
    forall i :: 0 <= i < |slots| ==> slots[i].wireId != Some(wireId)
  }

  /** The slot of a submitted request takes its wire identifier and deadline. */
  function Tagged(c: State, h: Option<Handle>, wireId: nat, deadline: nat): State {
    if h.None? || Find(c.slots, h.value).None? then c
    else
      var i := Find(c.slots, h.value).value;
      PutSlot(c, i, c.slots[i].(wireId := Some(wireId), deadline := deadline))
  }

  /** chttp_async_client_rpc_submit_transport */
  function SubmitRpc(c: State, o: Options, m: Meeting, net: Net, wireId: nat, deadline: nat): (State, Option<Handle>) {
    if !WireFree(c.slots, wireId) then (c, None)
    else
      var submitted := Submit(c, o, m, net);
      (Tagged(submitted.0, submitted.1, wireId, deadline), submitted.1)
  }

  // ---------------------------------------------------------------- deadlines and stopping

  predicate Expired(s: Slot, now: nat) {
    && Live(s) && !s.delivered && s.wireId.Some? && s.deadline != 0 && !s.deadlineCancelled && !s.cancelRequested
    && s.deadline <= now
  }

  /** The intent to time out is noted before the cancellation and withdrawn if that failed. */
  function ExpireSlot(c: State, i: nat, now: nat, answer: CancelCall): State {
    if i >= |c.slots| || !Expired(c.slots[i], now) then c
    else
      var noted := PutSlot(c, i, c.slots[i].(deadlineCancelled := true));
      var d := Cancel(noted, answer.(handle := HandleOf(c.slots, i)));
      if i < |d.slots| && !d.slots[i].cancelRequested then PutSlot(d, i, d.slots[i].(deadlineCancelled := false)) else d
  }

  /** chttp_rpc_expire_deadlines */
  function Expire(c: State, now: nat, answers: nat -> CancelCall): State {
    Pass(c, |c.slots|, (d: State, i: nat) => (ExpireSlot(d, i, now, answers(i)), Ok)).0
  }

  /** The client stops admitting; the sessions are told one by one. */
  function BeginStop(c: State): State {
    c.(admissionOpen := false, stopActive := true)
  }
}
