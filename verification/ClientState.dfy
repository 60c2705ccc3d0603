/**
 The tables of the asynchronous HTTP client: request slots, HTTP/1.1 sessions
 and HTTP/2 sessions, with what holds of them between any two events. Slots and
 sessions name each other by index, as the source does by pointer.
 */
module ClientState {
  import opened Octets

  const UINT32_MAX: nat := 0xFFFF_FFFF
  const UINT64_MAX: nat := 0xFFFF_FFFF_FFFF_FFFF

  /** What the network, the pool, the manager or the protocol engine answers. */
  datatype Status = Ok | NoBufs | Busy | Gone | Failed

  datatype Protocol = Http1 | Http2

  /** What the application calls a request by; slots count from one. */
  datatype Handle = Handle(slot: nat, generation: nat)

  datatype Identity = Identity(uri: string, authority: string, tls: Option<nat>, endpoint: nat, snapshot: nat)

  datatype Key = Key(endpoint: nat, peer: nat, authority: nat, transport: nat, tls: nat, protocol: nat)

  /** Whom a connection talks to, and the pool key it was filed under. */
  datatype Origin = Origin(protocol: Protocol, identity: Identity, key: Key)

  datatype SlotState = SlotFree | SlotConnecting | SlotBusy | SlotClosing | SlotTerminal

  datatype Slot = Slot(
    state: SlotState,
    generation: nat,
    protocol: Protocol,
    h1: Option<nat>,
    h2: Option<nat>,
    entry: nat,
    lease: bool,
    completed: bool,
    terminalPending: bool,
    complete: bool,
    keepAlive: bool,
    delivered: bool,
    cancelRequested: bool,
    sourceEnabled: bool,
    sourceComplete: bool,
    finalPending: bool,
    fileWaiting: bool,
    fileSink: bool,
    filePending: bool,
    wireId: Option<nat>,
    deadline: nat,
    deadlineCancelled: bool)

  datatype H1State = H1Free | H1Connecting | H1Active | H1Idle | H1Closing | H1Terminal

  datatype H1 = H1(
    state: H1State,
    request: Option<nat>,
    operation: nat,
    origin: Origin,
    pooled: bool,
    managed: bool,
    poolReady: bool,
    contextReleased: bool,
    closeAdmitted: bool,
    closePending: bool,
    receiveArmed: bool,
    sendPending: bool,
    transportClosed: bool)

  datatype H2State = H2Free | H2Connecting | H2Active | H2Draining | H2Closing | H2Terminal

  datatype H2 = H2(
    state: H2State,
    requests: seq<Option<nat>>,
    active: nat,
    origin: Origin,
    pooled: bool,
    managed: bool,
    poolReady: bool,
    poolDraining: bool,
    contextReleased: bool,
    closeAfterFlush: bool,
    closeAdmitted: bool,
    closePending: bool,
    failed: bool)

  const NOWHERE := Origin(Http1, Identity("", "", None, 0, 0), Key(0, 0, 0, 0, 0, 0))

  /** A slot after release: only its generation is left. */
  function Vacant(generation: nat): Slot {
    Slot(SlotFree, generation, Http1, None, None, 0, false, false, false, false, false, false, false,
         false, false, false, false, false, false, None, 0, false)
  }

  const UNUSED_H1 := H1(H1Free, None, 0, NOWHERE, false, false, false, false, false, false, false, false, false)
  const UNUSED_H2 := H2(H2Free, [], 0, NOWHERE, false, false, false, false, false, false, false, false, false)

  predicate Live(s: Slot) {
    s.state != SlotFree
  }

  function HandleOf(slots: seq<Slot>, i: nat): Handle
    requires i < |slots|
  {
    Handle(i + 1, slots[i].generation)
  }

  /** The slot a handle resolves to. */
  function Find(slots: seq<Slot>, h: Handle): Option<nat> {
    if h.slot == 0 || h.slot > |slots| || h.generation == 0 then None
    else if Live(slots[h.slot - 1]) && slots[h.slot - 1].generation == h.generation then Some(h.slot - 1)
    else None
  }

  /** Nothing of the exchange is outstanding but a send: the connection can serve again. */
  predicate Clean(s: Slot) {
    s.complete && s.keepAlive && s.sourceComplete
  }

  // ---------------------------------------------------------------- slots and HTTP/1.1 sessions

  predicate SlotOk(s: Slot) {
    && s.generation <= UINT32_MAX
    && (s.state == SlotFree ==> s == Vacant(s.generation))
    && (Live(s) ==> 1 <= s.generation)
    && (s.state == SlotTerminal ==> s.delivered)
    && (s.fileWaiting ==> s.state != SlotConnecting)
    && (Live(s) && s.protocol == Http1 ==> s.h1.Some? && s.h2 == None && !s.completed)
    && (Live(s) && s.protocol == Http2 ==>
      && s.h2.Some? && s.h1 == None
      && (s.state == SlotBusy || s.state == SlotTerminal)
      && (s.delivered ==> s.completed))
  }

  predicate SessionOk(t: H1) {
    && (t.state == H1Free ==> t == UNUSED_H1)
    && (t.state == H1Idle ==> t.request == None && t.operation == 0 && !t.sendPending)
    && (t.state == H1Active ==> t.request.Some?)
    && (t.state == H1Connecting || t.state == H1Active || t.state == H1Idle ==> !t.transportClosed && !t.closeAdmitted && !t.closePending)
    && (t.state == H1Connecting ==> !t.sendPending)
    && (t.transportClosed ==> !t.sendPending)
    && (t.state == H1Terminal ==> t.transportClosed)
  }

  /** Slot `s` is the request that session `j`, in state `t`, is serving. */
  predicate Bound(s: Slot, j: nat, t: H1) {
    && Live(s) && s.protocol == Http1 && s.h1 == Some(j)
    && (s.state == SlotConnecting ==> t.state == H1Connecting || t.state == H1Terminal)
    && (t.state == H1Connecting ==> s.state == SlotConnecting || s.state == SlotTerminal)
    && (t.state == H1Active ==> s.state == SlotBusy || s.state == SlotTerminal)
    && (t.state == H1Active && s.state == SlotTerminal ==> Clean(s))
    && (s.fileWaiting ==> !t.sendPending)
  }

  predicate Serving(slots: seq<Slot>, j: nat, t: H1) {
    t.request.Some? ==> t.request.value < |slots| && Bound(slots[t.request.value], j, t)
  }

  /**
   A slot whose session no longer points back: its request is over, the session
   serves nobody, and the client is stopping.
   */
  predicate Stale(s: Slot, t: H1, stopping: bool) {
    stopping && s.state == SlotTerminal && t.request == None
  }

  predicate Linked(i: nat, s: Slot, h1: seq<H1>, stopping: bool) {
    s.h1.Some? ==>
      && s.h1.value < |h1|
      && (h1[s.h1.value].request == Some(i) || Stale(s, h1[s.h1.value], stopping))
  }

  predicate SlotAt(slots: seq<Slot>, h1: seq<H1>, stopping: bool, i: nat)
    requires i < |slots|
  {
    SlotOk(slots[i]) && Linked(i, slots[i], h1, stopping)
  }

  predicate SessionAt(slots: seq<Slot>, h1: seq<H1>, j: nat)
    requires j < |h1|
  {
    SessionOk(h1[j]) && Serving(slots, j, h1[j])
  }

  predicate Tables(slots: seq<Slot>, h1: seq<H1>, stopping: bool) {
    && (forall i :: 0 <= i < |slots| ==> SlotAt(slots, h1, stopping, i))
    && (forall j :: 0 <= j < |h1| ==> SessionAt(slots, h1, j))
  }

  /**
   A result delivered leaves a slot busy only while a send of a finished
   keep-alive exchange settles. `but` is a slot in the middle of its delivery.
   */
  predicate SettledSlot(s: Slot) {
    && (s.delivered && s.state == SlotBusy ==> s.protocol == Http1 && Clean(s))
    && (s.completed ==> s.state == SlotTerminal && s.delivered)
  }

  predicate SettledAt(slots: seq<Slot>, i: nat)
    requires i < |slots|
  {
    SettledSlot(slots[i])
  }

  predicate Settled(slots: seq<Slot>, but: Option<nat>) {
    forall i :: 0 <= i < |slots| && but != Some(i) ==> SettledAt(slots, i)
  }

  // ---------------------------------------------------------------- what went over each connection

  /** The requests whose bytes a connection took, and the sends it has not completed. */
  datatype Traffic = Traffic(admitted: seq<Handle>, inFlight: nat)

  predicate Served(admitted: seq<Handle>, finished: set<Handle>, current: Option<Handle>) {
    forall h :: h in admitted ==> h in finished || current == Some(h)
  }

  predicate CarriedBy(slots: seq<Slot>, t: H1, carried: Traffic, finished: set<Handle>) {
    && (!t.transportClosed ==> carried.inFlight == if t.sendPending then 1 else 0)
    && (t.state == H1Free || t.state == H1Connecting ==> carried.admitted == [])
    && (t.state == H1Idle ==> Served(carried.admitted, finished, None))
    && (t.state == H1Active && t.request.Some? && t.request.value < |slots| ==>
      Served(carried.admitted, finished, Some(HandleOf(slots, t.request.value))))
  }

  predicate CarriedAt(slots: seq<Slot>, h1: seq<H1>, traffic: seq<Traffic>, finished: set<Handle>, j: nat)
    requires j < |h1| == |traffic|
  {
    CarriedBy(slots, h1[j], traffic[j], finished)
  }

  predicate Carried(slots: seq<Slot>, h1: seq<H1>, traffic: seq<Traffic>, finished: set<Handle>) {
    && |traffic| == |h1|
    && (forall j :: 0 <= j < |h1| ==> CarriedAt(slots, h1, traffic, finished, j))
  }

  // ---------------------------------------------------------------- callbacks

  /**
   Every admission of a handle, those whose submission succeeded, those of a
   failed submission whose slot could not be given back, every callback made, and
   the handles whose slot was recycled.
   */
  datatype Ledger = Ledger(
    issued: multiset<Handle>,
    submitted: set<Handle>,
    leaked: set<Handle>,
    calls: multiset<Handle>,
    recycled: set<Handle>)

  predicate AccountedSlot(slots: seq<Slot>, i: nat, book: Ledger)
    requires i < |slots|
  {
    Live(slots[i]) ==>
      && Known(book, HandleOf(slots, i))
      && HandleOf(slots, i) !in book.recycled
      && book.calls[HandleOf(slots, i)] == if slots[i].delivered then 1 else 0
  }

  predicate AccountedHandle(slots: seq<Slot>, h: Handle, book: Ledger) {
    && 1 <= h.slot <= |slots| && 1 <= h.generation <= slots[h.slot - 1].generation
    && book.issued[h] == 1 && book.calls[h] <= 1
    && (h in book.recycled ==> book.calls[h] == 1)
    && (h in book.recycled <==> Find(slots, h) == None)
  }

  predicate Known(book: Ledger, h: Handle) {
    h in book.submitted || h in book.leaked
  }

  predicate AccountedAt(slots: seq<Slot>, book: Ledger, h: Handle) {
    && !(h in book.submitted && h in book.leaked)
    && (h in book.issued || h in book.calls || h in book.recycled ==> Known(book, h))
    && (Known(book, h) ==> AccountedHandle(slots, h, book))
  }

  ghost predicate Accounted(slots: seq<Slot>, book: Ledger) {
    && (forall i :: 0 <= i < |slots| ==> AccountedSlot(slots, i, book))
    && (forall h :: AccountedAt(slots, book, h))
  }

  // ---------------------------------------------------------------- RPC wire identifiers

  predicate WirePair(slots: seq<Slot>, i: nat, k: nat)
    requires i < |slots| && k < |slots|
  {
    slots[i].wireId.Some? ==> slots[i].wireId != slots[k].wireId
  }

  predicate WireIds(slots: seq<Slot>) {
    forall i, k :: 0 <= i < k < |slots| ==> WirePair(slots, i, k)
  }

  // ---------------------------------------------------------------- HTTP/2 registries

  function Occupied(requests: seq<Option<nat>>): nat {
    if requests == [] then 0 else Occupied(requests[..|requests| - 1]) + if requests[|requests| - 1].Some? then 1 else 0
  }

  lemma {:induction false} OccupiedUpdate(requests: seq<Option<nat>>, k: nat, v: Option<nat>)
    requires k < |requests|
    ensures Occupied(requests[k := v]) == Occupied(requests) + (if v.Some? then 1 else 0) - (if requests[k].Some? then 1 else 0)
  {
    var n := |requests| - 1;
    if k == n {
      assert requests[k := v][..n] == requests[..n];
    } else {
      assert requests[k := v][..n] == requests[..n][k := v];
      OccupiedUpdate(requests[..n], k, v);
    }
  }

  lemma {:induction false} OccupiedNone(requests: seq<Option<nat>>)
    requires forall k :: 0 <= k < |requests| ==> requests[k] == None
    ensures Occupied(requests) == 0
  {
    if requests != [] {
      OccupiedNone(requests[..|requests| - 1]);
    }
  }

  lemma {:induction false} OccupiedBound(requests: seq<Option<nat>>, k: nat)
    requires k < |requests| && requests[k].Some?
    ensures Occupied(requests) > 0
  {
    OccupiedUpdate(requests, k, None);
  }

  predicate EntryOk(slots: seq<Slot>, s: nat, k: nat, entry: Option<nat>) {
    entry.Some? ==>
      && entry.value < |slots|
      && Live(slots[entry.value]) && slots[entry.value].protocol == Http2
      && slots[entry.value].h2 == Some(s) && slots[entry.value].entry == k
  }

  predicate Registered(i: nat, s: Slot, h2: seq<H2>) {
    s.h2.Some? ==>
      && s.h2.value < |h2| && s.entry < |h2[s.h2.value].requests|
      && h2[s.h2.value].requests[s.entry] == Some(i)
  }

  predicate RegisteredAt(slots: seq<Slot>, h2: seq<H2>, i: nat)
    requires i < |slots|
  {
    Registered(i, slots[i], h2)
  }

  predicate EntryAt(slots: seq<Slot>, s: nat, t: H2, k: nat)
    requires k < |t.requests|
  {
    EntryOk(slots, s, k, t.requests[k])
  }

  predicate RegistryOk(slots: seq<Slot>, s: nat, t: H2) {
    && t.active == Occupied(t.requests)
    && (t.state == H2Free ==> t == UNUSED_H2)
    && (forall k :: 0 <= k < |t.requests| ==> EntryAt(slots, s, t, k))
  }

  predicate RegistryAt(slots: seq<Slot>, h2: seq<H2>, s: nat)
    requires s < |h2|
  {
    RegistryOk(slots, s, h2[s])
  }

  predicate Registry(slots: seq<Slot>, h2: seq<H2>) {
    && (forall s :: 0 <= s < |h2| ==> RegistryAt(slots, h2, s))
    && (forall i :: 0 <= i < |slots| ==> RegisteredAt(slots, h2, i))
  }

  /** The life of the HTTP/2 connections: each opening of a session is an epoch of it. */
  datatype Milestone = Admitted(session: nat, epoch: nat, handle: Handle) | Retired(session: nat, epoch: nat)

  predicate Retiring(state: H2State) {
    state == H2Draining || state == H2Closing || state == H2Terminal
  }

  predicate MilestoneOk(m: Milestone, h2: seq<H2>, epochs: seq<nat>)
    requires |epochs| == |h2|
  {
    && m.session < |h2| && m.epoch <= epochs[m.session]
    && (m.Retired? && m.epoch == epochs[m.session] ==>
      Retiring(h2[m.session].state) || h2[m.session].state == H2Free)
  }

  predicate MilestoneAt(h2: seq<H2>, epochs: seq<nat>, timeline: seq<Milestone>, p: nat)
    requires p < |timeline| && |epochs| == |h2|
  {
    MilestoneOk(timeline[p], h2, epochs)
  }

  predicate InOrder(timeline: seq<Milestone>, p: nat, q: nat)
    requires p < |timeline| && q < |timeline|
  {
    timeline[p].Retired? && timeline[q].Admitted? ==>
      timeline[p].session != timeline[q].session || timeline[p].epoch != timeline[q].epoch
  }

  /** Nothing is admitted in an epoch once the session has started to retire. */
  predicate NoLateAdmission(timeline: seq<Milestone>) {
    forall p, q :: 0 <= p < q < |timeline| ==> InOrder(timeline, p, q)
  }

  predicate Epoch(h2: seq<H2>, epochs: seq<nat>, timeline: seq<Milestone>, s: nat)
    requires s < |h2| == |epochs|
  {
    Retiring(h2[s].state) ==> Retired(s, epochs[s]) in timeline
  }

  predicate Chronicled(h2: seq<H2>, epochs: seq<nat>, timeline: seq<Milestone>) {
    && |epochs| == |h2|
    && NoLateAdmission(timeline)
    && (forall p :: 0 <= p < |timeline| ==> MilestoneAt(h2, epochs, timeline, p))
    && (forall s :: 0 <= s < |h2| ==> Epoch(h2, epochs, timeline, s))
  }

  // ---------------------------------------------------------------- pool keys

  /** A fresh authority number is given to every new origin and copied with its key only. */
  predicate Agree(a: Origin, b: Origin) {
    a.key.authority == b.key.authority ==> a == b
  }

  predicate KeyAt1(h1: seq<H1>, next: nat, j: nat)
    requires j < |h1|
  {
    h1[j].state != H1Free ==> h1[j].origin.protocol == Http1 && 1 <= h1[j].origin.key.authority <= next
  }

  predicate KeyAt2(h2: seq<H2>, next: nat, s: nat)
    requires s < |h2|
  {
    h2[s].state != H2Free ==> h2[s].origin.protocol == Http2 && 1 <= h2[s].origin.key.authority <= next
  }

  predicate KeyPair1(h1: seq<H1>, j: nat, k: nat)
    requires j < |h1| && k < |h1|
  {
    h1[j].state != H1Free && h1[k].state != H1Free ==>
      && Agree(h1[j].origin, h1[k].origin)
      && (h1[j].origin.identity == h1[k].origin.identity ==> h1[j].origin == h1[k].origin)
  }

  predicate KeyPair2(h2: seq<H2>, s: nat, t: nat)
    requires s < |h2| && t < |h2|
  {
    h2[s].state != H2Free && h2[t].state != H2Free ==> Agree(h2[s].origin, h2[t].origin)
  }

  predicate KeyPair12(h1: seq<H1>, h2: seq<H2>, j: nat, s: nat)
    requires j < |h1| && s < |h2|
  {
    h1[j].state != H1Free && h2[s].state != H2Free ==> Agree(h1[j].origin, h2[s].origin)
  }

  predicate Keyed(h1: seq<H1>, h2: seq<H2>, next: nat) {
    && (forall j :: 0 <= j < |h1| ==> KeyAt1(h1, next, j))
    && (forall s :: 0 <= s < |h2| ==> KeyAt2(h2, next, s))
    && (forall j, k :: 0 <= j < |h1| && 0 <= k < |h1| ==> KeyPair1(h1, j, k))
    && (forall s, t :: 0 <= s < |h2| && 0 <= t < |h2| ==> KeyPair2(h2, s, t))
    && (forall j, s :: 0 <= j < |h1| && 0 <= s < |h2| ==> KeyPair12(h1, h2, j, s))
  }

  // ---------------------------------------------------------------- the whole client

  /**
   The client between two steps. The last five fields are not in the source:
   they record what happened, for the statements below.
   */
  datatype State = State(
    slots: seq<Slot>,
    h1: seq<H1>,
    h2: seq<H2>,
    nextOperation: nat,
    nextIdentity: nat,
    admissionOpen: bool,
    stopActive: bool,
    book: Ledger,
    traffic: seq<Traffic>,
    finished: set<Handle>,
    epochs: seq<nat>,
    timeline: seq<Milestone>)

  /** What holds at every point where the application can run. */
  ghost predicate Core(c: State) {
    && |c.slots| <= UINT32_MAX
    && c.nextOperation <= UINT64_MAX && c.nextIdentity <= UINT64_MAX
    && (c.stopActive ==> !c.admissionOpen)
    && Tables(c.slots, c.h1, c.stopActive)
    && Carried(c.slots, c.h1, c.traffic, c.finished)
    && Accounted(c.slots, c.book)
    && WireIds(c.slots)
    && Registry(c.slots, c.h2)
    && Chronicled(c.h2, c.epochs, c.timeline)
    && Keyed(c.h1, c.h2, c.nextIdentity)
  }

  /** What holds between two steps. */
  ghost predicate Valid(c: State) {
    Core(c) && Settled(c.slots, None)
  }

  function Initial(requests: nat, connections: nat): State {
    State(seq(requests, _ => Vacant(0)), seq(connections, _ => UNUSED_H1), seq(connections, _ => UNUSED_H2),
          0, 0, true, false,
          Ledger(multiset{}, {}, {}, multiset{}, {}), seq(connections, _ => Traffic([], 0)), {}, seq(connections, _ => 0), [])
  }

  lemma InitialValid(requests: nat, connections: nat)
    requires requests <= UINT32_MAX
    ensures Valid(Initial(requests, connections))
  {
    var c := Initial(requests, connections);
    forall s | 0 <= s < connections
      ensures RegistryAt(c.slots, c.h2, s)
    {
      assert c.h2[s].requests == [];
    }
  }

  // ---------------------------------------------------------------- passes over a table

  /** A step on each of the first `n` indices in turn; an error ends the pass. */
  function Pass(c: State, n: nat, step: (State, nat) -> (State, Status)): (State, Status) {
    if n == 0 then (c, Ok)
    else
      var prior := Pass(c, n - 1, step);
      if prior.1 != Ok then prior else step(prior.0, n - 1)
  }

  /** What every step keeps, the pass keeps. */
  lemma {:induction false} PassKeeps(c: State, n: nat, step: (State, nat) -> (State, Status), inv: State -> bool)
    requires inv(c) && forall d, k :: inv(d) ==> inv(step(d, k).0)
    ensures inv(Pass(c, n, step).0)
  {
    if n > 0 {
      PassKeeps(c, n - 1, step, inv);
    }
  }
}
