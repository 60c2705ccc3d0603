/**
 Submission keeps the client valid, puts a request only on a connection to its
 own origin, and calls nobody back.
 */
module ClientSubmitKeeps {
  import opened Octets
  import opened ClientState
  import opened ClientH1
  import opened ClientH2
  import opened ClientPool
  import opened ClientSteps
  import opened ClientH1Keeps
  import opened ClientH2Keeps
  import opened ClientReapKeeps

  // ---------------------------------------------------------------- a slot is spent or taken

  lemma VacantAccounted(slots: seq<Slot>, book: Ledger, i: nat)
    requires Accounted(slots, book) && i < |slots| && !Live(slots[i])
    ensures Accounted(slots[i := Vacant(slots[i].generation + 1)], book)
  {
    var slots' := slots[i := Vacant(slots[i].generation + 1)];
    forall k | 0 <= k < |slots'|
      ensures AccountedSlot(slots', k, book)
    {
      assert AccountedSlot(slots, k, book);
    }
    forall h
      ensures AccountedAt(slots', book, h)
    {
      assert AccountedAt(slots, book, h);
    }
  }

  /** A rejected submission spends a generation. */
  lemma VacateKeeps(c: State, i: nat)
    requires Valid(c) && i < |c.slots| && !Live(c.slots[i]) && c.slots[i].generation < UINT32_MAX
    ensures Valid(PutSlot(c, i, Vacant(c.slots[i].generation + 1)))
  {
    assert SlotAt(c.slots, c.h1, c.stopActive, i);
    var s := Vacant(c.slots[i].generation + 1);
    VacantTables(c.slots, c.h1, c.stopActive, i, s.generation);
    VacantCarried(c.slots, c.h1, c.traffic, c.finished, c.stopActive, i, s);
    VacantAccounted(c.slots, c.book, i);
    SlotWireIds(c.slots, i, s);
    VacantRegistry(c.slots, c.h2, i, s.generation);
    SettledPut(c.slots, None, i, s);
  }

  /** A free slot serves on no connection, so its generation is nobody's current handle. */
  lemma VacantCarried(slots: seq<Slot>, h1: seq<H1>, traffic: seq<Traffic>, finished: set<Handle>, stopping: bool, i: nat, s: Slot)
    requires Carried(slots, h1, traffic, finished) && Tables(slots, h1, stopping) && i < |slots| && !Live(slots[i])
    ensures Carried(slots[i := s], h1, traffic, finished)
  {
    var slots' := slots[i := s];
    forall j | 0 <= j < |h1|
      ensures CarriedAt(slots', h1, traffic, finished, j)
    {
      assert CarriedAt(slots, h1, traffic, finished, j) && SessionAt(slots, h1, j);
    }
  }

  /** The handle of the next admission of a slot has never been used. */
  lemma FreshHandle(slots: seq<Slot>, book: Ledger, i: nat)
    requires Accounted(slots, book) && i < |slots|
    ensures !Known(book, Handle(i + 1, slots[i].generation + 1))
    ensures Handle(i + 1, slots[i].generation + 1) !in book.calls && Handle(i + 1, slots[i].generation + 1) !in book.issued
    ensures Handle(i + 1, slots[i].generation + 1) !in book.recycled
  {
    assert AccountedAt(slots, book, Handle(i + 1, slots[i].generation + 1));
  }

  lemma AdmitAccounted(slots: seq<Slot>, book: Ledger, i: nat, s: Slot, book': Ledger)
    requires Accounted(slots, book) && i < |slots| && !Live(slots[i])
    requires Live(s) && !s.delivered && s.generation == slots[i].generation + 1
    requires book' == Submitted(book, Handle(i + 1, s.generation)) || book' == Leaked(book, Handle(i + 1, s.generation))
    ensures Accounted(slots[i := s], book')
  {
    FreshHandle(slots, book, i);
    var slots', h0 := slots[i := s], Handle(i + 1, s.generation);
    forall k | 0 <= k < |slots'|
      ensures AccountedSlot(slots', k, book')
    {
      assert AccountedSlot(slots, k, book);
    }
    forall h
      ensures AccountedAt(slots', book', h)
    {
      assert AccountedAt(slots, book, h);
    }
  }

  // ---------------------------------------------------------------- keys

  /** An origin that can join the live sessions without two of them sharing a key wrongly. */
  predicate Joins(h1: seq<H1>, h2: seq<H2>, o: Origin) {
    && (forall j :: 0 <= j < |h1| && h1[j].state != H1Free ==> Agree(o, h1[j].origin))
    && (forall p :: 0 <= p < |h2| && h2[p].state != H2Free ==> Agree(o, h2[p].origin))
    && (o.protocol == Http1 ==>
      forall j :: 0 <= j < |h1| && h1[j].state != H1Free && h1[j].origin.identity == o.identity ==> h1[j].origin == o)
  }

  lemma KnownH1Joins(h1: seq<H1>, h2: seq<H2>, next: nat, k: nat)
    requires Keyed(h1, h2, next) && k < |h1| && h1[k].state != H1Free
    ensures h1[k].origin.protocol == Http1 && 1 <= h1[k].origin.key.authority <= next && Joins(h1, h2, h1[k].origin)
  {
    assert KeyAt1(h1, next, k);
    forall j | 0 <= j < |h1| && h1[j].state != H1Free
      ensures Agree(h1[k].origin, h1[j].origin) && (h1[j].origin.identity == h1[k].origin.identity ==> h1[j].origin == h1[k].origin)
    {
      assert KeyPair1(h1, k, j);
    }
    forall p | 0 <= p < |h2| && h2[p].state != H2Free
      ensures Agree(h1[k].origin, h2[p].origin)
    {
      assert KeyPair12(h1, h2, k, p);
    }
  }

  lemma KnownH2Joins(h1: seq<H1>, h2: seq<H2>, next: nat, k: nat)
    requires Keyed(h1, h2, next) && k < |h2| && h2[k].state != H2Free
    ensures h2[k].origin.protocol == Http2 && 1 <= h2[k].origin.key.authority <= next && Joins(h1, h2, h2[k].origin)
  {
    assert KeyAt2(h2, next, k);
    forall j | 0 <= j < |h1| && h1[j].state != H1Free
      ensures Agree(h2[k].origin, h1[j].origin)
    {
      assert KeyPair12(h1, h2, j, k);
    }
    forall p | 0 <= p < |h2| && h2[p].state != H2Free
      ensures Agree(h2[k].origin, h2[p].origin)
    {
      assert KeyPair2(h2, k, p);
    }
  }

  lemma KnownKeyJoins(c: State, o: Options)
    requires Keyed(c.h1, c.h2, c.nextIdentity) && PoolKey(c, o).Some? && PoolKey(c, o).value.1 == c.nextIdentity
    ensures 1 <= PoolKey(c, o).value.0.authority <= c.nextIdentity
    ensures Joins(c.h1, c.h2, Origin(o.protocol, o.identity, PoolKey(c, o).value.0))
  {
    var key := PoolKey(c, o).value.0;
    if o.protocol == Http1 {
      var k :| 0 <= k < |c.h1| && c.h1[k].state != H1Free && c.h1[k].origin.identity == o.identity && c.h1[k].origin.key == key;
      KnownH1Joins(c.h1, c.h2, c.nextIdentity, k);
    } else {
      var k :| 0 <= k < |c.h2| && MatchesH2(c.h2[k], o.identity) && c.h2[k].origin.key == key;
      KnownH2Joins(c.h1, c.h2, c.nextIdentity, k);
    }
  }

  lemma NewKeyJoins(c: State, o: Options)
    requires Keyed(c.h1, c.h2, c.nextIdentity) && PoolKey(c, o).Some? && PoolKey(c, o).value.1 != c.nextIdentity
    ensures PoolKey(c, o).value.0.authority == PoolKey(c, o).value.1 == c.nextIdentity + 1 <= UINT64_MAX
    ensures Joins(c.h1, c.h2, Origin(o.protocol, o.identity, PoolKey(c, o).value.0))
  {
    var origin := Origin(o.protocol, o.identity, PoolKey(c, o).value.0);
    forall j | 0 <= j < |c.h1| && c.h1[j].state != H1Free
      ensures Agree(origin, c.h1[j].origin)
    {
      assert KeyAt1(c.h1, c.nextIdentity, j);
    }
    forall p | 0 <= p < |c.h2| && c.h2[p].state != H2Free
      ensures Agree(origin, c.h2[p].origin)
    {
      assert KeyAt2(c.h2, c.nextIdentity, p);
    }
  }

  lemma KeyedGrows(h1: seq<H1>, h2: seq<H2>, next: nat, next': nat)
    requires Keyed(h1, h2, next) && next <= next'
    ensures Keyed(h1, h2, next')
  {
    forall j | 0 <= j < |h1|
      ensures KeyAt1(h1, next', j)
    {
      assert KeyAt1(h1, next, j);
    }
    forall p | 0 <= p < |h2|
      ensures KeyAt2(h2, next', p)
    {
      assert KeyAt2(h2, next, p);
    }
  }

  /** Whatever key a submission is given, it can be filed under it. */
  lemma PoolKeyKeeps(c: State, o: Options)
    requires Valid(c) && PoolKey(c, o).Some?
    ensures Valid(c.(nextIdentity := PoolKey(c, o).value.1))
    ensures 1 <= PoolKey(c, o).value.0.authority <= PoolKey(c, o).value.1
    ensures Joins(c.h1, c.h2, Origin(o.protocol, o.identity, PoolKey(c, o).value.0))
  {
    if PoolKey(c, o).value.1 == c.nextIdentity {
      KnownKeyJoins(c, o);
    } else {
      NewKeyJoins(c, o);
    }
    KeyedGrows(c.h1, c.h2, c.nextIdentity, PoolKey(c, o).value.1);
  }

  lemma JoinH1Keyed(c: State, j: nat, t: H1)
    requires Keyed(c.h1, c.h2, c.nextIdentity) && j < |c.h1| && c.h1[j].state == H1Free && t.state != H1Free
    requires t.origin.protocol == Http1 && 1 <= t.origin.key.authority <= c.nextIdentity && Joins(c.h1, c.h2, t.origin)
    ensures Keyed(c.h1[j := t], c.h2, c.nextIdentity)
  {
    var h1' := c.h1[j := t];
    forall a | 0 <= a < |h1'|
      ensures KeyAt1(h1', c.nextIdentity, a)
    {
      assert KeyAt1(c.h1, c.nextIdentity, a);
    }
    forall a, b | 0 <= a < |h1'| && 0 <= b < |h1'|
      ensures KeyPair1(h1', a, b)
    {
      assert KeyPair1(c.h1, a, b);
    }
    forall a, p | 0 <= a < |h1'| && 0 <= p < |c.h2|
      ensures KeyPair12(h1', c.h2, a, p)
    {
      assert KeyPair12(c.h1, c.h2, a, p);
    }
  }

  lemma JoinH2Keyed(c: State, p: nat, t: H2)
    requires Keyed(c.h1, c.h2, c.nextIdentity) && p < |c.h2| && c.h2[p].state == H2Free && t.state != H2Free
    requires t.origin.protocol == Http2 && 1 <= t.origin.key.authority <= c.nextIdentity && Joins(c.h1, c.h2, t.origin)
    ensures Keyed(c.h1, c.h2[p := t], c.nextIdentity)
  {
    var h2' := c.h2[p := t];
    forall a | 0 <= a < |h2'|
      ensures KeyAt2(h2', c.nextIdentity, a)
    {
      assert KeyAt2(c.h2, c.nextIdentity, a);
    }
    forall a, b | 0 <= a < |h2'| && 0 <= b < |h2'|
      ensures KeyPair2(h2', a, b)
    {
      assert KeyPair2(c.h2, a, b);
    }
    forall j, a | 0 <= j < |c.h1| && 0 <= a < |h2'|
      ensures KeyPair12(c.h1, h2', j, a)
    {
      assert KeyPair12(c.h1, c.h2, j, a);
    }
  }

  // ---------------------------------------------------------------- HTTP/1.1

  /** While admission is open no slot is stale, so a session nobody uses can be bound. */
  lemma BindTables(slots: seq<Slot>, h1: seq<H1>, i: nat, s: Slot, j: nat, t: H1)
    requires Tables(slots, h1, false) && i < |slots| && j < |h1| && !Live(slots[i]) && h1[j].request == None
    requires SlotOk(s) && SessionOk(t) && t.request == Some(i) && Bound(s, j, t)
    ensures Tables(slots[i := s], h1[j := t], false)
  {
    var slots', h1' := slots[i := s], h1[j := t];
    forall k | 0 <= k < |h1'|
      ensures SessionAt(slots', h1', k)
    {
      assert SessionAt(slots, h1, k);
    }
    forall k | 0 <= k < |slots'|
      ensures SlotAt(slots', h1', false, k)
    {
      assert SlotAt(slots, h1, false, k);
    }
  }

  lemma NewRegistry(slots: seq<Slot>, h2: seq<H2>, i: nat, s: Slot)
    requires Registry(slots, h2) && i < |slots| && !Live(slots[i]) && slots[i].h2 == None && s.h2 == None
    ensures Registry(slots[i := s], h2)
  {
    var slots' := slots[i := s];
    forall p | 0 <= p < |h2|
      ensures RegistryAt(slots', h2, p)
    {
      assert RegistryAt(slots, h2, p);
      forall k | 0 <= k < |h2[p].requests|
        ensures EntryAt(slots', p, h2[p], k)
      {
        assert EntryAt(slots, p, h2[p], k);
      }
    }
    forall k | 0 <= k < |slots'|
      ensures RegisteredAt(slots', h2, k)
    {
      assert RegisteredAt(slots, h2, k);
    }
  }

  /** A request enters a free slot and is bound to session `j`. */
  lemma BindKeeps(c: State, i: nat, s: Slot, j: nat, t: H1, carried: Traffic, book: Ledger, next: nat)
    requires Valid(c) && !c.stopActive && i < |c.slots| && j < |c.h1| && !Live(c.slots[i]) && c.h1[j].request == None
    requires SlotOk(s) && SettledSlot(s) && SessionOk(t) && t.request == Some(i) && Bound(s, j, t) && s.wireId == None
    requires !s.delivered && s.generation == c.slots[i].generation + 1 && s.h2 == None
    requires CarriedBy(c.slots[i := s], t, carried, c.finished)
    requires Keyed(c.h1[j := t], c.h2, c.nextIdentity)
    requires Accounted(c.slots[i := s], book) && next <= UINT64_MAX
    ensures Valid(PutPair(c, i, s, j, t).(nextOperation := next, traffic := c.traffic[j := carried], book := book))
  {
    assert SlotAt(c.slots, c.h1, c.stopActive, i);
    BindTables(c.slots, c.h1, i, s, j, t);
    VacantCarried(c.slots, c.h1, c.traffic, c.finished, c.stopActive, i, s);
    SessionCarried(c.slots[i := s], c.h1, c.traffic, c.finished, j, t, carried);
    SlotWireIds(c.slots, i, s);
    NewRegistry(c.slots, c.h2, i, s);
    SettledPut(c.slots, None, i, s);
  }

  /** A slot that can be taken while admission is open. */
  ghost predicate Takes(c: State, i: nat) {
    && Valid(c) && !c.stopActive && i < |c.slots| && !Live(c.slots[i]) && c.slots[i].generation < UINT32_MAX
  }

  /** A fresh slot and the idle session it takes fit together, the request being sent or not. */
  lemma TakenFits(c: State, i: nat, s: Slot, j: nat, o: Options, t: H1, carried: Traffic, sent: bool)
    requires Takes(c, i) && j < |c.h1| && c.h1[j].state == H1Idle && s == FreshH1(c.slots[i].generation + 1, j, SlotBusy, o, s.lease)
    requires t == Taken(c.h1[j], i, t.operation).(sendPending := sent) && |c.traffic| == |c.h1|
    requires carried == if sent then Traffic(c.traffic[j].admitted + [Handle(i + 1, s.generation)], c.traffic[j].inFlight + 1) else c.traffic[j]
    ensures SlotOk(s) && SettledSlot(s) && SessionOk(t) && Bound(s, j, t) && SameOrigin(c.h1[j], t) && c.h1[j].request == None
    ensures CarriedBy(c.slots[i := s], t, carried, c.finished)
  {
    assert SessionAt(c.slots, c.h1, j) && CarriedAt(c.slots, c.h1, c.traffic, c.finished, j);
  }

  lemma SentOnKeeps(c: State, i: nat, s: Slot, j: nat, o: Options)
    requires Takes(c, i) && j < |c.h1| && c.h1[j].state == H1Idle && c.nextOperation < UINT64_MAX
    requires s == FreshH1(c.slots[i].generation + 1, j, SlotBusy, o, s.lease)
    ensures |c.traffic| == |c.h1| && Valid(SentOn(c, i, s, j))
  {
    var t, h := Taken(c.h1[j], i, c.nextOperation + 1).(sendPending := true), Handle(i + 1, s.generation);
    var carried := Traffic(c.traffic[j].admitted + [h], c.traffic[j].inFlight + 1);
    var book := Submitted(c.book, h);
    assert SentOn(c, i, s, j) == PutPair(c, i, s, j, t).(nextOperation := c.nextOperation + 1, traffic := c.traffic[j := carried], book := book);
    TakenFits(c, i, s, j, o, t, carried, true);
    AdmitAccounted(c.slots, c.book, i, s, book);
    SessionKeyed(c.h1, c.h2, c.nextIdentity, j, t);
    BindKeeps(c, i, s, j, t, carried, book, c.nextOperation + 1);
  }

  lemma LeakedOnKeeps(c: State, i: nat, s: Slot, j: nat, o: Options)
    requires Takes(c, i) && j < |c.h1| && c.h1[j].state == H1Idle && c.nextOperation < UINT64_MAX
    requires s == FreshH1(c.slots[i].generation + 1, j, SlotBusy, o, s.lease)
    ensures Valid(LeakedOn(c, i, s, j))
  {
    var t := Taken(c.h1[j], i, c.nextOperation + 1);
    var book := Leaked(c.book, Handle(i + 1, s.generation));
    assert LeakedOn(c, i, s, j) == PutPair(c, i, s, j, t).(nextOperation := c.nextOperation + 1, traffic := c.traffic, book := book);
    assert SessionAt(c.slots, c.h1, j);
    TakenFits(c, i, s, j, o, t, c.traffic[j], false);
    AdmitAccounted(c.slots, c.book, i, s, book);
    SessionKeyed(c.h1, c.h2, c.nextIdentity, j, t);
    assert c.traffic[j := c.traffic[j]] == c.traffic;
    BindKeeps(c, i, s, j, t, c.traffic[j], book, c.nextOperation + 1);
  }

  lemma SpentKeeps(c: State, i: nat)
    requires Takes(c, i) && c.nextOperation < UINT64_MAX
    ensures Valid(PutSlot(c.(nextOperation := c.nextOperation + 1), i, Vacant(c.slots[i].generation + 1)))
  {
    VacateKeeps(c.(nextOperation := c.nextOperation + 1), i);
  }

  lemma ReuseKeeps(c: State, i: nat, j: nat, o: Options, m: Meeting)
    requires Takes(c, i) && j < |c.h1| && c.h1[j].state == H1Idle && c.nextOperation < UINT64_MAX
    ensures Valid(Reuse(c, i, j, o, m).state)
  {
    var s := FreshH1(c.slots[i].generation + 1, j, SlotBusy, o, !o.pipe);
    if m.send == Ok {
      SentOnKeeps(c, i, s, j, o);
      assert Reuse(c, i, j, o, m).state == SentOn(c, i, s, j);
    } else if s.lease && m.release != Ok {
      LeakedOnKeeps(c, i, s, j, o);
      assert Reuse(c, i, j, o, m).state == LeakedOn(c, i, s, j);
    } else {
      SpentKeeps(c, i);
    }
  }

  /** A fresh slot and the new session it waits for fit together. */
  lemma ConnectingFits(c: State, i: nat, s: Slot, j: nat, u: H1, o: Options)
    requires Takes(c, i) && j < |c.h1| && c.h1[j].state == H1Free && s == FreshH1(c.slots[i].generation + 1, j, SlotConnecting, o, false)
    requires u == NewSession(o, u.origin.key, u.pooled, u.managed).(request := Some(i), operation := u.operation)
    ensures |c.traffic| == |c.h1| && c.h1[j].request == None
    ensures SlotOk(s) && SettledSlot(s) && SessionOk(u) && Bound(s, j, u) && CarriedBy(c.slots[i := s], u, c.traffic[j], c.finished)
  {
    assert SessionAt(c.slots, c.h1, j) && CarriedAt(c.slots, c.h1, c.traffic, c.finished, j);
  }

  lemma ConnectingOnKeeps(c: State, i: nat, s: Slot, j: nat, t: H1, o: Options)
    requires Takes(c, i) && j < |c.h1| && c.h1[j].state == H1Free && c.nextOperation < UINT64_MAX && o.protocol == Http1
    requires s == FreshH1(c.slots[i].generation + 1, j, SlotConnecting, o, false)
    requires t == NewSession(o, t.origin.key, t.pooled, t.managed)
    requires 1 <= t.origin.key.authority <= c.nextIdentity && Joins(c.h1, c.h2, t.origin)
    ensures Valid(ConnectingOn(c, i, s, j, t))
  {
    var u := t.(request := Some(i), operation := c.nextOperation + 1);
    var book := Submitted(c.book, Handle(i + 1, s.generation));
    assert ConnectingOn(c, i, s, j, t) == PutPair(c, i, s, j, u).(nextOperation := c.nextOperation + 1, traffic := c.traffic, book := book);
    ConnectingFits(c, i, s, j, u, o);
    AdmitAccounted(c.slots, c.book, i, s, book);
    JoinH1Keyed(c, j, u);
    assert c.traffic[j := c.traffic[j]] == c.traffic;
    BindKeeps(c, i, s, j, u, c.traffic[j], book, c.nextOperation + 1);
  }

  /** A connection that could not even be started is dead, and its origin known. */
  lemma DeadH1Keeps(c: State, i: nat, j: nat, t: H1)
    requires Takes(c, i) && c.nextOperation < UINT64_MAX
    requires j < |c.h1| && c.h1[j].state == H1Free && SessionOk(t) && t.request == None && t.state == H1Terminal
    requires t.origin.protocol == Http1 && 1 <= t.origin.key.authority <= c.nextIdentity && Joins(c.h1, c.h2, t.origin)
    ensures Valid(PutPair(c.(nextOperation := c.nextOperation + 1), i, Vacant(c.slots[i].generation + 1), j, t))
  {
    SpentKeeps(c, i);
    var d := PutSlot(c.(nextOperation := c.nextOperation + 1), i, Vacant(c.slots[i].generation + 1));
    assert SessionAt(d.slots, d.h1, j);
    SessionTables(d.slots, d.h1, d.stopActive, j, t);
    SessionCarried(d.slots, d.h1, d.traffic, d.finished, j, t, d.traffic[j]);
    assert d.traffic[j := d.traffic[j]] == d.traffic;
    JoinH1Keyed(d, j, t);
  }

  lemma ConnectKeeps(c: State, i: nat, j: nat, key: Key, o: Options, m: Meeting)
    requires Takes(c, i) && j < |c.h1| && c.h1[j].state == H1Free && c.nextOperation < UINT64_MAX
    requires o.protocol == Http1 && 1 <= key.authority <= c.nextIdentity && Joins(c.h1, c.h2, Origin(Http1, o.identity, key))
    ensures Valid(Connect(c, i, j, key, o, m).state)
  {
    if m.connect == Ok {
      var s, t := FreshH1(c.slots[i].generation + 1, j, SlotConnecting, o, false), NewSession(o, key, !o.pipe, !o.pipe);
      assert Connect(c, i, j, key, o, m).state == ConnectingOn(c, i, s, j, t);
      ConnectingOnKeeps(c, i, s, j, t, o);
    } else {
      RefusedKeeps(c, i, j, key, o, m);
    }
  }

  lemma RefusedKeeps(c: State, i: nat, j: nat, key: Key, o: Options, m: Meeting)
    requires Takes(c, i) && j < |c.h1| && c.h1[j].state == H1Free && c.nextOperation < UINT64_MAX
    requires o.protocol == Http1 && 1 <= key.authority <= c.nextIdentity && Joins(c.h1, c.h2, Origin(Http1, o.identity, key))
    requires m.connect != Ok
    ensures Valid(Connect(c, i, j, key, o, m).state)
  {
    var t := NewSession(o, key, !o.pipe && m.pooled, !o.pipe && m.managed).(state := H1Terminal, transportClosed := true);
    assert Connect(c, i, j, key, o, m).state ==
      PutPair(c.(nextOperation := c.nextOperation + 1), i, Vacant(c.slots[i].generation + 1), j, t);
    DeadH1Keeps(c, i, j, t);
  }

  lemma PlaceH1Keeps(c: State, i: nat, key: Key, o: Options, m: Meeting)
    requires Takes(c, i) && o.protocol == Http1
    requires 1 <= key.authority <= c.nextIdentity && Joins(c.h1, c.h2, Origin(Http1, o.identity, key))
    ensures Valid(PlaceH1(c, i, key, o, m).state)
  {
    var reuse, spare := Reusable(c, o, key, m), FirstUnused(c.h1, 0);
    if (!o.pipe && reuse.None? && m.acquire != Ok && m.acquire != NoBufs) || (reuse.None? && spare.None?) || c.nextOperation >= UINT64_MAX {
      assert PlaceH1(c, i, key, o, m).state == PutSlot(c, i, Vacant(c.slots[i].generation + 1));
      VacateKeeps(c, i);
    } else if reuse.Some? {
      assert PlaceH1(c, i, key, o, m) == Reuse(c, i, reuse.value, o, m);
      ReuseKeeps(c, i, reuse.value, o, m);
    } else {
      assert PlaceH1(c, i, key, o, m) == Connect(c, i, spare.value, key, o, m);
      ConnectKeeps(c, i, spare.value, key, o, m);
    }
  }

  // ---------------------------------------------------------------- HTTP/2

  /** A request enters a free slot and a free entry of the session's registry. */
  lemma AdmitRegistry(slots: seq<Slot>, h2: seq<H2>, i: nat, s: Slot, p: nat)
    requires Registry(slots, h2) && i < |slots| && !Live(slots[i]) && slots[i].h2 == None
    requires p < |h2| && h2[p].state != H2Free && s.entry < |h2[p].requests| && h2[p].requests[s.entry] == None
    requires Live(s) && s.protocol == Http2 && s.h2 == Some(p)
    ensures Registry(slots[i := s], h2[p := h2[p].(requests := h2[p].requests[s.entry := Some(i)], active := h2[p].active + 1)])
  {
    var t := h2[p].(requests := h2[p].requests[s.entry := Some(i)], active := h2[p].active + 1);
    OccupiedUpdate(h2[p].requests, s.entry, Some(i));
    var slots', h2' := slots[i := s], h2[p := t];
    forall q | 0 <= q < |h2'|
      ensures RegistryAt(slots', h2', q)
    {
      assert RegistryAt(slots, h2, q);
      forall k | 0 <= k < |h2'[q].requests|
        ensures EntryAt(slots', q, h2'[q], k)
      {
        assert EntryAt(slots, q, h2[q], k);
      }
    }
    forall k | 0 <= k < |slots'|
      ensures RegisteredAt(slots', h2', k)
    {
      assert RegisteredAt(slots, h2, k);
    }
  }

  /** An admission goes on record before its session retires. */
  lemma AdmitChronicled(h2: seq<H2>, epochs: seq<nat>, timeline: seq<Milestone>, p: nat, t: H2, h: Handle)
    requires Chronicled(h2, epochs, timeline) && p < |h2| && !Retiring(h2[p].state) && h2[p].state != H2Free && t.state == h2[p].state
    ensures |epochs| == |h2| && Chronicled(h2[p := t], epochs, timeline + [Admitted(p, epochs[p], h)])
  {
    var h2', timeline' := h2[p := t], timeline + [Admitted(p, epochs[p], h)];
    forall q | 0 <= q < |timeline'|
      ensures MilestoneAt(h2', epochs, timeline', q)
    {
      assert q < |timeline| ==> MilestoneAt(h2, epochs, timeline, q);
    }
    forall a, b | 0 <= a < b < |timeline'|
      ensures InOrder(timeline', a, b)
    {
      assert b < |timeline| ==> InOrder(timeline, a, b);
      assert MilestoneAt(h2, epochs, timeline, a);
    }
    forall s | 0 <= s < |h2'|
      ensures Epoch(h2', epochs, timeline', s)
    {
      assert Epoch(h2, epochs, timeline, s);
    }
  }

  /** The registry slot tables do not mind an HTTP/2 request. */
  lemma NewTables(slots: seq<Slot>, h1: seq<H1>, stopping: bool, i: nat, s: Slot)
    requires Tables(slots, h1, stopping) && i < |slots| && !Live(slots[i]) && SlotOk(s) && s.h1 == None
    ensures Tables(slots[i := s], h1, stopping)
  {
    var slots' := slots[i := s];
    forall k | 0 <= k < |h1|
      ensures SessionAt(slots', h1, k)
    {
      assert SessionAt(slots, h1, k);
    }
    forall k | 0 <= k < |slots'|
      ensures SlotAt(slots', h1, stopping, k)
    {
      assert SlotAt(slots, h1, stopping, k);
    }
  }

  lemma AdmitOnFields(c: State, i: nat, s: Slot, p: nat, t: H2, h: Handle)
    requires i < |c.slots| && p < |c.h2| == |c.epochs| && s.entry < |c.h2[p].requests| && h == Handle(i + 1, s.generation)
    requires t == c.h2[p].(requests := c.h2[p].requests[s.entry := Some(i)], active := c.h2[p].active + 1)
    ensures AdmitOn(c, i, s, p) == c.(slots := c.slots[i := s], h2 := c.h2[p := t], book := Submitted(c.book, h),
                                      timeline := c.timeline + [Admitted(p, c.epochs[p], h)])
  {
  }

  lemma AdmitOnKeeps(c: State, i: nat, s: Slot, p: nat, o: Options)
    requires Takes(c, i) && p < |c.h2| && (c.h2[p].state == H2Connecting || c.h2[p].state == H2Active)
    requires s == FreshH2(c.slots[i].generation + 1, p, s.entry, o, s.lease)
    requires s.entry < |c.h2[p].requests| && c.h2[p].requests[s.entry] == None
    ensures Valid(AdmitOn(c, i, s, p))
  {
    var t := c.h2[p].(requests := c.h2[p].requests[s.entry := Some(i)], active := c.h2[p].active + 1);
    var h := Handle(i + 1, s.generation);
    assert |c.epochs| == |c.h2|;
    AdmitOnFields(c, i, s, p, t, h);
    assert SlotAt(c.slots, c.h1, c.stopActive, i);
    NewTables(c.slots, c.h1, c.stopActive, i, s);
    VacantCarried(c.slots, c.h1, c.traffic, c.finished, c.stopActive, i, s);
    AdmitAccounted(c.slots, c.book, i, s, Submitted(c.book, h));
    SlotWireIds(c.slots, i, s);
    AdmitRegistry(c.slots, c.h2, i, s, p);
    AdmitChronicled(c.h2, c.epochs, c.timeline, p, t, h);
    H2Keyed(c.h1, c.h2, c.nextIdentity, p, t);
    SettledPut(c.slots, None, i, s);
  }

  lemma AdmitKeeps(c: State, i: nat, p: nat, o: Options, lease: bool)
    requires Takes(c, i) && p < |c.h2| && Accepts(c.h2[p], Ok)
    ensures Valid(Admit(c, i, p, o, lease).state)
  {
    var s := FreshH2(c.slots[i].generation + 1, p, FirstVacancy(c.h2[p].requests, 0).value, o, lease);
    assert Admit(c, i, p, o, lease).state == AdmitOn(c, i, s, p);
    AdmitOnKeeps(c, i, s, p, o);
  }

  lemma OpenChronicled(h2: seq<H2>, epochs: seq<nat>, timeline: seq<Milestone>, p: nat, t: H2)
    requires Chronicled(h2, epochs, timeline) && p < |h2| && !Retiring(t.state)
    ensures |epochs| == |h2| && Chronicled(h2[p := t], epochs[p := epochs[p] + 1], timeline)
  {
    var h2', epochs' := h2[p := t], epochs[p := epochs[p] + 1];
    forall q | 0 <= q < |timeline|
      ensures MilestoneAt(h2', epochs', timeline, q)
    {
      assert MilestoneAt(h2, epochs, timeline, q);
    }
    forall s | 0 <= s < |h2'|
      ensures Epoch(h2', epochs', timeline, s)
    {
      assert Epoch(h2, epochs, timeline, s);
    }
  }

  lemma OpenRegistry(slots: seq<Slot>, h2: seq<H2>, p: nat, t: H2)
    requires Registry(slots, h2) && p < |h2| && h2[p].state == H2Free && t.state != H2Free && t.active == 0
    requires t.requests == seq(|t.requests|, _ => None)
    ensures Registry(slots, h2[p := t])
  {
    var h2' := h2[p := t];
    OccupiedNone(t.requests);
    forall s | 0 <= s < |h2'|
      ensures RegistryAt(slots, h2', s)
    {
      assert RegistryAt(slots, h2, s);
    }
    forall i | 0 <= i < |slots|
      ensures RegisteredAt(slots, h2', i)
    {
      assert RegisteredAt(slots, h2, i) && RegistryAt(slots, h2, p);
    }
  }

  lemma OpenH2Keeps(c: State, p: nat, key: Key, o: Options, pooled: bool, managed: bool)
    requires Valid(c) && p < |c.h2| && c.h2[p].state == H2Free && o.protocol == Http2
    requires 1 <= key.authority <= c.nextIdentity && Joins(c.h1, c.h2, Origin(Http2, o.identity, key))
    ensures Valid(OpenH2(c, p, key, o, pooled, managed))
  {
    var t := OpenH2(c, p, key, o, pooled, managed).h2[p];
    OpenRegistry(c.slots, c.h2, p, t);
    OpenChronicled(c.h2, c.epochs, c.timeline, p, t);
    JoinH2Keyed(c, p, t);
  }

  lemma DeadKeeps(c: State, p: nat, key: Key, o: Options, m: Meeting)
    requires Valid(c) && p < |c.h2| && c.h2[p].state == H2Free && o.protocol == Http2
    requires 1 <= key.authority <= c.nextIdentity && Joins(c.h1, c.h2, Origin(Http2, o.identity, key))
    ensures Valid(Dead(c, p, key, o, m))
  {
    OpenH2Keeps(c, p, key, o, m.pooled, m.managed);
    var d := OpenH2(c, p, key, o, m.pooled, m.managed);
    RetireKeeps(d, p, d.h2[p].(state := H2Terminal));
  }

  lemma AdmitFirstKeeps(c: State, i: nat, p: nat, o: Options, m: Meeting, net: Net)
    requires Takes(c, i) && p < |c.h2|
    ensures Valid(AdmitFirst(c, i, p, o, m, net).state)
  {
    if Accepts(c.h2[p], m.engine(p)) {
      assert AdmitFirst(c, i, p, o, m, net) == Admit(c, i, p, o, false);
      AdmitKeeps(c, i, p, o, false);
    } else {
      var d := PutSlot(c, i, Vacant(c.slots[i].generation + 1));
      assert AdmitFirst(c, i, p, o, m, net).state == BeginStopH2(d, p, net.goaway(p), net.close2(p));
      VacateKeeps(c, i);
      BeginStopH2Keeps(d, p, net.goaway(p), net.close2(p));
    }
  }

  lemma OpenAndAdmitKeeps(c: State, i: nat, p: nat, key: Key, o: Options, m: Meeting, net: Net)
    requires Takes(c, i) && p < |c.h2| && c.h2[p].state == H2Free && o.protocol == Http2
    requires 1 <= key.authority <= c.nextIdentity && Joins(c.h1, c.h2, Origin(Http2, o.identity, key))
    ensures Valid(OpenAndAdmit(c, i, p, key, o, m, net).state)
  {
    if m.connect != Ok {
      assert OpenAndAdmit(c, i, p, key, o, m, net).state == PutSlot(Dead(c, p, key, o, m), i, Vacant(c.slots[i].generation + 1));
      DeadKeeps(c, p, key, o, m);
      VacateKeeps(Dead(c, p, key, o, m), i);
    } else {
      assert OpenAndAdmit(c, i, p, key, o, m, net) == AdmitFirst(OpenH2(c, p, key, o, true, true), i, p, o, m, net);
      OpenH2Keeps(c, p, key, o, true, true);
      AdmitFirstKeeps(OpenH2(c, p, key, o, true, true), i, p, o, m, net);
    }
  }

  lemma PlaceUnpooledKeeps(c: State, i: nat, key: Key, o: Options, m: Meeting, net: Net)
    requires Takes(c, i) && o.protocol == Http2
    requires 1 <= key.authority <= c.nextIdentity && Joins(c.h1, c.h2, Origin(Http2, o.identity, key))
    ensures Valid(PlaceUnpooled(c, i, key, o, m, net).state)
  {
    var spare, unpooled := FirstUnusedH2(c.h2, 0), FirstUnpooled(c.h2, o.identity, m.engine, 0);
    if unpooled.Some? && m.engine(unpooled.value) == Ok {
      assert PlaceUnpooled(c, i, key, o, m, net) == Admit(c, i, unpooled.value, o, false);
      AdmitKeeps(c, i, unpooled.value, o, false);
    } else if unpooled.Some? || spare.None? {
      assert PlaceUnpooled(c, i, key, o, m, net).state == PutSlot(c, i, Vacant(c.slots[i].generation + 1));
      VacateKeeps(c, i);
    } else {
      assert PlaceUnpooled(c, i, key, o, m, net) == OpenAndAdmit(c, i, spare.value, key, o, m, net);
      OpenAndAdmitKeeps(c, i, spare.value, key, o, m, net);
    }
  }

  lemma PlaceH2Keeps(c: State, i: nat, key: Key, o: Options, m: Meeting, net: Net)
    requires Takes(c, i) && o.protocol == Http2
    requires 1 <= key.authority <= c.nextIdentity && Joins(c.h1, c.h2, Origin(Http2, o.identity, key))
    ensures Valid(PlaceH2(c, i, key, o, m, net).state)
  {
    if m.offered.Some? && Offered(c, m.offered.value, key, m.engine(m.offered.value)) {
      assert PlaceH2(c, i, key, o, m, net) == Admit(c, i, m.offered.value, o, true);
      AdmitKeeps(c, i, m.offered.value, o, true);
    } else if m.acquire != Ok && m.acquire != NoBufs {
      assert PlaceH2(c, i, key, o, m, net).state == PutSlot(c, i, Vacant(c.slots[i].generation + 1));
      VacateKeeps(c, i);
    } else {
      assert PlaceH2(c, i, key, o, m, net) == PlaceUnpooled(c, i, key, o, m, net);
      PlaceUnpooledKeeps(c, i, key, o, m, net);
    }
  }

  // ---------------------------------------------------------------- submission

  lemma PlaceKeyedKeeps(d: State, i: nat, key: Key, o: Options, m: Meeting, net: Net)
    requires Takes(d, i) && 1 <= key.authority <= d.nextIdentity && Joins(d.h1, d.h2, Origin(o.protocol, o.identity, key))
    ensures Valid(PlaceKeyed(d, i, key, o, m, net).state)
  {
    if o.protocol == Http2 {
      assert PlaceKeyed(d, i, key, o, m, net) == PlaceH2(d, i, key, o, m, net);
      PlaceH2Keeps(d, i, key, o, m, net);
    } else {
      assert PlaceKeyed(d, i, key, o, m, net) == PlaceH1(d, i, key, o, m);
      PlaceH1Keeps(d, i, key, o, m);
    }
  }

  lemma PlaceKeeps(c: State, i: nat, o: Options, m: Meeting, net: Net)
    requires Takes(c, i)
    ensures Valid(Place(c, i, o, m, net).state)
  {
    var key := PoolKey(c, o);
    if m.streaming == Ok && key.Some? {
      var d := c.(nextIdentity := key.value.1);
      assert Place(c, i, o, m, net) == PlaceKeyed(d, i, key.value.0, o, m, net);
      PoolKeyKeeps(c, o);
      PlaceKeyedKeeps(d, i, key.value.0, o, m, net);
    } else {
      assert Place(c, i, o, m, net).state == PutSlot(c, i, Vacant(c.slots[i].generation + 1));
      VacateKeeps(c, i);
    }
  }

  lemma SubmitKeeps(c: State, o: Options, m: Meeting, net: Net)
    requires Valid(c)
    ensures Valid(Submit(c, o, m, net).0)
  {
    var free := FirstFree(c.slots, 0);
    if c.admissionOpen && m.prepared == Ok && free.Some? {
      assert SlotAt(c.slots, c.h1, c.stopActive, free.value);
      PlaceKeeps(c, free.value, o, m, net);
      var placing := Place(c, free.value, o, m, net);
      FinishKeeps(placing.state, placing.after, net);
    }
  }

  // ---------------------------------------------------------------- where an admitted request goes

  /** The request is live, not delivered, and sits on a connection to its own origin. */
  predicate OnOrigin(c: State, h: Handle, o: Options) {
    && 1 <= h.slot <= |c.slots| && Find(c.slots, h) == Some(h.slot - 1)
    && OriginOf(c, c.slots[h.slot - 1], h.slot - 1) == Some(o.identity)
    && c.slots[h.slot - 1].protocol == o.protocol
    && !c.slots[h.slot - 1].delivered && c.slots[h.slot - 1].wireId == None
  }

  function OriginOf(c: State, s: Slot, i: nat): Option<Identity> {
    if s.protocol == Http1 && s.h1.Some? && s.h1.value < |c.h1| && c.h1[s.h1.value].request == Some(i) then
      Some(c.h1[s.h1.value].origin.identity)
    else if s.protocol == Http2 && s.h2.Some? && s.h2.value < |c.h2| then Some(c.h2[s.h2.value].origin.identity)
    else None
  }

  /** An admission writes slot `i` and no other. */
  predicate Admits(c: State, i: nat, r: Placing, o: Options) {
    r.handle.Some? ==>
      && r.after == Nothing && OnOrigin(r.state, r.handle.value, o) && r.handle.value.slot == i + 1
      && |r.state.slots| == |c.slots| && i < |c.slots| && r.state.slots == c.slots[i := r.state.slots[i]]
  }

  lemma ReuseOrigin(c: State, i: nat, j: nat, o: Options, m: Meeting)
    requires i < |c.slots| && j < |c.h1| && c.h1[j].origin.identity == o.identity && o.protocol == Http1
    ensures Admits(c, i, Reuse(c, i, j, o, m), o)
  {
  }

  lemma ConnectOrigin(c: State, i: nat, j: nat, key: Key, o: Options, m: Meeting)
    requires i < |c.slots| && j < |c.h1| && o.protocol == Http1
    ensures Admits(c, i, Connect(c, i, j, key, o, m), o)
  {
  }

  /** What is filed under the key a request was given talks to the request's origin. */
  lemma PlaceH1Origin(c: State, i: nat, key: Key, o: Options, m: Meeting)
    requires i < |c.slots| && o.protocol == Http1 && Joins(c.h1, c.h2, Origin(Http1, o.identity, key))
    ensures Admits(c, i, PlaceH1(c, i, key, o, m), o)
  {
    var reuse, spare := Reusable(c, o, key, m), FirstUnused(c.h1, 0);
    if reuse.Some? {
      ReuseOrigin(c, i, reuse.value, o, m);
    } else if spare.Some? {
      ConnectOrigin(c, i, spare.value, key, o, m);
    }
  }

  lemma AdmitOrigin(c: State, i: nat, p: nat, o: Options, lease: bool)
    requires i < |c.slots| && p < |c.h2| && Accepts(c.h2[p], Ok) && c.h2[p].origin.identity == o.identity && o.protocol == Http2
    ensures Admits(c, i, Admit(c, i, p, o, lease), o)
  {
  }

  lemma OpenOrigin(c: State, i: nat, p: nat, key: Key, o: Options, m: Meeting, net: Net)
    requires i < |c.slots| && p < |c.h2| && o.protocol == Http2
    ensures Admits(c, i, OpenAndAdmit(c, i, p, key, o, m, net), o)
  {
    var d := OpenH2(c, p, key, o, true, true);
    if m.connect == Ok && Accepts(d.h2[p], m.engine(p)) {
      assert OpenAndAdmit(c, i, p, key, o, m, net) == Admit(d, i, p, o, false);
      AdmitOrigin(d, i, p, o, false);
    }
  }

  lemma PlaceH2Origin(c: State, i: nat, key: Key, o: Options, m: Meeting, net: Net)
    requires i < |c.slots| && o.protocol == Http2 && Joins(c.h1, c.h2, Origin(Http2, o.identity, key))
    ensures Admits(c, i, PlaceH2(c, i, key, o, m, net), o)
  {
    var spare, unpooled := FirstUnusedH2(c.h2, 0), FirstUnpooled(c.h2, o.identity, m.engine, 0);
    if m.offered.Some? && Offered(c, m.offered.value, key, m.engine(m.offered.value)) {
      assert PlaceH2(c, i, key, o, m, net) == Admit(c, i, m.offered.value, o, true);
      AdmitOrigin(c, i, m.offered.value, o, true);
    } else if m.acquire != Ok && m.acquire != NoBufs {
    } else if unpooled.Some? && m.engine(unpooled.value) == Ok {
      assert PlaceH2(c, i, key, o, m, net) == Admit(c, i, unpooled.value, o, false);
      AdmitOrigin(c, i, unpooled.value, o, false);
    } else if unpooled.None? && spare.Some? {
      assert PlaceH2(c, i, key, o, m, net) == OpenAndAdmit(c, i, spare.value, key, o, m, net);
      OpenOrigin(c, i, spare.value, key, o, m, net);
    }
  }

  lemma PlaceOrigin(c: State, i: nat, o: Options, m: Meeting, net: Net)
    requires Valid(c) && i < |c.slots|
    ensures Admits(c, i, Place(c, i, o, m, net), o)
  {
    var key := PoolKey(c, o);
    if m.streaming == Ok && key.Some? {
      PoolKeyKeeps(c, o);
      var d := c.(nextIdentity := key.value.1);
      if o.protocol == Http2 {
        PlaceH2Origin(d, i, key.value.0, o, m, net);
      } else {
        PlaceH1Origin(d, i, key.value.0, o, m);
      }
    }
  }

  /**
   A submitted request gets the handle of the slot it was put in, is live and not
   delivered, and sits on a connection to its own origin; no other slot changed.
   */
  lemma SubmitOrigin(c: State, o: Options, m: Meeting, net: Net)
    requires Valid(c) && Submit(c, o, m, net).1.Some?
    ensures OnOrigin(Submit(c, o, m, net).0, Submit(c, o, m, net).1.value, o)
    ensures var i := Submit(c, o, m, net).1.value.slot - 1;
      && 0 <= i < |c.slots| == |Submit(c, o, m, net).0.slots|
      && Submit(c, o, m, net).0.slots == c.slots[i := Submit(c, o, m, net).0.slots[i]]
  {
    PlaceOrigin(c, FirstFree(c.slots, 0).value, o, m, net);
  }

  // ---------------------------------------------------------------- RPC requests

  lemma WireKeeps(c: State, i: nat, wireId: nat, deadline: nat)
    requires Valid(c) && i < |c.slots| && Live(c.slots[i])
    requires forall k :: 0 <= k < |c.slots| && k != i ==> c.slots[k].wireId != Some(wireId)
    ensures Valid(PutSlot(c, i, c.slots[i].(wireId := Some(wireId), deadline := deadline)))
  {
    var s := c.slots[i].(wireId := Some(wireId), deadline := deadline);
    assert SlotAt(c.slots, c.h1, c.stopActive, i) && SettledAt(c.slots, i);
    if s.h1.Some? {
      assert SessionAt(c.slots, c.h1, s.h1.value);
    }
    SlotTables(c.slots, c.h1, c.stopActive, i, s);
    SlotCarried(c.slots, c.h1, c.traffic, c.finished, i, s);
    SlotAccounted(c.slots, c.book, i, s);
    SlotRegistry(c.slots, c.h2, i, s);
    NewWireIds(c.slots, i, s);
    SettledPut(c.slots, None, i, s);
  }

  lemma NewWireIds(slots: seq<Slot>, i: nat, s: Slot)
    requires WireIds(slots) && i < |slots|
    requires forall k :: 0 <= k < |slots| && k != i ==> slots[k].wireId != s.wireId
    ensures WireIds(slots[i := s])
  {
    var slots' := slots[i := s];
    forall a, b | 0 <= a < b < |slots'|
      ensures WirePair(slots', a, b)
    {
      assert WirePair(slots, a, b);
    }
  }

  /** A wire identifier is taken by one live request at a time. */
  lemma SubmitRpcKeeps(c: State, o: Options, m: Meeting, net: Net, wireId: nat, deadline: nat)
    requires Valid(c)
    ensures Valid(SubmitRpc(c, o, m, net, wireId, deadline).0)
  {
    if WireFree(c.slots, wireId) {
      var d := Submit(c, o, m, net);
      assert SubmitRpc(c, o, m, net, wireId, deadline).0 == Tagged(d.0, d.1, wireId, deadline);
      SubmitKeeps(c, o, m, net);
      if d.1.Some? {
        SubmitOrigin(c, o, m, net);
        TaggedKeeps(c.slots, d.0, d.1.value, wireId, deadline);
      }
    }
  }

  lemma TaggedKeeps(slots: seq<Slot>, d: State, h: Handle, wireId: nat, deadline: nat)
    requires Valid(d) && 1 <= h.slot <= |slots| == |d.slots| && d.slots == slots[h.slot - 1 := d.slots[h.slot - 1]]
    requires WireFree(slots, wireId)
    ensures Valid(Tagged(d, Some(h), wireId, deadline))
  {
    if Find(d.slots, h).Some? {
      WireKeeps(d, h.slot - 1, wireId, deadline);
    }
  }

  // ---------------------------------------------------------------- deadlines and stopping

  lemma NoteKeeps(c: State, i: nat, noted: bool)
    requires Valid(c) && i < |c.slots| && Live(c.slots[i])
    ensures Valid(PutSlot(c, i, c.slots[i].(deadlineCancelled := noted)))
  {
    assert SlotAt(c.slots, c.h1, c.stopActive, i) && SettledAt(c.slots, i);
    if c.slots[i].h1.Some? {
      assert SessionAt(c.slots, c.h1, c.slots[i].h1.value);
    }
    var s := c.slots[i].(deadlineCancelled := noted);
    SlotCore(c, i, s);
    SettledPut(c.slots, None, i, s);
  }

  lemma CancelLives(c: State, call: CancelCall, i: nat)
    requires i < |c.slots| && Live(c.slots[i])
    ensures i < |Cancel(c, call).slots| && Live(Cancel(c, call).slots[i])
  {
  }

  lemma ExpireSlotKeeps(c: State, i: nat, now: nat, answer: CancelCall)
    requires Valid(c)
    ensures Valid(ExpireSlot(c, i, now, answer))
  {
    if i < |c.slots| && Expired(c.slots[i], now) {
      NoteKeeps(c, i, true);
      var noted, call := PutSlot(c, i, c.slots[i].(deadlineCancelled := true)), answer.(handle := HandleOf(c.slots, i));
      CancelLives(noted, call, i);
      CancelKeeps(noted, call, None);
      NoteKeeps(Cancel(noted, call), i, false);
    }
  }

  lemma ExpireKeeps(c: State, now: nat, answers: nat -> CancelCall)
    requires Valid(c)
    ensures Valid(Expire(c, now, answers))
  {
    forall d: State, i: nat | Valid(d)
      ensures Valid(ExpireSlot(d, i, now, answers(i)))
    {
      ExpireSlotKeeps(d, i, now, answers(i));
    }
    PassKeeps(c, |c.slots|, (d: State, i: nat) => (ExpireSlot(d, i, now, answers(i)), Ok), Valid);
  }

  lemma BeginStopKeeps(c: State)
    requires Valid(c)
    ensures Valid(BeginStop(c))
  {
    forall i | 0 <= i < |c.slots|
      ensures SlotAt(c.slots, c.h1, true, i)
    {
      assert SlotAt(c.slots, c.h1, c.stopActive, i);
    }
  }

  lemma FilePendingKeeps(c: State, i: nat, pending: bool)
    requires Valid(c) && i < |c.slots| && Live(c.slots[i])
    ensures Valid(PutSlot(c, i, c.slots[i].(filePending := pending)))
  {
    assert SlotAt(c.slots, c.h1, c.stopActive, i) && SettledAt(c.slots, i);
    if c.slots[i].h1.Some? {
      assert SessionAt(c.slots, c.h1, c.slots[i].h1.value);
    }
    var s := c.slots[i].(filePending := pending);
    SlotCore(c, i, s);
    SettledPut(c.slots, None, i, s);
  }
}
