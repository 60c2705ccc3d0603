/** Every HTTP/2 session operation keeps the client valid. */
module ClientH2Keeps {
  import opened Octets
  import opened ClientState
  import opened ClientH1
  import opened ClientH2
  import opened ClientSteps
  import opened ClientH1Keeps

  // ---------------------------------------------------------------- writes of a session

  /** A session keeps its registry and its origin. */
  predicate SameRegistry(a: H2, b: H2) {
    && a.state != H2Free && b.state != H2Free
    && b.requests == a.requests && b.active == a.active && b.origin == a.origin
  }

  lemma H2Registry(slots: seq<Slot>, h2: seq<H2>, p: nat, t: H2)
    requires Registry(slots, h2) && p < |h2| && SameRegistry(h2[p], t)
    ensures Registry(slots, h2[p := t])
  {
    var h2' := h2[p := t];
    forall s | 0 <= s < |h2'|
      ensures RegistryAt(slots, h2', s)
    {
      assert RegistryAt(slots, h2, s);
      forall k | 0 <= k < |h2'[s].requests|
        ensures EntryAt(slots, s, h2'[s], k)
      {
        assert EntryAt(slots, s, h2[s], k);
      }
    }
    forall i | 0 <= i < |slots|
      ensures RegisteredAt(slots, h2', i)
    {
      assert RegisteredAt(slots, h2, i);
    }
  }

  lemma H2Keyed(h1: seq<H1>, h2: seq<H2>, next: nat, p: nat, t: H2)
    requires Keyed(h1, h2, next) && p < |h2|
    requires t.state == H2Free || (h2[p].state != H2Free && t.origin == h2[p].origin)
    ensures Keyed(h1, h2[p := t], next)
  {
    var h2' := h2[p := t];
    forall s | 0 <= s < |h2'|
      ensures KeyAt2(h2', next, s)
    {
      assert KeyAt2(h2, next, s);
    }
    forall s, r | 0 <= s < |h2'| && 0 <= r < |h2'|
      ensures KeyPair2(h2', s, r)
    {
      assert KeyPair2(h2, s, r);
    }
    forall j, s | 0 <= j < |h1| && 0 <= s < |h2'|
      ensures KeyPair12(h1, h2', j, s)
    {
      assert KeyPair12(h1, h2, j, s);
    }
  }

  lemma H2Chronicled(h2: seq<H2>, epochs: seq<nat>, timeline: seq<Milestone>, p: nat, t: H2)
    requires Chronicled(h2, epochs, timeline) && p < |h2|
    requires Retiring(t.state) ==> Retiring(h2[p].state)
    requires Retiring(h2[p].state) ==> Retiring(t.state) || t.state == H2Free
    requires h2[p].state == H2Free ==> t.state == H2Free
    ensures Chronicled(h2[p := t], epochs, timeline)
  {
    var h2' := h2[p := t];
    forall q | 0 <= q < |timeline|
      ensures MilestoneAt(h2', epochs, timeline, q)
    {
      assert MilestoneAt(h2, epochs, timeline, q);
    }
    forall s | 0 <= s < |h2'|
      ensures Epoch(h2', epochs, timeline, s)
    {
      assert Epoch(h2, epochs, timeline, s);
    }
  }

  /** The step that starts a session's retirement, on record. */
  lemma RetireChronicled(h2: seq<H2>, epochs: seq<nat>, timeline: seq<Milestone>, p: nat, t: H2)
    requires Chronicled(h2, epochs, timeline) && p < |h2| && Retiring(t.state)
    ensures |epochs| == |h2|
    ensures Chronicled(h2[p := t], epochs, timeline + [Retired(p, epochs[p])])
  {
    var h2', timeline' := h2[p := t], timeline + [Retired(p, epochs[p])];
    forall q | 0 <= q < |timeline'|
      ensures MilestoneAt(h2', epochs, timeline', q)
    {
      assert q < |timeline| ==> MilestoneAt(h2, epochs, timeline, q);
    }
    forall a, b | 0 <= a < b < |timeline'|
      ensures InOrder(timeline', a, b)
    {
      assert b < |timeline| ==> InOrder(timeline, a, b);
    }
    forall s | 0 <= s < |h2'|
      ensures Epoch(h2', epochs, timeline', s)
    {
      assert Epoch(h2, epochs, timeline, s);
      assert timeline'[|timeline|] == Retired(p, epochs[p]);
    }
  }

  lemma PutH2Keeps(c: State, p: nat, t: H2)
    requires Valid(c) && p < |c.h2| && SameRegistry(c.h2[p], t)
    requires Retiring(t.state) <==> Retiring(c.h2[p].state)
    ensures Valid(PutH2(c, p, t))
  {
    H2Registry(c.slots, c.h2, p, t);
    H2Keyed(c.h1, c.h2, c.nextIdentity, p, t);
    H2Chronicled(c.h2, c.epochs, c.timeline, p, t);
  }

  lemma RetireKeeps(c: State, p: nat, t: H2)
    requires Valid(c) && p < |c.h2| && SameRegistry(c.h2[p], t) && Retiring(t.state)
    ensures Valid(Retire(c, p, t))
  {
    if Retiring(c.h2[p].state) {
      PutH2Keeps(c, p, t);
    } else {
      H2Registry(c.slots, c.h2, p, t);
      H2Keyed(c.h1, c.h2, c.nextIdentity, p, t);
      RetireChronicled(c.h2, c.epochs, c.timeline, p, t);
    }
  }

  lemma CloseAdmittedKeeps(c: State, p: nat)
    requires Valid(c) && Opened(c, p)
    ensures Valid(Retire(c, p, c.h2[p].(closeAdmitted := true, closePending := false, state := H2Closing)))
  {
    RetireKeeps(c, p, c.h2[p].(closeAdmitted := true, closePending := false, state := H2Closing));
  }

  lemma ClosePendingKeeps(c: State, p: nat)
    requires Valid(c) && Opened(c, p)
    ensures Valid(PutH2(c, p, c.h2[p].(closePending := true)))
  {
    PutH2Keeps(c, p, c.h2[p].(closePending := true));
  }

  lemma TryCloseH2Keeps(c: State, p: nat, close: Status)
    requires Valid(c)
    ensures Valid(TryCloseH2(c, p, close))
  {
    if Opened(c, p) && !c.h2[p].closeAdmitted {
      if close == Ok || close == Gone {
        CloseAdmittedKeeps(c, p);
      } else if close == NoBufs || close == Busy {
        ClosePendingKeeps(c, p);
      }
    }
  }

  // ---------------------------------------------------------------- completing requests

  lemma CompletedCore(c: State, i: nat)
    requires Valid(c) && i < |c.slots| && Live(c.slots[i]) && c.slots[i].protocol == Http2 && !c.slots[i].completed
    ensures Due(PutSlot(c, i, c.slots[i].(completed := true)), i)
  {
    assert SlotAt(c.slots, c.h1, c.stopActive, i);
    var s := c.slots[i].(completed := true);
    SlotCore(c, i, s);
    var slots' := c.slots[i := s];
    forall k | 0 <= k < |slots'| && k != i
      ensures SettledAt(slots', k)
    {
      assert SettledAt(c.slots, k);
    }
  }

  lemma EndH2Keeps(c: State, i: nat)
    requires MidDelivery(c, Some(i)) && c.slots[i].protocol == Http2
    ensures Valid(PutSlot(c, i, c.slots[i].(state := SlotTerminal)))
  {
    assert SlotAt(c.slots, c.h1, c.stopActive, i);
    var s := c.slots[i].(state := SlotTerminal);
    SlotCore(c, i, s);
    SettledPut(c.slots, Some(i), i, s);
  }

  /** Completion leaves every session's registry as it was. */
  lemma CompleteKeeps(c: State, i: nat, cancels: seq<CancelCall>)
    requires Valid(c) && i < |c.slots| && Live(c.slots[i]) && c.slots[i].protocol == Http2
    ensures Valid(Complete(c, i, cancels)) && Complete(c, i, cancels).h2 == c.h2
  {
    if !c.slots[i].completed {
      CompletedCore(c, i);
      var f := PutSlot(c, i, c.slots[i].(completed := true));
      DeliverKeeps(f, i, cancels);
      EndH2Keeps(Deliver(f, i, cancels), i);
    }
  }

  lemma EntryFacts(c: State, p: nat, k: nat)
    requires Core(c) && Entry(c, p, k).Some?
    ensures Live(c.slots[Entry(c, p, k).value]) && c.slots[Entry(c, p, k).value].protocol == Http2
  {
    assert RegistryAt(c.slots, c.h2, p);
    assert EntryAt(c.slots, p, c.h2[p], k);
  }

  lemma FailEntryKeeps(c: State, p: nat, k: nat, u: Upheaval)
    requires Valid(c)
    ensures Valid(FailEntry(c, p, k, u)) && FailEntry(c, p, k, u).h2 == c.h2
  {
    var entry := Entry(c, p, k);
    if entry.Some? {
      EntryFacts(c, p, k);
      CompleteKeeps(c, entry.value, u.cancels(k));
    }
  }

  lemma FailRequestsKeeps(c: State, p: nat, u: Upheaval)
    requires Valid(c)
    ensures Valid(FailRequests(c, p, u)) && FailRequests(c, p, u).h2 == c.h2
  {
    forall d: State, k: nat | Valid(d) && d.h2 == c.h2
      ensures Valid(FailEntry(d, p, k, u)) && FailEntry(d, p, k, u).h2 == c.h2
    {
      FailEntryKeeps(d, p, k, u);
    }
    PassKeeps(c, Capacity(c, p), (d: State, k: nat) => (FailEntry(d, p, k, u), Ok), (d: State) => Valid(d) && d.h2 == c.h2);
  }

  lemma NotedKeeps(c: State, i: nat, pending: bool)
    requires Valid(c) && i < |c.slots| && Live(c.slots[i]) && c.slots[i].protocol == Http2
    ensures Valid(PutSlot(c, i, c.slots[i].(terminalPending := pending)))
  {
    assert SlotAt(c.slots, c.h1, c.stopActive, i) && SettledAt(c.slots, i);
    var s := c.slots[i].(terminalPending := pending);
    SlotCore(c, i, s);
    SettledPut(c.slots, None, i, s);
  }

  lemma DeferredEntryKeeps(c: State, p: nat, k: nat, u: Upheaval)
    requires Valid(c)
    ensures Valid(DeferredEntry(c, p, k, u)) && DeferredEntry(c, p, k, u).h2 == c.h2
  {
    var entry := Entry(c, p, k);
    if entry.Some? && c.slots[entry.value].terminalPending {
      EntryFacts(c, p, k);
      NotedKeeps(c, entry.value, false);
      CompleteKeeps(PutSlot(c, entry.value, c.slots[entry.value].(terminalPending := false)), entry.value, u.cancels(k));
    }
  }

  lemma DeferredKeeps(c: State, p: nat, u: Upheaval)
    requires Valid(c)
    ensures Valid(Deferred(c, p, u)) && Deferred(c, p, u).h2 == c.h2
  {
    forall d: State, k: nat | Valid(d) && d.h2 == c.h2
      ensures Valid(DeferredEntry(d, p, k, u)) && DeferredEntry(d, p, k, u).h2 == c.h2
    {
      DeferredEntryKeeps(d, p, k, u);
    }
    PassKeeps(c, Capacity(c, p), (d: State, k: nat) => (DeferredEntry(d, p, k, u), Ok), (d: State) => Valid(d) && d.h2 == c.h2);
  }

  // ---------------------------------------------------------------- events

  lemma FailSessionKeeps(c: State, p: nat, u: Upheaval)
    requires Valid(c)
    ensures Valid(FailSession(c, p, u))
  {
    if Opened(c, p) {
      PutH2Keeps(c, p, c.h2[p].(failed := true));
      var b := PutH2(c, p, c.h2[p].(failed := true));
      FailRequestsKeeps(b, p, u);
      var d := FailRequests(b, p, u);
      RetireKeeps(d, p, d.h2[p].(state := H2Draining, closeAfterFlush := false));
      TryCloseH2Keeps(Retire(d, p, d.h2[p].(state := H2Draining, closeAfterFlush := false)), p, u.close);
    }
  }

  lemma FlushKeeps(c: State, p: nat, flushing: Flushing, u: Upheaval)
    requires Valid(c)
    ensures Valid(Flush(c, p, flushing, u))
  {
    FailSessionKeeps(c, p, u);
    TryCloseH2Keeps(c, p, u.close);
  }

  lemma ConnectedH2Keeps(c: State, p: nat, ready: bool, flushing: Flushing, u: Upheaval)
    requires Valid(c)
    ensures Valid(ConnectedH2(c, p, ready, flushing, u))
  {
    if Opened(c, p) && c.h2[p].state == H2Connecting {
      if ready {
        PutH2Keeps(c, p, c.h2[p].(state := H2Active));
        FlushKeeps(PutH2(c, p, c.h2[p].(state := H2Active)), p, flushing, u);
      } else {
        FailSessionKeeps(c, p, u);
      }
    }
  }

  lemma ClosedH2Keeps(c: State, p: nat, u: Upheaval)
    requires Valid(c)
    ensures Valid(ClosedH2(c, p, u))
  {
    if Opened(c, p) {
      FailRequestsKeeps(c, p, u);
      var d := FailRequests(c, p, u);
      RetireKeeps(d, p, d.h2[p].(state := H2Terminal, closePending := false));
    }
  }

  lemma StreamClosedKeeps(c: State, p: nat, k: nat, deferred: bool, cancels: seq<CancelCall>)
    requires Valid(c)
    ensures Valid(StreamClosed(c, p, k, deferred, cancels))
  {
    var entry := Entry(c, p, k);
    if entry.Some? {
      EntryFacts(c, p, k);
      NotedKeeps(c, entry.value, true);
      CompleteKeeps(c, entry.value, cancels);
    }
  }

  lemma GoawayKeeps(c: State, p: nat)
    requires Valid(c)
    ensures Valid(Goaway(c, p))
  {
    if p < |c.h2| && c.h2[p].state != H2Free {
      if c.h2[p].state == H2Active {
        RetireKeeps(c, p, Waning(c.h2[p], H2Draining));
      } else {
        PutH2Keeps(c, p, Waning(c.h2[p], c.h2[p].state));
      }
    }
  }

  lemma ProgressKeeps(c: State, p: nat, again: Status, flushing: Flushing, u: Upheaval)
    requires Valid(c)
    ensures Valid(Progress(c, p, again, flushing, u))
  {
    if Opened(c, p) {
      DeferredKeeps(c, p, u);
      var d := Deferred(c, p, u);
      FlushKeeps(d, p, flushing, u);
      TryCloseH2Keeps(d, p, again);
      FlushKeeps(TryCloseH2(d, p, again), p, flushing, u);
    }
  }

  lemma BeginStopH2Keeps(c: State, p: nat, goaway: Status, close: Status)
    requires Valid(c)
    ensures Valid(BeginStopH2(c, p, goaway, close))
  {
    if Opened(c, p) {
      TryCloseH2Keeps(c, p, close);
      RetireKeeps(c, p, Waning(c.h2[p], H2Draining));
    }
  }

  /** The pool's own fields are all that change. */
  predicate PoolOnly(a: H2, b: H2) {
    b.state == a.state && b.requests == a.requests && b.active == a.active && b.origin == a.origin
  }

  lemma ReadiedSame(t: H2, settings: bool, bind: Status, drain: Status)
    ensures PoolOnly(t, Readied(t, settings, bind, drain))
    ensures t == UNUSED_H2 ==> Readied(t, settings, bind, drain) == t
  {
  }

  lemma GivenBackSame(t: H2, terminal: Status, context: Status)
    ensures PoolOnly(t, GivenBack(t, terminal, context))
    ensures t == UNUSED_H2 ==> GivenBack(t, terminal, context) == t
  {
  }

  /** A session leaves only with an empty registry. */
  lemma ReapH2Keeps(c: State, p: nat)
    requires Valid(c)
    ensures Valid(ReapH2(c, p))
  {
    if ReapH2(c, p) != c {
      FreedRegistry(c.slots, c.h2, p);
      H2Keyed(c.h1, c.h2, c.nextIdentity, p, UNUSED_H2);
      H2Chronicled(c.h2, c.epochs, c.timeline, p, UNUSED_H2);
    }
  }

  lemma FreedRegistry(slots: seq<Slot>, h2: seq<H2>, p: nat)
    requires Registry(slots, h2) && p < |h2| && h2[p].active == 0
    ensures Registry(slots, h2[p := UNUSED_H2])
  {
    var h2' := h2[p := UNUSED_H2];
    assert RegistryAt(slots, h2, p);
    forall s | 0 <= s < |h2'|
      ensures RegistryAt(slots, h2', s)
    {
      assert RegistryAt(slots, h2, s);
    }
    forall i | 0 <= i < |slots|
      ensures RegisteredAt(slots, h2', i)
    {
      assert RegisteredAt(slots, h2, i);
      if slots[i].h2 == Some(p) {
        OccupiedBound(h2[p].requests, slots[i].entry);
      }
    }
  }
}
