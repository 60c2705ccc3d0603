/**
 What the single writes of the client keep: one lemma per table and kind of
 write, so that a client operation is a chain of them.
 */
module ClientSteps {
  import opened Octets
  import opened ClientState
  import opened ClientH1

  /** What a slot keeps while its request lives. */
  predicate Steady(a: Slot, b: Slot) {
    && Live(a) && Live(b)
    && b.generation == a.generation && b.protocol == a.protocol
    && b.h1 == a.h1 && b.h2 == a.h2 && b.entry == a.entry
  }

  /** What a session keeps while its connection lives. */
  predicate SameOrigin(a: H1, b: H1) {
    && b.origin == a.origin
    && (b.state == H1Free <==> a.state == H1Free)
  }

  // ---------------------------------------------------------------- a slot alone

  lemma SlotTables(slots: seq<Slot>, h1: seq<H1>, stopping: bool, i: nat, s: Slot)
    requires Tables(slots, h1, stopping) && i < |slots| && Steady(slots[i], s) && SlotOk(s)
    requires slots[i].state == SlotTerminal ==> s.state == SlotTerminal
    requires s.h1.Some? && s.h1.value < |h1| && h1[s.h1.value].request == Some(i) ==> Bound(s, s.h1.value, h1[s.h1.value])
    ensures Tables(slots[i := s], h1, stopping)
  {
    var slots' := slots[i := s];
    forall j | 0 <= j < |h1|
      ensures SessionAt(slots', h1, j)
    {
      assert SessionAt(slots, h1, j);
    }
    forall k | 0 <= k < |slots'|
      ensures SlotAt(slots', h1, stopping, k)
    {
      assert SlotAt(slots, h1, stopping, k);
    }
  }

  lemma SlotCarried(slots: seq<Slot>, h1: seq<H1>, traffic: seq<Traffic>, finished: set<Handle>, i: nat, s: Slot)
    requires Carried(slots, h1, traffic, finished) && i < |slots| && s.generation == slots[i].generation
    ensures Carried(slots[i := s], h1, traffic, finished)
  {
    var slots' := slots[i := s];
    forall j | 0 <= j < |h1|
      ensures CarriedAt(slots', h1, traffic, finished, j)
    {
      assert CarriedAt(slots, h1, traffic, finished, j);
    }
  }

  lemma SlotAccounted(slots: seq<Slot>, book: Ledger, i: nat, s: Slot)
    requires Accounted(slots, book) && i < |slots| && Steady(slots[i], s) && s.delivered == slots[i].delivered
    ensures Accounted(slots[i := s], book)
  {
    var slots' := slots[i := s];
    forall k | 0 <= k < |slots'|
      ensures AccountedSlot(slots', k, book)
    {
      assert AccountedSlot(slots, k, book);
    }
    forall h
      ensures AccountedAt(slots', book, h)
    {
      assert AccountedAt(slots, book, h);
    }
  }

  /** Delivering is the one step that adds a callback, to a slot that had none. */
  lemma DeliveryAccounted(slots: seq<Slot>, book: Ledger, i: nat)
    requires Accounted(slots, book) && i < |slots| && Live(slots[i]) && !slots[i].delivered
    ensures Accounted(slots[i := slots[i].(delivered := true)], book.(calls := book.calls + multiset{HandleOf(slots, i)}))
  {
    var slots' := slots[i := slots[i].(delivered := true)];
    var book' := book.(calls := book.calls + multiset{HandleOf(slots, i)});
    assert AccountedSlot(slots, i, book);
    forall k | 0 <= k < |slots'|
      ensures AccountedSlot(slots', k, book')
    {
      assert AccountedSlot(slots, k, book);
    }
    forall h
      ensures AccountedAt(slots', book', h)
    {
      assert AccountedAt(slots, book, h);
    }
  }

  lemma SlotWireIds(slots: seq<Slot>, i: nat, s: Slot)
    requires WireIds(slots) && i < |slots| && (s.wireId == slots[i].wireId || s.wireId == None)
    ensures WireIds(slots[i := s])
  {
    var slots' := slots[i := s];
    forall a, b | 0 <= a < b < |slots'|
      ensures WirePair(slots', a, b)
    {
      assert WirePair(slots, a, b);
    }
  }

  lemma SlotRegistry(slots: seq<Slot>, h2: seq<H2>, i: nat, s: Slot)
    requires Registry(slots, h2) && i < |slots| && Steady(slots[i], s)
    ensures Registry(slots[i := s], h2)
  {
    var slots' := slots[i := s];
    forall p | 0 <= p < |h2|
      ensures RegistryAt(slots', h2, p)
    {
      assert RegistryAt(slots, h2, p);
      forall k | 0 <= k < |h2[p].requests|
        ensures EntryAt(slots', p, h2[p], k)
      {
        assert EntryAt(slots, p, h2[p], k);
      }
    }
    forall k | 0 <= k < |slots'|
      ensures RegisteredAt(slots', h2, k)
    {
      assert RegisteredAt(slots, h2, k);
    }
  }

  // ---------------------------------------------------------------- a session alone

  lemma SessionTables(slots: seq<Slot>, h1: seq<H1>, stopping: bool, j: nat, t: H1)
    requires Tables(slots, h1, stopping) && j < |h1| && SessionOk(t) && t.request == h1[j].request
    requires Serving(slots, j, t)
    ensures Tables(slots, h1[j := t], stopping)
  {
    var h1' := h1[j := t];
    forall k | 0 <= k < |h1'|
      ensures SessionAt(slots, h1', k)
    {
      assert SessionAt(slots, h1, k);
    }
    forall i | 0 <= i < |slots|
      ensures SlotAt(slots, h1', stopping, i)
    {
      assert SlotAt(slots, h1, stopping, i);
    }
  }

  lemma SessionCarried(slots: seq<Slot>, h1: seq<H1>, traffic: seq<Traffic>, finished: set<Handle>, j: nat, t: H1, carried: Traffic)
    requires Carried(slots, h1, traffic, finished) && j < |h1| && CarriedBy(slots, t, carried, finished)
    ensures Carried(slots, h1[j := t], traffic[j := carried], finished)
  {
    var h1', traffic' := h1[j := t], traffic[j := carried];
    forall k | 0 <= k < |h1'|
      ensures CarriedAt(slots, h1', traffic', finished, k)
    {
      assert CarriedAt(slots, h1, traffic, finished, k);
    }
  }

  lemma SessionKeyed(h1: seq<H1>, h2: seq<H2>, next: nat, j: nat, t: H1)
    requires Keyed(h1, h2, next) && j < |h1| && (t.state == H1Free || SameOrigin(h1[j], t))
    ensures Keyed(h1[j := t], h2, next)
  {
    var h1' := h1[j := t];
    forall a | 0 <= a < |h1'|
      ensures KeyAt1(h1', next, a)
    {
      assert KeyAt1(h1, next, a);
    }
    forall a, b | 0 <= a < |h1'| && 0 <= b < |h1'|
      ensures KeyPair1(h1', a, b)
    {
      assert KeyPair1(h1, a, b);
    }
    forall a, s | 0 <= a < |h1'| && 0 <= s < |h2|
      ensures KeyPair12(h1', h2, a, s)
    {
      assert KeyPair12(h1, h2, a, s);
    }
  }

  // ---------------------------------------------------------------- a slot and the session serving it

  predicate PairStep(i: nat, s: Slot, s': Slot, j: nat, t: H1, t': H1) {
    && t.request == Some(i) && s.h1 == Some(j)
    && Steady(s, s') && SlotOk(s')
    && t'.request == Some(i) && SameOrigin(t, t') && SessionOk(t') && Bound(s', j, t')
  }

  lemma PairTables(slots: seq<Slot>, h1: seq<H1>, stopping: bool, i: nat, s: Slot, j: nat, t: H1)
    requires Tables(slots, h1, stopping) && i < |slots| && j < |h1| && PairStep(i, slots[i], s, j, h1[j], t)
    ensures Tables(slots[i := s], h1[j := t], stopping)
  {
    var slots', h1' := slots[i := s], h1[j := t];
    forall k | 0 <= k < |h1'|
      ensures SessionAt(slots', h1', k)
    {
      assert SessionAt(slots, h1, k);
    }
    forall k | 0 <= k < |slots'|
      ensures SlotAt(slots', h1', stopping, k)
    {
      assert SlotAt(slots, h1, stopping, k);
    }
  }

  // ---------------------------------------------------------------- on the whole state

  lemma PairCore(c: State, i: nat, s: Slot, j: nat, t: H1)
    requires Core(c) && i < |c.slots| && j < |c.h1| && PairStep(i, c.slots[i], s, j, c.h1[j], t)
    requires s.delivered == c.slots[i].delivered && s.wireId == c.slots[i].wireId && CarriedBy(c.slots, t, c.traffic[j], c.finished)
    ensures Core(PutPair(c, i, s, j, t))
  {
    PairCarriedCore(c, i, s, j, t, c.traffic[j]);
    assert c.traffic[j := c.traffic[j]] == c.traffic;
  }

  lemma PairCarriedCore(c: State, i: nat, s: Slot, j: nat, t: H1, carried: Traffic)
    requires Core(c) && i < |c.slots| && j < |c.h1| && PairStep(i, c.slots[i], s, j, c.h1[j], t)
    requires s.delivered == c.slots[i].delivered && s.wireId == c.slots[i].wireId && CarriedBy(c.slots, t, carried, c.finished)
    ensures Core(PutPair(c, i, s, j, t).(traffic := c.traffic[j := carried]))
  {
    PairTables(c.slots, c.h1, c.stopActive, i, s, j, t);
    SessionCarried(c.slots, c.h1, c.traffic, c.finished, j, t, carried);
    SlotCarried(c.slots, c.h1[j := t], c.traffic[j := carried], c.finished, i, s);
    SlotAccounted(c.slots, c.book, i, s);
    SlotWireIds(c.slots, i, s);
    SlotRegistry(c.slots, c.h2, i, s);
    SessionKeyed(c.h1, c.h2, c.nextIdentity, j, t);
  }

  lemma TryClosedOk(t: H1, drain: Status, close: Status)
    requires SessionOk(t)
    ensures SessionOk(TryClosed(t, drain, close)) && SameOrigin(t, TryClosed(t, drain, close))
    ensures TryClosed(t, drain, close) == t.(state := TryClosed(t, drain, close).state,
                                             closeAdmitted := TryClosed(t, drain, close).closeAdmitted,
                                             closePending := TryClosed(t, drain, close).closePending)
    ensures TryClosed(t, drain, close).state in {H1Free, H1Closing, H1Terminal}
  {
  }

  lemma SlotCore(c: State, i: nat, s: Slot)
    requires Core(c) && i < |c.slots| && Steady(c.slots[i], s) && SlotOk(s)
    requires s.delivered == c.slots[i].delivered && s.wireId == c.slots[i].wireId
    requires c.slots[i].state == SlotTerminal ==> s.state == SlotTerminal
    requires s.h1.Some? && s.h1.value < |c.h1| && c.h1[s.h1.value].request == Some(i) ==> Bound(s, s.h1.value, c.h1[s.h1.value])
    ensures Core(PutSlot(c, i, s))
  {
    SlotTables(c.slots, c.h1, c.stopActive, i, s);
    SlotCarried(c.slots, c.h1, c.traffic, c.finished, i, s);
    SlotAccounted(c.slots, c.book, i, s);
    SlotWireIds(c.slots, i, s);
    SlotRegistry(c.slots, c.h2, i, s);
  }

  lemma SessionCore(c: State, j: nat, t: H1, carried: Traffic)
    requires Core(c) && j < |c.h1| && SessionOk(t) && t.request == c.h1[j].request && SameOrigin(c.h1[j], t)
    requires Serving(c.slots, j, t) && CarriedBy(c.slots, t, carried, c.finished)
    ensures Core(c.(h1 := c.h1[j := t], traffic := c.traffic[j := carried]))
    ensures carried == c.traffic[j] ==> Core(c.(h1 := c.h1[j := t]))
  {
    SessionTables(c.slots, c.h1, c.stopActive, j, t);
    SessionCarried(c.slots, c.h1, c.traffic, c.finished, j, t, carried);
    SessionKeyed(c.h1, c.h2, c.nextIdentity, j, t);
    assert carried == c.traffic[j] ==> c.traffic[j := carried] == c.traffic;
  }

  lemma DeliveredCore(c: State, i: nat)
    requires Core(c) && i < |c.slots| && Live(c.slots[i]) && !c.slots[i].delivered
    requires c.slots[i].protocol == Http2 ==> c.slots[i].completed
    ensures Core(MarkDelivered(c, i))
  {
    var s := c.slots[i].(delivered := true);
    assert SlotAt(c.slots, c.h1, c.stopActive, i);
    if c.slots[i].h1.Some? {
      assert SessionAt(c.slots, c.h1, c.slots[i].h1.value);
    }
    SlotTables(c.slots, c.h1, c.stopActive, i, s);
    SlotCarried(c.slots, c.h1, c.traffic, c.finished, i, s);
    DeliveryAccounted(c.slots, c.book, i);
    SlotWireIds(c.slots, i, s);
    SlotRegistry(c.slots, c.h2, i, s);
  }

  /** What is known of a live HTTP/1.1 request and its session. */
  lemma Exchange(c: State, i: nat)
    requires Core(c) && i < |c.slots| && Live(c.slots[i]) && c.slots[i].protocol == Http1
    ensures SessionOf(c, i).Some? && |c.traffic| == |c.h1|
    ensures SlotOk(c.slots[i]) && SessionOk(c.h1[c.slots[i].h1.value])
    ensures c.slots[i].state != SlotTerminal || !c.stopActive ==> c.h1[c.slots[i].h1.value].request == Some(i)
    ensures c.h1[c.slots[i].h1.value].request == Some(i) ==> Bound(c.slots[i], c.slots[i].h1.value, c.h1[c.slots[i].h1.value])
    ensures CarriedBy(c.slots, c.h1[c.slots[i].h1.value], c.traffic[c.slots[i].h1.value], c.finished)
  {
    assert SlotAt(c.slots, c.h1, c.stopActive, i);
    assert SessionAt(c.slots, c.h1, c.slots[i].h1.value);
    assert CarriedAt(c.slots, c.h1, c.traffic, c.finished, c.slots[i].h1.value);
  }
}
