/** The reaper and the passes that give connections back keep the client valid. */
module ClientReapKeeps {
  import opened Octets
  import opened ClientState
  import opened ClientH1
  import opened ClientH2
  import opened ClientPool
  import opened ClientSteps
  import opened ClientH1Keeps
  import opened ClientH2Keeps

  // ---------------------------------------------------------------- a slot leaves the tables

  /** Slot `i` lets go of session `j`, which then serves nobody. */
  lemma UnlinkTables(slots: seq<Slot>, h1: seq<H1>, stopping: bool, i: nat, s: Slot, j: nat, t: H1)
    requires Tables(slots, h1, stopping) && i < |slots| && j < |h1| && slots[i].h1 == Some(j) && Live(slots[i])
    requires h1[j].request == Some(i) || h1[j].request == None
    requires t.request == None && SessionOk(t) && SlotOk(s)
    requires !Live(s) || (stopping && s.state == SlotTerminal && s.h1 == Some(j))
    ensures Tables(slots[i := s], h1[j := t], stopping)
  {
    var slots', h1' := slots[i := s], h1[j := t];
    forall k | 0 <= k < |h1'|
      ensures SessionAt(slots', h1', k)
    {
      assert SessionAt(slots, h1, k);
    }
    forall k | 0 <= k < |slots'|
      ensures SlotAt(slots', h1', stopping, k)
    {
      assert SlotAt(slots, h1, stopping, k);
    }
  }

  lemma VacantTables(slots: seq<Slot>, h1: seq<H1>, stopping: bool, i: nat, g: nat)
    requires Tables(slots, h1, stopping) && i < |slots| && slots[i].h1 == None && g <= UINT32_MAX
    ensures Tables(slots[i := Vacant(g)], h1, stopping)
  {
    var slots' := slots[i := Vacant(g)];
    forall k | 0 <= k < |h1|
      ensures SessionAt(slots', h1, k)
    {
      assert SessionAt(slots, h1, k);
    }
    forall k | 0 <= k < |slots'|
      ensures SlotAt(slots', h1, stopping, k)
    {
      assert SlotAt(slots, h1, stopping, k);
    }
  }

  /** A slot is recycled only after exactly one callback. */
  lemma RecycleAccounted(slots: seq<Slot>, book: Ledger, i: nat)
    requires Accounted(slots, book) && i < |slots| && Live(slots[i]) && slots[i].delivered && 1 <= slots[i].generation
    ensures book.calls[HandleOf(slots, i)] == 1
    ensures Accounted(slots[i := Vacant(slots[i].generation)], book.(recycled := book.recycled + {HandleOf(slots, i)}))
  {
    var slots', book' := slots[i := Vacant(slots[i].generation)], book.(recycled := book.recycled + {HandleOf(slots, i)});
    assert AccountedSlot(slots, i, book);
    forall k | 0 <= k < |slots'|
      ensures AccountedSlot(slots', k, book')
    {
      assert AccountedSlot(slots, k, book);
    }
    forall h
      ensures AccountedAt(slots', book', h)
    {
      assert AccountedAt(slots, book, h);
    }
  }

  lemma VacantRegistry(slots: seq<Slot>, h2: seq<H2>, i: nat, g: nat)
    requires Registry(slots, h2) && i < |slots| && slots[i].h2 == None
    ensures Registry(slots[i := Vacant(g)], h2)
  {
    var slots' := slots[i := Vacant(g)];
    forall p | 0 <= p < |h2|
      ensures RegistryAt(slots', h2, p)
    {
      assert RegistryAt(slots, h2, p);
      forall k | 0 <= k < |h2[p].requests|
        ensures EntryAt(slots', p, h2[p], k)
      {
        assert EntryAt(slots, p, h2[p], k);
      }
    }
    forall k | 0 <= k < |slots'|
      ensures RegisteredAt(slots', h2, k)
    {
      assert RegisteredAt(slots, h2, k);
    }
  }

  lemma CarriedGrows(slots: seq<Slot>, h1: seq<H1>, traffic: seq<Traffic>, finished: set<Handle>, more: set<Handle>)
    requires Carried(slots, h1, traffic, finished)
    ensures Carried(slots, h1, traffic, finished + more)
  {
    forall j | 0 <= j < |h1|
      ensures CarriedAt(slots, h1, traffic, finished + more, j)
    {
      assert CarriedAt(slots, h1, traffic, finished, j);
    }
  }

  // ---------------------------------------------------------------- the reaper over HTTP/1.1

  /** An exchange the reaper lets go of leaves its session closed, closing, or idle and clean. */
  predicate LetGo(t: H1, r: H1) {
    && SessionOk(r) && r.request == None && SameOrigin(t, r) && r.transportClosed == t.transportClosed && !r.sendPending
    && (r.state == t.state || r.state == H1Idle || r.state == H1Closing) && r.state != H1Active
    && (r.state == H1Idle ==> t.state == H1Active || t.state == H1Idle)
  }

  lemma ReapedOk(t: H1, stopping: bool, drain: Status, close: Status, arm: Status, bind: Status)
    requires SessionOk(t) && !t.sendPending && t.state != H1Free
    ensures LetGo(t, Reaped(t, stopping, drain, close, arm, bind))
  {
    if t.state == H1Active {
      var u := t.(operation := 0, request := None);
      ClosingOk(u, drain, close);
      ClosingOk(u.(state := H1Idle, receiveArmed := u.receiveArmed || arm == Ok), drain, close);
    }
  }

  lemma ClosingOk(t: H1, drain: Status, close: Status)
    requires (t.state == H1Active || t.state == H1Idle) && !t.transportClosed && !t.closeAdmitted && !t.sendPending && t.request == None
    ensures LetGo(t, TryClosed(t, drain, close)) && TryClosed(t, drain, close).state == H1Closing
  {
  }

  lemma ReapedCarried(c: State, i: nat, j: nat, t: H1)
    requires Valid(c) && i < |c.slots| && j < |c.h1| && c.slots[i].h1 == Some(j) && c.slots[i].state == SlotTerminal
    requires !c.h1[j].sendPending && !t.sendPending && t.transportClosed == c.h1[j].transportClosed
    requires t.state == c.h1[j].state || t.state == H1Idle || t.state == H1Closing
    requires t.state != H1Active && t.state != H1Free && t.request == None
    requires t.state == H1Idle ==> c.h1[j].state == H1Active || c.h1[j].state == H1Idle
    ensures Carried(c.slots, c.h1[j := t], c.traffic, c.finished + Finishing(c, i, j))
  {
    assert SlotAt(c.slots, c.h1, c.stopActive, i) && SessionAt(c.slots, c.h1, j);
    assert CarriedAt(c.slots, c.h1, c.traffic, c.finished, j);
    var more := Finishing(c, i, j);
    CarriedGrows(c.slots, c.h1, c.traffic, c.finished, more);
    assert CarriedBy(c.slots, t, c.traffic[j], c.finished + more);
    SessionCarried(c.slots, c.h1, c.traffic, c.finished + more, j, t, c.traffic[j]);
    assert c.traffic[j := c.traffic[j]] == c.traffic;
  }

  lemma RecycleH1Keeps(c: State, i: nat, j: nat, t: H1, more: set<Handle>)
    requires Valid(c) && i < |c.slots| && j < |c.h1| && c.slots[i].h1 == Some(j) && c.slots[i].state == SlotTerminal
    requires t.request == None && SessionOk(t) && SameOrigin(c.h1[j], t)
    requires Carried(c.slots, c.h1[j := t], c.traffic, c.finished + more)
    ensures Valid(Recycle(c.(h1 := c.h1[j := t], finished := c.finished + more), i))
  {
    assert SlotAt(c.slots, c.h1, c.stopActive, i) && SessionAt(c.slots, c.h1, j);
    var s := Vacant(c.slots[i].generation);
    UnlinkTables(c.slots, c.h1, c.stopActive, i, s, j, t);
    SlotCarried(c.slots, c.h1[j := t], c.traffic, c.finished + more, i, s);
    RecycleAccounted(c.slots, c.book, i);
    SlotWireIds(c.slots, i, s);
    VacantRegistry(c.slots, c.h2, i, s.generation);
    SessionKeyed(c.h1, c.h2, c.nextIdentity, j, t);
    SettledPut(c.slots, None, i, s);
  }

  /** The pass that ends with an error while stopping: the session is unbound, the slot is not yet free. */
  lemma StaleKeeps(c: State, i: nat, j: nat, t: H1, more: set<Handle>)
    requires Valid(c) && i < |c.slots| && j < |c.h1| && c.slots[i].h1 == Some(j) && c.slots[i].state == SlotTerminal && c.stopActive
    requires t.request == None && SessionOk(t) && SameOrigin(c.h1[j], t)
    requires Carried(c.slots, c.h1[j := t], c.traffic, c.finished + more)
    ensures Valid(PutSlot(c.(h1 := c.h1[j := t], finished := c.finished + more), i, c.slots[i].(lease := false)))
  {
    assert SlotAt(c.slots, c.h1, c.stopActive, i) && SessionAt(c.slots, c.h1, j) && SettledAt(c.slots, i);
    var s := c.slots[i].(lease := false);
    UnlinkTables(c.slots, c.h1, c.stopActive, i, s, j, t);
    SlotCarried(c.slots, c.h1[j := t], c.traffic, c.finished + more, i, s);
    SlotAccounted(c.slots, c.book, i, s);
    SlotWireIds(c.slots, i, s);
    SlotRegistry(c.slots, c.h2, i, s);
    SessionKeyed(c.h1, c.h2, c.nextIdentity, j, t);
    SettledPut(c.slots, None, i, s);
  }

  lemma ReapH1SlotKeeps(c: State, i: nat, j: nat, net: Net)
    requires Valid(c) && i < |c.slots| && j < |c.h1| && c.slots[i].h1 == Some(j) && c.slots[i].state == SlotTerminal
    ensures Valid(ReapH1Slot(c, i, j, net).0)
  {
    if !c.h1[j].sendPending && !(c.slots[i].lease && net.release(i) != Ok) {
      assert SlotAt(c.slots, c.h1, c.stopActive, i) && SessionAt(c.slots, c.h1, j);
      if c.h1[j].state == H1Free {
        ReapUnusedKeeps(c, i, j, net);
      } else {
        ReapUsedKeeps(c, i, j, net);
      }
    }
  }

  lemma ReapUsedKeeps(c: State, i: nat, j: nat, net: Net)
    requires Valid(c) && i < |c.slots| && j < |c.h1| && c.slots[i].h1 == Some(j) && c.slots[i].state == SlotTerminal
    requires c.h1[j].state != H1Free && !c.h1[j].sendPending && !(c.slots[i].lease && net.release(i) != Ok)
    ensures Valid(ReapH1Slot(c, i, j, net).0)
  {
    var t := Reaped(c.h1[j], c.stopActive, net.drain(j), net.close(j), net.arm(j), net.bind(j));
    var d := c.(h1 := c.h1[j := t], finished := c.finished + Finishing(c, i, j));
    var r := ReapH1Slot(c, i, j, net).0;
    assert r == Recycle(d, i) || (c.stopActive && r == PutSlot(d, i, c.slots[i].(lease := false)));
    assert SlotAt(c.slots, c.h1, c.stopActive, i) && SessionAt(c.slots, c.h1, j);
    ReapedOk(c.h1[j], c.stopActive, net.drain(j), net.close(j), net.arm(j), net.bind(j));
    ReapedCarried(c, i, j, t);
    ReapBoundKeeps(c, i, j, t);
  }

  lemma ReapBoundKeeps(c: State, i: nat, j: nat, t: H1)
    requires Valid(c) && i < |c.slots| && j < |c.h1| && c.slots[i].h1 == Some(j) && c.slots[i].state == SlotTerminal
    requires t.request == None && SessionOk(t) && SameOrigin(c.h1[j], t)
    requires Carried(c.slots, c.h1[j := t], c.traffic, c.finished + Finishing(c, i, j))
    ensures Valid(Recycle(c.(h1 := c.h1[j := t], finished := c.finished + Finishing(c, i, j)), i))
    ensures c.stopActive ==>
      Valid(PutSlot(c.(h1 := c.h1[j := t], finished := c.finished + Finishing(c, i, j)), i, c.slots[i].(lease := false)))
  {
    RecycleH1Keeps(c, i, j, t, Finishing(c, i, j));
    if c.stopActive {
      StaleKeeps(c, i, j, t, Finishing(c, i, j));
    }
  }

  lemma ReapUnusedKeeps(c: State, i: nat, j: nat, net: Net)
    requires Valid(c) && i < |c.slots| && j < |c.h1| && c.slots[i].h1 == Some(j) && c.slots[i].state == SlotTerminal
    requires c.h1[j] == UNUSED_H1 && !(c.slots[i].lease && net.release(i) != Ok)
    ensures Valid(ReapH1Slot(c, i, j, net).0)
  {
    CarriedGrows(c.slots, c.h1, c.traffic, c.finished, Finishing(c, i, j));
    assert c.h1[j := UNUSED_H1] == c.h1;
    assert UNUSED_H1.(operation := 0, request := None) == UNUSED_H1;
    RecycleH1Keeps(c, i, j, UNUSED_H1, Finishing(c, i, j));
  }

  // ---------------------------------------------------------------- the reaper over HTTP/2

  /** The registry entry goes with its slot. */
  lemma UnregisterRegistry(slots: seq<Slot>, h2: seq<H2>, i: nat, p: nat)
    requires Registry(slots, h2) && i < |slots| && p < |h2| && slots[i].h2 == Some(p) && Live(slots[i])
    ensures slots[i].entry < |h2[p].requests| && h2[p].active > 0
    ensures Registry(slots[i := Vacant(slots[i].generation)], h2[p := Unregister(h2[p], slots[i].entry)])
  {
    var k0 := slots[i].entry;
    assert RegisteredAt(slots, h2, i) && RegistryAt(slots, h2, p);
    OccupiedBound(h2[p].requests, k0);
    OccupiedUpdate(h2[p].requests, k0, None);
    var slots', h2' := slots[i := Vacant(slots[i].generation)], h2[p := Unregister(h2[p], k0)];
    forall s | 0 <= s < |h2'|
      ensures RegistryAt(slots', h2', s)
    {
      assert RegistryAt(slots, h2, s);
      forall k | 0 <= k < |h2'[s].requests|
        ensures EntryAt(slots', s, h2'[s], k)
      {
        assert EntryAt(slots, s, h2[s], k);
      }
    }
    forall k | 0 <= k < |slots'|
      ensures RegisteredAt(slots', h2', k)
    {
      assert RegisteredAt(slots, h2, k);
    }
  }

  lemma ReapH2SlotKeeps(c: State, i: nat, p: nat, net: Net)
    requires Valid(c) && i < |c.slots| && p < |c.h2| && c.slots[i].h2 == Some(p) && c.slots[i].state == SlotTerminal
    ensures Valid(ReapH2Slot(c, i, p, net).0)
  {
    assert SlotAt(c.slots, c.h1, c.stopActive, i);
    UnregisterRegistry(c.slots, c.h2, i, p);
    RecycleH2Keeps(c, i, p);
  }

  lemma RecycleH2Keeps(c: State, i: nat, p: nat)
    requires Valid(c) && i < |c.slots| && p < |c.h2| && c.slots[i].h2 == Some(p) && c.slots[i].state == SlotTerminal
    requires c.slots[i].entry < |c.h2[p].requests| && c.h2[p].active > 0
    ensures Valid(Recycle(PutH2(c, p, Unregister(c.h2[p], c.slots[i].entry)), i))
  {
    assert SlotAt(c.slots, c.h1, c.stopActive, i) && RegistryAt(c.slots, c.h2, p);
    var s, t := Vacant(c.slots[i].generation), Unregister(c.h2[p], c.slots[i].entry);
    VacantTables(c.slots, c.h1, c.stopActive, i, s.generation);
    SlotCarried(c.slots, c.h1, c.traffic, c.finished, i, s);
    RecycleAccounted(c.slots, c.book, i);
    SlotWireIds(c.slots, i, s);
    UnregisterRegistry(c.slots, c.h2, i, p);
    H2Keyed(c.h1, c.h2, c.nextIdentity, p, t);
    H2Chronicled(c.h2, c.epochs, c.timeline, p, t);
    SettledPut(c.slots, None, i, s);
  }

  // ---------------------------------------------------------------- whole passes

  lemma ReapSlotKeeps(c: State, i: nat, net: Net)
    requires Valid(c)
    ensures Valid(ReapSlot(c, i, net).0)
  {
    if i < |c.slots| && c.slots[i].state == SlotTerminal && !c.slots[i].filePending {
      if SessionOf(c, i).Some? {
        ReapH1SlotKeeps(c, i, c.slots[i].h1.value, net);
      } else if c.slots[i].h2.Some? && c.slots[i].h2.value < |c.h2| {
        ReapH2SlotKeeps(c, i, c.slots[i].h2.value, net);
      }
    }
  }

  lemma ReapKeeps(c: State, net: Net)
    requires Valid(c)
    ensures Valid(Reap(c, net).0)
  {
    forall d: State, i: nat | Valid(d)
      ensures Valid(ReapSlot(d, i, net).0)
    {
      ReapSlotKeeps(d, i, net);
    }
    PassKeeps(c, |c.slots|, (d: State, i: nat) => ReapSlot(d, i, net), Valid);
  }

  lemma RetryCloseKeeps(c: State, j: nat, net: Net)
    requires Valid(c)
    ensures Valid(RetryClose(c, j, net))
  {
    if j < |c.h1| && c.h1[j].closePending {
      assert SessionAt(c.slots, c.h1, j);
      TryCloseKeeps(c, j, net.drain(j), net.close(j));
    }
  }

  lemma RetryClosesKeeps(c: State, net: Net)
    requires Valid(c)
    ensures Valid(RetryCloses(c, net))
  {
    forall d: State, j: nat | Valid(d)
      ensures Valid(RetryClose(d, j, net))
    {
      RetryCloseKeeps(d, j, net);
    }
    PassKeeps(c, |c.h1|, (d: State, j: nat) => (RetryClose(d, j, net), Ok), Valid);
  }

  /** A write of a session that changes neither what it serves nor what it carried. */
  lemma TouchKeeps(c: State, j: nat, t: H1)
    requires Valid(c) && j < |c.h1| && t == c.h1[j].(pooled := t.pooled, managed := t.managed, contextReleased := t.contextReleased)
    requires c.h1[j].state != H1Free || t == c.h1[j]
    ensures Valid(c.(h1 := c.h1[j := t]))
  {
    assert SessionAt(c.slots, c.h1, j) && CarriedAt(c.slots, c.h1, c.traffic, c.finished, j);
    SessionCore(c, j, t, c.traffic[j]);
  }

  lemma ReturnOneKeeps(c: State, j: nat, net: Net)
    requires Valid(c)
    ensures Valid(ReturnOne(c, j, net).0)
  {
    if j < |c.h1| {
      var t := Returned(c.h1[j], net.terminal(j), net.context(j));
      assert ReturnOne(c, j, net).0 == c.(h1 := c.h1[j := t]);
      TouchKeeps(c, j, t);
    }
  }

  lemma PoolOneKeeps(c: State, p: nat, net: Net)
    requires Valid(c)
    ensures Valid(PoolOne(c, p, net).0)
  {
    if p < |c.h2| && c.h2[p].state != H2Free {
      var t := Readied(c.h2[p], net.settings(p), net.bind2(p), net.drain2(p));
      var d := PutH2(c, p, t);
      ReadiedSame(c.h2[p], net.settings(p), net.bind2(p), net.drain2(p));
      PutH2Keeps(c, p, t);
      GivenBackSame(t, net.terminal2(p), net.context2(p));
      PutH2Keeps(d, p, GivenBack(t, net.terminal2(p), net.context2(p)));
    }
  }

  lemma RecycleContextKeeps(c: State, p: nat, net: Net)
    requires Valid(c)
    ensures Valid(RecycleContext(c, p, net))
  {
    if p < |c.h2| && c.h2[p].state != H2Free {
      PutH2Keeps(c, p, c.h2[p].(managed := false));
    }
  }

  /** A closed session nobody uses becomes free for another connection. */
  lemma ClearKeeps(c: State, j: nat)
    requires Valid(c) && j < |c.h1| && c.h1[j].request == None
    ensures Valid(c.(h1 := c.h1[j := UNUSED_H1], traffic := c.traffic[j := Traffic([], 0)]))
  {
    assert SessionAt(c.slots, c.h1, j);
    SessionTables(c.slots, c.h1, c.stopActive, j, UNUSED_H1);
    SessionCarried(c.slots, c.h1, c.traffic, c.finished, j, UNUSED_H1, Traffic([], 0));
    SessionKeyed(c.h1, c.h2, c.nextIdentity, j, UNUSED_H1);
  }

  lemma ClearOneKeeps(c: State, j: nat, net: Net)
    requires Valid(c)
    ensures Valid(ClearOne(c, j, net))
  {
    if j < |c.h1| {
      assert SessionAt(c.slots, c.h1, j);
      var t := Cleared(c.h1[j], net.recycled(j));
      if t.state == H1Free {
        ClearKeeps(c, j);
      } else {
        TouchKeeps(c, j, t);
      }
    }
  }

  lemma ClearAllKeeps(c: State, net: Net)
    requires Valid(c)
    ensures Valid(ClearAll(c, net))
  {
    forall d: State, p: nat | Valid(d)
      ensures Valid(RecycleContext(d, p, net)) && Valid(ClearOne(d, p, net))
    {
      RecycleContextKeeps(d, p, net);
      ClearOneKeeps(d, p, net);
    }
    PassKeeps(c, |c.h2|, (d: State, p: nat) => (RecycleContext(d, p, net), Ok), Valid);
    PassKeeps(Pass(c, |c.h2|, (d: State, p: nat) => (RecycleContext(d, p, net), Ok)).0, |c.h1|, (d: State, j: nat) => (ClearOne(d, j, net), Ok), Valid);
  }

  lemma GiveBackKeeps(c: State, net: Net)
    requires Valid(c)
    ensures Valid(GiveBack(c, net).0)
  {
    forall d: State, j: nat | Valid(d)
      ensures Valid(ReturnOne(d, j, net).0) && Valid(PoolOne(d, j, net).0)
    {
      ReturnOneKeeps(d, j, net);
      PoolOneKeeps(d, j, net);
    }
    PassKeeps(c, |c.h1|, (d: State, j: nat) => ReturnOne(d, j, net), Valid);
    var e := Pass(c, |c.h1|, (d: State, j: nat) => ReturnOne(d, j, net)).0;
    PassKeeps(e, |c.h2|, (d: State, p: nat) => PoolOne(d, p, net), Valid);
    ClearAllKeeps(Pass(e, |c.h2|, (d: State, p: nat) => PoolOne(d, p, net)).0, net);
  }

  lemma PoolProgressKeeps(c: State, net: Net)
    requires Valid(c)
    ensures Valid(PoolProgress(c, net).0)
  {
    ReapKeeps(c, net);
    GiveBackKeeps(Reap(c, net).0, net);
  }

  lemma EvictKeeps(c: State, net: Net)
    requires Valid(c)
    ensures Valid(Evict(c, net))
  {
    var idle, spare := FirstIdle(c.h1, 0), FirstIdleH2(c.h2, 0);
    if idle.Some? {
      assert SessionAt(c.slots, c.h1, idle.value);
      TryCloseKeeps(c, idle.value, net.drain(idle.value), net.close(idle.value));
    } else if spare.Some? {
      BeginStopH2Keeps(c, spare.value, net.goaway(spare.value), net.close2(spare.value));
    }
  }

  lemma ReapSessionsKeeps(c: State)
    requires Valid(c)
    ensures Valid(ReapSessions(c))
  {
    forall d: State, p: nat | Valid(d)
      ensures Valid(ReapH2(d, p))
    {
      ReapH2Keeps(d, p);
    }
    PassKeeps(c, |c.h2|, (d: State, p: nat) => (ReapH2(d, p), Ok), Valid);
  }

  lemma FinishKeeps(c: State, after: After, net: Net)
    requires Valid(c)
    ensures Valid(Finish(c, after, net))
  {
    match after
    case Nothing =>
    case Evicting => EvictKeeps(c, net);
    case Cleanup(_) =>
      PoolProgressKeeps(c, net);
      EvictKeeps(PoolProgress(c, net).0, net);
    case CleanupH2(_) =>
      PoolProgressKeeps(c, net);
      ReapSessionsKeeps(PoolProgress(c, net).0);
      EvictKeeps(ReapSessions(PoolProgress(c, net).0), net);
  }
}
