/**
 The lifetime of a service's method records under deferred work: the server's
 thread admits invocations, executor workers run or cancel and finalize them, and a
 destroyer frees the records. Every interleaving of their steps is a run.
 */
module ServiceLifetime {
  import opened Octets

  datatype Record = Record(inFlight: nat, freed: bool)

  /** How far an invocation is; `finalize` is Releasing, Dropping, Freeing. */
  datatype Phase = Binding | Holding | Queued | Running | Releasing | Dropping | Freeing | Gone

  datatype Invocation = Invocation(record: nat, phase: Phase, held: bool, finalized: nat)

  datatype Destroyer = Resting | Scanning(next: nat) | Clearing(next: nat) | Destroyed

  /** `handler` is the invocation the server's thread is inside of; `fault`: a freed record was touched. */
  datatype State = State(
    records: seq<Record>,
    invocations: seq<Invocation>,
    handler: Option<nat>,
    destroyer: Destroyer,
    admission: bool,
    fault: bool)

  function Initial(n: nat): State {
    State(seq(n, _ => Record(0, false)), [], None, Resting, true, false)
  }

  datatype Action =
    | Enter(record: nat)
    | Refuse
    | Hold
    | Post(accepted: bool)
    | Start(invocation: nat)
    | Work(invocation: nat)
    | Cancel(invocation: nat)
    | Finish(invocation: nat)
    | Release(invocation: nat)
    | Drop(invocation: nat)
    | Free(invocation: nat)
    | CloseAdmission
    | Destroy
    | Scan
    | Clear

  function Touch(s: State, r: nat): State {
    s.(fault := s.fault || (r < |s.records| && s.records[r].freed))
  }

  function Put(s: State, k: nat, v: Invocation): State
    requires k < |s.invocations|
  {
    s.(invocations := s.invocations[k := v])
  }

  predicate At(s: State, k: nat, p: Phase) {
    k < |s.invocations| && s.invocations[k].phase == p && s.invocations[k].record < |s.records|
  }

  function Move(s: State, k: nat, p: Phase): State
    requires k < |s.invocations|
  {
    Put(s, k, s.invocations[k].(phase := p))
  }

  function Count(s: State, r: nat, n: nat): State
    requires r < |s.records|
  {
    s.(records := s.records[r := s.records[r].(inFlight := n)])
  }

  /** The server's thread inside chttp_service_http_execute_deferred. */
  function HandlerStep(s: State, a: Action): State {
    if a.Enter? then
      if !s.admission || s.handler.Some? || a.record >= |s.records| then s
      else Touch(s, a.record).(invocations := s.invocations + [Invocation(a.record, Binding, false, 0)], handler := Some(|s.invocations|))
    else if s.handler.None? then s
    else
      var k := s.handler.value;
      if a.Refuse? && At(s, k, Binding) then Move(s, k, Releasing)
      else if a.Hold? && At(s, k, Binding) then
        var r := s.invocations[k].record;
        Put(Count(Touch(s, r), r, s.records[r].inFlight + 1), k, s.invocations[k].(phase := Holding, held := true))
      else if a.Post? && At(s, k, Holding) then
        if a.accepted then Move(s, k, Queued).(handler := None)
        else Move(Touch(s, s.invocations[k].record), k, Releasing)
      else s
  }

  /** A worker of the executor, or its cancellation. */
  function WorkerStep(s: State, a: Action, k: nat): State {
    if a.Start? && At(s, k, Queued) then Move(s, k, Running)
    else if a.Work? && At(s, k, Running) then Touch(s, s.invocations[k].record)
    else if a.Cancel? && At(s, k, Queued) then Move(Touch(s, s.invocations[k].record), k, Releasing)
    else if a.Finish? && At(s, k, Running) then Move(s, k, Releasing)
    else s
  }

  /** chttp_service_invocation_finalize, on whichever thread runs it. */
  function FinalizeStep(s: State, a: Action, k: nat): State {
    if a.Release? && At(s, k, Releasing) then Move(Touch(s, s.invocations[k].record), k, Dropping)
    else if a.Drop? && At(s, k, Dropping) then
      var r := s.invocations[k].record;
      if s.invocations[k].held && s.records[r].inFlight > 0
      then Move(Count(Touch(s, r), r, s.records[r].inFlight - 1), k, Freeing)
      else Move(s, k, Freeing)
    else if a.Free? && At(s, k, Freeing) then
      Put(s, k, s.invocations[k].(phase := Gone, finalized := s.invocations[k].finalized + 1))
        .(handler := if s.handler == Some(k) then None else s.handler)
    else s
  }

  /** chttp_service_destroy: a scan that must find only zeros, then the records go. */
  function DestroyerStep(s: State, a: Action): State {
    if a.Destroy? && s.destroyer == Resting then s.(destroyer := Scanning(0))
    else if a.Scan? && s.destroyer.Scanning? then
      var i := s.destroyer.next;
      if i >= |s.records| then s.(destroyer := Clearing(0))
      else if s.records[i].inFlight != 0 then s.(destroyer := Resting)
      else s.(destroyer := Scanning(i + 1))
    else if a.Clear? && s.destroyer.Clearing? then
      var i := s.destroyer.next;
      if i >= |s.records| then s.(destroyer := Destroyed)
      else s.(records := s.records[i := s.records[i].(freed := true)], destroyer := Clearing(i + 1))
    else s
  }

  function Step(s: State, a: Action): State {
    match a
    case Enter(_) => HandlerStep(s, a)
    case Refuse => HandlerStep(s, a)
    case Hold => HandlerStep(s, a)
    case Post(_) => HandlerStep(s, a)
    case Start(k) => WorkerStep(s, a, k)
    case Work(k) => WorkerStep(s, a, k)
    case Cancel(k) => WorkerStep(s, a, k)
    case Finish(k) => WorkerStep(s, a, k)
    case Release(k) => FinalizeStep(s, a, k)
    case Drop(k) => FinalizeStep(s, a, k)
    case Free(k) => FinalizeStep(s, a, k)
    case CloseAdmission => if s.handler.None? then s.(admission := false) else s
    case Destroy => DestroyerStep(s, a)
    case Scan => DestroyerStep(s, a)
    case Clear => DestroyerStep(s, a)
  }

  function Run(s: State, actions: seq<Action>): State
    decreases |actions|
  {
    if actions == [] then s else Run(Step(s, actions[0]), actions[1..])
  }

  /** Every destruction of the run begins with admission closed. */
  ghost predicate Disciplined(s: State, actions: seq<Action>)
    decreases |actions|
  {
    actions == [] || ((actions[0].Destroy? ==> !s.admission) && Disciplined(Step(s, actions[0]), actions[1..]))
  }

  // ---------------------------------------------------------------- counting holders

  /** The invocation counts in its record's `inFlight`. */
  predicate Counts(v: Invocation, r: nat) {
    v.record == r && v.held && v.phase != Freeing && v.phase != Gone
  }

  function Holders(vs: seq<Invocation>, r: nat): nat {
    if vs == [] then 0 else Holders(vs[..|vs| - 1], r) + if Counts(vs[|vs| - 1], r) then 1 else 0
  }

  lemma {:induction false} HoldersUpdate(vs: seq<Invocation>, k: nat, v: Invocation, r: nat)
    requires k < |vs|
    ensures Holders(vs[k := v], r) == Holders(vs, r) + (if Counts(v, r) then 1 else 0) - (if Counts(vs[k], r) then 1 else 0)
  {
    var n := |vs| - 1;
    if k == n {
      assert vs[k := v][..n] == vs[..n];
    } else {
      assert vs[k := v][..n] == vs[..n][k := v];
      HoldersUpdate(vs[..n], k, v, r);
    }
  }

  lemma HoldersSnoc(vs: seq<Invocation>, v: Invocation, r: nat)
    ensures Holders(vs + [v], r) == Holders(vs, r) + if Counts(v, r) then 1 else 0
  {
    assert (vs + [v])[..|vs|] == vs;
  }

  lemma HoldersSome(vs: seq<Invocation>, k: nat, r: nat)
    requires k < |vs| && Counts(vs[k], r)
    ensures Holders(vs, r) > 0
  {
    HoldersUpdate(vs, k, vs[k].(held := false), r);
  }

  // ---------------------------------------------------------------- the invariant

  predicate RecordOk(s: State, r: nat)
    requires r < |s.records|
  {
    && s.records[r].inFlight == Holders(s.invocations, r)
    && (s.destroyer.Resting? || s.destroyer.Scanning? ==> !s.records[r].freed)
    && (s.destroyer.Scanning? && r < s.destroyer.next ==> s.records[r].inFlight == 0)
    && (s.destroyer.Clearing? || s.destroyer.Destroyed? ==> s.records[r].inFlight == 0)
  }

  predicate InvocationOk(s: State, k: nat)
    requires k < |s.invocations|
  {
    var v := s.invocations[k];
    && v.record < |s.records|
    && v.finalized == (if v.phase == Gone then 1 else 0)
    && (v.phase == Binding ==> !v.held)
    && (v.phase == Holding || v.phase == Queued || v.phase == Running ==> v.held)
    && (v.phase == Binding || v.phase == Holding ==> s.handler == Some(k))
    && (!v.held && v.phase != Gone ==> s.handler == Some(k))
  }

  /** The phases in which the server's thread is still inside the invocation. */
  predicate InHandler(p: Phase) {
    p != Queued && p != Running && p != Gone
  }

  /** While a destroyer is at work nothing is being admitted, so counts only fall. */
  ghost predicate Inv(s: State) {
    && !s.fault
    && (!s.destroyer.Resting? ==> !s.admission)
    && (!s.admission ==> s.handler.None?)
    && (s.handler.Some? ==> s.handler.value < |s.invocations| && InHandler(s.invocations[s.handler.value].phase))
    && (forall r :: 0 <= r < |s.records| ==> RecordOk(s, r))
    && (forall k :: 0 <= k < |s.invocations| ==> InvocationOk(s, k))
  }

  /** A live invocation's record is there: it is counted, or the server's thread is inside it. */
  lemma RecordAlive(s: State, k: nat)
    requires Inv(s) && k < |s.invocations| && s.invocations[k].phase != Gone && s.invocations[k].phase != Freeing
    ensures s.invocations[k].record < |s.records| && !s.records[s.invocations[k].record].freed
  {
    assert InvocationOk(s, k);
    var r := s.invocations[k].record;
    assert RecordOk(s, r);
    if s.invocations[k].held {
      HoldersSome(s.invocations, k, r);
    }
  }

  /** Writing one invocation and, with it, its record's count. */
  lemma PutInv(s: State, k: nat, v: Invocation, t: State)
    requires Inv(s) && k < |s.invocations| && v.record == s.invocations[k].record
    requires t.invocations == s.invocations[k := v] && t.destroyer == s.destroyer && t.admission == s.admission && !t.fault
    requires |t.records| == |s.records|
    requires forall r :: 0 <= r < |s.records| ==> t.records[r].freed == s.records[r].freed
    requires forall r :: 0 <= r < |s.records| && r != v.record ==> t.records[r] == s.records[r]
    requires v.record < |s.records|
    requires t.records[v.record].inFlight ==
      s.records[v.record].inFlight + (if Counts(v, v.record) then 1 else 0) - (if Counts(s.invocations[k], v.record) then 1 else 0)
    requires !s.destroyer.Resting? && Counts(v, v.record) ==> Counts(s.invocations[k], v.record)
    requires t.handler == s.handler || (t.handler == None && s.handler == Some(k))
    requires InvocationOk(t, k) && (t.handler == Some(k) ==> InHandler(v.phase))
    ensures Inv(t)
  {
    forall r | 0 <= r < |t.records|
      ensures RecordOk(t, r)
    {
      assert RecordOk(s, r);
      HoldersUpdate(s.invocations, k, v, r);
    }
    forall i | 0 <= i < |t.invocations|
      ensures InvocationOk(t, i)
    {
      assert InvocationOk(s, i);
    }
  }

  lemma EnterInv(s: State, r: nat)
    requires Inv(s) && s.admission && s.handler.None? && r < |s.records|
    ensures Inv(Step(s, Enter(r)))
  {
    var t := Step(s, Enter(r));
    assert RecordOk(s, r);
    forall q | 0 <= q < |t.records|
      ensures RecordOk(t, q)
    {
      assert RecordOk(s, q);
      HoldersSnoc(s.invocations, Invocation(r, Binding, false, 0), q);
    }
    forall i | 0 <= i < |t.invocations|
      ensures InvocationOk(t, i)
    {
      assert i < |s.invocations| ==> InvocationOk(s, i);
    }
  }

  lemma HandlerInv(s: State, a: Action)
    requires Inv(s) && (a.Enter? || a.Refuse? || a.Hold? || a.Post?)
    ensures Inv(Step(s, a))
  {
    if a.Enter? {
      if s.admission && s.handler.None? && a.record < |s.records| {
        EnterInv(s, a.record);
      }
    } else if s.handler.Some? && Step(s, a) != s {
      var k := s.handler.value;
      assert InvocationOk(s, k);
      RecordAlive(s, k);
      PutInv(s, k, Step(s, a).invocations[k], Step(s, a));
    }
  }

  lemma TaskInv(s: State, a: Action, k: nat)
    requires Inv(s) && (a == Start(k) || a == Cancel(k) || a == Finish(k) || a == Release(k) || a == Drop(k) || a == Free(k))
    ensures Inv(Step(s, a))
  {
    if Step(s, a) != s {
      assert InvocationOk(s, k);
      if s.invocations[k].phase != Freeing {
        RecordAlive(s, k);
      }
      if a.Drop? && s.invocations[k].held {
        assert RecordOk(s, s.invocations[k].record);
        HoldersSome(s.invocations, k, s.invocations[k].record);
      }
      PutInv(s, k, Step(s, a).invocations[k], Step(s, a));
    }
  }

  lemma WorkInv(s: State, k: nat)
    requires Inv(s)
    ensures Step(s, Work(k)) == s
  {
    if At(s, k, Running) {
      RecordAlive(s, k);
    }
  }

  lemma DestroyerInv(s: State, a: Action)
    requires Inv(s) && (a.Destroy? || a.Scan? || a.Clear?) && (a.Destroy? ==> !s.admission)
    ensures Inv(Step(s, a))
  {
    var t := Step(s, a);
    forall r | 0 <= r < |t.records|
      ensures RecordOk(t, r)
    {
      assert RecordOk(s, r);
    }
    forall i | 0 <= i < |t.invocations|
      ensures InvocationOk(t, i)
    {
      assert InvocationOk(s, i);
    }
  }

  lemma StepInv(s: State, a: Action)
    requires Inv(s) && (a.Destroy? ==> !s.admission)
    ensures Inv(Step(s, a))
  {
    match a
    case Enter(_) => HandlerInv(s, a);
    case Refuse => HandlerInv(s, a);
    case Hold => HandlerInv(s, a);
    case Post(_) => HandlerInv(s, a);
    case Work(k) => WorkInv(s, k);
    case Start(k) => TaskInv(s, a, k);
    case Cancel(k) => TaskInv(s, a, k);
    case Finish(k) => TaskInv(s, a, k);
    case Release(k) => TaskInv(s, a, k);
    case Drop(k) => TaskInv(s, a, k);
    case Free(k) => TaskInv(s, a, k);
    case CloseAdmission =>
      forall r | 0 <= r < |s.records| ensures RecordOk(Step(s, a), r) { assert RecordOk(s, r); }
      forall i | 0 <= i < |s.invocations| ensures InvocationOk(Step(s, a), i) { assert InvocationOk(s, i); }
    case Destroy => DestroyerInv(s, a);
    case Scan => DestroyerInv(s, a);
    case Clear => DestroyerInv(s, a);
  }

  lemma {:induction false} RunInv(s: State, actions: seq<Action>)
    requires Inv(s) && Disciplined(s, actions)
    ensures Inv(Run(s, actions))
    decreases |actions|
  {
    if actions != [] {
      StepInv(s, actions[0]);
      RunInv(Step(s, actions[0]), actions[1..]);
    }
  }

  // ---------------------------------------------------------------- what every disciplined run keeps

  lemma InitialInv(n: nat)
    ensures Inv(Initial(n))
  {
    forall r | 0 <= r < n
      ensures RecordOk(Initial(n), r)
    {
      assert Holders([], r) == 0;
    }
  }

  /** No step touches a freed record, and every record's count is the invocations that hold it. */
  lemma NoUseAfterFree(n: nat, actions: seq<Action>, r: nat)
    requires Disciplined(Initial(n), actions) && r < n
    ensures var s := Run(Initial(n), actions);
      && !s.fault && |s.records| == n && s.records[r].inFlight == Holders(s.invocations, r)
      && (s.records[r].freed ==> s.records[r].inFlight == 0)
  {
    InitialInv(n);
    RunInv(Initial(n), actions);
    RunRecords(Initial(n), actions);
    assert RecordOk(Run(Initial(n), actions), r);
  }

  lemma {:induction false} RunRecords(s: State, actions: seq<Action>)
    ensures |Run(s, actions).records| == |s.records|
    decreases |actions|
  {
    if actions != [] {
      StepRecords(s, actions[0]);
      RunRecords(Step(s, actions[0]), actions[1..]);
    }
  }

  lemma StepRecords(s: State, a: Action)
    ensures |Step(s, a).records| == |s.records|
  {
  }

  /** In every disciplined run an invocation is finalized at most once, and exactly once when it is gone. */
  lemma FinalizedOnce(n: nat, actions: seq<Action>, k: nat)
    requires Disciplined(Initial(n), actions) && k < |Run(Initial(n), actions).invocations|
    ensures var v := Run(Initial(n), actions).invocations[k];
      v.finalized <= 1 && (v.finalized == 1 <==> v.phase == Gone)
  {
    InitialInv(n);
    RunInv(Initial(n), actions);
    assert InvocationOk(Run(Initial(n), actions), k);
  }

  /**
   The scan reads the counts one after the other, yet once it is through no
   invocation is left that could still reach a record.
   */
  lemma ScanIsSound(n: nat, actions: seq<Action>, k: nat)
    requires Disciplined(Initial(n), actions)
    requires Run(Initial(n), actions).destroyer.Clearing? || Run(Initial(n), actions).destroyer.Destroyed?
    requires k < |Run(Initial(n), actions).invocations|
    ensures Run(Initial(n), actions).invocations[k].phase == Freeing || Run(Initial(n), actions).invocations[k].phase == Gone
  {
    InitialInv(n);
    RunInv(Initial(n), actions);
    var s := Run(Initial(n), actions);
    assert InvocationOk(s, k);
    assert RecordOk(s, s.invocations[k].record);
    if Counts(s.invocations[k], s.invocations[k].record) {
      HoldersSome(s.invocations, k, s.invocations[k].record);
    }
  }

  // ---------------------------------------------------------------- without the discipline

  function Scans(n: nat): seq<Action> {
    seq(n, _ => Scan)
  }

  lemma {:induction false} ScansThrough(s: State, i: nat)
    requires s.destroyer == Scanning(i) && i <= |s.records|
    requires forall r :: i <= r < |s.records| ==> s.records[r].inFlight == 0
    ensures Run(s, Scans(|s.records| - i)) == s.(destroyer := Scanning(|s.records|))
    decreases |s.records| - i
  {
    var scans := Scans(|s.records| - i);
    if i < |s.records| {
      assert scans[0] == Scan && scans[1..] == Scans(|s.records| - (i + 1));
      ScansThrough(s.(destroyer := Scanning(i + 1)), i + 1);
    }
  }

  lemma {:induction false} RunAppend(s: State, a: seq<Action>, b: seq<Action>)
    ensures Run(s, a + b) == Run(Run(s, a), b)
    decreases |a|
  {
    if a == [] {
      assert a + b == b;
    } else {
      assert (a + b)[1..] == a[1..] + b;
      RunAppend(Step(s, a[0]), a[1..], b);
    }
  }

  lemma RunCons(s: State, a: Action, rest: seq<Action>)
    ensures Run(s, [a] + rest) == Run(Step(s, a), rest)
  {
    assert ([a] + rest)[0] == a && ([a] + rest)[1..] == rest;
  }

  lemma HoldFaults(c: State, k: nat)
    requires c.handler == Some(k) && At(c, k, Binding) && c.records[c.invocations[k].record].freed
    ensures Step(c, Hold).fault
  {
  }

  lemma EnterThenClear(a: State)
    requires a.destroyer == Clearing(0) && |a.records| > 0 && a.admission && a.handler.None?
    ensures var c := Step(Step(a, Enter(0)), Clear); var k := |a.invocations|;
      c.handler == Some(k) && At(c, k, Binding) && c.records[c.invocations[k].record].freed
  {
    var b := Step(a, Enter(0));
    assert b.destroyer == Clearing(0) && b.records == a.records && b.handler == Some(|a.invocations|);
    assert b.invocations[|a.invocations|] == Invocation(0, Binding, false, 0);
  }

  /** An invocation entered after the scan passed is inside a record as it is freed. */
  lemma LateEntry(s: State)
    requires s.destroyer == Scanning(|s.records|) && |s.records| > 0 && s.admission && s.handler.None?
    ensures Run(s, [Scan] + ([Enter(0)] + ([Clear] + ([Hold] + [])))).fault
  {
    var a := Step(s, Scan);
    var b := Step(a, Enter(0));
    var c := Step(b, Clear);
    RunCons(s, Scan, [Enter(0)] + ([Clear] + ([Hold] + [])));
    RunCons(a, Enter(0), [Clear] + ([Hold] + []));
    RunCons(b, Clear, [Hold] + []);
    RunCons(c, Hold, []);
    EnterThenClear(a);
    HoldFaults(c, |a.invocations|);
  }

  // ---------------------------------------------------------------- invocations in flight can all end

  predicate Quiet(a: Action) {
    !a.Destroy? && !a.Scan? && !a.Clear? && !a.CloseAdmission?
  }

  lemma HandlerCommutes(s: State, a: Action, d: Destroyer)
    ensures HandlerStep(s.(destroyer := d), a) == HandlerStep(s, a).(destroyer := d)
  {
  }

  lemma WorkerCommutes(s: State, a: Action, k: nat, d: Destroyer)
    ensures WorkerStep(s.(destroyer := d), a, k) == WorkerStep(s, a, k).(destroyer := d)
  {
  }

  lemma FinalizeCommutes(s: State, a: Action, k: nat, d: Destroyer)
    ensures FinalizeStep(s.(destroyer := d), a, k) == FinalizeStep(s, a, k).(destroyer := d)
  {
  }

  /** Steps that are not the destroyer's do not see it. */
  lemma StepCommutes(s: State, a: Action, d: Destroyer)
    requires Quiet(a)
    ensures Step(s.(destroyer := d), a) == Step(s, a).(destroyer := d)
  {
    if a.Enter? || a.Refuse? || a.Hold? || a.Post? {
      HandlerCommutes(s, a, d);
    } else if a.Start? || a.Work? || a.Cancel? || a.Finish? {
      WorkerCommutes(s, a, a.invocation, d);
    } else {
      FinalizeCommutes(s, a, a.invocation, d);
    }
  }

  lemma {:induction false} RunCommutes(s: State, actions: seq<Action>, d: Destroyer)
    requires forall i :: 0 <= i < |actions| ==> Quiet(actions[i])
    ensures Run(s.(destroyer := d), actions) == Run(s, actions).(destroyer := d)
    decreases |actions|
  {
    if actions != [] {
      StepCommutes(s, actions[0], d);
      RunCommutes(Step(s, actions[0]), actions[1..], d);
    }
  }

  /** How many steps an invocation is from its end. */
  function Rank(p: Phase): nat {
    match p
    case Binding => 4
    case Holding => 5
    case Queued => 4
    case Running => 4
    case Releasing => 3
    case Dropping => 2
    case Freeing => 1
    case Gone => 0
  }

  /** The step that brings it closer. */
  function Onward(p: Phase, k: nat): Action {
    match p
    case Binding => Refuse
    case Holding => Post(true)
    case Queued => Cancel(k)
    case Running => Finish(k)
    case Releasing => Release(k)
    case Dropping => Drop(k)
    case Freeing => Free(k)
    case Gone => Free(k)
  }

  /** What draining leaves alone. */
  predicate Beside(s: State, t: State, k: nat) {
    && |t.invocations| == |s.invocations| && |t.records| == |s.records|
    && t.destroyer == s.destroyer && t.admission == s.admission
    && forall i :: 0 <= i < |s.invocations| && i != k ==> t.invocations[i] == s.invocations[i]
  }

  lemma OnwardSteps(s: State, k: nat)
    requires Inv(s) && k < |s.invocations| && s.invocations[k].phase != Gone
    ensures var a := Onward(s.invocations[k].phase, k); var t := Step(s, a);
      Quiet(a) && Inv(t) && Beside(s, t, k) && Rank(t.invocations[k].phase) < Rank(s.invocations[k].phase)
  {
    assert InvocationOk(s, k);
    StepInv(s, Onward(s.invocations[k].phase, k));
  }

  lemma {:induction false} DrainOne(s: State, k: nat) returns (actions: seq<Action>)
    requires Inv(s) && k < |s.invocations|
    ensures forall i :: 0 <= i < |actions| ==> Quiet(actions[i])
    ensures var t := Run(s, actions); Inv(t) && Beside(s, t, k) && t.invocations[k].phase == Gone
    decreases Rank(s.invocations[k].phase)
  {
    if s.invocations[k].phase == Gone {
      actions := [];
    } else {
      var a := Onward(s.invocations[k].phase, k);
      OnwardSteps(s, k);
      var rest := DrainOne(Step(s, a), k);
      actions := [a] + rest;
      RunCons(s, a, rest);
    }
  }

  /** The first `n` invocations end; nothing else happens. */
  lemma {:induction false} DrainAll(s: State, n: nat) returns (actions: seq<Action>)
    requires Inv(s) && n <= |s.invocations|
    ensures forall i :: 0 <= i < |actions| ==> Quiet(actions[i])
    ensures var t := Run(s, actions);
      && Inv(t) && |t.invocations| == |s.invocations| && |t.records| == |s.records|
      && t.destroyer == s.destroyer && t.admission == s.admission
      && forall i :: 0 <= i < n ==> t.invocations[i].phase == Gone
    decreases n
  {
    if n == 0 {
      actions := [];
    } else {
      var first := DrainAll(s, n - 1);
      var t := Run(s, first);
      var last := DrainOne(t, n - 1);
      actions := first + last;
      RunAppend(s, first, last);
    }
  }

  lemma {:induction false} NoHolders(vs: seq<Invocation>, r: nat)
    requires forall i :: 0 <= i < |vs| ==> vs[i].phase == Gone
    ensures Holders(vs, r) == 0
  {
    if vs != [] {
      NoHolders(vs[..|vs| - 1], r);
    }
  }

  /** With every invocation gone, no record is counted and no handler is inside one. */
  lemma DrainedIsIdle(t: State)
    requires Inv(t) && forall i :: 0 <= i < |t.invocations| ==> t.invocations[i].phase == Gone
    ensures t.handler.None? && forall r :: 0 <= r < |t.records| ==> t.records[r].inFlight == 0
  {
    forall r | 0 <= r < |t.records|
      ensures t.records[r].inFlight == 0
    {
      assert RecordOk(t, r);
      NoHolders(t.invocations, r);
    }
  }

  /**
   The condition is needed: from every state that still admits, whatever is in flight,
   a destruction begun there can run into an invocation admitted behind its scan.
   */
  lemma OpenAdmissionFaults(s: State) returns (actions: seq<Action>)
    requires Inv(s) && s.admission && s.destroyer.Resting? && |s.records| > 0
    ensures Run(s, [Destroy] + actions).fault
  {
    var late := [Scan] + ([Enter(0)] + ([Clear] + ([Hold] + [])));
    var n := |s.records|;
    var drain := DrainAll(s, |s.invocations|);
    var t := Run(s, drain);
    DrainedIsIdle(t);
    actions := drain + (Scans(n) + late);
    RunCons(s, Destroy, actions);
    assert Step(s, Destroy) == s.(destroyer := Scanning(0));
    RunAppend(s.(destroyer := Scanning(0)), drain, Scans(n) + late);
    RunCommutes(s, drain, Scanning(0));
    ScannedFaults(t.(destroyer := Scanning(0)), late);
  }

  lemma ScannedFaults(u: State, late: seq<Action>)
    requires u.destroyer == Scanning(0) && |u.records| > 0 && u.admission && u.handler.None?
    requires forall r :: 0 <= r < |u.records| ==> u.records[r].inFlight == 0
    requires late == [Scan] + ([Enter(0)] + ([Clear] + ([Hold] + [])))
    ensures Run(u, Scans(|u.records|) + late).fault
  {
    RunAppend(u, Scans(|u.records|), late);
    ScansThrough(u, 0);
    LateEntry(u.(destroyer := Scanning(|u.records|)));
  }

  lemma {:induction false} ClosedIsDisciplined(s: State, actions: seq<Action>)
    requires !s.admission
    ensures Disciplined(s, actions)
    decreases |actions|
  {
    if actions != [] {
      ClosedStays(s, actions[0]);
      ClosedIsDisciplined(Step(s, actions[0]), actions[1..]);
    }
  }

  lemma ClosedStays(s: State, a: Action)
    requires !s.admission
    ensures !Step(s, a).admission
  {
  }

  /**
   In every state a service gets into, a destruction begun there is safe, whatever
   follows and in whatever order, if and only if admission is closed.
   */
  lemma DestroySafeExactly(n: nat, actions: seq<Action>)
    requires n > 0 && Disciplined(Initial(n), actions) && Run(Initial(n), actions).destroyer.Resting?
    ensures var s := Run(Initial(n), actions);
      (forall more: seq<Action> :: !Run(s, [Destroy] + more).fault) <==> !s.admission
  {
    var s := Run(Initial(n), actions);
    InitialInv(n);
    RunInv(Initial(n), actions);
    RunRecords(Initial(n), actions);
    if s.admission {
      var more := OpenAdmissionFaults(s);
      assert Run(s, [Destroy] + more).fault;
    } else {
      forall more: seq<Action>
        ensures !Run(s, [Destroy] + more).fault
      {
        ClosedIsDisciplined(s, [Destroy] + more);
        RunInv(s, [Destroy] + more);
      }
    }
  }
}
