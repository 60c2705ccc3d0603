/**
 Calling a service over RPC: which parameter plans are admitted, and how a request
 structure becomes the parameters on the wire, by position or by name.
 */
module RpcPlan {
  import opened Octets

  /** A flag bit inside the request structure. */
  datatype Bit = Bit(offset: nat, index: nat)

  /**
   One parameter: `supported` stands for the tests on its address space, class,
   target and scalar kind; no ordinal means that it is addressed by name only.
   */
  datatype Entry = Entry(supported: bool, name: string, ordinal: Option<nat>, offset: nat, size: nat,
                         presence: Option<Bit>, nullness: Option<Bit>, nullable: bool)

  datatype Status = Ok | NotSupported | Invalid

  datatype Mode = NoParams | Object | Array

  // ---------------------------------------------------------------- admission

  predicate BitInRange(b: Option<Bit>, bytes: nat) {
    b.Some? ==> b.value.offset < bytes && b.value.index < 8
  }

  predicate InRange(e: Entry, bytes: nat) {
    e.offset <= bytes && e.size <= bytes - e.offset && BitInRange(e.presence, bytes) && BitInRange(e.nullness, bytes)
  }

  /** Two parameters that cannot both be told apart on the wire. */
  predicate Clash(a: Entry, b: Entry) {
    a.ordinal == b.ordinal && (a.ordinal.None? ==> a.name == b.name)
  }

  predicate ClashesBefore(plan: seq<Entry>, i: nat)
    requires i < |plan|
  {
    exists j :: 0 <= j < i && Clash(plan[j], plan[i])
  }

  function EntryStatus(plan: seq<Entry>, i: nat, bytes: nat): Status
    requires i < |plan|
  {
    var e := plan[i];
    if !e.supported || e.name == "" then NotSupported
    else if !InRange(e, bytes) then Invalid
    else if e.ordinal.Some? && e.ordinal.value >= |plan| then NotSupported
    else if ClashesBefore(plan, i) then NotSupported
    else Ok
  }

  /** The first failure among the first `n` parameters. */
  function IngressStatus(plan: seq<Entry>, n: nat, bytes: nat): Status
    requires n <= |plan|
  {
    if n == 0 then Ok
    else if IngressStatus(plan, n - 1, bytes) != Ok then IngressStatus(plan, n - 1, bytes)
    else EntryStatus(plan, n - 1, bytes)
  }

  predicate HasOrdinal(plan: seq<Entry>, n: nat)
    requires n <= |plan|
  {
    exists i :: 0 <= i < n && plan[i].ordinal.Some?
  }

  predicate HasNameOnly(plan: seq<Entry>, n: nat)
    requires n <= |plan|
  {
    exists i :: 0 <= i < n && plan[i].ordinal.None?
  }

  function AdmitStatus(plan: seq<Entry>, bytes: nat): Status {
    if IngressStatus(plan, |plan|, bytes) != Ok then IngressStatus(plan, |plan|, bytes)
    else if HasOrdinal(plan, |plan|) && HasNameOnly(plan, |plan|) then NotSupported
    else Ok
  }

  function ModeOf(plan: seq<Entry>): Mode {
    if plan == [] then NoParams else if HasOrdinal(plan, |plan|) then Array else Object
  }

  lemma {:induction false} IngressOk(plan: seq<Entry>, n: nat, bytes: nat, i: nat)
    requires i < n <= |plan| && IngressStatus(plan, n, bytes) == Ok
    ensures EntryStatus(plan, i, bytes) == Ok
  {
    if i < n - 1 {
      IngressOk(plan, n - 1, bytes, i);
    }
  }

  lemma NoClash(plan: seq<Entry>, bytes: nat, i: nat, j: nat)
    requires AdmitStatus(plan, bytes) == Ok && i < j < |plan|
    ensures !Clash(plan[i], plan[j])
  {
    IngressOk(plan, |plan|, bytes, j);
  }

  // ---------------------------------------------------------------- pigeonhole

  function Numbers(n: nat): set<nat> {
    if n == 0 then {} else Numbers(n - 1) + {n - 1}
  }

  lemma {:induction false} NumbersSize(n: nat)
    ensures |Numbers(n)| == n
    ensures forall x: nat :: x in Numbers(n) <==> x < n
  {
    if n > 0 {
      NumbersSize(n - 1);
    }
  }

  /** The ordinals of the first `n` parameters. */
  function Ordinals(plan: seq<Entry>, n: nat): set<nat>
    requires n <= |plan| && forall i :: 0 <= i < n ==> plan[i].ordinal.Some?
  {
    if n == 0 then {} else Ordinals(plan, n - 1) + {plan[n - 1].ordinal.value}
  }

  lemma {:induction false} OrdinalsMember(plan: seq<Entry>, n: nat, o: nat)
    requires n <= |plan| && forall i :: 0 <= i < n ==> plan[i].ordinal.Some?
    ensures o in Ordinals(plan, n) <==> exists i :: 0 <= i < n && plan[i].ordinal == Some(o)
  {
    if n > 0 {
      OrdinalsMember(plan, n - 1, o);
      if plan[n - 1].ordinal == Some(o) {
        assert o in Ordinals(plan, n);
      }
    }
  }

  lemma {:induction false} OrdinalsSize(plan: seq<Entry>, n: nat)
    requires n <= |plan| && forall i :: 0 <= i < n ==> plan[i].ordinal.Some?
    requires forall i, j :: 0 <= i < j < n ==> plan[i].ordinal != plan[j].ordinal
    ensures |Ordinals(plan, n)| == n
  {
    if n > 0 {
      OrdinalsSize(plan, n - 1);
      OrdinalsMember(plan, n - 1, plan[n - 1].ordinal.value);
    }
  }

  lemma FullSubset(a: set<nat>, b: set<nat>)
    requires a <= b && |a| == |b|
    ensures a == b
  {
    if a != b {
      var x :| x in b && x !in a;
      assert a <= b - {x} && |b - {x}| < |b|;
      SubsetSize(a, b - {x});
    }
  }

  lemma {:induction false} SubsetSize(a: set<nat>, b: set<nat>)
    requires a <= b
    ensures |a| <= |b|
    decreases |a|
  {
    if a != {} {
      var x :| x in a;
      SubsetSize(a - {x}, b - {x});
    }
  }

  lemma AllOrdinal(plan: seq<Entry>, bytes: nat)
    requires AdmitStatus(plan, bytes) == Ok && ModeOf(plan) == Array
    ensures forall i :: 0 <= i < |plan| ==> plan[i].ordinal.Some? && plan[i].ordinal.value < |plan|
    ensures forall i, j :: 0 <= i < j < |plan| ==> plan[i].ordinal != plan[j].ordinal
  {
    assert !HasNameOnly(plan, |plan|);
    forall i | 0 <= i < |plan|
      ensures plan[i].ordinal.Some? && plan[i].ordinal.value < |plan|
    {
      IngressOk(plan, |plan|, bytes, i);
    }
    forall i, j | 0 <= i < j < |plan|
      ensures plan[i].ordinal != plan[j].ordinal
    {
      NoClash(plan, bytes, i, j);
    }
  }

  /** An admitted positional plan has exactly one parameter for every position. */
  lemma OrdinalsArePermutation(plan: seq<Entry>, bytes: nat, o: nat)
    requires AdmitStatus(plan, bytes) == Ok && ModeOf(plan) == Array && o < |plan|
    ensures exists i :: 0 <= i < |plan| && plan[i].ordinal == Some(o)
    ensures forall i, j :: 0 <= i < |plan| && 0 <= j < |plan| && plan[i].ordinal == plan[j].ordinal ==> i == j
  {
    AllOrdinal(plan, bytes);
    var n := |plan|;
    OrdinalsSize(plan, n);
    NumbersSize(n);
    forall x | x in Ordinals(plan, n)
      ensures x in Numbers(n)
    {
      OrdinalsMember(plan, n, x);
    }
    FullSubset(Ordinals(plan, n), Numbers(n));
    OrdinalsMember(plan, n, o);
  }

  // ---------------------------------------------------------------- values

  datatype Value = Absent | Null | Present(octets: seq<nat>)

  function Pow2(n: nat): (p: nat)
    ensures p > 0
  {
    if n == 0 then 1 else 2 * Pow2(n - 1)
  }

  predicate BitSet(octet: nat, index: nat) {
    octet / Pow2(index) % 2 == 1
  }

  /** chttp_client_rpc_bit, of a flag that may not exist. */
  function Flag(request: seq<nat>, b: Option<Bit>, default: bool): Option<bool> {
    if b.None? then Some(default)
    else if b.value.offset >= |request| || b.value.index >= 8 then None
    else Some(BitSet(request[b.value.offset], b.value.index))
  }

  /** chttp_client_rpc_entry_state */
  function ValueOf(request: seq<nat>, e: Entry): Option<Value> {
    var present, isNull := Flag(request, e.presence, true), Flag(request, e.nullness, false);
    if e.offset > |request| || e.size > |request| - e.offset || present.None? || isNull.None? then None
    else if !present.value && isNull.value then None
    else if !present.value then Some(Absent)
    else if isNull.value then if e.nullable then Some(Null) else None
    else Some(Present(request[e.offset..e.offset + e.size]))
  }

  /** In an admitted plan, only contradictory flags are refused: no access is ever out of range. */
  lemma OnlyFlagsRefuse(plan: seq<Entry>, bytes: nat, request: seq<nat>, i: nat)
    requires AdmitStatus(plan, bytes) == Ok && i < |plan| && bytes <= |request|
    ensures var e := plan[i]; var present, isNull := Flag(request, e.presence, true), Flag(request, e.nullness, false);
      && present.Some? && isNull.Some?
      && (ValueOf(request, e).None? <==> isNull.value && !(present.value && e.nullable))
  {
    IngressOk(plan, |plan|, bytes, i);
  }

  /** What the native encoder makes of a scalar, if it can. */
  type Native = (Entry, seq<nat>) -> Option<string>

  datatype Token = ArrayBegin | ArrayEnd | MapBegin | MapEnd | Key(name: string) | NullToken | Scalar(text: string)

  /** The token of a parameter that is not absent. */
  function TokenOf(request: seq<nat>, native: Native, e: Entry): Option<Token> {
    var v := ValueOf(request, e);
    if v.None? || v.value.Absent? then None
    else if v.value.Null? then Some(NullToken)
    else
      var text := native(e, v.value.octets);
      if text.None? then None else Some(Scalar(text.value))
  }

  // ---------------------------------------------------------------- parameters by position

  /** chttp_client_rpc_entry_at_ordinal, from parameter `i` on. */
  function Lookup(plan: seq<Entry>, o: nat, i: nat): (r: Option<nat>)
    ensures r.Some? ==> i <= r.value < |plan| && plan[r.value].ordinal == Some(o)
    ensures r.None? ==> forall k :: i <= k < |plan| ==> plan[k].ordinal != Some(o)
    decreases |plan| - i
  {
    if i >= |plan| then None else if plan[i].ordinal == Some(o) then Some(i) else Lookup(plan, o, i + 1)
  }

  /** In an admitted positional plan every position is found, and found right. */
  lemma LookupIsTotal(plan: seq<Entry>, bytes: nat, i: nat)
    requires AdmitStatus(plan, bytes) == Ok && ModeOf(plan) == Array && i < |plan|
    ensures Lookup(plan, i, 0).Some?
    ensures plan[i].ordinal.Some? && Lookup(plan, plan[i].ordinal.value, 0) == Some(i)
  {
    OrdinalsArePermutation(plan, bytes, i);
    AllOrdinal(plan, bytes);
    OrdinalsArePermutation(plan, bytes, plan[i].ordinal.value);
  }

  function ValueAt(plan: seq<Entry>, request: seq<nat>, o: nat): Option<Value> {
    var i := Lookup(plan, o, 0);
    if i.None? then None else ValueOf(request, plan[i.value])
  }

  function TokenAt(plan: seq<Entry>, request: seq<nat>, native: Native, o: nat): Option<Token> {
    var i := Lookup(plan, o, 0);
    if i.None? then None else TokenOf(request, native, plan[i.value])
  }

  /** The loop that drops absent parameters from the end. */
  function Length(plan: seq<Entry>, request: seq<nat>, n: nat): Option<nat> {
    if n == 0 then Some(0)
    else if ValueAt(plan, request, n - 1).None? then None
    else if !ValueAt(plan, request, n - 1).value.Absent? then Some(n)
    else Length(plan, request, n - 1)
  }

  /** The loop over the first `n` positions. */
  function Items(plan: seq<Entry>, request: seq<nat>, native: Native, n: nat): Option<seq<Token>> {
    if n == 0 then Some([])
    else
      var before, last := Items(plan, request, native, n - 1), TokenAt(plan, request, native, n - 1);
      if before.None? || last.None? then None else Some(before.value + [last.value])
  }

  function EncodeArray(plan: seq<Entry>, request: seq<nat>, native: Native): Option<seq<Token>> {
    var length := Length(plan, request, |plan|);
    if length.None? then None
    else
      var items := Items(plan, request, native, length.value);
      if items.None? then None else Some([ArrayBegin] + items.value + [ArrayEnd])
  }

  predicate Sendable(plan: seq<Entry>, request: seq<nat>, native: Native, o: nat) {
    TokenAt(plan, request, native, o).Some?
  }

  predicate Missing(plan: seq<Entry>, request: seq<nat>, o: nat) {
    ValueAt(plan, request, o) == Some(Absent)
  }

  /** The first `n` positions can be sent and none of the others is there. */
  predicate Gapless(plan: seq<Entry>, request: seq<nat>, native: Native, n: nat) {
    && n <= |plan|
    && (forall o: nat :: o < n ==> Sendable(plan, request, native, o))
    && (forall o: nat :: n <= o < |plan| ==> Missing(plan, request, o))
  }

  lemma {:induction false} LengthIs(plan: seq<Entry>, request: seq<nat>, n: nat, k: nat)
    requires k <= n && (forall o: nat :: k <= o < n ==> Missing(plan, request, o))
    requires k > 0 ==> ValueAt(plan, request, k - 1).Some? && !ValueAt(plan, request, k - 1).value.Absent?
    ensures Length(plan, request, n) == Some(k)
  {
    if k < n {
      assert Missing(plan, request, n - 1);
      LengthIs(plan, request, n - 1, k);
    }
  }

  lemma {:induction false} LengthMeans(plan: seq<Entry>, request: seq<nat>, n: nat)
    requires Length(plan, request, n).Some?
    ensures Length(plan, request, n).value <= n
    ensures forall o: nat :: Length(plan, request, n).value <= o < n ==> Missing(plan, request, o)
  {
    if n > 0 && ValueAt(plan, request, n - 1).value.Absent? {
      LengthMeans(plan, request, n - 1);
    }
  }

  lemma {:induction false} ItemsExist(plan: seq<Entry>, request: seq<nat>, native: Native, n: nat)
    ensures Items(plan, request, native, n).Some? <==> forall o: nat :: o < n ==> Sendable(plan, request, native, o)
  {
    if n > 0 {
      ItemsExist(plan, request, native, n - 1);
      assert Sendable(plan, request, native, n - 1) <==> TokenAt(plan, request, native, n - 1).Some?;
    }
  }

  lemma {:induction false} ItemIs(plan: seq<Entry>, request: seq<nat>, native: Native, n: nat, o: nat)
    requires Items(plan, request, native, n).Some?
    ensures |Items(plan, request, native, n).value| == n
    ensures o < n ==> Some(Items(plan, request, native, n).value[o]) == TokenAt(plan, request, native, o)
  {
    if n > 0 {
      ItemIs(plan, request, native, n - 1, o);
    }
  }

  /** Encoding succeeds exactly when there is no gap: absent parameters are dropped from the end and refused inside. */
  lemma EncodesExactlyGapless(plan: seq<Entry>, request: seq<nat>, native: Native)
    ensures EncodeArray(plan, request, native).Some? <==> exists n :: Gapless(plan, request, native, n)
  {
    if EncodeArray(plan, request, native).Some? {
      var n := Length(plan, request, |plan|).value;
      LengthMeans(plan, request, |plan|);
      ItemsExist(plan, request, native, n);
      assert Gapless(plan, request, native, n);
    }
    if n :| Gapless(plan, request, native, n) {
      GaplessEncodes(plan, request, native, n);
    }
  }

  lemma GaplessEncodes(plan: seq<Entry>, request: seq<nat>, native: Native, n: nat)
    requires Gapless(plan, request, native, n)
    ensures Items(plan, request, native, n).Some?
    ensures EncodeArray(plan, request, native) == Some([ArrayBegin] + Items(plan, request, native, n).value + [ArrayEnd])
  {
    if n > 0 {
      assert Sendable(plan, request, native, n - 1);
      assert ValueAt(plan, request, n - 1).Some? && !ValueAt(plan, request, n - 1).value.Absent?;
    }
    LengthIs(plan, request, |plan|, n);
    ItemsExist(plan, request, native, n);
  }

  /** Every parameter that is there is sent at its own position, and there is nothing else in the array. */
  lemma EveryValueAtItsPosition(plan: seq<Entry>, bytes: nat, request: seq<nat>, native: Native, i: nat)
    requires AdmitStatus(plan, bytes) == Ok && ModeOf(plan) == Array && i < |plan|
    requires EncodeArray(plan, request, native).Some?
    ensures var tokens := EncodeArray(plan, request, native).value;
      && tokens[0] == ArrayBegin && tokens[|tokens| - 1] == ArrayEnd && |tokens| <= |plan| + 2
      && plan[i].ordinal.Some?
      && (ValueOf(request, plan[i]) != Some(Absent) ==>
        plan[i].ordinal.value + 2 < |tokens| && Some(tokens[plan[i].ordinal.value + 1]) == TokenOf(request, native, plan[i]))
  {
    EncodesExactlyGapless(plan, request, native);
    var n :| Gapless(plan, request, native, n);
    GaplessEncodes(plan, request, native, n);
    LookupIsTotal(plan, bytes, i);
    AllOrdinal(plan, bytes);
    ItemIs(plan, request, native, n, 0);
    if ValueOf(request, plan[i]) != Some(Absent) {
      SentAt(plan, request, native, n, i, plan[i].ordinal.value);
    }
    Bracketed(Items(plan, request, native, n).value);
  }

  lemma Bracketed(items: seq<Token>)
    ensures var tokens := [ArrayBegin] + items + [ArrayEnd];
      && |tokens| == |items| + 2 && tokens[0] == ArrayBegin && tokens[|tokens| - 1] == ArrayEnd
      && forall o :: 0 <= o < |items| ==> tokens[o + 1] == items[o]
  {
  }

  lemma SentAt(plan: seq<Entry>, request: seq<nat>, native: Native, n: nat, i: nat, o: nat)
    requires Gapless(plan, request, native, n) && Items(plan, request, native, n).Some? && o < |plan| && Lookup(plan, o, 0) == Some(i)
    requires ValueOf(request, plan[i]) != Some(Absent)
    ensures o < n == |Items(plan, request, native, n).value|
    ensures Some(Items(plan, request, native, n).value[o]) == TokenOf(request, native, plan[i])
  {
    assert !Missing(plan, request, o);
    ItemIs(plan, request, native, n, o);
  }

  // ---------------------------------------------------------------- parameters by name

  datatype Member = Member(name: string, token: Token)

  /** The loop over the first `n` parameters. */
  function Members(plan: seq<Entry>, request: seq<nat>, native: Native, n: nat): Option<seq<Member>>
    requires n <= |plan|
  {
    if n == 0 then Some([])
    else
      var before, e := Members(plan, request, native, n - 1), plan[n - 1];
      if before.None? || ValueOf(request, e).None? then None
      else if ValueOf(request, e).value.Absent? then before
      else if TokenOf(request, native, e).None? then None
      else Some(before.value + [Member(e.name, TokenOf(request, native, e).value)])
  }

  function Pairs(members: seq<Member>): seq<Token> {
    if members == [] then []
    else Pairs(members[..|members| - 1]) + [Key(members[|members| - 1].name), members[|members| - 1].token]
  }

  function EncodeObject(plan: seq<Entry>, request: seq<nat>, native: Native): Option<seq<Token>> {
    var members := Members(plan, request, native, |plan|);
    if members.None? then None else Some([MapBegin] + Pairs(members.value) + [MapEnd])
  }

  /** Every member comes from one of the first `n` parameters. */
  lemma {:induction false} MemberOf(plan: seq<Entry>, request: seq<nat>, native: Native, n: nat, k: nat)
    returns (i: nat)
    requires n <= |plan| && Members(plan, request, native, n).Some? && k < |Members(plan, request, native, n).value|
    ensures i < n && plan[i].name == Members(plan, request, native, n).value[k].name
    ensures Some(Members(plan, request, native, n).value[k].token) == TokenOf(request, native, plan[i])
  {
    var before := Members(plan, request, native, n - 1).value;
    if k < |before| {
      i := MemberOf(plan, request, native, n - 1, k);
    } else {
      i := n - 1;
    }
  }

  /** Every parameter that is there becomes a member under its name. */
  lemma {:induction false} MemberFor(plan: seq<Entry>, request: seq<nat>, native: Native, n: nat, i: nat)
    requires i < n <= |plan| && Members(plan, request, native, n).Some? && ValueOf(request, plan[i]) != Some(Absent)
    ensures TokenOf(request, native, plan[i]).Some?
    ensures Member(plan[i].name, TokenOf(request, native, plan[i]).value) in Members(plan, request, native, n).value
  {
    if i < n - 1 {
      MemberFor(plan, request, native, n - 1, i);
    }
  }

  lemma AllNamed(plan: seq<Entry>, bytes: nat)
    requires AdmitStatus(plan, bytes) == Ok && ModeOf(plan) == Object
    ensures forall i, j :: 0 <= i < j < |plan| ==> plan[i].name != plan[j].name
  {
    assert !HasOrdinal(plan, |plan|);
    forall i, j | 0 <= i < j < |plan|
      ensures plan[i].name != plan[j].name
    {
      NoClash(plan, bytes, i, j);
    }
  }

  /** An admitted plan by name never repeats a key. */
  lemma {:induction false} KeysDistinct(plan: seq<Entry>, bytes: nat, request: seq<nat>, native: Native, n: nat, a: nat, b: nat)
    requires AdmitStatus(plan, bytes) == Ok && ModeOf(plan) == Object && n <= |plan| && Members(plan, request, native, n).Some?
    requires a < b < |Members(plan, request, native, n).value|
    ensures Members(plan, request, native, n).value[a].name != Members(plan, request, native, n).value[b].name
  {
    var before := Members(plan, request, native, n - 1).value;
    if b < |before| {
      KeysDistinct(plan, bytes, request, native, n - 1, a, b);
    } else {
      var i := MemberOf(plan, request, native, n - 1, a);
      AllNamed(plan, bytes);
    }
  }

  // ---------------------------------------------------------------- as the source runs it

  method FindOrdinal(plan: seq<Entry>, o: nat) returns (found: Option<nat>)
    ensures found == Lookup(plan, o, 0)
  {
    for i := 0 to |plan|
      invariant Lookup(plan, o, 0) == Lookup(plan, o, i)
    {
      if plan[i].ordinal == Some(o) {
        return Some(i);
      }
    }
    found := None;
  }

  method AdmitEntry(plan: seq<Entry>, i: nat, bytes: nat) returns (status: Status)
    requires i < |plan|
    ensures status == EntryStatus(plan, i, bytes)
  {
    var e := plan[i];
    if !e.supported || e.name == "" {
      return NotSupported;
    }
    if !InRange(e, bytes) {
      return Invalid;
    }
    if e.ordinal.Some? && e.ordinal.value >= |plan| {
      return NotSupported;
    }
    for j := 0 to i
      invariant forall k :: 0 <= k < j ==> !Clash(plan[k], e)
    {
      if plan[j].ordinal == e.ordinal && (e.ordinal.Some? || plan[j].name == e.name) {
        return NotSupported;
      }
    }
    status := Ok;
  }

  /** The loop over the parameters in chttp_client_rpc_plan_admit. */
  method Admit(plan: seq<Entry>, bytes: nat) returns (status: Status, mode: Mode)
    ensures status == AdmitStatus(plan, bytes)
    ensures status == Ok ==> mode == ModeOf(plan)
  {
    var sawOrdinal, sawNameOnly := false, false;
    mode := NoParams;
    for i := 0 to |plan|
      invariant IngressStatus(plan, i, bytes) == Ok
      invariant sawOrdinal == HasOrdinal(plan, i) && sawNameOnly == HasNameOnly(plan, i)
    {
      status := AdmitEntry(plan, i, bytes);
      if status != Ok {
        IngressFails(plan, i + 1, |plan|, bytes);
        return;
      }
      if plan[i].ordinal.None? {
        sawNameOnly := true;
      } else {
        sawOrdinal := true;
      }
    }
    if sawOrdinal && sawNameOnly {
      return NotSupported, NoParams;
    }
    mode := if plan == [] then NoParams else if sawOrdinal then Array else Object;
    status := Ok;
  }

  lemma {:induction false} IngressFails(plan: seq<Entry>, i: nat, n: nat, bytes: nat)
    requires i <= n <= |plan| && IngressStatus(plan, i, bytes) != Ok
    ensures IngressStatus(plan, n, bytes) == IngressStatus(plan, i, bytes)
  {
    if i < n {
      IngressFails(plan, i, n - 1, bytes);
    }
  }

  /** The loop that finds how many positions to send. */
  method SendLength(plan: seq<Entry>, request: seq<nat>) returns (length: Option<nat>)
    ensures length == Length(plan, request, |plan|)
  {
    var n: nat := |plan|;
    while n != 0
      invariant n <= |plan| && Length(plan, request, |plan|) == Length(plan, request, n)
    {
      var i := FindOrdinal(plan, n - 1);
      if i.None? || ValueOf(request, plan[i.value]).None? {
        return None;
      }
      if !ValueOf(request, plan[i.value]).value.Absent? {
        return Some(n);
      }
      n := n - 1;
    }
    length := Some(0);
  }

  /** The array branch of chttp_client_rpc_encode_params. */
  method WriteArray(plan: seq<Entry>, request: seq<nat>, native: Native) returns (tokens: Option<seq<Token>>)
    ensures tokens == EncodeArray(plan, request, native)
  {
    var length := SendLength(plan, request);
    if length.None? {
      return None;
    }
    var out := [];
    for o := 0 to length.value
      invariant Items(plan, request, native, o) == Some(out)
    {
      var i := FindOrdinal(plan, o);
      if i.None? || TokenOf(request, native, plan[i.value]).None? {
        ItemsFail(plan, request, native, o, length.value);
        return None;
      }
      out := out + [TokenOf(request, native, plan[i.value]).value];
    }
    tokens := Some([ArrayBegin] + out + [ArrayEnd]);
  }

  lemma ItemsFail(plan: seq<Entry>, request: seq<nat>, native: Native, o: nat, n: nat)
    requires o < n && TokenAt(plan, request, native, o).None?
    ensures Items(plan, request, native, n).None?
  {
    ItemsExist(plan, request, native, n);
    assert !Sendable(plan, request, native, o);
  }

  /** The object branch of chttp_client_rpc_encode_params. */
  method WriteObject(plan: seq<Entry>, request: seq<nat>, native: Native) returns (tokens: Option<seq<Token>>)
    ensures tokens == EncodeObject(plan, request, native)
  {
    var out := [MapBegin];
    for i := 0 to |plan|
      invariant Members(plan, request, native, i).Some? && out == [MapBegin] + Pairs(Members(plan, request, native, i).value)
    {
      var value := ValueOf(request, plan[i]);
      if value.None? || (!value.value.Absent? && TokenOf(request, native, plan[i]).None?) {
        MembersFail(plan, request, native, i + 1, |plan|);
        return None;
      }
      if !value.value.Absent? {
        ghost var before := Members(plan, request, native, i).value;
        var m := Member(plan[i].name, TokenOf(request, native, plan[i]).value);
        assert (before + [m])[..|before|] == before;
        out := out + [Key(m.name), m.token];
      }
    }
    tokens := Some(out + [MapEnd]);
  }

  lemma {:induction false} MembersFail(plan: seq<Entry>, request: seq<nat>, native: Native, i: nat, n: nat)
    requires i <= n <= |plan| && Members(plan, request, native, i).None?
    ensures Members(plan, request, native, n).None?
  {
    if i < n {
      MembersFail(plan, request, native, i, n - 1);
    }
  }
}
