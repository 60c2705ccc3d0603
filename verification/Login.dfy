/**
 Sending a browser to the login page and back: which local targets are accepted,
 and the destination that carries the target as a form field.
 */
module Login {
  import opened Octets
  import opened ChunkedBody
  import opened Form

  const TARGET_HARD_MAX := 4096
  const PATH_HARD_MAX := 1024
  const DESTINATION_HARD_MAX := PATH_HARD_MAX + 3 * TARGET_HARD_MAX + 16
  const PARAMETER := "return_to"
  const PARAMETER_BYTES := 11

  datatype Status = Ok | InvalidArgument | Refused | Capacity

  // ---------------------------------------------------------------- local targets

  predicate Forbidden(c: char) {
    c < ' ' || c == DEL || c == '\\' || c == '#'
  }

  /** One character of a target, or one percent escape. */
  function TargetUnit(s: string): (r: Option<Unit>)
    requires s != ""
    ensures r.Some? ==> 0 < r.value.used <= |s|
  {
    if s[0] != '%' then Some(Unit(s[0], 1))
    else if Escape(s).None? then None
    else Some(Unit(Escape(s).value, 3))
  }

  /** The scan of chttp_web_local_target_validate from position `i` on. */
  predicate ScanTarget(s: string, i: nat)
    decreases |s|
  {
    s == "" ||
    (var u := TargetUnit(s);
     && !Forbidden(s[0]) && u.Some? && !Forbidden(u.value.octet)
     && !(i == 1 && s[0] == '%' && u.value.octet == '/')
     && ScanTarget(s[u.value.used..], i + u.value.used))
  }

  /** chttp_web_local_target_validate */
  function TargetStatus(t: string, max: nat): Status {
    if max == 0 || max > TARGET_HARD_MAX then InvalidArgument
    else if t == "" || t[0] != '/' then Refused
    else if |t| > max then Capacity
    else if |t| > 1 && t[1] == '/' then Refused
    else if !ScanTarget(t, 0) then Refused
    else Ok
  }

  /** The octets a target stands for. */
  function Decoded(s: string): Option<string>
    decreases |s|
  {
    if s == "" then Some("")
    else if TargetUnit(s).None? then None
    else
      var rest := Decoded(s[TargetUnit(s).value.used..]);
      if rest.None? then None else Some([TargetUnit(s).value.octet] + rest.value)
  }

  predicate Clean(s: string) {
    forall i :: 0 <= i < |s| ==> !Forbidden(s[i])
  }

  lemma {:induction false} ScanIsClean(s: string, i: nat)
    requires i != 1
    ensures ScanTarget(s, i) <==> Decoded(s).Some? && Clean(Decoded(s).value) && (i == 0 ==> SecondOk(s))
    decreases |s|
  {
    if s != "" && TargetUnit(s).Some? {
      var u := TargetUnit(s).value;
      var rest := s[u.used..];
      if i + u.used == 1 {
        SecondScan(rest);
      } else {
        ScanIsClean(rest, i + u.used);
      }
      if Decoded(rest).Some? {
        CleanCons(u.octet, Decoded(rest).value);
      }
    }
  }

  /** The second unit of the target is not an escaped slash. */
  predicate SecondOk(s: string) {
    s != "" && TargetUnit(s).Some? && TargetUnit(s).value.used == 1 ==> SlashOk(s[1..])
  }

  predicate SlashOk(rest: string) {
    rest != "" && rest[0] == '%' && TargetUnit(rest).Some? ==> TargetUnit(rest).value.octet != '/'
  }

  lemma SecondScan(s: string)
    ensures ScanTarget(s, 1) <==> Decoded(s).Some? && Clean(Decoded(s).value) && SlashOk(s)
    decreases |s|
  {
    if s != "" && TargetUnit(s).Some? {
      var u := TargetUnit(s).value;
      ScanIsClean(s[u.used..], 1 + u.used);
      if Decoded(s[u.used..]).Some? {
        CleanCons(u.octet, Decoded(s[u.used..]).value);
      }
    }
  }

  lemma CleanCons(c: char, s: string)
    ensures Clean([c] + s) <==> !Forbidden(c) && Clean(s)
  {
    if Clean([c] + s) {
      assert ([c] + s)[0] == c;
      forall i | 0 <= i < |s|
        ensures !Forbidden(s[i])
      {
        assert ([c] + s)[i + 1] == s[i];
      }
    }
  }

  /**
   The one-pass check accepts exactly the targets within their bound whose escapes
   are whole and whose decoded octets are a path of this origin: one leading slash,
   no second, and nothing that ends or redirects a header or a URL.
   */
  lemma AcceptedTargets(t: string, max: nat)
    requires 0 < max <= TARGET_HARD_MAX
    ensures TargetStatus(t, max) == Ok <==>
      && t != "" && t[0] == '/' && |t| <= max
      && Decoded(t).Some? && Clean(Decoded(t).value)
      && (|Decoded(t).value| > 1 ==> Decoded(t).value[1] != '/')
  {
    if t != "" && t[0] == '/' {
      ScanIsClean(t, 0);
      var rest := t[1..];
      if rest != "" && Decoded(t).Some? {
        assert Decoded(t).value[1] == TargetUnit(rest).value.octet;
      }
    }
  }

  // ---------------------------------------------------------------- the encoded parameter

  predicate Unreserved(c: char) {
    AlphaNum(c) || c == '-' || c == '.' || c == '_' || c == '~'
  }

  function UpperHex(n: nat): char
    requires n < 16
  {
    "0123456789ABCDEF"[n]
  }

  function EncodeOctet(c: char): string
    requires Octet(c)
  {
    if Unreserved(c) then [c] else ['%', UpperHex(c as int / 16), UpperHex(c as int % 16)]
  }

  predicate OctetsOnly(s: string) {
    forall i :: 0 <= i < |s| ==> Octet(s[i])
  }

  function Encode(s: string): (r: string)
    requires OctetsOnly(s)
    ensures |r| <= 3 * |s|
  {
    if s == "" then "" else EncodeOctet(s[0]) + Encode(s[1..])
  }

  lemma HexReadsBack(n: nat)
    requires n < 16
    ensures HexDigitValue(UpperHex(n)) == Some(n)
  {
  }

  /** Every octet is read back by the form decoder, and no escape holds a separator. */
  lemma OctetReadsBack(c: char, rest: string)
    requires Octet(c)
    ensures FirstUnit(EncodeOctet(c) + rest) == Some(Unit(c, |EncodeOctet(c)|))
    ensures (EncodeOctet(c) + rest)[|EncodeOctet(c)|..] == rest
    ensures '&' !in EncodeOctet(c) && '=' !in EncodeOctet(c)
  {
    if !Unreserved(c) {
      var high, low := c as int / 16, c as int % 16;
      HexReadsBack(high);
      HexReadsBack(low);
      assert Byte(high, low) == c;
    }
  }

  /** Decoding the encoded target gives the target back, whatever octets it has. */
  lemma {:induction false} EncodeReadsBack(s: string, room: nat)
    requires OctetsOnly(s) && |s| <= room
    ensures DecodeText(Encode(s), room) == Text(s)
  {
    if s != "" {
      OctetReadsBack(s[0], Encode(s[1..]));
      EncodeReadsBack(s[1..], room - 1);
    }
  }

  /** And it takes the room it has octets. */
  lemma {:induction false} EncodeNeedsRoom(s: string, room: nat)
    requires OctetsOnly(s) && |s| > room
    ensures DecodeText(Encode(s), room) == NoRoom
  {
    OctetReadsBack(s[0], Encode(s[1..]));
    if room > 0 {
      EncodeNeedsRoom(s[1..], room - 1);
    }
  }

  lemma {:induction false} EncodeHasNoSeparator(s: string)
    requires OctetsOnly(s)
    ensures '&' !in Encode(s) && '=' !in Encode(s)
  {
    if s != "" {
      OctetReadsBack(s[0], "");
      EncodeHasNoSeparator(s[1..]);
    }
  }

  // ---------------------------------------------------------------- the destination

  function Separator(login: string): char {
    if '?' in login then '&' else '?'
  }

  function Field(target: string): string
    requires OctetsOnly(target)
  {
    PARAMETER + ("=" + Encode(target))
  }

  function Destination(login: string, target: string): string
    requires OctetsOnly(target)
  {
    login + ([Separator(login)] + Field(target))
  }

  /** What follows the first question mark. */
  function Query(url: string): Option<string> {
    var k := IndexOf(url, '?');
    if k == |url| then None else Some(url[k + 1..])
  }

  lemma FieldIsOneSegment(target: string)
    requires OctetsOnly(target)
    ensures Split(Field(target)) == [Field(target)] && IndexOf(Field(target), '=') == |PARAMETER|
  {
    var f := Field(target);
    EncodeHasNoSeparator(target);
    forall i | 0 <= i < |f|
      ensures f[i] != '&'
    {
      assert i > |PARAMETER| ==> f[i] == Encode(target)[i - |PARAMETER| - 1];
    }
    IndexOfUnique(f, '&', |f|);
    IndexOfUnique(f, '=', |PARAMETER|);
  }

  lemma ParameterReadsBack(room: nat)
    ensures DecodeText(PARAMETER, room) == if room >= |PARAMETER| then Text(PARAMETER) else NoRoom
  {
    PlainReadsBack(PARAMETER, room);
  }

  lemma {:induction false} PlainReadsBack(s: string, room: nat)
    requires forall i :: 0 <= i < |s| ==> s[i] != '+' && s[i] != '%'
    ensures DecodeText(s, room) == if room >= |s| then Text(s) else NoRoom
  {
    if s != "" && room > 0 {
      PlainReadsBack(s[1..], room - 1);
    }
  }

  /** A segment is its name and value, each decoded in the room there is. */
  lemma SegmentIs(s: string, name: string, code: string, value: string, pairs: nat, room: nat)
    requires s == name + ("=" + code) && name != "" && IndexOf(s, '=') == |name|
    requires DecodeText(name, room) == if room >= |name| then Text(name) else NoRoom
    requires room >= |name| ==> DecodeText(code, room - |name|) == if room - |name| >= |value| then Text(value) else NoRoom
    ensures ReadSegment(s, pairs, room) ==
      if pairs > 0 && room >= |name| + |value| then Pairs([Pair(name, value)]) else Full
  {
    assert s[..|name|] == name && s[|name| + 1..] == code;
  }

  lemma EncodedIn(target: string, room: nat)
    requires OctetsOnly(target)
    ensures DecodeText(Encode(target), room) == if room >= |target| then Text(target) else NoRoom
  {
    if room >= |target| {
      EncodeReadsBack(target, room);
    } else {
      EncodeNeedsRoom(target, room);
    }
  }

  /** The field alone is a form of one pair, exactly when there is room for it. */
  lemma FieldReadsBack(target: string, pairs: nat, room: nat)
    requires OctetsOnly(target)
    ensures ReadForm(Field(target), pairs, room) ==
      if pairs > 0 && room >= |PARAMETER| + |target| then Pairs([Pair(PARAMETER, target)]) else Full
  {
    FieldIsOneSegment(target);
    OneSegment(Field(target), pairs, room);
    ParameterReadsBack(room);
    if room >= |PARAMETER| {
      EncodedIn(target, room - |PARAMETER|);
    }
    SegmentIs(Field(target), PARAMETER, Encode(target), target, pairs, room);
  }

  lemma OneSegment(f: string, pairs: nat, room: nat)
    requires Split(f) == [f]
    ensures ReadForm(f, pairs, room) == ReadSegment(f, pairs, room)
  {
    var one, r := [f], ReadSegment(f, pairs, room);
    assert one[0] == f && one[1..] == [];
    if r.Pairs? {
      assert ReadSegments([], pairs - 1, room - Size(r.pairs)) == Pairs([]);
      assert r.pairs + [] == r.pairs;
    }
  }

  lemma DestinationQuery(login: string, target: string)
    requires OctetsOnly(target)
    ensures Query(Destination(login, target)) ==
      Some(if Query(login).None? then Field(target) else Query(login).value + ("&" + Field(target)))
  {
    var d, k := Destination(login, target), IndexOf(login, '?');
    IndexOfUnique(d, '?', k);
    if k == |login| {
      assert '?' !in login;
      assert d[k + 1..] == Field(target);
    } else {
      assert login[k] == '?';
      assert d[k + 1..] == login[k + 1..] + ("&" + Field(target));
    }
  }

  /** The pairs of the login path's own query. */
  function OwnPairs(login: string, pairs: nat, room: nat): Outcome {
    if Query(login).None? then Pairs([]) else ReadForm(Query(login).value, pairs, room)
  }

  /** The target is the last pair, exactly when the pairs before it parse and leave it room. */
  predicate Recovers(parsed: Outcome, own: Outcome, target: string, pairs: nat, room: nat) {
    if own.Pairs? && pairs > |own.pairs| && room >= Size(own.pairs) + |PARAMETER| + |target|
    then parsed == Pairs(own.pairs + [Pair(PARAMETER, target)])
    else !parsed.Pairs?
  }

  /**
   The query of the destination is a form exactly when the login path has no query of
   its own or one that is itself a non-empty form, and the parser has room; and then
   the target is its last pair.
   */
  lemma ReturnToRecovered(login: string, target: string, pairs: nat, room: nat)
    requires OctetsOnly(target)
    ensures Query(Destination(login, target)).Some?
    ensures Recovers(ReadForm(Query(Destination(login, target)).value, pairs, room), OwnPairs(login, pairs, room), target, pairs, room)
  {
    DestinationQuery(login, target);
    if Query(login).None? {
      FieldReadsBack(target, pairs, room);
      assert [] + [Pair(PARAMETER, target)] == [Pair(PARAMETER, target)];
    } else {
      BehindOwn(Query(login).value, target, pairs, room);
    }
  }

  /** The field behind a query. */
  lemma BehindOwn(query: string, target: string, pairs: nat, room: nat)
    requires OctetsOnly(target)
    ensures Recovers(ReadForm(query + ("&" + Field(target)), pairs, room), ReadForm(query, pairs, room), target, pairs, room)
  {
    var own := ReadForm(query, pairs, room);
    JoinedForms(query, Field(target), pairs, room);
    if own.Pairs? {
      FieldReadsBack(target, pairs - |own.pairs|, room - Size(own.pairs));
    }
  }

  /** The target is what a lookup of `return_to` in the parsed query finds first. */
  predicate Finds(parsed: Outcome, target: string) {
    parsed.Pairs? && Get(parsed.pairs, PARAMETER, 0) == Some(target)
  }

  /** And it is the only `return_to` there. */
  predicate FindsOnly(parsed: Outcome, target: string) {
    Finds(parsed, target) && Count(parsed.pairs, PARAMETER) == 1
  }

  /** The login path's own pairs parse and leave room for the target. */
  predicate LeavesRoom(own: Outcome, target: string, pairs: nat, room: nat) {
    own.Pairs? && pairs > |own.pairs| && room >= Size(own.pairs) + |PARAMETER| + |target|
  }

  /** The pairs bring a `return_to`, and the first of them is not the target. */
  predicate NamesAnother(own: seq<Pair>, target: string) {
    Count(own, PARAMETER) > 0 && Get(own, PARAMETER, 0) != Some(target)
  }

  /**
   The page the browser lands on finds the target under `return_to` exactly when the
   login path's own query, if it has one, is a non-empty form that leaves room and
   brings no `return_to` of its own, or the same one first. It finds exactly one
   `return_to` if and only if the login path brings none.
   */
  lemma ReturnToFoundExactly(login: string, target: string, pairs: nat, room: nat)
    requires OctetsOnly(target)
    ensures Query(Destination(login, target)).Some?
    ensures var parsed, own := ReadForm(Query(Destination(login, target)).value, pairs, room), OwnPairs(login, pairs, room);
      && (Finds(parsed, target) <==> LeavesRoom(own, target, pairs, room) && !NamesAnother(own.pairs, target))
      && (FindsOnly(parsed, target) <==> LeavesRoom(own, target, pairs, room) && Count(own.pairs, PARAMETER) == 0)
  {
    ReturnToRecovered(login, target, pairs, room);
    var own := OwnPairs(login, pairs, room);
    if LeavesRoom(own, target, pairs, room) {
      PairAdded(own.pairs, Pair(PARAMETER, target), 0);
    }
  }

  // ---------------------------------------------------------------- login paths that lose the target

  lemma {:induction false} PlainScan(s: string, i: nat)
    requires Plain(s)
    ensures ScanTarget(s, i)
    decreases |s|
  {
    if s != "" {
      PlainScan(s[1..], i + 1);
    }
  }

  /** An accepted login path with an empty query. */
  lemma EmptyQueryAccepted()
    ensures TargetStatus("/login?", PATH_HARD_MAX) == Ok && Query("/login?") == Some("")
  {
    PlainAccepted("/login?");
    QueryAt("/login", "");
    assert "/login" + ("?" + "") == "/login?";
  }

  predicate Plain(s: string) {
    forall k :: 0 <= k < |s| ==> s[k] != '%' && !Forbidden(s[k])
  }

  /** A path of this origin without escapes or forbidden characters is accepted. */
  lemma PlainAccepted(t: string)
    requires 1 < |t| <= PATH_HARD_MAX && t[0] == '/' && t[1] != '/' && Plain(t)
    ensures TargetStatus(t, PATH_HARD_MAX) == Ok
  {
    PlainScan(t, 0);
  }

  lemma QueryAt(path: string, query: string)
    requires '?' !in path
    ensures Query(path + ("?" + query)) == Some(query)
  {
    var t := path + ("?" + query);
    forall i | 0 <= i < |path|
      ensures t[i] != '?'
    {
      assert t[i] == path[i];
    }
    IndexOfUnique(t, '?', |path|);
    assert t[|path| + 1..] == query;
  }

  lemma EmptyIsNoForm(pairs: nat, room: nat)
    ensures ReadForm("", pairs, room) == Malformed
  {
    assert IndexOf("", '&') == 0 && Split("") == [""];
    OneSegment("", pairs, room);
  }

  /** There the query of the destination starts with a separator, which no form does. */
  lemma EmptyQueryLosesTarget(target: string, pairs: nat, room: nat)
    requires OctetsOnly(target)
    ensures TargetStatus("/login?", PATH_HARD_MAX) == Ok
    ensures Query(Destination("/login?", target)).Some? && !ReadForm(Query(Destination("/login?", target)).value, pairs, room).Pairs?
  {
    EmptyQueryAccepted();
    EmptyIsNoForm(pairs, room);
    ReturnToRecovered("/login?", target, pairs, room);
  }

  /** An accepted login path that brings its own `return_to`. */
  lemma OwnReturnToAccepted()
    ensures TargetStatus("/login?return_to=h", PATH_HARD_MAX) == Ok && Query("/login?return_to=h") == Some("return_to=h")
  {
    var login := "/login" + ("?" + "return_to=h");
    PlainJoined("/login", "return_to=h");
    PlainAccepted(login);
    QueryAt("/login", "return_to=h");
    assert login == "/login?return_to=h";
  }

  lemma PlainJoined(path: string, query: string)
    requires Plain(path) && Plain(query)
    ensures Plain(path + ("?" + query))
  {
    var t := path + ("?" + query);
    forall k | 0 <= k < |t|
      ensures t[k] != '%' && !Forbidden(t[k])
    {
      assert k < |path| ==> t[k] == path[k];
      assert k > |path| ==> t[k] == query[k - |path| - 1];
    }
  }

  lemma OwnIsField()
    ensures OctetsOnly("h") && Field("h") == "return_to=h"
  {
    assert "h"[1..] == "" && EncodeOctet('h') == "h" && "h" + "" == "h";
    assert Encode("h") == "h";
  }

  lemma OwnFirst(other: string, target: string)
    ensures var p := [Pair(PARAMETER, other)] + [Pair(PARAMETER, target)]; Get(p, PARAMETER, 0) == Some(other) && Count(p, PARAMETER) == 2
  {
    var own := [Pair(PARAMETER, other)];
    assert own[1..] == [];
    PairAdded(own, Pair(PARAMETER, target), 0);
  }

  /** There its own `return_to` is found, whatever the target. */
  lemma OwnReturnToWins(target: string, pairs: nat, room: nat)
    requires OctetsOnly(target) && pairs >= 2 && room >= 2 * |PARAMETER| + 1 + |target|
    ensures TargetStatus("/login?return_to=h", PATH_HARD_MAX) == Ok
    ensures Query(Destination("/login?return_to=h", target)).Some?
    ensures var parsed := ReadForm(Query(Destination("/login?return_to=h", target)).value, pairs, room);
      parsed.Pairs? && Get(parsed.pairs, PARAMETER, 0) == Some("h") && Count(parsed.pairs, PARAMETER) == 2
  {
    OwnReturnToAccepted();
    OwnIsField();
    FieldReadsBack("h", pairs, room);
    SizeOne(Pair(PARAMETER, "h"));
    ReturnToRecovered("/login?return_to=h", target, pairs, room);
    OwnFirst("h", target);
  }

  lemma SizeOne(p: Pair)
    ensures Size([p]) == |p.name| + |p.value|
  {
    assert [p][1..] == [];
  }

  // ---------------------------------------------------------------- as the source runs it

  /** The scan loop of chttp_web_local_target_validate. */
  method ValidateTarget(t: string, max: nat) returns (status: Status)
    ensures status == TargetStatus(t, max)
  {
    if max == 0 || max > TARGET_HARD_MAX {
      return InvalidArgument;
    }
    if t == "" || t[0] != '/' {
      return Refused;
    }
    if |t| > max {
      return Capacity;
    }
    if |t| > 1 && t[1] == '/' {
      return Refused;
    }
    var i := 0;
    while i < |t|
      invariant i <= |t| && ScanTarget(t, 0) == ScanTarget(t[i..], i)
      decreases |t| - i
    {
      var rest := t[i..];
      var u := TargetUnit(rest);
      if Forbidden(t[i]) || u.None? || Forbidden(u.value.octet) || (i == 1 && t[i] == '%' && u.value.octet == '/') {
        return Refused;
      }
      assert rest[u.value.used..] == t[i + u.value.used..];
      i := i + u.value.used;
    }
    status := Ok;
  }

  /** The encoding loop: never more than three characters for an octet. */
  method WriteEncoded(storage: array<char>, at: nat, target: string, ghost text: string) returns (next: nat)
    requires OctetsOnly(target) && at + 3 * |target| <= storage.Length && storage[..at] == text
    modifies storage
    ensures next == at + |Encode(target)| <= storage.Length && storage[..next] == text + Encode(target)
  {
    next := at;
    ghost var done := text;
    assert target[0..] == target;
    for i := 0 to |target|
      invariant next + 3 * (|target| - i) <= storage.Length && storage[..next] == done
      invariant next + |Encode(target[i..])| == at + |Encode(target)|
      invariant done + Encode(target[i..]) == text + Encode(target)
    {
      assert target[i..][0] == target[i] && target[i..][1..] == target[i + 1..];
      ghost var piece := EncodeOctet(target[i]);
      assert done + (piece + Encode(target[i + 1..])) == (done + piece) + Encode(target[i + 1..]);
      next := Copy(storage, next, EncodeOctet(target[i]), done);
      done := done + piece;
    }
    assert target[|target|..] == "" && done + "" == done;
  }

  /**
   chttp_web_auth_login_destination: behind the divided capacity check the whole
   destination and its terminator are stored, and no write leaves the storage.
   */
  method LoginDestination(login: string, target: string, max: nat, storage: array<char>) returns (status: Status, size: nat)
    requires OctetsOnly(target) && storage.Length > 0
    modifies storage
    ensures status == (if |login| > PATH_HARD_MAX || |target| > max then Capacity
                       else if TargetStatus(target, max) != Ok then TargetStatus(target, max)
                       else if DestinationFits(|login|, |target|, storage.Length) then Ok
                       else Capacity)
    ensures status == Ok ==> size < storage.Length && storage[..size] == Destination(login, target) && storage[size] == NUL
  {
    size := 0;
    if |login| > PATH_HARD_MAX || |target| > max {
      return Capacity, 0;
    }
    status := ValidateTarget(target, max);
    if status != Ok {
      return;
    }
    if |login| + PARAMETER_BYTES + 1 >= storage.Length || |target| > (storage.Length - |login| - PARAMETER_BYTES - 1) / 3 {
      return Capacity, 0;
    }
    size := Copy(storage, 0, login, "");
    size := Copy(storage, size, [Separator(login)], login);
    size := Copy(storage, size, PARAMETER + "=", login + [Separator(login)]);
    size := WriteEncoded(storage, size, target, login + [Separator(login)] + (PARAMETER + "="));
    Gathered(login, [Separator(login)], PARAMETER, Encode(target));
    assert storage[..size] == Destination(login, target);
    ghost var text := storage[..size];
    storage[size] := NUL;
    assert storage[..size] == text;
  }

  lemma Gathered(a: string, b: string, c: string, d: string)
    ensures a + b + (c + "=") + d == a + (b + (c + ("=" + d)))
  {
  }

  predicate DestinationFits(login: nat, target: nat, capacity: nat) {
    login + PARAMETER_BYTES + 1 < capacity && target <= (capacity - login - PARAMETER_BYTES - 1) / 3
  }

  /** The storage the redirect uses is large enough for every target that was accepted. */
  lemma HardMaximumSuffices(login: nat, target: nat)
    requires login <= PATH_HARD_MAX && target <= TARGET_HARD_MAX
    ensures DestinationFits(login, target, DESTINATION_HARD_MAX + 1)
  {
  }
}
