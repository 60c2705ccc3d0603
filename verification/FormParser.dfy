/** The form parser as the source runs it: octets and pairs written into the caller's storage. */
module FormParser {
  import opened Octets
  import opened ChunkedBody
  import opened Form

  datatype Status = Ok | InvalidArgument | BadForm | Capacity

  function StatusOf(d: Decoded): Status {
    match d
    case Text(_) => Ok
    case BadEscape => BadForm
    case NoRoom => Capacity
  }

  function Behind(done: string, d: Decoded): Decoded {
    if d.Text? then Text(done + d.text) else d
  }

  lemma DecodeStep(s: string, room: nat, u: Unit)
    requires s != "" && FirstUnit(s) == Some(u) && room > 0
    ensures DecodeText(s, room) == Behind([u.octet], DecodeText(s[u.used..], room - 1))
  {
  }

  lemma BehindTwice(a: string, b: string, d: Decoded)
    ensures Behind(a, Behind(b, d)) == Behind(a + b, d)
  {
    if d.Text? {
      assert a + (b + d.text) == (a + b) + d.text;
    }
  }

  /** chttp_web_form_decode_component: octets from `used` on, never past `limit`. */
  method DecodeInto(s: string, bytes: array<char>, used: nat, limit: nat, ghost text: string) returns (status: Status, next: nat)
    requires used <= limit <= bytes.Length && bytes[..used] == text
    modifies bytes
    ensures status == StatusOf(DecodeText(s, limit - used)) && used <= next <= limit
    ensures status == Ok ==> next == used + |DecodeText(s, limit - used).text| && bytes[..next] == text + DecodeText(s, limit - used).text
  {
    next := used;
    var rest := s;
    ghost var whole, done := DecodeText(s, limit - used), "";
    while rest != ""
      invariant used <= next <= limit && bytes[..next] == text + done && next == used + |done|
      invariant whole == Behind(done, DecodeText(rest, limit - next))
      decreases |rest|
    {
      var u := FirstUnit(rest);
      if u.None? {
        return BadForm, next;
      }
      if next >= limit {
        return Capacity, next;
      }
      DecodeStep(rest, limit - next, u.value);
      BehindTwice(done, [u.value.octet], DecodeText(rest[u.value.used..], limit - next - 1));
      bytes[next] := u.value.octet;
      assert bytes[..next + 1] == bytes[..next] + [u.value.octet];
      assert text + done + [u.value.octet] == text + (done + [u.value.octet]);
      done := done + [u.value.octet];
      next, rest := next + 1, rest[u.value.used..];
    }
    assert done + "" == done;
    status := Ok;
  }

  // ---------------------------------------------------------------- pairs in storage

  /** Where a pair's name and value lie in the octets. */
  datatype View = View(nameAt: nat, nameSize: nat, valueAt: nat, valueSize: nat)

  predicate Shows(v: View, octets: string, p: Pair) {
    && v.nameAt + v.nameSize <= |octets| && octets[v.nameAt..v.nameAt + v.nameSize] == p.name
    && v.valueAt + v.valueSize <= |octets| && octets[v.valueAt..v.valueAt + v.valueSize] == p.value
  }

  predicate ShowsAt(views: seq<View>, octets: string, pairs: seq<Pair>, i: nat) {
    i < |views| && i < |pairs| && Shows(views[i], octets, pairs[i])
  }

  ghost predicate Shown(views: seq<View>, octets: string, pairs: seq<Pair>) {
    |views| == |pairs| && |octets| == Size(pairs) && forall i: nat :: i < |pairs| ==> ShowsAt(views, octets, pairs, i)
  }

  lemma ShowsStable(v: View, octets: string, x: string, p: Pair)
    requires Shows(v, octets, p)
    ensures Shows(v, octets + x, p)
  {
    assert (octets + x)[v.nameAt..v.nameAt + v.nameSize] == octets[v.nameAt..v.nameAt + v.nameSize];
    assert (octets + x)[v.valueAt..v.valueAt + v.valueSize] == octets[v.valueAt..v.valueAt + v.valueSize];
  }

  function ViewAt(at: nat, p: Pair): View {
    View(at, |p.name|, at + |p.name|, |p.value|)
  }

  lemma ShownNext(views: seq<View>, octets: string, pairs: seq<Pair>, p: Pair)
    requires Shown(views, octets, pairs)
    ensures Shown(views + [ViewAt(|octets|, p)], octets + (p.name + p.value), pairs + [p])
  {
    var n := octets + (p.name + p.value);
    SizeAppend(pairs, [p]);
    assert [p][1..] == [];
    assert n[|octets|..|octets| + |p.name|] == p.name;
    assert n[|octets| + |p.name|..|octets| + |p.name| + |p.value|] == p.value;
    forall i: nat | i < |pairs| + 1
      ensures ShowsAt(views + [ViewAt(|octets|, p)], n, pairs + [p], i)
    {
      if i < |pairs| {
        assert ShowsAt(views, octets, pairs, i);
        ShowsStable(views[i], octets, p.name + p.value, pairs[i]);
      }
    }
  }

  function FormStatus(o: Outcome): Status {
    match o
    case Pairs(_) => Ok
    case Malformed => BadForm
    case Full => Capacity
  }

  /** One segment, stored behind the pairs there are. */
  method StoreSegment(s: string, views: array<View>, bytes: array<char>, count: nat, used: nat, maxPairs: nat, limit: nat, ghost done: seq<Pair>)
    returns (status: Status, next: nat, ghost added: seq<Pair>)
    requires count <= maxPairs <= views.Length && used <= limit <= bytes.Length
    requires Shown(views[..count], bytes[..used], done)
    modifies views, bytes
    ensures status == FormStatus(ReadSegment(s, maxPairs - count, limit - used))
    ensures status == Ok ==> added == ReadSegment(s, maxPairs - count, limit - used).pairs && next == used + Size(added) <= limit
    ensures status == Ok ==> count < maxPairs && Shown(views[..count + 1], bytes[..next], done + added)
  {
    next, added := used, [];
    ghost var before, shown := bytes[..used], views[..count];
    if s == "" {
      return BadForm, used, [];
    }
    if count >= maxPairs {
      return Capacity, used, [];
    }
    var q := IndexOf(s, '=');
    if q == 0 {
      return BadForm, used, [];
    }
    var middle: nat;
    ghost var p;
    status, middle, next, p := DecodePair(s, q, bytes, used, limit, before);
    assert ReadSegment(s, maxPairs - count, limit - used) == PairOf(s, q, limit - used);
    if status != Ok {
      return;
    }
    added := [p];
    assert added[1..] == [];
    views[count] := View(used, middle - used, middle, next - middle);
    assert views[..count + 1] == shown + [ViewAt(used, p)];
    ShownNext(shown, before, done, p);
  }

  function CodeOf(s: string, q: nat): string
    requires q <= |s|
  {
    if q < |s| then s[q + 1..] else ""
  }

  /** The pair of a segment whose name ends at `q`. */
  function PairOf(s: string, q: nat, room: nat): Outcome
    requires q <= |s|
  {
    var name := DecodeText(s[..q], room);
    if !name.Text? then ToOutcome(name)
    else
      var value := DecodeText(CodeOf(s, q), room - |name.text|);
      if !value.Text? then ToOutcome(value) else SinglePair(Pair(name.text, value.text))
  }

  method DecodePair(s: string, q: nat, bytes: array<char>, used: nat, limit: nat, ghost text: string)
    returns (status: Status, middle: nat, next: nat, ghost p: Pair)
    requires q <= |s| && used <= limit <= bytes.Length && bytes[..used] == text
    modifies bytes
    ensures status == FormStatus(PairOf(s, q, limit - used)) && used <= middle <= next <= limit
    ensures status == Ok ==> PairOf(s, q, limit - used) == Pairs([p]) && middle == used + |p.name| && next == middle + |p.value|
    ensures status == Ok ==> bytes[..next] == text + (p.name + p.value)
  {
    p := Pair("", "");
    status, middle := DecodeInto(s[..q], bytes, used, limit, text);
    next := middle;
    if status != Ok {
      return;
    }
    ghost var name := DecodeText(s[..q], limit - used).text;
    status, next := DecodeInto(CodeOf(s, q), bytes, middle, limit, text + name);
    if status != Ok {
      return;
    }
    ghost var value := DecodeText(CodeOf(s, q), limit - middle).text;
    p := Pair(name, value);
    assert text + name + value == text + (name + value);
  }

  function Min(a: nat, b: nat): nat {
    if a <= b then a else b
  }

  /** chttp_web_form_parse */
  method ParseForm(input: string, maxInput: nat, maxPairs: nat, maxDecoded: nat, views: array<View>, bytes: array<char>)
    returns (status: Status, count: nat, used: nat)
    modifies views, bytes
    ensures |input| > maxInput ==> status == Capacity
    ensures |input| <= maxInput && input == "" ==> status == Ok && count == 0 && used == 0
    ensures |input| <= maxInput && input != "" && (Min(maxPairs, views.Length) == 0 || Min(maxDecoded, bytes.Length) == 0) ==> status == InvalidArgument
    ensures |input| <= maxInput && input != "" && Min(maxPairs, views.Length) > 0 && Min(maxDecoded, bytes.Length) > 0 ==>
      Parsed(input, Min(maxPairs, views.Length), Min(maxDecoded, bytes.Length), status, count, used, views, bytes)
  {
    if |input| > maxInput {
      return Capacity, 0, 0;
    }
    if input == "" {
      return Ok, 0, 0;
    }
    if maxPairs == 0 || maxDecoded == 0 || views.Length == 0 || bytes.Length == 0 {
      return InvalidArgument, 0, 0;
    }
    status, count, used := ParseSegments(input, views, bytes, Min(maxPairs, views.Length), Min(maxDecoded, bytes.Length));
  }

  /** The outcome of a parse: every pair of the form, in order, in the storage, or why not. */
  ghost predicate Parsed(input: string, maxPairs: nat, limit: nat, status: Status, count: nat, used: nat, views: array<View>, bytes: array<char>)
    reads views, bytes
  {
    && status == FormStatus(ReadForm(input, maxPairs, limit))
    && (status == Ok ==>
      var p := ReadForm(input, maxPairs, limit).pairs;
      count == |p| <= views.Length && used == Size(p) <= bytes.Length && Shown(views[..count], bytes[..used], p))
  }

  /** The loop over the segments. */
  method ParseSegments(input: string, views: array<View>, bytes: array<char>, maxPairs: nat, limit: nat)
    returns (status: Status, count: nat, used: nat)
    requires maxPairs <= views.Length && limit <= bytes.Length
    modifies views, bytes
    ensures Parsed(input, maxPairs, limit, status, count, used, views, bytes)
  {
    count, used := 0, 0;
    var rest := input;
    ghost var whole, done: seq<Pair>, left := ReadForm(input, maxPairs, limit), [], ReadForm(input, maxPairs, limit);
    FollowsStart(whole, maxPairs, limit);
    var e := IndexOf(rest, '&');
    while e < |rest|
      invariant count == |done| <= maxPairs && used == Size(done) <= limit
      invariant e == IndexOf(rest, '&') && left == ReadForm(rest, maxPairs - count, limit - used)
      invariant Follows(whole, done, left, maxPairs, limit, maxPairs - count, limit - used)
      invariant Shown(views[..count], bytes[..used], done)
      decreases |rest|
    {
      ghost var added;
      ghost var here, behind := NextSegment(rest, e, maxPairs - count, limit - used);
      status, used, added := StoreSegment(rest[..e], views, bytes, count, used, maxPairs, limit, done);
      if status != Ok {
        return;
      }
      count := count + 1;
      FollowsNext(whole, done, added, behind, maxPairs, limit, maxPairs - count, limit - used);
      done, left := done + added, behind;
      rest := rest[e + 1..];
      e := IndexOf(rest, '&');
    }
    ghost var added;
    ghost var here := LastSegment(rest, maxPairs - count, limit - used);
    status, used, added := StoreSegment(rest, views, bytes, count, used, maxPairs, limit, done);
    if status == Ok {
      count := count + 1;
      SizeAppend(done, added);
      LastFollows(whole, done, added);
    }
  }

  lemma LastSegment(s: string, pairs: nat, room: nat) returns (here: Outcome)
    requires IndexOf(s, '&') == |s|
    ensures here == ReadSegment(s, pairs, room)
    ensures ReadForm(s, pairs, room) == if here.Pairs? then Prepend(here.pairs, Pairs([])) else here
  {
    here := ReadSegment(s, pairs, room);
    assert Split(s) == [s] == [s] + [];
    SegmentsStep(s, [], pairs, room);
  }

  /** The first segment of a form, and the form behind it. */
  lemma NextSegment(s: string, e: nat, pairs: nat, room: nat) returns (here: Outcome, rest: Outcome)
    requires IndexOf(s, '&') == e < |s|
    ensures here == ReadSegment(s[..e], pairs, room)
    ensures !here.Pairs? ==> ReadForm(s, pairs, room) == here
    ensures here.Pairs? ==> |here.pairs| == 1 && pairs > 0 && Size(here.pairs) <= room
    ensures here.Pairs? ==> rest == ReadForm(s[e + 1..], pairs - 1, room - Size(here.pairs)) && ReadForm(s, pairs, room) == Prepend(here.pairs, rest)
  {
    var segments := Split(s[e + 1..]);
    here := ReadSegment(s[..e], pairs, room);
    assert ReadForm(s, pairs, room) == ReadSegments([s[..e]] + segments, pairs, room);
    SegmentsStep(s[..e], segments, pairs, room);
    rest := if here.Pairs? then ReadForm(s[e + 1..], pairs - 1, room - Size(here.pairs)) else Malformed;
  }

  lemma SegmentsStep(x: string, rest: seq<string>, pairs: nat, room: nat)
    ensures var first := ReadSegment(x, pairs, room);
      ReadSegments([x] + rest, pairs, room) ==
        if !first.Pairs? then first else Prepend(first.pairs, ReadSegments(rest, pairs - 1, room - Size(first.pairs)))
  {
    assert ([x] + rest)[0] == x && ([x] + rest)[1..] == rest;
  }

  lemma FollowsStart(whole: Outcome, pairs: nat, room: nat)
    ensures Follows(whole, [], whole, pairs, room, pairs, room)
  {
    assert whole.Pairs? ==> [] + whole.pairs == whole.pairs;
  }

  lemma FollowsNext(whole: Outcome, done: seq<Pair>, added: seq<Pair>, rest: Outcome, pairs: nat, room: nat, pairsLeft: nat, roomLeft: nat)
    requires |added| == 1 && Follows(whole, done, Prepend(added, rest), pairs, room, pairsLeft + 1, roomLeft + Size(added))
    ensures Follows(whole, done + added, rest, pairs, room, pairsLeft, roomLeft)
  {
    SizeAppend(done, added);
    PrependTwice(done, added, rest);
  }

  lemma LastFollows(whole: Outcome, done: seq<Pair>, added: seq<Pair>)
    requires whole == Prepend(done, Prepend(added, Pairs([])))
    ensures whole == Pairs(done + added)
  {
    assert done + (added + []) == done + added;
  }

  // ---------------------------------------------------------------- looking pairs up

  /** The loop of chttp_web_form_count. */
  method CountNamed(pairs: seq<Pair>, name: string) returns (result: nat)
    ensures result == Count(pairs, name)
  {
    result := 0;
    for i := 0 to |pairs|
      invariant result + Count(pairs[i..], name) == Count(pairs, name)
    {
      assert pairs[i..][0] == pairs[i] && pairs[i..][1..] == pairs[i + 1..];
      if pairs[i].name == name {
        result := result + 1;
      }
    }
  }

  /** The loop of chttp_web_form_get. */
  method FindNamed(pairs: seq<Pair>, name: string, occurrence: nat) returns (value: Option<string>)
    ensures value == Get(pairs, name, occurrence)
  {
    var seen := 0;
    for i := 0 to |pairs|
      invariant seen <= occurrence && Get(pairs, name, occurrence) == Get(pairs[i..], name, occurrence - seen)
    {
      assert pairs[i..][0] == pairs[i] && pairs[i..][1..] == pairs[i + 1..];
      if pairs[i].name == name {
        if seen == occurrence {
          return Some(pairs[i].value);
        }
        seen := seen + 1;
      }
    }
    value := None;
  }
}
