/** Forms as browsers send them: pairs joined by ampersands, octets percent-encoded. */
module Form {
  import opened Octets
  import opened ChunkedBody

  datatype Pair = Pair(name: string, value: string)

  // ---------------------------------------------------------------- one component

  /** The octet at the front of a component and how many characters stand for it. */
  datatype Unit = Unit(octet: char, used: nat)

  function Byte(high: nat, low: nat): char
    requires high < 16 && low < 16
  {
    (high * 16 + low) as char
  }

  /** A percent escape, when it is whole and in hexadecimal. */
  function Escape(s: string): (r: Option<char>)
    requires s != "" && s[0] == '%'
    ensures r.Some? ==> |s| >= 3
  {
    if |s| < 3 || HexDigitValue(s[1]).None? || HexDigitValue(s[2]).None? then None
    else Some(Byte(HexDigitValue(s[1]).value, HexDigitValue(s[2]).value))
  }

  function FirstUnit(s: string): (r: Option<Unit>)
    requires s != ""
    ensures r.Some? ==> 0 < r.value.used <= |s|
  {
    if s[0] == '+' then Some(Unit(' ', 1))
    else if s[0] != '%' then Some(Unit(s[0], 1))
    else if Escape(s).None? then None
    else Some(Unit(Escape(s).value, 3))
  }

  datatype Decoded = Text(text: string) | BadEscape | NoRoom

  /** chttp_web_form_decode_component, with room for so many octets. */
  function DecodeText(s: string, room: nat): (r: Decoded)
    ensures r.Text? ==> |r.text| <= room
    decreases |s|
  {
    if s == "" then Text("")
    else
      var u := FirstUnit(s);
      if u.None? then BadEscape
      else if room == 0 then NoRoom
      else
        var rest := DecodeText(s[u.value.used..], room - 1);
        if rest.Text? then Text([u.value.octet] + rest.text) else rest
  }

  // ---------------------------------------------------------------- the whole form

  datatype Outcome = Pairs(pairs: seq<Pair>) | Malformed | Full

  function ToOutcome(d: Decoded): Outcome
    requires !d.Text?
  {
    if d.BadEscape? then Malformed else Full
  }

  function Size(pairs: seq<Pair>): nat {
    if pairs == [] then 0 else |pairs[0].name| + |pairs[0].value| + Size(pairs[1..])
  }

  function SinglePair(p: Pair): (r: Outcome)
    ensures r.Pairs? && |r.pairs| == 1 && Size(r.pairs) == |p.name| + |p.value|
  {
    assert [p][1..] == [];
    Pairs([p])
  }

  /** One segment between ampersands. */
  function ReadSegment(s: string, pairs: nat, room: nat): (r: Outcome)
    ensures r.Pairs? ==> |r.pairs| == 1 && pairs > 0 && Size(r.pairs) <= room
  {
    var q := IndexOf(s, '=');
    if s == "" then Malformed
    else if pairs == 0 then Full
    else if q == 0 then Malformed
    else
      var name := DecodeText(s[..q], room);
      if !name.Text? then ToOutcome(name)
      else
        var value := DecodeText(if q < |s| then s[q + 1..] else "", room - |name.text|);
        if !value.Text? then ToOutcome(value) else SinglePair(Pair(name.text, value.text))
  }

  function Prepend(pairs: seq<Pair>, rest: Outcome): Outcome {
    if rest.Pairs? then Pairs(pairs + rest.pairs) else rest
  }

  /** The segments between ampersands; a text has always at least one. */
  function Split(s: string): (r: seq<string>)
    ensures r != []
    decreases |s|
  {
    var e := IndexOf(s, '&');
    if e == |s| then [s] else [s[..e]] + Split(s[e + 1..])
  }

  /** Segments in order, until one is refused; a segment may not be empty. */
  function ReadSegments(segments: seq<string>, pairs: nat, room: nat): Outcome {
    if segments == [] then Pairs([])
    else
      var first := ReadSegment(segments[0], pairs, room);
      if !first.Pairs? then first
      else Prepend(first.pairs, ReadSegments(segments[1..], pairs - 1, room - Size(first.pairs)))
  }

  /** chttp_web_form_parse of a non-empty form, with room for so many pairs and octets. */
  function ReadForm(s: string, pairs: nat, room: nat): Outcome {
    ReadSegments(Split(s), pairs, room)
  }

  lemma {:induction false} SizeAppend(a: seq<Pair>, b: seq<Pair>)
    ensures Size(a + b) == Size(a) + Size(b)
  {
    if a == [] {
      assert a + b == b;
    } else {
      assert (a + b)[1..] == a[1..] + b;
      SizeAppend(a[1..], b);
    }
  }

  lemma {:induction false} SegmentsFit(segments: seq<string>, pairs: nat, room: nat)
    requires ReadSegments(segments, pairs, room).Pairs?
    ensures var p := ReadSegments(segments, pairs, room).pairs; |p| == |segments| && |p| <= pairs && Size(p) <= room
  {
    if segments != [] {
      var first := ReadSegment(segments[0], pairs, room).pairs;
      SegmentsFit(segments[1..], pairs - 1, room - Size(first));
      SizeAppend(first, ReadSegments(segments[1..], pairs - 1, room - Size(first)).pairs);
    }
  }

  // ---------------------------------------------------------------- forms joined by an ampersand

  lemma {:induction false} SplitJoined(s: string, t: string)
    ensures Split(s + ("&" + t)) == Split(s) + Split(t)
    decreases |s|
  {
    var j, e := s + ("&" + t), IndexOf(s, '&');
    IndexOfUnique(j, '&', e);
    assert j[..e] == s[..e];
    if e == |s| {
      assert j[e + 1..] == t && s[..e] == s;
    } else {
      SplitJoined(s[e + 1..], t);
      JoinedTail(s, t, e, j);
      assert [s[..e]] + (Split(s[e + 1..]) + Split(t)) == ([s[..e]] + Split(s[e + 1..])) + Split(t);
    }
  }

  lemma JoinedTail(s: string, t: string, e: nat, j: string)
    requires e < |s| && j == s + ("&" + t)
    ensures j[e + 1..] == s[e + 1..] + ("&" + t)
  {
  }

  /** An outcome behind pairs that left so much room. */
  predicate Follows(whole: Outcome, done: seq<Pair>, rest: Outcome, pairs: nat, room: nat, pairsLeft: nat, roomLeft: nat) {
    pairs == pairsLeft + |done| && room == roomLeft + Size(done) && whole == Prepend(done, rest)
  }

  lemma FollowsFirst(first: seq<Pair>, whole: Outcome, done: seq<Pair>, rest: Outcome, pairs: nat, room: nat, pairsLeft: nat, roomLeft: nat)
    requires |first| == 1 && Follows(whole, done, rest, pairs, room, pairsLeft, roomLeft)
    ensures Follows(Prepend(first, whole), first + done, rest, pairs + 1, room + Size(first), pairsLeft, roomLeft)
  {
    SizeAppend(first, done);
    PrependTwice(first, done, rest);
  }

  lemma {:induction false} SegmentsRefused(a: seq<string>, b: seq<string>, pairs: nat, room: nat)
    requires !ReadSegments(a, pairs, room).Pairs?
    ensures ReadSegments(a + b, pairs, room) == ReadSegments(a, pairs, room)
  {
    assert (a + b)[0] == a[0] && (a + b)[1..] == a[1..] + b;
    var first := ReadSegment(a[0], pairs, room);
    if first.Pairs? {
      SegmentsRefused(a[1..], b, pairs - 1, room - Size(first.pairs));
    }
  }

  lemma {:induction false} SegmentsJoined(a: seq<string>, b: seq<string>, pairs: nat, room: nat, done: seq<Pair>)
    requires ReadSegments(a, pairs, room) == Pairs(done)
    ensures |done| <= pairs && Size(done) <= room
    ensures ReadSegments(a + b, pairs, room) == Prepend(done, ReadSegments(b, pairs - |done|, room - Size(done)))
  {
    SegmentsFit(a, pairs, room);
    var pairsLeft, roomLeft := pairs - |done|, room - Size(done);
    SegmentsFollow(a, b, pairs, room, done, pairsLeft, roomLeft, ReadSegments(b, pairsLeft, roomLeft));
  }

  lemma {:induction false} SegmentsFollow(a: seq<string>, b: seq<string>, pairs: nat, room: nat, done: seq<Pair>,
                                          pairsLeft: nat, roomLeft: nat, rest: Outcome)
    requires ReadSegments(a, pairs, room) == Pairs(done) && pairs == pairsLeft + |done| && room == roomLeft + Size(done)
    requires rest == ReadSegments(b, pairsLeft, roomLeft)
    ensures Follows(ReadSegments(a + b, pairs, room), done, rest, pairs, room, pairsLeft, roomLeft)
    decreases |a|
  {
    if a == [] {
      assert a + b == b;
      assert rest.Pairs? ==> [] + rest.pairs == rest.pairs;
    } else {
      var first, more, tail, whole, fewer, less := FirstOf(a, b, pairs, room, done);
      SegmentsFollow(tail, b, fewer, less, more, pairsLeft, roomLeft, rest);
      FollowsFirst(first, whole, more, rest, fewer, less, pairsLeft, roomLeft);
    }
  }

  /** The first of the segments apart from the others, with the room left for those. */
  lemma FirstOf(a: seq<string>, b: seq<string>, pairs: nat, room: nat, done: seq<Pair>)
    returns (first: seq<Pair>, more: seq<Pair>, tail: seq<string>, whole: Outcome, fewer: nat, less: nat)
    requires a != [] && ReadSegments(a, pairs, room) == Pairs(done)
    ensures |first| == 1 && done == first + more && |tail| < |a|
    ensures pairs == fewer + 1 && room == less + Size(first) && Size(done) == Size(first) + Size(more)
    ensures ReadSegments(tail, fewer, less) == Pairs(more)
    ensures whole == ReadSegments(tail + b, fewer, less)
    ensures ReadSegments(a + b, pairs, room) == Prepend(first, whole)
  {
    first := ReadSegment(a[0], pairs, room).pairs;
    tail, fewer, less := a[1..], pairs - 1, room - Size(first);
    more, whole := ReadSegments(tail, fewer, less).pairs, ReadSegments(tail + b, fewer, less);
    SizeAppend(first, more);
    JoinedFirst(a, b, pairs, room);
  }

  lemma JoinedFirst(a: seq<string>, b: seq<string>, pairs: nat, room: nat)
    requires a != [] && ReadSegment(a[0], pairs, room).Pairs?
    ensures var first := ReadSegment(a[0], pairs, room).pairs;
      ReadSegments(a + b, pairs, room) == Prepend(first, ReadSegments(a[1..] + b, pairs - 1, room - Size(first)))
  {
    assert (a + b)[0] == a[0] && (a + b)[1..] == a[1..] + b;
  }

  /**
   Two forms joined parse exactly when both parse, the second in the room that the
   first leaves, and then to the pairs of both.
   */
  lemma JoinedForms(s: string, t: string, pairs: nat, room: nat)
    ensures var a, j := ReadForm(s, pairs, room), ReadForm(s + ("&" + t), pairs, room);
      if !a.Pairs? then j == a
      else |a.pairs| <= pairs && Size(a.pairs) <= room && j == Prepend(a.pairs, ReadForm(t, pairs - |a.pairs|, room - Size(a.pairs)))
  {
    SplitJoined(s, t);
    var a := ReadForm(s, pairs, room);
    if a.Pairs? {
      SegmentsJoined(Split(s), Split(t), pairs, room, a.pairs);
    } else {
      SegmentsRefused(Split(s), Split(t), pairs, room);
    }
  }

  lemma PrependTwice(a: seq<Pair>, b: seq<Pair>, r: Outcome)
    ensures Prepend(a, Prepend(b, r)) == Prepend(a + b, r)
  {
    if r.Pairs? {
      assert a + (b + r.pairs) == (a + b) + r.pairs;
    }
  }

  // ---------------------------------------------------------------- looking pairs up

  /** chttp_web_form_count */
  function Count(pairs: seq<Pair>, name: string): nat {
    if pairs == [] then 0 else (if pairs[0].name == name then 1 else 0) + Count(pairs[1..], name)
  }

  /** chttp_web_form_get: the value of the pair of that name that comes after so many others. */
  function Get(pairs: seq<Pair>, name: string, occurrence: nat): Option<string> {
    if pairs == [] then None
    else if pairs[0].name != name then Get(pairs[1..], name, occurrence)
    else if occurrence == 0 then Some(pairs[0].value)
    else Get(pairs[1..], name, occurrence - 1)
  }

  /** Every occurrence that is counted is found, and no other. */
  lemma {:induction false} CountedIsFound(pairs: seq<Pair>, name: string, occurrence: nat)
    ensures Get(pairs, name, occurrence).Some? <==> occurrence < Count(pairs, name)
  {
    if pairs != [] {
      if pairs[0].name != name {
        CountedIsFound(pairs[1..], name, occurrence);
      } else if occurrence > 0 {
        CountedIsFound(pairs[1..], name, occurrence - 1);
      }
    }
  }

  /** One more pair is one more occurrence of its name, behind the others. */
  lemma {:induction false} PairAdded(pairs: seq<Pair>, p: Pair, occurrence: nat)
    ensures Count(pairs + [p], p.name) == Count(pairs, p.name) + 1
    ensures Get(pairs + [p], p.name, occurrence) ==
      if occurrence == Count(pairs, p.name) then Some(p.value) else Get(pairs, p.name, occurrence)
  {
    if pairs == [] {
      assert pairs + [p] == [p] && [p][1..] == [];
    } else {
      assert (pairs + [p])[0] == pairs[0] && (pairs + [p])[1..] == pairs[1..] + [p];
      PairAdded(pairs[1..], p, if pairs[0].name == p.name && occurrence > 0 then occurrence - 1 else occurrence);
    }
  }
}
