/**
 The delimiter search and the printed-body round trip: a body printed from parts
 is read back as exactly those parts, under every chunking, if and only if no
 part's data contains the delimiter.
 */
module MultipartRoundTrip {
  import opened Octets
  import opened MultipartHeaders
  import opened MultipartPrint
  import opened Multipart

  /** What the application has received of one part. */
  datatype Received = Received(part: Part, data: string, ended: bool)

  function RecordBegin(u: seq<Received>, p: Part): Reply<seq<Received>> {
    Reply(true, u + [Received(p, "", false)])
  }

  function RecordData(u: seq<Received>, d: string): Reply<seq<Received>> {
    if u == [] then Reply(true, u)
    else
      var k := |u| - 1;
      Reply(true, u[..k] + [u[k].(data := u[k].data + d)])
  }

  function RecordEnd(u: seq<Received>): Reply<seq<Received>> {
    if u == [] then Reply(true, u)
    else
      var k := |u| - 1;
      Reply(true, u[..k] + [u[k].(ended := true)])
  }

  /** Callbacks that accept everything and record it. */
  function Recorder(): Callbacks<seq<Received>> {
    Callbacks(RecordBegin, RecordData, RecordEnd)
  }

  type RState = State<seq<Received>>
  type RConfig = Config<seq<Received>>

  lemma RecorderSplits()
    ensures Splittable(Recorder()) && Accepting(Recorder())
  {
    forall u: seq<Received>, a: string, b: string | a != [] && b != []
      ensures RecordData(u, a + b) == RecordData(RecordData(u, a).user, b)
    {
      if u != [] {
        var k := |u| - 1;
        var v := RecordData(u, a).user;
        assert v[..k] == u[..k] && v[k].data == u[k].data + a;
        assert (u[k].data + a) + b == u[k].data + (a + b);
      }
    }
  }

  // ------------------------------------------------------------ delimiter search

  /** No octet of the delimiter after the first is CR, so it has no border. */
  lemma MarkerHasNoBorder(boundary: string, i: nat)
    requires BoundaryValid(boundary) && i < |Marker(boundary)|
    ensures Marker(boundary)[i] == CR <==> i == 0
  {
    if i >= 4 {
      assert Marker(boundary)[i] == boundary[i - 4] && BoundaryChar(boundary[i - 4]);
    }
  }

  /**
   The parser after the body octets `stream` of `part`, the last `k` of them
   still pending; `base` is the parser as the part began, before the record.
   */
  function BodyState(base: RState, part: Part, stream: string, k: nat): RState
    requires k <= |stream|
  {
    var n := |stream| - k;
    base.(phase := Body, pending := stream[n..],
          user := base.user + [Received(part, stream[..n], false)],
          fieldBytes := if base.currentFile then base.fieldBytes else n,
          total := base.total + |stream|)
  }

  ghost predicate BodyAt(c: RConfig, base: RState, part: Part, stream: string, s: RState) {
    && |s.pending| <= |stream|
    && |s.pending| < |Marker(c.boundary)|
    && s.pending == Marker(c.boundary)[..|s.pending|]
    && s == BodyState(base, part, stream, |s.pending|)
  }

  predicate Fits(c: RConfig, base: RState, n: nat) {
    base.currentFile || n <= c.limits.maxFieldBytes
  }

  /** Delivering the pending prefix moves it into the record. */
  lemma DropPending(c: RConfig, base: RState, part: Part, stream: string, s: RState)
    requires c.callbacks == Recorder() && BodyAt(c, base, part, stream, s) && Fits(c, base, |stream|)
    ensures var o := Emit(c, s, s.pending);
      o.status == Ok && o.s.(pending := "") == BodyState(base, part, stream, 0)
  {
    var k := |s.pending|;
    var n := |stream| - k;
    assert stream[..n] + stream[n..] == stream;
    assert stream[..|stream|] == stream && stream[|stream|..] == "";
    var u := s.user;
    assert u[..|u| - 1] == base.user && u[|u| - 1] == Received(part, stream[..n], false);
  }

  lemma PlainOctet(c: RConfig, base: RState, part: Part, stream: string, b: char)
    requires c.callbacks == Recorder() && Fits(c, base, |stream| + 1) && BoundaryValid(c.boundary)
    ensures var o := BodyByte(c, BodyState(base, part, stream, 0), b);
      o.status == Ok && BodyAt(c, base, part, stream + [b], o.s)
  {
    var s := BodyState(base, part, stream, 0);
    var t := stream + [b];
    assert stream[..|stream|] == stream && stream[|stream|..] == "";
    assert t[..|t|] == t && t[|t|..] == "" && t[|stream|..] == [b] && t[..|stream|] == stream;
    var u := s.user;
    assert u[..|u| - 1] == base.user && u[|u| - 1] == Received(part, stream, false);
    assert Marker(c.boundary)[..1] == [CR] && Marker(c.boundary)[..0] == "";
  }

  lemma MarkerAtEnd(t: string, m: string, n: nat)
    requires n <= |t|
    ensures t[n..] == m ==> Occurs(t, m)
  {
    if t[n..] == m {
      assert t[n..n + |m|] == m && HasAt(t, m, n);
    }
  }

  /** One more octet of the delimiter, but not its last. */
  lemma MatchedOctet(c: RConfig, base: RState, part: Part, stream: string, s: RState, b: char)
    requires BodyAt(c, base, part, stream, s) && s.pending != [] && Matches(c, s, b)
    requires !Occurs(stream + [b], Marker(c.boundary))
    ensures var o := Step(c, s, b);
      o.status == Ok && BodyAt(c, base, part, stream + [b], o.s)
  {
    var m, t, k := Marker(c.boundary), stream + [b], |s.pending|;
    var n := |stream| - k;
    assert s.pending + [b] == m[..k + 1];
    assert t[n..] == stream[n..] + [b] && t[..n] == stream[..n];
    MarkerAtEnd(t, m, n);
    assert Step(c, s, b) == Good(Advance(c, s, b));
    assert Advance(c, s, b) == BodyState(base, part, t, k + 1);
  }

  /** An octet that does not complete a delimiter extends the stream. */
  lemma BodyOctet(c: RConfig, base: RState, part: Part, stream: string, s: RState, b: char)
    requires c.callbacks == Recorder() && BoundaryValid(c.boundary)
    requires BodyAt(c, base, part, stream, s) && Fits(c, base, |stream| + 1)
    requires !Occurs(stream + [b], Marker(c.boundary))
    ensures var o := Step(c, s, b);
      o.status == Ok && BodyAt(c, base, part, stream + [b], o.s)
  {
    if s.pending == [] {
      PlainOctet(c, base, part, stream, b);
    } else if Matches(c, s, b) {
      MatchedOctet(c, base, part, stream, s, b);
    } else {
      DropPending(c, base, part, stream, s);
      PlainOctet(c, base, part, stream, b);
    }
  }

  lemma OccursInPrefix(x: string, y: string, m: string)
    requires Occurs(x, m)
    ensures Occurs(x + y, m)
  {
    var i: nat :| i <= |x| && HasAt(x, m, i);
    assert (x + y)[i..i + |m|] == x[i..i + |m|];
    assert HasAt(x + y, m, i);
  }

  /** Data free of the delimiter passes through: recorded plus pending is all of it. */
  lemma {:induction false} DataFold(c: RConfig, base: RState, part: Part, stream: string, s: RState, d: string)
    requires c.callbacks == Recorder() && BoundaryValid(c.boundary)
    requires BodyAt(c, base, part, stream, s) && Fits(c, base, |stream| + |d|)
    requires !Occurs(stream + d, Marker(c.boundary))
    ensures var o := Fold(c, s, d);
      o.status == Ok && BodyAt(c, base, part, stream + d, o.s)
    decreases |d|
  {
    if d == [] {
      assert stream + d == stream;
    } else {
      var t := stream + [d[0]];
      assert t + d[1..] == stream + d;
      if Occurs(t, Marker(c.boundary)) {
        OccursInPrefix(t, d[1..], Marker(c.boundary));
      }
      BodyOctet(c, base, part, stream, s, d[0]);
      DataFold(c, base, part, t, Step(c, s, d[0]).s, d[1..]);
    }
  }

  function AfterDelimiter(c: RConfig, base: RState, part: Part, stream: string): RState {
    base.(phase := Suffix, pending := "", suffixState := 0,
          user := base.user + [Received(part, stream, false)],
          fieldBytes := if base.currentFile then base.fieldBytes else |stream|,
          total := base.total + |stream| + |Marker(c.boundary)|)
  }

  lemma {:induction false} MatchRest(c: RConfig, s: RState, k: nat)
    requires 0 < k < |Marker(c.boundary)| && s.phase == Body && s.pending == Marker(c.boundary)[..k]
    ensures Fold(c, s, Marker(c.boundary)[k..]) ==
      Good(s.(phase := Suffix, pending := "", suffixState := 0, total := s.total + |Marker(c.boundary)| - k))
    decreases |Marker(c.boundary)| - k
  {
    var m := Marker(c.boundary);
    assert m[k..][0] == m[k] && m[k..][1..] == m[k + 1..];
    assert m[..k] + [m[k]] == m[..k + 1];
    var o := Step(c, s, m[k]);
    if k + 1 < |m| {
      MatchRest(c, o.s, k + 1);
    } else {
      assert m[k + 1..] == "";
    }
  }

  /** Whatever prefix was pending, a full delimiter is recognised. */
  lemma DelimiterFold(c: RConfig, base: RState, part: Part, stream: string, s: RState)
    requires c.callbacks == Recorder() && BoundaryValid(c.boundary)
    requires BodyAt(c, base, part, stream, s) && Fits(c, base, |stream|)
    ensures Fold(c, s, Marker(c.boundary)) == Good(AfterDelimiter(c, base, part, stream))
  {
    var m := Marker(c.boundary);
    MarkerHasNoBorder(c.boundary, |s.pending|);
    DropPending(c, base, part, stream, s);
    var t := BodyState(base, part, stream, 0);
    assert stream[..|stream|] == stream && stream[|stream|..] == "";
    var o := Step(c, s, CR);
    assert o == Good(t.(pending := [CR], total := t.total + 1));
    assert m[..1] == [CR];
    MatchRest(c, o.s, 1);
  }

  /** Data free of the delimiter, then the delimiter. */
  lemma DataThenDelimiter(c: RConfig, base: RState, part: Part, d: string)
    requires c.callbacks == Recorder() && BoundaryValid(c.boundary)
    requires !Occurs(d, Marker(c.boundary)) && Fits(c, base, |d|)
    ensures Fold(c, BodyState(base, part, "", 0), d + Marker(c.boundary)) ==
            Good(AfterDelimiter(c, base, part, d))
  {
    var s := BodyState(base, part, "", 0);
    assert "" + d == d;
    assert Marker(c.boundary)[..0] == "";
    DataFold(c, base, part, "", s, d);
    DelimiterFold(c, base, part, d, Fold(c, s, d).s);
    FoldAppend(c, s, d, Marker(c.boundary));
  }

  lemma NothingBeforeFirst(x: string, m: string, k: nat)
    requires k <= |x|
    requires forall i: nat :: i < k ==> !HasAt(x, m, i)
    requires m != []
    ensures !Occurs(x[..k], m)
  {
    forall i: nat | i <= k ensures !HasAt(x[..k], m, i) {
      if HasAt(x[..k], m, i) {
        assert x[i..i + |m|] == x[..k][i..i + |m|];
        assert HasAt(x, m, i);
        assert false;
      }
    }
  }

  /**
   The search that forgets its pending octets on a mismatch still finds the first
   delimiter: what precedes it is recorded, nothing else.
   */
  lemma FirstDelimiterFound(c: RConfig, base: RState, part: Part, x: string, k: nat)
    requires c.callbacks == Recorder() && BoundaryValid(c.boundary)
    requires HasAt(x, Marker(c.boundary), k)
    requires forall i: nat :: i < k ==> !HasAt(x, Marker(c.boundary), i)
    requires Fits(c, base, k)
    ensures Fold(c, BodyState(base, part, "", 0), x[..k + |Marker(c.boundary)|]) ==
            Good(AfterDelimiter(c, base, part, x[..k]))
  {
    var m := Marker(c.boundary);
    NothingBeforeFirst(x, m, k);
    DataThenDelimiter(c, base, part, x[..k]);
    assert x[..k + |m|] == x[..k] + m;
  }

  // --------------------------------------------------------------- header block

  /** A block the header phase collects whole: legal line ends, empty line only at the end. */
  ghost predicate Framed(l: Limits, h: string) {
    && 4 <= |h| <= l.maxHeaderBytes
    && h[|h| - 4..] == "\r\n\r\n"
    && (forall i :: 0 <= i < |h| ==> h[i] != NUL)
    && (forall i :: 0 <= i < |h| - 1 ==> (h[i] == CR <==> h[i + 1] == LF))
    && h[0] != LF && h[|h| - 1] != CR
    && (forall i :: 0 <= i < |h| - 4 ==> h[i] == CR ==> h[i + 2] != CR)
  }

  lemma HeaderOctet<U>(c: Config<U>, s: State<U>, h: string, i: nat)
    requires Framed(c.limits, h) && i + 1 < |h| && s.phase == Headers && s.header == h[..i]
    ensures Step(c, s, h[i]) == Good(s.(header := h[..i + 1], total := s.total + 1))
  {
    assert h[..i] + [h[i]] == h[..i + 1];
    if i >= 3 {
      var tail := h[..i + 1][i - 3..];
      assert tail[0] == h[i - 3] && tail[2] == h[i - 1];
      assert tail != "\r\n\r\n";
    }
  }

  lemma HeaderLast<U>(c: Config<U>, s: State<U>, h: string, part: Part)
    requires Framed(c.limits, h) && s.phase == Headers && s.header == h[..|h| - 1]
    requires ParseHeaderBlock(c.limits, h) == BlockPart(part)
    ensures Step(c, s, h[|h| - 1]) == Counted(AdmitPart(c, s.(header := h), part))
  {
    assert h[..|h| - 1] + [h[|h| - 1]] == h;
  }

  lemma {:induction false} HeaderCollect<U>(c: Config<U>, s: State<U>, h: string, i: nat)
    requires Framed(c.limits, h) && i < |h| && s.phase == Headers && s.header == h[..i]
    ensures Fold(c, s, h[i..|h| - 1]) == Good(s.(header := h[..|h| - 1], total := s.total + (|h| - 1 - i)))
    decreases |h| - i
  {
    var d := h[i..|h| - 1];
    if i + 1 < |h| {
      assert d[0] == h[i] && d[1..] == h[i + 1..|h| - 1];
      HeaderOctet(c, s, h, i);
      HeaderCollect(c, s.(header := h[..i + 1], total := s.total + 1), h, i + 1);
    }
  }

  lemma FoldOne<U>(c: Config<U>, s: State<U>, b: char)
    ensures Fold(c, s, [b]) == Step(c, s, b)
  {
    var o := Step(c, s, b);
    assert [b][1..] == "";
    if o.status == Ok {
      assert Fold(c, o.s, "") == o;
    }
  }

  /** A framed block is collected whole and handed to the header parser. */
  lemma HeaderFold<U>(c: Config<U>, s: State<U>, h: string, part: Part)
    requires Framed(c.limits, h) && s.phase == Headers && s.header == ""
    requires ParseHeaderBlock(c.limits, h) == BlockPart(part)
    ensures Fold(c, s, h) == Counted(AdmitPart(c, s.(header := h, total := s.total + |h| - 1), part))
  {
    var t := s.(header := h[..|h| - 1], total := s.total + (|h| - 1));
    assert t.(header := h) == s.(header := h, total := s.total + |h| - 1);
    assert h == h[0..|h| - 1] + [h[|h| - 1]];
    HeaderLast(c, t, h, part);
    HeaderCollected(c, s, h);
    FoldSnoc(c, s, h[0..|h| - 1], t, h[|h| - 1]);
  }

  lemma HeaderCollected<U>(c: Config<U>, s: State<U>, h: string)
    requires Framed(c.limits, h) && s.phase == Headers && s.header == ""
    ensures Fold(c, s, h[0..|h| - 1]) == Good(s.(header := h[..|h| - 1], total := s.total + (|h| - 1)))
  {
    assert h[..0] == "";
    HeaderCollect(c, s, h, 0);
  }

  lemma FoldSnoc<U>(c: Config<U>, s: State<U>, a: string, t: State<U>, b: char)
    requires Fold(c, s, a) == Good(t)
    ensures Fold(c, s, a + [b]) == Step(c, t, b)
  {
    FoldAppend(c, s, a, [b]);
    FoldOne(c, t, b);
  }

  predicate LineText(s: string) {
    s != [] && forall i :: 0 <= i < |s| ==> s[i] != CR && s[i] != LF && s[i] != NUL
  }

  lemma PrintedLine(name: string, value: string)
    requires HeaderNameValid(name) && HeaderValueValid(value)
    ensures LineText(Line(name, value))
  {
    var line := Line(name, value);
    forall i | 0 <= i < |line| ensures line[i] != CR && line[i] != LF && line[i] != NUL {
      if i < |name| {
        assert line[i] == name[i] && TokenChar(name[i]);
      } else if i >= |name| + 2 {
        assert line[i] == value[i - |name| - 2];
      }
    }
  }

  lemma FramedOne(l: Limits, a: string)
    requires LineText(a) && |a| + 4 <= l.maxHeaderBytes
    ensures Framed(l, a + CRLF + CRLF)
  {
    var h := a + CRLF + CRLF;
    assert h[|h| - 4..] == "\r\n\r\n";
    assert forall i :: 0 <= i < |a| ==> h[i] == a[i];
  }

  lemma FramedTwo(l: Limits, a: string, b: string)
    requires LineText(a) && LineText(b) && |a| + |b| + 6 <= l.maxHeaderBytes
    ensures Framed(l, a + CRLF + (b + CRLF) + CRLF)
  {
    var h := a + CRLF + (b + CRLF) + CRLF;
    assert h[|h| - 4..] == "\r\n\r\n";
    assert forall i :: 0 <= i < |a| ==> h[i] == a[i];
    assert h[|a|] == CR && h[|a| + 1] == LF;
    assert forall i :: 0 <= i < |b| ==> h[|a| + 2 + i] == b[i];
    assert forall i :: |a| + 2 <= i < |a| + 2 + |b| ==> h[i] == b[i - |a| - 2];
  }

  lemma DispositionText(l: Limits, p: Part)
    requires Printable(l, p)
    ensures LineText(Line("Content-Disposition", DispositionValue(p)))
  {
    DispositionTrimmed(l, p);
    PrintedLine("Content-Disposition", DispositionValue(p));
  }

  /** A block of one or two lines of text. */
  function BlockOf(a: string, b: Option<string>): string {
    a + CRLF + (if b.Some? then b.value + CRLF else "") + CRLF
  }

  lemma BlockFramed(l: Limits, a: string, b: Option<string>)
    requires LineText(a) && (b.Some? ==> LineText(b.value)) && |BlockOf(a, b)| <= l.maxHeaderBytes
    ensures Framed(l, BlockOf(a, b))
  {
    if b.Some? {
      FramedTwo(l, a, b.value);
    } else {
      assert BlockOf(a, b) == a + CRLF + CRLF;
      FramedOne(l, a);
    }
  }

  lemma PrintedHeaderFramed(l: Limits, p: Part)
    requires Printable(l, p)
    ensures Framed(l, PrintHeader(p))
  {
    var a := Line("Content-Disposition", DispositionValue(p));
    var b := if p.contentType.Some? then Some(Line("Content-Type", p.contentType.value)) else None;
    assert PrintHeader(p) == BlockOf(a, b);
    DispositionText(l, p);
    if p.contentType.Some? {
      PrintedLine("Content-Type", p.contentType.value);
    }
    BlockFramed(l, a, b);
  }

  // ------------------------------------------------------------------ whole body

  datatype Item = Item(part: Part, data: string)

  function Section(boundary: string, it: Item): string {
    PrintHeader(it.part) + (it.data + Marker(boundary))
  }

  function PrintParts(boundary: string, items: seq<Item>): string
    requires items != []
  {
    Section(boundary, items[0]) +
    if |items| == 1 then "--\r\n" else CRLF + PrintParts(boundary, items[1..])
  }

  /** The body section 5.1.1 of RFC 2046 gives for these parts. */
  function PrintBody(boundary: string, items: seq<Item>): string
    requires items != []
  {
    Opening(boundary) + PrintParts(boundary, items)
  }

  predicate ItemFits(l: Limits, it: Item) {
    Printable(l, it.part) && (it.part.filename.Some? || |it.data| <= l.maxFieldBytes)
  }

  ghost predicate BodyFits(c: RConfig, items: seq<Item>) {
    && ConfigValid(c) && c.callbacks == Recorder()
    && 0 < |items| <= c.limits.maxParts
    && |PrintBody(c.boundary, items)| <= c.limits.maxTotalBytes
    && forall i :: 0 <= i < |items| ==> ItemFits(c.limits, items[i])
  }

  function Complete(items: seq<Item>): seq<Received> {
    if items == [] then [] else [Received(items[0].part, items[0].data, true)] + Complete(items[1..])
  }

  /** Ready for the header block of the next part. */
  predicate AtHeaders(s: RState) {
    && s.phase == Headers && s.header == "" && s.pending == "" && s.fieldBytes == 0
    && s.suffixState == 0 && !s.currentFile
  }

  function PartBase(s: RState, part: Part): RState {
    s.(phase := Body, header := PrintHeader(part), partCount := s.partCount + 1,
       currentFile := part.filename.Some?, total := s.total + |PrintHeader(part)|)
  }

  lemma PartHeaderFold(c: RConfig, s: RState, p: Part)
    requires c.callbacks == Recorder() && Printable(c.limits, p) && AtHeaders(s) && s.partCount < c.limits.maxParts
    ensures Fold(c, s, PrintHeader(p)) == Good(BodyState(PartBase(s, p), p, "", 0))
  {
    var h := PrintHeader(p);
    PrintedHeaderFramed(c.limits, p);
    HeaderUndoesPrint(c.limits, p);
    HeaderFold(c, s, h, p);
    assert ""[..0] == "" && ""[0..] == "";
  }

  /** A printed section leaves its part recorded and the delimiter just read. */
  lemma SectionFold(c: RConfig, s: RState, it: Item)
    requires c.callbacks == Recorder() && BoundaryValid(c.boundary) && ItemFits(c.limits, it)
    requires AtHeaders(s) && s.partCount < c.limits.maxParts && !Occurs(it.data, Marker(c.boundary))
    ensures Fold(c, s, Section(c.boundary, it)) ==
            Good(AfterDelimiter(c, PartBase(s, it.part), it.part, it.data))
  {
    var base := PartBase(s, it.part);
    PartHeaderFold(c, s, it.part);
    DataThenDelimiter(c, base, it.part, it.data);
    FoldAppend(c, s, PrintHeader(it.part), it.data + Marker(c.boundary));
  }

  lemma SuffixEnds(c: RConfig, s: RState, u: seq<Received>, r: Received)
    requires c.callbacks == Recorder() && s.phase == Suffix && s.suffixState == 0 && s.user == u + [r]
    ensures var o := Fold(c, s, CRLF);
      && o.status == Ok
      && o.s == s.(phase := Headers, header := "", pending := "", fieldBytes := 0, suffixState := 0,
                   currentFile := false, total := s.total + 2, user := u + [r.(ended := true)])
    ensures var o := Fold(c, s, "--\r\n");
      o.status == Ok && o.s.phase == Done && o.s.user == u + [r.(ended := true)]
  {
    assert s.user[..|s.user| - 1] == u;
    var e := u + [r.(ended := true)];
    assert RecordEnd(s.user) == Reply(true, e);
    var s1 := s.(suffixState := 1, total := s.total + 1);
    FoldTwo(c, s, CR, LF);
    assert Step(c, s, CR) == Good(s1);
    assert CRLF == [CR, LF];
    var t2 := s.(suffixState := 2, total := s.total + 1);
    var t3 := s.(suffixState := 3, total := s.total + 2);
    FoldTwo(c, s, '-', '-');
    assert Step(c, s, '-') == Good(t2) && Step(c, t2, '-') == Good(t3);
    FoldTwo(c, t3, CR, LF);
    FoldAppend(c, s, ['-', '-'], [CR, LF]);
    assert "--\r\n" == ['-', '-'] + [CR, LF];
  }

  lemma FoldTwo<U>(c: Config<U>, s: State<U>, a: char, b: char)
    ensures Fold(c, s, [a, b]) == var o := Step(c, s, a); if o.status != Ok then o else Step(c, o.s, b)
  {
    FoldOne(c, s, a);
    FoldAppend(c, s, [a], [b]);
    assert [a, b] == [a] + [b];
    var o := Step(c, s, a);
    if o.status == Ok { FoldOne(c, o.s, b); }
  }

  /** The parser once a section and the CR LF after it are read. */
  function NextPart(boundary: string, s: RState, it: Item): RState {
    s.(user := s.user + [Received(it.part, it.data, true)], partCount := s.partCount + 1,
       total := s.total + |Section(boundary, it)| + 2)
  }

  lemma SectionThenSuffix(c: RConfig, s: RState, it: Item)
    requires c.callbacks == Recorder() && BoundaryValid(c.boundary) && ItemFits(c.limits, it)
    requires AtHeaders(s) && s.partCount < c.limits.maxParts && !Occurs(it.data, Marker(c.boundary))
    ensures Fold(c, s, Section(c.boundary, it) + CRLF) == Good(NextPart(c.boundary, s, it))
    ensures var o := Fold(c, s, Section(c.boundary, it) + "--\r\n");
      o.status == Ok && o.s.phase == Done && o.s.user == s.user + [Received(it.part, it.data, true)]
  {
    SectionFold(c, s, it);
    var t := AfterDelimiter(c, PartBase(s, it.part), it.part, it.data);
    SuffixEnds(c, t, s.user, Received(it.part, it.data, false));
    FoldAppend(c, s, Section(c.boundary, it), CRLF);
    FoldAppend(c, s, Section(c.boundary, it), "--\r\n");
  }

  lemma CompleteCons(u: seq<Received>, items: seq<Item>)
    requires items != []
    ensures (u + [Received(items[0].part, items[0].data, true)]) + Complete(items[1..]) == u + Complete(items)
  {
  }

  lemma PrintPartsCons(boundary: string, items: seq<Item>)
    requires |items| > 1
    ensures PrintParts(boundary, items) == (Section(boundary, items[0]) + CRLF) + PrintParts(boundary, items[1..])
  {
  }

  ghost predicate ItemReadable(c: RConfig, it: Item) {
    ItemFits(c.limits, it) && !Occurs(it.data, Marker(c.boundary))
  }

  lemma {:induction false} PartsFold(c: RConfig, s: RState, items: seq<Item>)
    requires c.callbacks == Recorder() && BoundaryValid(c.boundary) && AtHeaders(s)
    requires 0 < |items| && s.partCount + |items| <= c.limits.maxParts
    requires forall i :: 0 <= i < |items| ==> ItemReadable(c, items[i])
    ensures var o := Fold(c, s, PrintParts(c.boundary, items));
      o.status == Ok && o.s.phase == Done && o.s.user == s.user + Complete(items)
    decreases |items|
  {
    CompleteCons(s.user, items);
    if |items| == 1 {
      SectionThenSuffix(c, s, items[0]);
      assert Complete(items[1..]) == [];
    } else {
      var next := PartsNext(c, s, items);
      PartsFold(c, next, items[1..]);
    }
  }

  lemma {:induction false} OpeningFold<U>(c: Config<U>, s: State<U>, i: nat)
    requires s.phase == Initial && s.initialIndex == i < |Opening(c.boundary)|
    ensures Fold(c, s, Opening(c.boundary)[i..]) ==
      Good(s.(phase := Headers, initialIndex := 0, total := s.total + |Opening(c.boundary)| - i))
    decreases |Opening(c.boundary)| - i
  {
    var p := Opening(c.boundary);
    assert p[i..][0] == p[i] && p[i..][1..] == p[i + 1..];
    var o := Step(c, s, p[i]);
    if i + 1 < |p| {
      OpeningFold(c, o.s, i + 1);
    } else {
      assert p[i + 1..] == "";
    }
  }

  ghost predicate NoDelimiterInData(boundary: string, items: seq<Item>) {
    forall i :: 0 <= i < |items| ==> !Occurs(items[i].data, Marker(boundary))
  }

  lemma BodyFold(c: RConfig, items: seq<Item>)
    requires BodyFits(c, items) && NoDelimiterInData(c.boundary, items)
    ensures var o := Fold(c, Start([]), PrintBody(c.boundary, items));
      o.status == Ok && o.s.phase == Done && o.s.user == Complete(items)
  {
    var s := Start<seq<Received>>([]);
    var p := Opening(c.boundary);
    assert p[0..] == p;
    OpeningFold(c, s, 0);
    FoldAppend(c, s, p, PrintParts(c.boundary, items));
    var t := Fold(c, s, p).s;
    assert forall i :: 0 <= i < |items| ==> ItemReadable(c, items[i]);
    PartsFold(c, t, items);
    assert t.user + Complete(items) == Complete(items);
  }

  /** Under every chunking, a printed body is read back as exactly its parts. */
  lemma RoundTrip(c: RConfig, items: seq<Item>, chunks: seq<string>)
    requires BodyFits(c, items) && NoDelimiterInData(c.boundary, items)
    requires Concat(chunks) == PrintBody(c.boundary, items)
    ensures var o := ParseChunks(c, Start([]), chunks);
      o.status == Ok && o.s.user == Complete(items)
  {
    RecorderSplits();
    BodyFold(c, items);
    ChunksAreFold(c, Start([]), chunks);
  }

  // -------------------------------------------------- the condition is exact

  /** Record `n` holds `x` and is no longer the part being received. */
  ghost predicate Settled(s: RState, n: nat, x: string) {
    n < |s.user| && s.user[n].data == x && (s.phase == Body ==> n < |s.user| - 1)
  }

  lemma EmitKeepsSettled(c: RConfig, s: RState, d: string, n: nat, x: string)
    requires c.callbacks == Recorder() && s.phase == Body && Settled(s, n, x)
    ensures Settled(Emit(c, s, d).s, n, x)
    ensures Emit(c, s, d).status == Ok ==> Emit(c, s, d).s.phase == Body
  {
  }

  lemma BodyKeepsSettled(c: RConfig, s: RState, b: char, n: nat, x: string)
    requires c.callbacks == Recorder() && s.phase == Body && Settled(s, n, x)
    ensures Settled(Step(c, s, b).s, n, x)
  {
    EmitKeepsSettled(c, s, [b], n, x);
    EmitKeepsSettled(c, s, s.pending, n, x);
    var o := Emit(c, s, s.pending);
    if o.status == Ok {
      EmitKeepsSettled(c, o.s.(pending := ""), [b], n, x);
    }
  }

  lemma SuffixKeepsSettled(c: RConfig, s: RState, b: char, n: nat, x: string)
    requires c.callbacks == Recorder() && s.phase == Suffix && Settled(s, n, x)
    ensures Settled(SuffixByte(c, s, b).s, n, x)
  {
    assert Settled(EndPart(c, s.(suffixState := 0), false).s, n, x);
    assert Settled(EndPart(c, s.(suffixState := 0), true).s, n, x);
  }

  lemma StepKeepsSettled(c: RConfig, s: RState, b: char, n: nat, x: string)
    requires c.callbacks == Recorder() && Settled(s, n, x)
    ensures Settled(Step(c, s, b).s, n, x)
  {
    match s.phase
    case Headers => HeaderKeepsSettled(c, s, b, n, x);
    case Body => BodyKeepsSettled(c, s, b, n, x);
    case Suffix => SuffixKeepsSettled(c, s, b, n, x);
    case _ =>
  }

  lemma HeaderKeepsSettled(c: RConfig, s: RState, b: char, n: nat, x: string)
    requires c.callbacks == Recorder() && s.phase == Headers && Settled(s, n, x)
    ensures Settled(Step(c, s, b).s, n, x)
  {
    var t := s.(header := s.header + [b]);
    var r := HeaderByte(c, s, b);
    assert r == Fail(s, Malformed) || r == Fail(s, Capacity) || r == Good(t) || r == BeginPart(c, t);
    assert Step(c, s, b) == Counted(r);
    BeginKeepsSettled(c, t, n, x);
  }

  lemma BeginKeepsSettled(c: RConfig, s: RState, n: nat, x: string)
    requires c.callbacks == Recorder() && Settled(s, n, x)
    ensures Settled(BeginPart(c, s).s, n, x)
  {
  }

  lemma {:induction false} FoldKeepsSettled(c: RConfig, s: RState, d: string, n: nat, x: string)
    requires c.callbacks == Recorder() && Settled(s, n, x)
    ensures Settled(Fold(c, s, d).s, n, x)
    decreases |d|
  {
    if d != [] {
      StepKeepsSettled(c, s, d[0], n, x);
      FoldKeepsSettled(c, Step(c, s, d[0]).s, d[1..], n, x);
    }
  }

  lemma LeastOccurrence(x: string, m: string) returns (k: nat)
    requires Occurs(x, m)
    ensures HasAt(x, m, k) && forall i: nat :: i < k ==> !HasAt(x, m, i)
  {
    k := 0;
    while !HasAt(x, m, k)
      invariant k <= |x|
      invariant forall i: nat :: i < k ==> !HasAt(x, m, i)
      decreases |x| - k
    {
      k := k + 1;
    }
  }

  /** Data containing the delimiter is cut at its first occurrence for good. */
  lemma DataCut(c: RConfig, base: RState, part: Part, d: string, tail: string)
    requires c.callbacks == Recorder() && BoundaryValid(c.boundary)
    requires Occurs(d, Marker(c.boundary)) && Fits(c, base, |d|)
    ensures var u := Fold(c, BodyState(base, part, "", 0), d + tail).s.user;
      |base.user| < |u| && |u[|base.user|].data| < |d|
  {
    var m := Marker(c.boundary);
    var k := LeastOccurrence(d, m);
    var cut := d[..k + |m|];
    var rest := d[k + |m|..] + tail;
    FirstDelimiterFound(c, base, part, d, k);
    assert d + tail == cut + rest;
    FoldAppend(c, BodyState(base, part, "", 0), cut, rest);
    var after := AfterDelimiter(c, base, part, d[..k]);
    assert Settled(after, |base.user|, d[..k]);
    FoldKeepsSettled(c, after, rest, |base.user|, d[..k]);
  }

  lemma SectionCut(c: RConfig, s: RState, it: Item, tail: string)
    requires c.callbacks == Recorder() && BoundaryValid(c.boundary) && ItemFits(c.limits, it)
    requires AtHeaders(s) && s.partCount < c.limits.maxParts && Occurs(it.data, Marker(c.boundary))
    ensures var u := Fold(c, s, PrintHeader(it.part) + (it.data + tail)).s.user;
      |s.user| < |u| && |u[|s.user|].data| < |it.data|
  {
    PartHeaderFold(c, s, it.part);
    DataCut(c, PartBase(s, it.part), it.part, it.data, tail);
    FoldAppend(c, s, PrintHeader(it.part), it.data + tail);
  }

  lemma {:induction false} CompleteAt(items: seq<Item>, i: nat)
    requires i < |items|
    ensures |Complete(items)| == |items| && Complete(items)[i].data == items[i].data
  {
    if |items| > 1 {
      CompleteAt(items[1..], if i == 0 then 0 else i - 1);
    }
  }

  lemma {:induction false} PartsCut(c: RConfig, s: RState, items: seq<Item>, bad: nat)
    requires c.callbacks == Recorder() && BoundaryValid(c.boundary) && AtHeaders(s)
    requires 0 < |items| && s.partCount + |items| <= c.limits.maxParts
    requires forall i :: 0 <= i < |items| ==> ItemFits(c.limits, items[i])
    requires bad < |items| && Occurs(items[bad].data, Marker(c.boundary))
    ensures Fold(c, s, PrintParts(c.boundary, items)).s.user != s.user + Complete(items)
    decreases |items|
  {
    CompleteCons(s.user, items);
    CompleteAt(items, 0);
    if Occurs(items[0].data, Marker(c.boundary)) {
      PartsCutFirst(c, s, items);
    } else {
      var next := PartsNext(c, s, items);
      PartsCut(c, next, items[1..], bad - 1);
    }
  }

  /** The first part is read whole, and the parser stands before the next. */
  lemma PartsNext(c: RConfig, s: RState, items: seq<Item>) returns (next: RState)
    requires c.callbacks == Recorder() && BoundaryValid(c.boundary) && AtHeaders(s)
    requires 1 < |items| && s.partCount < c.limits.maxParts && ItemFits(c.limits, items[0])
    requires !Occurs(items[0].data, Marker(c.boundary))
    ensures AtHeaders(next) && next.partCount == s.partCount + 1 && next.user == s.user + [Received(items[0].part, items[0].data, true)]
    ensures Fold(c, s, PrintParts(c.boundary, items)) == Fold(c, next, PrintParts(c.boundary, items[1..]))
  {
    PrintPartsCons(c.boundary, items);
    SectionThenSuffix(c, s, items[0]);
    next := NextPart(c.boundary, s, items[0]);
    FoldAppend(c, s, Section(c.boundary, items[0]) + CRLF, PrintParts(c.boundary, items[1..]));
  }

  lemma PrintPartsTail(boundary: string, items: seq<Item>) returns (tail: string)
    requires 0 < |items|
    ensures PrintParts(boundary, items) == PrintHeader(items[0].part) + (items[0].data + tail)
  {
    var end := if |items| == 1 then "--\r\n" else CRLF + PrintParts(boundary, items[1..]);
    tail := Marker(boundary) + end;
    var h, d, m := PrintHeader(items[0].part), items[0].data, Marker(boundary);
    assert (h + (d + m)) + end == h + (d + (m + end));
  }

  lemma PartsCutFirst(c: RConfig, s: RState, items: seq<Item>)
    requires c.callbacks == Recorder() && BoundaryValid(c.boundary) && AtHeaders(s)
    requires 0 < |items| && s.partCount < c.limits.maxParts && ItemFits(c.limits, items[0])
    requires Occurs(items[0].data, Marker(c.boundary))
    ensures Fold(c, s, PrintParts(c.boundary, items)).s.user != s.user + Complete(items)
  {
    var tail := PrintPartsTail(c.boundary, items);
    SectionCut(c, s, items[0], tail);
    CompleteAt(items, 0);
    assert (s.user + Complete(items))[|s.user|] == Complete(items)[0];
  }

  lemma BodyCut(c: RConfig, items: seq<Item>)
    requires BodyFits(c, items) && !NoDelimiterInData(c.boundary, items)
    ensures Fold(c, Start([]), PrintBody(c.boundary, items)).s.user != Complete(items)
  {
    var bad :| 0 <= bad < |items| && Occurs(items[bad].data, Marker(c.boundary));
    var s := Start<seq<Received>>([]);
    var p := Opening(c.boundary);
    assert p[0..] == p;
    OpeningFold(c, s, 0);
    FoldAppend(c, s, p, PrintParts(c.boundary, items));
    var t := Fold(c, s, p).s;
    PartsCut(c, t, items, bad);
    assert t.user + Complete(items) == Complete(items);
  }

  /**
   For parts within the limits, every chunking of the printed body reads back as
   exactly those parts if and only if no part's data contains the delimiter.
   */
  lemma RoundTripExactly(c: RConfig, items: seq<Item>, chunks: seq<string>)
    requires BodyFits(c, items) && Concat(chunks) == PrintBody(c.boundary, items)
    ensures var o := ParseChunks(c, Start([]), chunks);
      (o.status == Ok && o.s.user == Complete(items)) <==> NoDelimiterInData(c.boundary, items)
  {
    if NoDelimiterInData(c.boundary, items) {
      RoundTrip(c, items, chunks);
    } else {
      RecorderSplits();
      BodyCut(c, items);
      ChunksAreFold(c, Start([]), chunks);
    }
  }
}
