/**
 The HTTP/2 response of one request, as the protocol engine's callbacks build it:
 header blocks, informational responses, the final block, data, trailers, and the
 verdict when the stream closes.
 */
module H2Response {
  import opened Octets

  const FIELD_OVERHEAD: nat := 32
  const SIZE_MAX: nat := 0xFFFF_FFFF_FFFF_FFFF

  datatype Field = Field(name: string, value: string)

  datatype Limits = Limits(maxCount: nat, maxBytes: nat, maxBody: nat, maxInfos: nat)

  /** chttp_h2_request_prepare: the text storage of the response headers. */
  function Capacity(l: Limits): nat {
    l.maxBytes + 2 * l.maxCount + 1
  }

  datatype Response = Response(
    head: bool,
    blockOpen: bool,
    regularSeen: bool,
    statusSeen: bool,
    trailers: bool,
    final: bool,
    current: nat,
    status: nat,
    infos: nat,
    fields: seq<Field>,
    listBytes: nat,
    used: nat,
    lengthSeen: bool,
    length: nat,
    body: string)

  function Fresh(head: bool): Response {
    Response(head, false, false, false, false, false, 0, 0, 0, [], 0, 0, false, 0, "")
  }

  datatype Event = BeginHeaders | Header(field: Field) | EndHeaders(endStream: bool) | Data(bytes: string)

  // ---------------------------------------------------------------- fields

  function DigitValue(c: char): nat
    requires Digit(c)
  {
    (c - '0') as nat
  }

  /** chttp_h2_response_status */
  function StatusCode(v: string): Option<nat> {
    if |v| == 3 && '1' <= v[0] <= '9' && Digit(v[1]) && Digit(v[2])
    then Some(DigitValue(v[0]) * 100 + DigitValue(v[1]) * 10 + DigitValue(v[2]))
    else None
  }

  /** chttp_h2_decimal_size */
  function DecimalFrom(v: string, n: nat): Option<nat> {
    if v == [] then Some(n)
    else if !Digit(v[0]) || n * 10 + DigitValue(v[0]) > SIZE_MAX then None
    else DecimalFrom(v[1..], n * 10 + DigitValue(v[0]))
  }

  function Decimal(v: string): Option<nat> {
    if v == [] then None else DecimalFrom(v, 0)
  }

  predicate NameValid(n: string) {
    forall i :: 0 <= i < |n| ==> TokenChar(n[i]) && !('A' <= n[i] <= 'Z')
  }

  predicate Blank(c: char) {
    c == ' ' || c == '\t'
  }

  predicate ValueValid(v: string) {
    && (v != [] ==> !Blank(v[0]) && !Blank(v[|v| - 1]))
    && forall i :: 0 <= i < |v| ==> (v[i] >= ' ' || v[i] == '\t') && v[i] != DEL
  }

  /** Fields that belong to one connection only, section 8.2.2 of RFC 9113. */
  const CONNECTION_FIELDS: seq<string> := ["connection", "proxy-connection", "keep-alive", "te", "transfer-encoding", "upgrade"]
  const CONTENT_LENGTH := "content-length"

  predicate Pseudo(f: Field) {
    f.name != [] && f.name[0] == ':'
  }

  predicate LengthAcceptable(r: Response, f: Field) {
    f.name == CONTENT_LENGTH ==>
      && !r.trailers && Decimal(f.value).Some?
      && (r.lengthSeen ==> r.length == Decimal(f.value).value)
  }

  function Size(f: Field): nat {
    |f.name| + |f.value| + FIELD_OVERHEAD
  }

  function Stored(f: Field): nat {
    |f.name| + |f.value| + 2
  }

  // ---------------------------------------------------------------- callbacks

  /** chttp_h2_on_begin_headers */
  function OnBegin(r: Response): Option<Response> {
    if r.blockOpen then None
    else Some(r.(blockOpen := true, regularSeen := false, statusSeen := false, current := 0, trailers := r.final))
  }

  function OnPseudo(r: Response, f: Field): Option<Response> {
    if r.trailers || r.regularSeen || r.statusSeen || !IEq(f.name, ":status") || StatusCode(f.value).None? then None
    else Some(r.(statusSeen := true, current := StatusCode(f.value).value))
  }

  predicate Admissible(r: Response, f: Field) {
    NameValid(f.name) && ValueValid(f.value) && f.name !in CONNECTION_FIELDS && LengthAcceptable(r, f)
  }

  predicate FitsList(l: Limits, r: Response, f: Field) {
    |r.fields| < l.maxCount && r.listBytes + Size(f) <= l.maxBytes
  }

  predicate FitsStorage(l: Limits, r: Response, f: Field) {
    Stored(f) <= Capacity(l) - r.used
  }

  function NoteLength(r: Response, f: Field): Response {
    if f.name == CONTENT_LENGTH && Decimal(f.value).Some?
    then r.(lengthSeen := true, length := Decimal(f.value).value) else r
  }

  function Keep(r: Response, f: Field): Response {
    r.(regularSeen := true, fields := r.fields + [f], listBytes := r.listBytes + Size(f), used := r.used + Stored(f))
  }

  function Store(r: Response, f: Field): Response {
    Keep(NoteLength(r, f), f)
  }

  /** chttp_h2_on_header */
  function OnHeader(l: Limits, r: Response, f: Field): Option<Response> {
    if !r.blockOpen || f.name == [] then None
    else if Pseudo(f) then OnPseudo(r, f)
    else if !Admissible(r, f) || !FitsList(l, r, f) || !FitsStorage(l, r, f) then None
    else Some(Store(r, f))
  }

  /** An informational block leaves nothing behind. */
  function Forget(r: Response): Response {
    r.(infos := r.infos + 1, fields := [], listBytes := 0, used := 0, lengthSeen := false, length := 0)
  }

  /** chttp_h2_on_end_headers */
  function OnEnd(l: Limits, r: Response, endStream: bool): Option<Response> {
    var c := r.(blockOpen := false);
    if !r.blockOpen then None
    else if r.trailers then if r.statusSeen || !endStream then None else Some(c)
    else if !r.statusSeen then None
    else if r.current < 200 then
      if endStream || r.current == 101 || r.infos >= l.maxInfos then None else Some(Forget(c))
    else Some(c.(status := r.current, final := true))
  }

  predicate Bodyless(r: Response) {
    r.head || r.status == 204 || r.status == 304
  }

  /** chttp_h2_on_data; a body over its limit resets the stream. */
  function OnData(l: Limits, r: Response, d: string): Option<Response> {
    if !r.final || (Bodyless(r) && d != []) || |r.body| + |d| > l.maxBody then None
    else Some(r.(body := r.body + d))
  }

  function Step(l: Limits, r: Response, e: Event): Option<Response> {
    match e
    case BeginHeaders => OnBegin(r)
    case Header(f) => OnHeader(l, r, f)
    case EndHeaders(end) => OnEnd(l, r, end)
    case Data(d) => OnData(l, r, d)
  }

  /** A run of events that were all accepted. */
  function Feed(l: Limits, r: Response, events: seq<Event>): Option<Response>
    decreases |events|
  {
    if events == [] then Some(r)
    else
      var next := Step(l, r, events[0]);
      if next.None? then None else Feed(l, next.value, events[1..])
  }

  /** chttp_h2_on_stream_close: the response succeeds. */
  predicate Succeeds(r: Response, error: nat) {
    error == 0 && r.final && (!r.lengthSeen || Bodyless(r) || r.length == |r.body|)
  }

  lemma {:induction false} FeedAppend(l: Limits, r: Response, a: seq<Event>, b: seq<Event>)
    ensures Feed(l, r, a + b) == if Feed(l, r, a).None? then None else Feed(l, Feed(l, r, a).value, b)
    decreases |a|
  {
    if a == [] {
      assert a + b == b;
    } else {
      assert (a + b)[1..] == a[1..] + b;
      var next := Step(l, r, a[0]);
      if next.Some? {
        FeedAppend(l, next.value, a[1..], b);
      }
    }
  }

  // ---------------------------------------------------------------- what every response keeps

  function ListSize(fields: seq<Field>): nat {
    if fields == [] then 0 else ListSize(fields[..|fields| - 1]) + Size(fields[|fields| - 1])
  }

  function StoredSize(fields: seq<Field>): nat {
    if fields == [] then 0 else StoredSize(fields[..|fields| - 1]) + Stored(fields[|fields| - 1])
  }

  predicate LengthsAgree(fields: seq<Field>, seen: bool, length: nat) {
    && (seen <==> exists i :: 0 <= i < |fields| && fields[i].name == CONTENT_LENGTH)
    && (forall i :: 0 <= i < |fields| && fields[i].name == CONTENT_LENGTH ==> Decimal(fields[i].value) == Some(length))
  }

  /** The sizes are those of the fields held, within their limits, and the length is theirs. */
  ghost predicate Sound(l: Limits, r: Response) {
    && |r.fields| <= l.maxCount
    && r.listBytes == ListSize(r.fields) <= l.maxBytes
    && r.used == StoredSize(r.fields)
    && r.infos <= l.maxInfos
    && |r.body| <= l.maxBody
    && LengthsAgree(r.fields, r.lengthSeen, r.length)
    && (r.blockOpen ==> r.trailers == r.final)
    && (Bodyless(r) && r.final ==> r.body == "")
    && (!r.final ==> r.body == "")
  }

  lemma {:induction false} StoredWithinList(fields: seq<Field>)
    ensures StoredSize(fields) + 30 * |fields| == ListSize(fields)
  {
    if fields != [] {
      StoredWithinList(fields[..|fields| - 1]);
    }
  }

  /** When the list limits admit a field, its text always fits the storage. */
  lemma StorageNeverRunsOut(l: Limits, r: Response, f: Field)
    requires Sound(l, r) && FitsList(l, r, f)
    ensures FitsStorage(l, r, f)
  {
    StoredWithinList(r.fields);
  }

  lemma StoreSound(l: Limits, r: Response, f: Field)
    requires Sound(l, r) && FitsList(l, r, f) && LengthAcceptable(r, f)
    ensures Sound(l, Store(r, f))
  {
    var s := Store(r, f);
    assert s.fields[..|s.fields| - 1] == r.fields;
    assert s.fields[|r.fields|] == f;
    if s.lengthSeen && f.name != CONTENT_LENGTH {
      var i :| 0 <= i < |r.fields| && r.fields[i].name == CONTENT_LENGTH;
      assert s.fields[i] == r.fields[i];
    }
  }

  lemma StepSound(l: Limits, r: Response, e: Event)
    requires Sound(l, r) && Step(l, r, e).Some?
    ensures Sound(l, Step(l, r, e).value)
  {
    if e.Header? && !Pseudo(e.field) {
      StoreSound(l, r, e.field);
    }
  }

  lemma {:induction false} FeedSound(l: Limits, r: Response, events: seq<Event>)
    requires Sound(l, r) && Feed(l, r, events).Some?
    ensures Sound(l, Feed(l, r, events).value)
    decreases |events|
  {
    if events != [] {
      StepSound(l, r, events[0]);
      FeedSound(l, Step(l, r, events[0]).value, events[1..]);
    }
  }

  /** Whatever was accepted, the sizes, limits and length of the response are those of its fields. */
  lemma ResponseSound(l: Limits, head: bool, events: seq<Event>)
    requires Feed(l, Fresh(head), events).Some?
    ensures Sound(l, Feed(l, Fresh(head), events).value)
  {
    FeedSound(l, Fresh(head), events);
  }

  /** A response that succeeds obeys the content-length rule of section 8.1.1 of RFC 9113. */
  lemma SuccessMeetsLength(l: Limits, head: bool, events: seq<Event>, error: nat, i: nat)
    requires Feed(l, Fresh(head), events).Some? && Succeeds(Feed(l, Fresh(head), events).value, error)
    ensures var r := Feed(l, Fresh(head), events).value;
      i < |r.fields| && r.fields[i].name == CONTENT_LENGTH ==>
        if Bodyless(r) then r.body == "" else Decimal(r.fields[i].value) == Some(|r.body|)
  {
    ResponseSound(l, head, events);
  }

  // ---------------------------------------------------------------- the shape of a message

  /** Section 8.1 of RFC 9113: informational blocks, the final block, data, trailers. */
  datatype Shape = AtStart | InHeading(status: Option<nat>, regular: bool) | AtBody | InTrailer | AtEnd | Broken

  function NextShape(q: Shape, e: Event): Shape {
    match q
    case AtStart => if e.BeginHeaders? then InHeading(None, false) else Broken
    case InHeading(status, regular) =>
      if e.Header? && !Pseudo(e.field) then InHeading(status, true)
      else if e.Header? then
        if status.None? && !regular && IEq(e.field.name, ":status") && StatusCode(e.field.value).Some?
        then InHeading(StatusCode(e.field.value), false) else Broken
      else if e.EndHeaders? && status.Some? then
        if status.value >= 200 then if e.endStream then AtEnd else AtBody
        else if e.endStream || status.value == 101 then Broken else AtStart
      else Broken
    case AtBody => if e.Data? then AtBody else if e.BeginHeaders? then InTrailer else Broken
    case InTrailer =>
      if e.Header? && !Pseudo(e.field) then InTrailer
      else if e.EndHeaders? && e.endStream then AtEnd else Broken
    case _ => Broken
  }

  function ShapeOf(events: seq<Event>): Shape {
    if events == [] then AtStart else NextShape(ShapeOf(events[..|events| - 1]), events[|events| - 1])
  }

  /** What a protocol engine owes its callbacks: blocks are not torn, and nothing follows the end of the stream. */
  datatype Order = Outside | Inside | Over | Disorder

  function NextOrder(o: Order, e: Event): Order {
    if o == Outside && e.BeginHeaders? then Inside
    else if o == Outside && e.Data? then Outside
    else if o == Inside && e.Header? then Inside
    else if o == Inside && e.EndHeaders? then if e.endStream then Over else Outside
    else Disorder
  }

  function OrderOf(events: seq<Event>): Order {
    if events == [] then Outside else NextOrder(OrderOf(events[..|events| - 1]), events[|events| - 1])
  }

  predicate Matches(r: Response, q: Shape, o: Order) {
    match q
    case AtStart => !r.blockOpen && !r.final && o == Outside
    case InHeading(status, regular) =>
      && r.blockOpen && !r.trailers && !r.final && o == Inside && r.regularSeen == regular
      && r.statusSeen == status.Some? && (status.Some? ==> r.current == status.value)
    case AtBody => !r.blockOpen && r.final && o == Outside
    case InTrailer => r.blockOpen && r.trailers && r.final && !r.statusSeen && o == Inside
    case AtEnd => !r.blockOpen && r.final && o == Over
    case Broken => o == Disorder
  }

  lemma StepMatches(l: Limits, r: Response, q: Shape, o: Order, e: Event)
    requires Matches(r, q, o) && Step(l, r, e).Some?
    ensures Matches(Step(l, r, e).value, NextShape(q, e), NextOrder(o, e))
  {
  }

  lemma {:induction false} FeedMatches(l: Limits, head: bool, events: seq<Event>)
    requires Feed(l, Fresh(head), events).Some?
    ensures Matches(Feed(l, Fresh(head), events).value, ShapeOf(events), OrderOf(events))
  {
    if events != [] {
      var n := |events| - 1;
      assert events == events[..n] + [events[n]];
      FeedAppend(l, Fresh(head), events[..n], [events[n]]);
      FeedMatches(l, head, events[..n]);
      var r := Feed(l, Fresh(head), events[..n]).value;
      FeedOne(l, r, events[n]);
      StepMatches(l, r, ShapeOf(events[..n]), OrderOf(events[..n]), events[n]);
    }
  }

  lemma FeedOne(l: Limits, r: Response, e: Event)
    ensures Feed(l, r, [e]) == Step(l, r, e)
  {
    assert [e][1..] == [];
  }

  /** An accepted run has the shape of a message exactly when the engine kept its order. */
  lemma ShapedIffOrdered(l: Limits, head: bool, events: seq<Event>)
    requires Feed(l, Fresh(head), events).Some?
    ensures ShapeOf(events) != Broken <==> OrderOf(events) != Disorder
  {
    FeedMatches(l, head, events);
  }

  /** Data inside an open trailer block is accepted: the callbacks leave that to the engine. */
  lemma TornBlockAccepted(l: Limits, head: bool)
    requires l.maxBody >= 1 && !head
    ensures exists events :: Feed(l, Fresh(head), events).Some? && ShapeOf(events) == Broken
  {
    var f := Field(":status", "200");
    var a, b, c, d, e := BeginHeaders, Header(f), EndHeaders(false), BeginHeaders, Data("x");
    var r0 := Fresh(head);
    assert StatusCode(f.value) == Some(200);
    var r1 := OnBegin(r0).value;
    var r2 := OnHeader(l, r1, f).value;
    var r3 := OnEnd(l, r2, false).value;
    var r4 := OnBegin(r3).value;
    assert OnData(l, r4, "x").Some?;
    assert Feed(l, r4, [e]) == OnData(l, r4, "x") by { FeedOne(l, r4, e); }
    assert [d, e][1..] == [e] && [c, d, e][1..] == [d, e] && [b, c, d, e][1..] == [c, d, e] && [a, b, c, d, e][1..] == [b, c, d, e];
    assert Feed(l, r3, [d, e]).Some?;
    assert Feed(l, r2, [c, d, e]).Some?;
    assert Feed(l, r1, [b, c, d, e]).Some?;
    var events := [a, b, c, d, e];
    assert Feed(l, r0, events).Some?;
    FeedMatches(l, head, events);
    assert events[..4] == [a, b, c, d] && events[..4][..3] == [a, b, c] && events[..4][..3][..2] == [a, b];
    assert OrderOf([a]) == Inside by { assert [a][..0] == []; }
    assert OrderOf([a, b]) == Inside by { assert [a, b][..1] == [a]; }
    assert OrderOf([a, b, c]) == Outside;
    assert OrderOf([a, b, c, d]) == Inside;
    assert OrderOf(events) == Disorder;
  }

  // ---------------------------------------------------------------- the headers delivered

  function Headers(fs: seq<Field>): seq<Event> {
    seq(|fs|, i requires 0 <= i < |fs| => Header(fs[i]))
  }

  function Regular(fs: seq<Field>): seq<Field> {
    if fs == [] then [] else (if Pseudo(fs[0]) then [] else [fs[0]]) + Regular(fs[1..])
  }

  /** The status a header block carries. */
  function StatusIn(fs: seq<Field>): Option<nat> {
    if fs == [] then None else if Pseudo(fs[0]) then StatusCode(fs[0].value) else StatusIn(fs[1..])
  }

  /** What the fields of a block, accepted one after the other, make of an open response. */
  predicate Grown(r: Response, s: Response, fs: seq<Field>) {
    && s.blockOpen && s.fields == r.fields + Regular(fs)
    && s.trailers == r.trailers && s.final == r.final && s.body == r.body && s.status == r.status && s.infos == r.infos
    && s.statusSeen == (r.statusSeen || StatusIn(fs).Some?)
    && s.current == (if r.statusSeen || StatusIn(fs).None? then r.current else StatusIn(fs).value)
  }

  lemma HeaderGrows(l: Limits, r: Response, f: Field)
    requires r.blockOpen && OnHeader(l, r, f).Some?
    ensures Grown(r, OnHeader(l, r, f).value, [f]) && (Pseudo(f) ==> !r.statusSeen && StatusCode(f.value).Some?)
  {
    assert [f][1..] == [] && Regular([f][1..]) == [];
    assert StatusIn([f]) == if Pseudo(f) then StatusCode(f.value) else None;
  }

  lemma GrownCons(r: Response, s: Response, t: Response, fs: seq<Field>)
    requires fs != [] && Grown(r, s, [fs[0]]) && Grown(s, t, fs[1..])
    requires Pseudo(fs[0]) ==> !r.statusSeen && StatusCode(fs[0].value).Some?
    ensures Grown(r, t, fs)
  {
    assert [fs[0]][1..] == [] && Regular([fs[0]][1..]) == [];
    assert StatusIn([fs[0]]) == if Pseudo(fs[0]) then StatusCode(fs[0].value) else None;
  }

  /** The fields accepted inside an open block are exactly its regular ones, in order. */
  lemma {:induction false} HeadersFed(l: Limits, r: Response, fs: seq<Field>)
    requires r.blockOpen && Feed(l, r, Headers(fs)).Some?
    ensures Grown(r, Feed(l, r, Headers(fs)).value, fs)
    decreases |fs|
  {
    if fs == [] {
      assert Headers(fs) == [];
    } else {
      assert Headers(fs)[0] == Header(fs[0]) && Headers(fs)[1..] == Headers(fs[1..]);
      var s := OnHeader(l, r, fs[0]).value;
      HeaderGrows(l, r, fs[0]);
      HeadersFed(l, s, fs[1..]);
      GrownCons(r, s, Feed(l, s, Headers(fs[1..])).value, fs);
    }
  }

  function Block(fs: seq<Field>, endStream: bool): seq<Event> {
    [BeginHeaders] + (Headers(fs) + [EndHeaders(endStream)])
  }

  /** A whole block, accepted. */
  lemma BlockFed(l: Limits, r: Response, fs: seq<Field>, endStream: bool)
    requires Feed(l, r, Block(fs, endStream)).Some?
    ensures !r.blockOpen
    ensures var s := Feed(l, r, Block(fs, endStream)).value;
      && !s.blockOpen && s.body == r.body
      && (r.final ==> s.final && s.fields == r.fields + Regular(fs) && s.status == r.status && s.infos == r.infos)
      && (!r.final ==> StatusIn(fs).Some?)
      && (!r.final && StatusIn(fs).value < 200 ==> !s.final && s.fields == [] && s.infos == r.infos + 1 && s.status == r.status)
      && (!r.final && StatusIn(fs).value >= 200 ==>
        s.final && s.fields == r.fields + Regular(fs) && s.status == StatusIn(fs).value && s.infos == r.infos)
  {
    assert Block(fs, endStream)[1..] == Headers(fs) + [EndHeaders(endStream)];
    var b := OnBegin(r).value;
    FeedAppend(l, b, Headers(fs), [EndHeaders(endStream)]);
    HeadersFed(l, b, fs);
    FeedOne(l, Feed(l, b, Headers(fs)).value, EndHeaders(endStream));
  }

  function Blocks(infos: seq<seq<Field>>): seq<Event> {
    if infos == [] then [] else Block(infos[0], false) + Blocks(infos[1..])
  }

  function Body(data: seq<string>): seq<Event> {
    if data == [] then [] else [Data(data[0])] + Body(data[1..])
  }

  predicate Informational(fs: seq<Field>) {
    StatusIn(fs).Some? && StatusIn(fs).value < 200
  }

  lemma {:induction false} BlocksFed(l: Limits, r: Response, infos: seq<seq<Field>>)
    requires !r.final && r.fields == [] && Feed(l, r, Blocks(infos)).Some?
    requires forall i :: 0 <= i < |infos| ==> Informational(infos[i])
    ensures var s := Feed(l, r, Blocks(infos)).value;
      !s.final && s.fields == [] && s.body == r.body && s.infos == r.infos + |infos|
    decreases |infos|
  {
    if infos != [] {
      FeedAppend(l, r, Block(infos[0], false), Blocks(infos[1..]));
      BlockFed(l, r, infos[0], false);
      BlocksFed(l, Feed(l, r, Block(infos[0], false)).value, infos[1..]);
    }
  }

  lemma {:induction false} BodyFed(l: Limits, r: Response, data: seq<string>)
    requires Feed(l, r, Body(data)).Some?
    ensures Feed(l, r, Body(data)).value == r.(body := r.body + Concat(data))
    decreases |data|
  {
    if data == [] {
      assert r.body + Concat(data) == r.body;
    } else {
      assert Body(data)[0] == Data(data[0]) && Body(data)[1..] == Body(data[1..]);
      BodyFed(l, OnData(l, r, data[0]).value, data[1..]);
      assert r.body + data[0] + Concat(data[1..]) == r.body + Concat(data);
    }
  }

  function Message(infos: seq<seq<Field>>, final: seq<Field>, ends: bool, data: seq<string>, trailer: seq<seq<Field>>): seq<Event> {
    Blocks(infos) + (Block(final, ends) + (Body(data) + if trailer == [] then [] else Block(trailer[0], true)))
  }

  /**
   An accepted message, whether its final block ends the stream or data and trailers
   follow, delivers the status and fields of its final block, then its
   trailers, then nothing else: informational blocks leave no trace but their count.
   */
  lemma MessageDelivered(l: Limits, head: bool, infos: seq<seq<Field>>, final: seq<Field>, ends: bool, data: seq<string>, trailer: seq<seq<Field>>)
    requires Feed(l, Fresh(head), Message(infos, final, ends, data, trailer)).Some? && |trailer| <= 1
    requires (forall i :: 0 <= i < |infos| ==> Informational(infos[i])) && !Informational(final)
    ensures var r := Feed(l, Fresh(head), Message(infos, final, ends, data, trailer)).value;
      && r.fields == Regular(final) + (if trailer == [] then [] else Regular(trailer[0]))
      && r.body == Concat(data) && StatusIn(final) == Some(r.status) && r.infos == |infos|
  {
    var rest := Block(final, ends) + (Body(data) + if trailer == [] then [] else Block(trailer[0], true));
    FeedAppend(l, Fresh(head), Blocks(infos), rest);
    BlocksFed(l, Fresh(head), infos);
    FinalDelivered(l, Feed(l, Fresh(head), Blocks(infos)).value, final, ends, data, trailer);
  }

  lemma FinalDelivered(l: Limits, a: Response, final: seq<Field>, ends: bool, data: seq<string>, trailer: seq<seq<Field>>)
    requires !a.final && a.fields == [] && a.body == "" && |trailer| <= 1 && !Informational(final)
    requires Feed(l, a, Block(final, ends) + (Body(data) + if trailer == [] then [] else Block(trailer[0], true))).Some?
    ensures var r := Feed(l, a, Block(final, ends) + (Body(data) + if trailer == [] then [] else Block(trailer[0], true))).value;
      && r.fields == Regular(final) + (if trailer == [] then [] else Regular(trailer[0]))
      && r.body == Concat(data) && StatusIn(final) == Some(r.status) && r.infos == a.infos
  {
    var rest := Body(data) + if trailer == [] then [] else Block(trailer[0], true);
    FeedAppend(l, a, Block(final, ends), rest);
    var b := Feed(l, a, Block(final, ends)).value;
    assert Feed(l, a, Block(final, ends) + rest) == Feed(l, b, rest);
    BlockFed(l, a, final, ends);
    DataDelivered(l, b, data, trailer);
    assert a.fields + Regular(final) == Regular(final) && a.body + Concat(data) == Concat(data);
  }

  lemma DataDelivered(l: Limits, b: Response, data: seq<string>, trailer: seq<seq<Field>>)
    requires b.final && |trailer| <= 1
    requires Feed(l, b, Body(data) + if trailer == [] then [] else Block(trailer[0], true)).Some?
    ensures var r := Feed(l, b, Body(data) + if trailer == [] then [] else Block(trailer[0], true)).value;
      && r.fields == b.fields + (if trailer == [] then [] else Regular(trailer[0]))
      && r.body == b.body + Concat(data) && r.status == b.status && r.infos == b.infos
  {
    FeedAppend(l, b, Body(data), if trailer == [] then [] else Block(trailer[0], true));
    BodyFed(l, b, data);
    if trailer != [] {
      BlockFed(l, Feed(l, b, Body(data)).value, trailer[0], true);
    }
  }

  // ---------------------------------------------------------------- any accepted run

  /** The fields of the block that was opened last. */
  function Opened(events: seq<Event>): seq<Field> {
    if events == [] then []
    else
      var before, last := Opened(events[..|events| - 1]), events[|events| - 1];
      if last.BeginHeaders? then [] else if last.Header? then before + [last.field] else before
  }

  /** The block that the last event closes is informational. */
  predicate ClosesInformational(events: seq<Event>) {
    events != [] && events[|events| - 1].EndHeaders? && Informational(Opened(events))
  }

  predicate ClosesFinal(events: seq<Event>) {
    events != [] && events[|events| - 1].EndHeaders? && StatusIn(Opened(events)).Some? && StatusIn(Opened(events)).value >= 200
  }

  /** The regular fields of the events, without those of informational blocks. */
  function FieldsOf(events: seq<Event>): seq<Field> {
    if events == [] || ClosesInformational(events) then []
    else
      var before, last := FieldsOf(events[..|events| - 1]), events[|events| - 1];
      if last.Header? && !Pseudo(last.field) then before + [last.field] else before
  }

  function InfosOf(events: seq<Event>): nat {
    if events == [] then 0 else InfosOf(events[..|events| - 1]) + if ClosesInformational(events) then 1 else 0
  }

  function StatusOf(events: seq<Event>): Option<nat> {
    if events == [] then None
    else if ClosesFinal(events) then StatusIn(Opened(events))
    else StatusOf(events[..|events| - 1])
  }

  function BodyOf(events: seq<Event>): string {
    if events == [] then ""
    else BodyOf(events[..|events| - 1]) + if events[|events| - 1].Data? then events[|events| - 1].bytes else ""
  }

  lemma {:induction false} StatusInSnoc(fs: seq<Field>, f: Field)
    requires forall i :: 0 <= i < |fs| && Pseudo(fs[i]) ==> StatusCode(fs[i].value).Some?
    ensures StatusIn(fs + [f]) == if StatusIn(fs).Some? then StatusIn(fs) else if Pseudo(f) then StatusCode(f.value) else None
  {
    if fs == [] {
      assert fs + [f] == [f] && [f][1..] == [];
    } else {
      assert (fs + [f])[1..] == fs[1..] + [f];
      StatusInSnoc(fs[1..], f);
    }
  }

  predicate StatusesRead(fs: seq<Field>) {
    forall i :: 0 <= i < |fs| && Pseudo(fs[i]) ==> StatusCode(fs[i].value).Some?
  }

  /** What the response holds of the events that built it. */
  predicate Reflects(r: Response, events: seq<Event>) {
    && r.fields == FieldsOf(events) && r.infos == InfosOf(events) && r.body == BodyOf(events)
    && (if r.final then StatusOf(events) == Some(r.status) else StatusOf(events) == None)
    && StatusesRead(Opened(events))
    && (r.blockOpen ==> r.trailers == r.final && r.statusSeen == StatusIn(Opened(events)).Some?)
    && (r.blockOpen && r.statusSeen ==> !r.trailers && StatusIn(Opened(events)) == Some(r.current))
  }

  lemma HeaderHolds(l: Limits, r: Response, events: seq<Event>, f: Field)
    requires Reflects(r, events) && OnHeader(l, r, f).Some?
    ensures Reflects(OnHeader(l, r, f).value, events + [Header(f)])
  {
    HeaderScanned(events, f);
    StatusInSnoc(Opened(events), f);
    assert OnHeader(l, r, f).value.fields == r.fields + if Pseudo(f) then [] else [f];
  }

  lemma HeaderScanned(events: seq<Event>, f: Field)
    ensures var all := events + [Header(f)];
      && Opened(all) == Opened(events) + [f]
      && FieldsOf(all) == FieldsOf(events) + (if Pseudo(f) then [] else [f])
      && InfosOf(all) == InfosOf(events) && StatusOf(all) == StatusOf(events) && BodyOf(all) == BodyOf(events)
  {
    var all := events + [Header(f)];
    assert all[..|all| - 1] == events;
    assert BodyOf(events) + "" == BodyOf(events) && FieldsOf(events) + [] == FieldsOf(events);
  }

  lemma EndHolds(l: Limits, r: Response, events: seq<Event>, ends: bool)
    requires Reflects(r, events) && OnEnd(l, r, ends).Some?
    ensures Reflects(OnEnd(l, r, ends).value, events + [EndHeaders(ends)])
  {
    var all := events + [EndHeaders(ends)];
    assert all[..|all| - 1] == events;
    assert BodyOf(events) + "" == BodyOf(events);
  }

  lemma OtherHolds(l: Limits, r: Response, events: seq<Event>, e: Event)
    requires Reflects(r, events) && Step(l, r, e).Some? && (e.BeginHeaders? || e.Data?)
    ensures Reflects(Step(l, r, e).value, events + [e])
  {
    var all := events + [e];
    assert all[..|all| - 1] == events;
    assert BodyOf(events) + "" == BodyOf(events);
  }

  lemma {:induction false} FeedHolds(l: Limits, head: bool, events: seq<Event>)
    requires Feed(l, Fresh(head), events).Some?
    ensures Reflects(Feed(l, Fresh(head), events).value, events)
  {
    if events != [] {
      var n := |events| - 1;
      assert events == events[..n] + [events[n]];
      FeedAppend(l, Fresh(head), events[..n], [events[n]]);
      FeedHolds(l, head, events[..n]);
      var r := Feed(l, Fresh(head), events[..n]).value;
      FeedOne(l, r, events[n]);
      StepHolds(l, r, events[..n], events[n]);
    }
  }

  lemma StepHolds(l: Limits, r: Response, events: seq<Event>, e: Event)
    requires Reflects(r, events) && Step(l, r, e).Some?
    ensures Reflects(Step(l, r, e).value, events + [e])
  {
    match e
    case Header(f) => HeaderHolds(l, r, events, f);
    case EndHeaders(ends) => EndHolds(l, r, events, ends);
    case _ => OtherHolds(l, r, events, e);
  }

  /**
   Every accepted run, whatever its shape and wherever it stops, has stored exactly
   the regular fields that no informational block carried, in order, all of the
   data, and the status of its final block.
   */
  lemma DeliveredExactly(l: Limits, head: bool, events: seq<Event>)
    requires Feed(l, Fresh(head), events).Some?
    ensures var r := Feed(l, Fresh(head), events).value;
      && r.fields == FieldsOf(events) && r.body == BodyOf(events) && r.infos == InfosOf(events)
      && (r.final <==> StatusOf(events).Some?) && (r.final ==> r.status == StatusOf(events).value)
  {
    FeedHolds(l, head, events);
  }
}
