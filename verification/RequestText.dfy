/**
 Serialising an HTTP/1.1 request: which requests are admitted, the octets they
 become, and the reader of section 3 of RFC 9112 that gets the request back.
 */
module RequestText {
  import opened Octets
  import opened Decimals
  import opened ChunkedBody

  datatype Method = Get | Head | Post | Put_ | Delete | Patch | Options | Unknown

  datatype Header = Header(name: string, value: string)

  /** A body held in memory, or a source of known or unknown length. */
  datatype Body = Buffered(data: string) | Sized(length: nat) | Unsized

  datatype Request = Request(verb: Method, target: string, authority: string, headers: seq<Header>, body: Body)

  datatype Limits = Limits(startLine: nat, headerBytes: nat, headerCount: nat, bodyBytes: nat, requestBytes: nat)

  datatype Status = Ok | Invalid | TooLarge | Range

  const GENERATED_HEADERS := 3
  const INLINE_VIEWS := 16
  const VIEW_BYTES := 32
  const LENGTH_TEXT_BYTES := 25

  function MethodName(m: Method): string {
    match m
    case Get => "GET"
    case Head => "HEAD"
    case Post => "POST"
    case Put_ => "PUT"
    case Delete => "DELETE"
    case Patch => "PATCH"
    case Options => "OPTIONS"
    case Unknown => ""
  }

  // ---------------------------------------------------------------- admission

  predicate TargetChar(c: char) {
    ' ' < c < DEL && c != '#'
  }

  predicate AuthorityChar(c: char) {
    ' ' < c < DEL && c != '/' && c != '?' && c != '#' && c != '@'
  }

  predicate ValueChar(c: char) {
    (c >= ' ' || c == '\t') && c != DEL
  }

  predicate Reserved(name: string) {
    IEq(name, "host") || IEq(name, "content-length") || IEq(name, "transfer-encoding") || IEq(name, "connection")
  }

  predicate TargetValid(m: Method, t: string) {
    && t != "" && (t[0] == '/' || (m == Options && t == "*"))
    && forall i :: 0 <= i < |t| ==> TargetChar(t[i])
  }

  predicate AuthorityValid(a: string) {
    a != "" && forall i :: 0 <= i < |a| ==> AuthorityChar(a[i])
  }

  predicate HeaderValid(h: Header) {
    && h.name != "" && (forall i :: 0 <= i < |h.name| ==> TokenChar(h.name[i]))
    && (forall i :: 0 <= i < |h.value| ==> ValueChar(h.value[i]))
    && !Reserved(h.name)
  }

  function TextStatus(text: string, limit: nat, valid: bool): Status {
    if |text| > limit then TooLarge else if !valid then Invalid else Ok
  }

  function HeaderStatus(h: Header, limit: nat): Status {
    if |h.name| > limit || |h.value| > limit then TooLarge else if !HeaderValid(h) then Invalid else Ok
  }

  function LineBytes(h: Header): nat {
    |h.name| + |h.value| + 4
  }

  /** The loop over the caller's headers: the first failure, given the octets so far. */
  function HeadersStatus(headers: seq<Header>, limit: nat, bytes: nat): Status {
    if headers == [] then Ok
    else if HeaderStatus(headers[0], limit) != Ok then HeaderStatus(headers[0], limit)
    else if bytes + LineBytes(headers[0]) > SIZE_MAX then TooLarge
    else HeadersStatus(headers[1..], limit, bytes + LineBytes(headers[0]))
  }

  function Declared(b: Body): nat {
    match b
    case Buffered(data) => |data|
    case Sized(length) => length
    case Unsized => 0
  }

  function InMemory(b: Body): string {
    if b.Buffered? then b.data else ""
  }

  function Generated(r: Request): seq<Header> {
    [Header("Host", r.authority),
     if r.body.Unsized? then Header("Transfer-Encoding", "chunked") else Header("Content-Length", Show(Declared(r.body))),
     Header("Connection", "keep-alive")]
  }

  function HeaderBytes(headers: seq<Header>): nat {
    if headers == [] then 0 else LineBytes(headers[0]) + HeaderBytes(headers[1..])
  }

  function StartBytes(r: Request): nat {
    |MethodName(r.verb)| + 1 + |r.target| + 11
  }

  function TotalBytes(r: Request): nat {
    StartBytes(r) + HeaderBytes(Generated(r) + r.headers) + 2 + |InMemory(r.body)|
  }

  /** Why the request is refused before its own headers are looked at. */
  function FrontStatus(r: Request, l: Limits): Status {
    if Declared(r.body) > l.bodyBytes then TooLarge
    else if |r.headers| + GENERATED_HEADERS > SIZE_MAX || |r.headers| + GENERATED_HEADERS > l.headerCount then TooLarge
    else if r.verb == Unknown then Invalid
    else if TextStatus(r.target, l.startLine, TargetValid(r.verb, r.target)) != Ok then
      TextStatus(r.target, l.startLine, TargetValid(r.verb, r.target))
    else if TextStatus(r.authority, l.headerBytes, AuthorityValid(r.authority)) != Ok then
      TextStatus(r.authority, l.headerBytes, AuthorityValid(r.authority))
    else if StartBytes(r) > SIZE_MAX || StartBytes(r) > l.startLine then TooLarge
    else if |Show(Declared(r.body))| >= LENGTH_TEXT_BYTES then Range
    else if HeaderBytes(Generated(r)) > SIZE_MAX then TooLarge
    else if |r.headers| > INLINE_VIEWS && |r.headers| > SIZE_MAX / VIEW_BYTES then Range
    else Ok
  }

  function BuildStatus(r: Request, l: Limits): Status {
    if FrontStatus(r, l) != Ok then FrontStatus(r, l)
    else if HeadersStatus(r.headers, l.headerBytes, HeaderBytes(Generated(r))) != Ok then
      HeadersStatus(r.headers, l.headerBytes, HeaderBytes(Generated(r)))
    else if HeaderBytes(Generated(r) + r.headers) > l.headerBytes then TooLarge
    else if TotalBytes(r) > SIZE_MAX || TotalBytes(r) > l.requestBytes then TooLarge
    else Ok
  }

  // ---------------------------------------------------------------- the octets

  function StartLine(r: Request): string {
    MethodName(r.verb) + " " + r.target + " HTTP/1.1\r\n"
  }

  function HeaderLine(h: Header): string {
    h.name + ": " + h.value + CRLF
  }

  function HeaderLines(headers: seq<Header>): string {
    if headers == [] then "" else HeaderLine(headers[0]) + HeaderLines(headers[1..])
  }

  function Serialised(r: Request): string {
    StartLine(r) + (HeaderLines(Generated(r) + r.headers) + (CRLF + InMemory(r.body)))
  }

  /** The size pass is the length of what the write pass produces. */
  lemma SizeIsExact(r: Request)
    ensures |Serialised(r)| == TotalBytes(r)
  {
    HeaderSizes(Generated(r) + r.headers);
  }

  lemma {:induction false} HeaderSizes(headers: seq<Header>)
    ensures |HeaderLines(headers)| == HeaderBytes(headers)
  {
    if headers != [] {
      HeaderSizes(headers[1..]);
    }
  }

  lemma {:induction false} HeaderLinesAppend(a: seq<Header>, b: seq<Header>)
    ensures HeaderLines(a + b) == HeaderLines(a) + HeaderLines(b)
    ensures HeaderBytes(a + b) == HeaderBytes(a) + HeaderBytes(b)
  {
    if a == [] {
      assert a + b == b;
    } else {
      assert (a + b)[1..] == a[1..] + b;
      HeaderLinesAppend(a[1..], b);
    }
  }

  // ---------------------------------------------------------------- reading

  /** Where the first CRLF starts, or the length when there is none. */
  function LineEnd(s: string): (k: nat)
    ensures k <= |s|
    ensures k < |s| ==> k + 2 <= |s|
  {
    if |s| < 2 then |s| else if s[0] == CR && s[1] == LF then 0 else 1 + LineEnd(s[1..])
  }

  function ReadField(line: string): Option<Header> {
    var c := IndexOf(line, ':');
    if c == 0 || c + 1 >= |line| || line[c + 1] != ' ' then None
    else Some(Header(line[..c], line[c + 2..]))
  }

  datatype Fields = Fields(headers: seq<Header>, rest: string)

  function ReadFields(s: string): Option<Fields>
    decreases |s|
  {
    var k := LineEnd(s);
    if k == |s| then None
    else if k == 0 then Some(Fields([], s[2..]))
    else
      var h, more := ReadField(s[..k]), ReadFields(s[k + 2..]);
      if h.None? || more.None? then None
      else Some(Fields([h.value] + more.value.headers, more.value.rest))
  }

  datatype Framing = Length(n: nat) | Chunked

  function Named(headers: seq<Header>, name: string): seq<string> {
    if headers == [] then []
    else (if IEq(headers[0].name, name) then [headers[0].value] else []) + Named(headers[1..], name)
  }

  /** One framing field and not the other, or the message is not readable. */
  function ReadFraming(headers: seq<Header>): Option<Framing> {
    var lengths, codings := Named(headers, "content-length"), Named(headers, "transfer-encoding");
    if lengths == [] && codings == ["chunked"] then Some(Chunked)
    else if codings == [] && |lengths| == 1 && lengths[0] != "" && Digits(lengths[0]) then Some(Length(Value(lengths[0])))
    else None
  }

  datatype Start = Start(verb: string, target: string)

  function ReadStart(line: string): Option<Start> {
    var a := IndexOf(line, ' ');
    if a == |line| then None
    else
      var tail := line[a + 1..];
      var b := IndexOf(tail, ' ');
      if b == |tail| || tail[b + 1..] != "HTTP/1.1" then None else Some(Start(line[..a], tail[..b]))
  }

  datatype Message = Message(start: Start, headers: seq<Header>, framing: Framing, rest: string)

  function ReadMessage(s: string): Option<Message> {
    var k := LineEnd(s);
    if k == |s| then None
    else
      var start, fields := ReadStart(s[..k]), ReadFields(s[k + 2..]);
      if start.None? || fields.None? || ReadFraming(fields.value.headers).None? then None
      else Some(Message(start.value, fields.value.headers, ReadFraming(fields.value.headers).value, fields.value.rest))
  }

  // ---------------------------------------------------------------- reading undoes serialising

  predicate OneLine(s: string) {
    forall i :: 0 <= i < |s| ==> s[i] != CR
  }

  lemma {:induction false} LineEndAfter(line: string, rest: string)
    requires OneLine(line)
    ensures LineEnd(line + (CRLF + rest)) == |line|
  {
    if line == "" {
      assert line + (CRLF + rest) == CRLF + rest;
    } else {
      assert (line + (CRLF + rest))[1..] == line[1..] + (CRLF + rest);
      LineEndAfter(line[1..], rest);
    }
  }

  /** What a field on the wire has to satisfy to be read back. */
  predicate Readable(h: Header) {
    h.name != "" && (forall i :: 0 <= i < |h.name| ==> TokenChar(h.name[i])) && OneLine(h.value)
  }

  lemma FieldReadsBack(h: Header)
    requires Readable(h)
    ensures ReadField(h.name + ": " + h.value) == Some(h) && OneLine(h.name + ": " + h.value)
  {
    var line := h.name + ": " + h.value;
    IndexOfUnique(line, ':', |h.name|);
    assert line[..|h.name|] == h.name && line[|h.name| + 2..] == h.value;
  }

  lemma {:induction false} FieldsReadBack(headers: seq<Header>, rest: string)
    requires forall i :: 0 <= i < |headers| ==> Readable(headers[i])
    ensures ReadFields(HeaderLines(headers) + (CRLF + rest)) == Some(Fields(headers, rest))
  {
    if headers == [] {
      EmptyLine(rest);
    } else {
      FieldsReadBack(headers[1..], rest);
      Cons(headers);
      FieldFirst(headers[0], HeaderLines(headers[1..]), CRLF + rest);
    }
  }

  lemma Cons(headers: seq<Header>)
    requires headers != []
    ensures [headers[0]] + headers[1..] == headers
  {
  }

  lemma FieldFirst(h: Header, lines: string, rest: string)
    requires Readable(h) && ReadFields(lines + rest).Some?
    ensures var tail := ReadFields(lines + rest).value;
      ReadFields(HeaderLine(h) + lines + rest) == Some(Fields([h] + tail.headers, tail.rest))
  {
    assert HeaderLine(h) + lines + rest == HeaderLine(h) + (lines + rest);
    FieldThen(h, lines + rest);
  }

  lemma EmptyLine(rest: string)
    ensures ReadFields("" + (CRLF + rest)) == Some(Fields([], rest))
  {
    assert "" + (CRLF + rest) == CRLF + rest && (CRLF + rest)[2..] == rest;
  }

  lemma FieldThen(h: Header, tail: string)
    requires Readable(h) && ReadFields(tail).Some?
    ensures ReadFields(HeaderLine(h) + tail) == Some(Fields([h] + ReadFields(tail).value.headers, ReadFields(tail).value.rest))
  {
    var line := h.name + ": " + h.value;
    FieldReadsBack(h);
    LineSplit(line, tail);
  }

  lemma LineSplit(line: string, tail: string)
    requires OneLine(line)
    ensures var s := (line + CRLF) + tail; LineEnd(s) == |line| < |s| && s[..|line|] == line && s[|line| + 2..] == tail
  {
    assert (line + CRLF) + tail == line + (CRLF + tail);
    LineEndAfter(line, tail);
  }

  lemma StartReadsBack(r: Request)
    requires r.verb != Unknown && TargetValid(r.verb, r.target)
    ensures var line := MethodName(r.verb) + " " + r.target + " HTTP/1.1";
      OneLine(line) && ReadStart(line) == Some(Start(MethodName(r.verb), r.target))
  {
    VerbIsWord(r.verb);
    StartParts(MethodName(r.verb), r.target);
  }

  lemma StartParts(a: string, t: string)
    requires Word(a) && Word(t)
    ensures OneLine(a + " " + t + " HTTP/1.1") && ReadStart(a + " " + t + " HTTP/1.1") == Some(Start(a, t))
  {
    var v := "HTTP/1.1";
    assert OneLine(v) && " HTTP/1.1" == " " + v;
    assert a + " " + t + (" " + v) == a + (" " + (t + (" " + v)));
    WordSplit(t, v);
    WordSplit(a, t + (" " + v));
  }

  predicate Word(s: string) {
    forall i :: 0 <= i < |s| ==> s[i] != ' ' && s[i] != CR
  }

  lemma VerbIsWord(m: Method)
    ensures Word(MethodName(m))
  {
  }

  lemma WordSplit(a: string, b: string)
    requires Word(a) && OneLine(b)
    ensures var s := a + (" " + b); OneLine(s) && IndexOf(s, ' ') == |a| && s[..|a|] == a && s[|a| + 1..] == b
  {
    IndexOfUnique(a + (" " + b), ' ', |a|);
  }

  function FramingOf(b: Body): Framing {
    if b.Unsized? then Chunked else Length(Declared(b))
  }

  lemma {:induction false} NotNamed(headers: seq<Header>, name: string)
    requires forall i :: 0 <= i < |headers| ==> !IEq(headers[i].name, name)
    ensures Named(headers, name) == []
  {
    if headers != [] {
      NotNamed(headers[1..], name);
    }
  }

  /** The caller's headers cannot change how the message is framed. */
  lemma FramingReadsBack(r: Request)
    requires forall i :: 0 <= i < |r.headers| ==> !Reserved(r.headers[i].name)
    ensures ReadFraming(Generated(r) + r.headers) == Some(FramingOf(r.body))
  {
    LengthsNamed(r);
    CodingsNamed(r);
    ValueOfShow(Declared(r.body));
  }

  lemma LengthsNamed(r: Request)
    requires forall i :: 0 <= i < |r.headers| ==> !Reserved(r.headers[i].name)
    ensures Named(Generated(r) + r.headers, "content-length") == if r.body.Unsized? then [] else [Show(Declared(r.body))]
  {
    NotNamed(r.headers, "content-length");
    NamedInFront(r, "content-length");
  }

  lemma CodingsNamed(r: Request)
    requires forall i :: 0 <= i < |r.headers| ==> !Reserved(r.headers[i].name)
    ensures Named(Generated(r) + r.headers, "transfer-encoding") == if r.body.Unsized? then ["chunked"] else []
  {
    NotNamed(r.headers, "transfer-encoding");
    NamedInFront(r, "transfer-encoding");
  }

  lemma NamedInFront(r: Request, name: string)
    requires name == "content-length" || name == "transfer-encoding"
    ensures Named(Generated(r) + r.headers, name) ==
      (if IEq(Generated(r)[1].name, name) then [Generated(r)[1].value] else []) + Named(r.headers, name)
  {
    var g := Generated(r);
    assert |g[0].name| == 4 && |g[2].name| == 10;
    NamedCons(g[0], [g[1]] + ([g[2]] + r.headers), name);
    NamedCons(g[1], [g[2]] + r.headers, name);
    NamedCons(g[2], r.headers, name);
    assert g + r.headers == [g[0]] + ([g[1]] + ([g[2]] + r.headers));
  }

  lemma NamedCons(h: Header, headers: seq<Header>, name: string)
    ensures Named([h] + headers, name) == (if IEq(h.name, name) then [h.value] else []) + Named(headers, name)
  {
    assert ([h] + headers)[1..] == headers;
  }

  lemma {:induction false} AdmittedHeaders(headers: seq<Header>, limit: nat, bytes: nat, i: nat)
    requires HeadersStatus(headers, limit, bytes) == Ok && i < |headers|
    ensures HeaderValid(headers[i])
  {
    if i > 0 {
      AdmittedHeaders(headers[1..], limit, bytes + LineBytes(headers[0]), i - 1);
    }
  }

  lemma GeneratedReadable(r: Request, i: nat)
    requires AuthorityValid(r.authority) && i < 3
    ensures Readable(Generated(r)[i])
  {
    if i == 1 {
      FramingReadable(r.body);
    }
  }

  lemma FramingReadable(b: Body)
    ensures Readable(Header("Transfer-Encoding", "chunked")) && Readable(Header("Content-Length", Show(Declared(b))))
  {
    ValueOfShow(Declared(b));
  }

  lemma AllReadable(r: Request, l: Limits)
    requires BuildStatus(r, l) == Ok
    ensures var all := Generated(r) + r.headers; forall i :: 0 <= i < |all| ==> Readable(all[i])
    ensures forall i :: 0 <= i < |r.headers| ==> !Reserved(r.headers[i].name)
  {
    var all := Generated(r) + r.headers;
    forall i | 0 <= i < |r.headers|
      ensures HeaderValid(r.headers[i])
    {
      AdmittedHeaders(r.headers, l.headerBytes, HeaderBytes(Generated(r)), i);
    }
    forall i | 0 <= i < |all|
      ensures Readable(all[i])
    {
      if i < 3 {
        GeneratedReadable(r, i);
      } else {
        assert all[i] == r.headers[i - 3];
      }
    }
  }

  /**
   An admitted request is read back whole: its method and target, the authority in
   the Host field, the one framing field, the caller's headers in order, and after
   them exactly the body and whatever follows it.
   */
  lemma RequestReadsBack(r: Request, l: Limits, rest: string)
    requires BuildStatus(r, l) == Ok
    ensures ReadMessage(Serialised(r) + rest) ==
      Some(Message(Start(MethodName(r.verb), r.target), Generated(r) + r.headers, FramingOf(r.body), InMemory(r.body) + rest))
  {
    var all := Generated(r) + r.headers;
    var body := InMemory(r.body) + rest;
    AllReadable(r, l);
    FramingReadsBack(r);
    FieldsReadBack(all, body);
    StartReadsBack(r);
    Regrouped(r, rest);
    MessageParts(MethodName(r.verb) + " " + r.target + " HTTP/1.1", HeaderLines(all) + (CRLF + body));
  }

  lemma MessageParts(line: string, tail: string)
    requires OneLine(line) && ReadStart(line).Some? && ReadFields(tail).Some? && ReadFraming(ReadFields(tail).value.headers).Some?
    ensures var f := ReadFields(tail).value;
      ReadMessage((line + CRLF) + tail) == Some(Message(ReadStart(line).value, f.headers, ReadFraming(f.headers).value, f.rest))
  {
    LineSplit(line, tail);
  }

  lemma Regrouped(r: Request, rest: string)
    ensures Serialised(r) + rest == ((MethodName(r.verb) + " " + r.target + " HTTP/1.1") + CRLF) +
      (HeaderLines(Generated(r) + r.headers) + (CRLF + (InMemory(r.body) + rest)))
  {
    var h := HeaderLines(Generated(r) + r.headers);
    var line := MethodName(r.verb) + " " + r.target + " HTTP/1.1";
    assert " HTTP/1.1\r\n" == " HTTP/1.1" + CRLF;
    assert StartLine(r) == line + CRLF;
    Associate(line + CRLF, h, InMemory(r.body), rest);
  }

  lemma Associate(a: string, h: string, b: string, rest: string)
    ensures a + (h + (CRLF + b)) + rest == a + (h + (CRLF + (b + rest)))
  {
  }
}
