/**
 Header blocks of multipart parts: parameters, Content-Disposition, the line
 loop of a part's header block and the outer boundary parameter.
 The scanning positions of the C loops become the remaining suffix.
 */
module MultipartHeaders {
  import opened Octets

  const BOUNDARY_MAX: nat := 70

  datatype Limits = Limits(
    maxParts: nat, maxHeaderCount: nat, maxHeaderBytes: nat,
    maxNameBytes: nat, maxFilenameBytes: nat, maxContentTypeBytes: nat,
    maxFieldBytes: nat, maxTotalBytes: nat)

  predicate LimitsValid(l: Limits) {
    && l.maxParts != 0
    && 0 < l.maxHeaderCount <= 64
    && 4 <= l.maxHeaderBytes <= 8192
    && 0 < l.maxNameBytes <= 256
    && l.maxFilenameBytes <= 1024
    && l.maxContentTypeBytes <= 256
    && l.maxTotalBytes != 0
    && l.maxFieldBytes <= l.maxTotalBytes
  }

  datatype Part = Part(name: string, filename: Option<string>, contentType: Option<string>)

  predicate Ows(c: char) {
    c == ' ' || c == '\t'
  }

  predicate Control(c: char) {
    c < ' ' || c == DEL
  }

  predicate BoundaryChar(c: char) {
    || AlphaNum(c)
    || c == '\'' || c == '(' || c == ')' || c == '+' || c == '_' || c == ','
    || c == '-' || c == '.' || c == '/' || c == ':' || c == '=' || c == '?' || c == ' '
  }

  predicate BoundaryValid(b: string) {
    && 0 < |b| <= BOUNDARY_MAX
    && b[|b| - 1] != ' '
    && forall i :: 0 <= i < |b| ==> BoundaryChar(b[i])
  }

  function SkipOws(s: string): (r: string)
    ensures |r| <= |s|
    ensures r != [] ==> !Ows(r[0])
  {
    if s != [] && Ows(s[0]) then SkipOws(s[1..]) else s
  }

  function TrimRight(s: string): (r: string)
    ensures |r| <= |s|
  {
    if s != [] && Ows(s[|s| - 1]) then TrimRight(s[..|s| - 1]) else s
  }

  function TokenLength(s: string): (n: nat)
    ensures n <= |s|
    ensures forall i :: 0 <= i < n ==> TokenChar(s[i])
    ensures n < |s| ==> !TokenChar(s[n])
  {
    if s != [] && TokenChar(s[0]) then 1 + TokenLength(s[1..]) else 0
  }

  /** What reading one parameter value yields: return codes 0, -1 and 1. */
  datatype Param = Bad | TooLong | Got(value: string, rest: string)

  /**
   The quoted form after its opening quote. `last` is the octet just before
   `s`: when the input runs out the C code only looks at that octet.
   */
  function ReadQuoted(s: string, last: char, used: string, cap: Option<nat>): (p: Param)
    ensures p.Got? ==> |p.rest| <= |s|
    decreases |s|
  {
    if s == [] then
      if last == '"' then Got(used, []) else Bad
    else if s[0] == '"' then Got(used, s[1..])
    else if s[0] == '\\' && |s| == 1 then Bad
    else
      var k := if s[0] == '\\' then 1 else 0;
      if Control(s[k]) then Bad
      else if cap.Some? && |used| >= cap.value then TooLong
      else ReadQuoted(s[k + 1..], s[k], used + [s[k]], cap)
  }

  function ReadBare(s: string, used: string, cap: Option<nat>): (p: Param)
    ensures p.Got? ==> |p.rest| <= |s|
    decreases |s|
  {
    if s == [] || s[0] == ';' || Ows(s[0]) then Got(used, s)
    else if Control(s[0]) then Bad
    else if cap.Some? && |used| >= cap.value then TooLong
    else ReadBare(s[1..], used + [s[0]], cap)
  }

  /** `cap == None` is the call without an output buffer. */
  function ReadParameter(s: string, cap: Option<nat>): (p: Param)
    ensures p.Got? ==> |p.rest| <= |s|
  {
    var t := SkipOws(s);
    if t == [] then Bad
    else
      var quoted := t[0] == '"';
      var p := if quoted then ReadQuoted(t[1..], '"', "", cap) else ReadBare(t, "", cap);
      match p
      case Bad => Bad
      case TooLong => TooLong
      case Got(value, rest) =>
        var r := SkipOws(rest);
        if r != [] && r[0] != ';' then Bad
        else if !quoted && value == [] then Bad
        else Got(value, r)
  }

  /** A parameter list is a sequence of `; key = value`; `Key` reads up to the value. */
  datatype KeyResult = NoKey | Key(name: string, rest: string)

  function ReadKey(s: string): (k: KeyResult)
    ensures k.Key? ==> |k.rest| < |s|
  {
    if s == [] || s[0] != ';' then NoKey
    else
      var t := SkipOws(s[1..]);
      var n := TokenLength(t);
      if n == 0 then NoKey
      else
        var u := SkipOws(t[n..]);
        if u == [] || u[0] != '=' then NoKey
        else Key(t[..n], u[1..])
  }

  datatype Disposition = BadDisposition | LongDisposition | FormData(name: string, filename: Option<string>)

  function DispositionParams(l: Limits, s: string, name: Option<string>, filename: Option<string>): Disposition
    decreases |s|
  {
    if s == [] then
      if name.Some? then FormData(name.value, filename) else BadDisposition
    else
      match ReadKey(s)
      case NoKey => BadDisposition
      case Key(key, rest) =>
        if IEq(key, "name") then
          if name.Some? then BadDisposition
          else match ReadParameter(rest, Some(l.maxNameBytes))
            case Bad => BadDisposition
            case TooLong => LongDisposition
            case Got(v, r) => if v == [] then BadDisposition else DispositionParams(l, r, Some(v), filename)
        else if IEq(key, "filename") then
          if filename.Some? then BadDisposition
          else match ReadParameter(rest, Some(l.maxFilenameBytes))
            case Bad => BadDisposition
            case TooLong => LongDisposition
            case Got(v, r) => DispositionParams(l, r, name, Some(v))
        else match ReadParameter(rest, None)
          case Bad => BadDisposition
          case TooLong => BadDisposition
          case Got(_, r) => DispositionParams(l, r, name, filename)
  }

  /** `type; params` where the type, trimmed, must be `kind`. */
  function AfterType(s: string, kind: string): (r: Option<string>)
    ensures r.Some? ==> |r.value| <= |s|
  {
    var t := SkipOws(s);
    var k := IndexOf(t, ';');
    if IEq(TrimRight(t[..k]), kind) then Some(t[k..]) else None
  }

  function ParseDisposition(l: Limits, value: string): Disposition {
    match AfterType(value, "form-data")
    case None => BadDisposition
    case Some(s) => DispositionParams(l, s, None, None)
  }

  function BoundaryParams(s: string, found: Option<string>): (r: Option<string>)
    requires found.Some? ==> BoundaryValid(found.value)
    ensures r.Some? ==> BoundaryValid(r.value)
    decreases |s|
  {
    if s == [] then found
    else
      match ReadKey(s)
      case NoKey => None
      case Key(key, rest) =>
        if IEq(key, "boundary") then
          if found.Some? then None
          else match ReadParameter(rest, Some(BOUNDARY_MAX))
            case Got(v, r) => if BoundaryValid(v) then BoundaryParams(r, Some(v)) else None
            case _ => None
        else match ReadParameter(rest, None)
          case Got(_, r) => BoundaryParams(r, found)
          case _ => None
  }

  /** The boundary of the outer Content-Type, if that field is acceptable. */
  function ParseOuterBoundary(contentType: string): (r: Option<string>)
    ensures r.Some? ==> BoundaryValid(r.value)
  {
    match AfterType(contentType, "multipart/form-data")
    case None => None
    case Some(s) => BoundaryParams(s, None)
  }

  /** Index of the first CR LF, or |h| when there is none. */
  function FindCrlf(h: string): (k: nat)
    ensures k <= |h|
    ensures k < |h| ==> k + 1 < |h| && h[k] == CR && h[k + 1] == LF
  {
    if |h| < 2 then |h|
    else if h[0] == CR && h[1] == LF then 0
    else 1 + FindCrlf(h[1..])
  }

  predicate HeaderNameValid(s: string) {
    s != [] && forall i :: 0 <= i < |s| ==> TokenChar(s[i])
  }

  predicate HeaderValueValid(s: string) {
    forall i :: 0 <= i < |s| ==> s[i] == '\t' || !Control(s[i])
  }

  /** Outcome of a header block: malformed, over a limit, or the part it describes. */
  datatype Block = BlockMalformed | BlockCapacity | BlockPart(part: Part)

  function HeaderLines(l: Limits, h: string, count: nat,
                       disposition: Option<(string, Option<string>)>, contentType: Option<string>): Block
    decreases |h|, 0
  {
    if |h| < 2 then
      if disposition.None? then BlockMalformed
      else BlockPart(Part(disposition.value.0, disposition.value.1, contentType))
    else
      var k := FindCrlf(h);
      if k == |h| then BlockMalformed
      else if k == 0 then
        if |h| != 2 || disposition.None? then BlockMalformed
        else BlockPart(Part(disposition.value.0, disposition.value.1, contentType))
      else if count >= l.maxHeaderCount then BlockCapacity
      else
        var line, rest := h[..k], h[k + 2..];
        var c := IndexOf(line, ':');
        if c == 0 || c == k || !HeaderNameValid(line[..c]) then BlockMalformed
        else
          HeaderField(l, line[..c], TrimRight(SkipOws(line[c + 1..])), rest, count, disposition, contentType)
  }

  /** One field of the block, then the rest of it. */
  function HeaderField(l: Limits, name: string, value: string, rest: string, count: nat,
                       disposition: Option<(string, Option<string>)>, contentType: Option<string>): Block
    decreases |rest|, 1
  {
    if !HeaderValueValid(value) then BlockMalformed
    else if IEq(name, "Content-Disposition") then
      if disposition.Some? then BlockMalformed
      else match ParseDisposition(l, value)
        case BadDisposition => BlockMalformed
        case LongDisposition => BlockCapacity
        case FormData(n, f) => HeaderLines(l, rest, count + 1, Some((n, f)), contentType)
    else if IEq(name, "Content-Type") then
      if contentType.Some? || value == [] then BlockMalformed
      else if |value| > l.maxContentTypeBytes then BlockCapacity
      else HeaderLines(l, rest, count + 1, disposition, Some(value))
    else HeaderLines(l, rest, count + 1, disposition, contentType)
  }

  function ParseHeaderBlock(l: Limits, h: string): Block {
    HeaderLines(l, h, 0, None, None)
  }
}
