/** The serialiser as the source runs it: a size pass, one allocation, a write pass. */
module RequestBuild {
  import opened Octets
  import opened Decimals
  import opened ChunkedBody
  import opened RequestText

  /** The loop that validates the caller's headers and adds up their octets. */
  method MeasureHeaders(headers: seq<Header>, limit: nat, start: nat) returns (status: Status, bytes: nat)
    ensures status == HeadersStatus(headers, limit, start)
    ensures status == Ok ==> bytes == start + HeaderBytes(headers)
  {
    status, bytes := Ok, start;
    for i := 0 to |headers|
      invariant status == Ok && HeadersStatus(headers, limit, start) == HeadersStatus(headers[i..], limit, bytes)
      invariant bytes + HeaderBytes(headers[i..]) == start + HeaderBytes(headers)
    {
      assert headers[i..][0] == headers[i] && headers[i..][1..] == headers[i + 1..];
      status := HeaderStatus(headers[i], limit);
      if status != Ok {
        return;
      }
      if LineBytes(headers[i]) > SIZE_MAX || bytes > SIZE_MAX - LineBytes(headers[i]) {
        return TooLarge, bytes;
      }
      bytes := bytes + LineBytes(headers[i]);
    }
  }

  method CopyLine(data: array<char>, cursor: nat, h: Header, ghost text: string) returns (next: nat)
    requires cursor + LineBytes(h) <= data.Length && data[..cursor] == text
    modifies data
    ensures next == cursor + LineBytes(h) && data[..next] == text + HeaderLine(h)
  {
    next := Copy(data, cursor, h.name, text);
    next := Copy(data, next, ": ", text + h.name);
    next := Copy(data, next, h.value, text + h.name + ": ");
    next := Copy(data, next, CRLF, text + h.name + ": " + h.value);
    assert text + h.name + ": " + h.value + CRLF == text + HeaderLine(h);
  }

  method CopyStart(data: array<char>, r: Request) returns (next: nat)
    requires StartBytes(r) <= data.Length
    modifies data
    ensures next == StartBytes(r) && data[..next] == StartLine(r)
  {
    next := Copy(data, 0, MethodName(r.verb), "");
    next := Copy(data, next, " ", MethodName(r.verb));
    next := Copy(data, next, r.target, MethodName(r.verb) + " ");
    next := Copy(data, next, " HTTP/1.1\r\n", MethodName(r.verb) + " " + r.target);
  }

  method CopyLines(data: array<char>, cursor: nat, headers: seq<Header>, ghost text: string) returns (next: nat)
    requires cursor + HeaderBytes(headers) <= data.Length && data[..cursor] == text
    modifies data
    ensures next == cursor + HeaderBytes(headers) && data[..next] == text + HeaderLines(headers)
  {
    next := cursor;
    ghost var done := text;
    for i := 0 to |headers|
      invariant next + HeaderBytes(headers[i..]) == cursor + HeaderBytes(headers)
      invariant next <= data.Length && data[..next] == done
      invariant done + HeaderLines(headers[i..]) == text + HeaderLines(headers)
    {
      assert headers[i..][0] == headers[i] && headers[i..][1..] == headers[i + 1..];
      next := CopyLine(data, next, headers[i], done);
      Shift(done, headers[i], headers[i + 1..]);
      done := done + HeaderLine(headers[i]);
    }
    assert done + "" == done;
  }

  lemma Shift(done: string, h: Header, headers: seq<Header>)
    ensures done + (HeaderLine(h) + HeaderLines(headers)) == done + HeaderLine(h) + HeaderLines(headers)
  {
  }

  /** The write pass fills the buffer exactly. */
  method Write(data: array<char>, r: Request)
    requires data.Length == TotalBytes(r)
    modifies data
    ensures data[..] == Serialised(r)
  {
    ghost var a, b, c, d := StartLine(r), HeaderLines(Generated(r)), HeaderLines(r.headers), InMemory(r.body);
    HeaderLinesAppend(Generated(r), r.headers);
    var next := CopyStart(data, r);
    next := CopyLines(data, next, Generated(r), a);
    next := CopyLines(data, next, r.headers, a + b);
    next := Copy(data, next, CRLF, a + b + c);
    next := Copy(data, next, InMemory(r.body), a + b + c + CRLF);
    assert data[..] == data[..next];
    Joined(a, b, c, d);
  }

  lemma Joined(a: string, b: string, c: string, d: string)
    ensures a + b + c + CRLF + d == a + ((b + c) + (CRLF + d))
  {
  }

  /** chttp_request_build: the status of the first check that fails, or the whole request. */
  method Build(r: Request, l: Limits) returns (status: Status, data: array?<char>)
    ensures status == BuildStatus(r, l)
    ensures if status == Ok then data != null && fresh(data) && data[..] == Serialised(r) else data == null
  {
    data := null;
    status := FrontStatus(r, l);
    if status != Ok {
      return;
    }
    var bytes;
    HeaderLinesAppend(Generated(r), r.headers);
    status, bytes := MeasureHeaders(r.headers, l.headerBytes, HeaderBytes(Generated(r)));
    if status != Ok {
      return;
    }
    var total := StartBytes(r) + bytes + 2 + |InMemory(r.body)|;
    if bytes > l.headerBytes || total > SIZE_MAX || total > l.requestBytes {
      return TooLarge, null;
    }
    data := new char[total](_ => NUL);
    Write(data, r);
  }
}
