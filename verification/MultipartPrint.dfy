/**
 Printing part headers and reading them back: quoting against the parameter
 reader, header lines against the line loop.
 */
module MultipartPrint {
  import opened Octets
  import opened MultipartHeaders

  predicate Plain(s: string) {
    forall i :: 0 <= i < |s| ==> !Control(s[i])
  }

  function Quote(s: string): string {
    if s == [] then []
    else (if s[0] == '"' || s[0] == '\\' then ['\\', s[0]] else [s[0]]) + Quote(s[1..])
  }

  function Quoted(s: string): string {
    "\"" + Quote(s) + "\""
  }

  function FilenameParam(p: Part): string {
    if p.filename.Some? then "; filename=" + Quoted(p.filename.value) else ""
  }

  function DispositionValue(p: Part): string {
    "form-data" + ("; name=" + Quoted(p.name) + FilenameParam(p))
  }

  function Line(name: string, value: string): string {
    name + ": " + value
  }

  /** The header block of a part, up to and including its empty line. */
  function PrintHeader(p: Part): string {
    Line("Content-Disposition", DispositionValue(p)) + CRLF +
    (if p.contentType.Some? then Line("Content-Type", p.contentType.value) + CRLF else "") + CRLF
  }

  /** Parts that can be named in a header block within the limits. */
  predicate Printable(l: Limits, p: Part) {
    && p.name != [] && Plain(p.name) && |p.name| <= l.maxNameBytes
    && (p.filename.Some? ==> Plain(p.filename.value) && |p.filename.value| <= l.maxFilenameBytes)
    && (p.contentType.Some? ==> Trimmed(p.contentType.value) && |p.contentType.value| <= l.maxContentTypeBytes)
    && (if p.contentType.Some? then 2 else 1) <= l.maxHeaderCount
    && |PrintHeader(p)| <= l.maxHeaderBytes
  }

  /** A header value as the line loop leaves it: non-empty, legal, no outer white space. */
  predicate Trimmed(v: string) {
    v != [] && HeaderValueValid(v) && !Ows(v[0]) && !Ows(v[|v| - 1])
  }

  // -------------------------------------------------------------- parameters

  lemma {:induction false} QuotePlain(s: string)
    requires Plain(s)
    ensures Plain(Quote(s))
  {
    if s != [] {
      QuotePlain(s[1..]);
    }
  }

  lemma {:induction false} ReadQuotedUndoesQuote(v: string, rest: string, last: char, used: string, cap: nat)
    requires Plain(v) && |used| + |v| <= cap
    ensures ReadQuoted(Quote(v) + "\"" + rest, last, used, Some(cap)) == Got(used + v, rest)
    decreases |v|
  {
    var s := Quote(v) + "\"" + rest;
    if v == [] {
      assert s[1..] == rest;
      assert used + v == used;
    } else {
      var tail := Quote(v[1..]) + "\"" + rest;
      var k := if v[0] == '"' || v[0] == '\\' then 1 else 0;
      assert s[k] == v[0] && s[k + 1..] == tail;
      assert (used + [v[0]]) + v[1..] == used + v;
      ReadQuotedUndoesQuote(v[1..], rest, v[0], used + [v[0]], cap);
    }
  }

  /** Reading a quoted parameter gives back the value, at any legal continuation. */
  lemma ParameterUndoesQuote(v: string, rest: string, cap: nat)
    requires Plain(v) && |v| <= cap
    requires rest == [] || rest[0] == ';'
    ensures ReadParameter(Quoted(v) + rest, Some(cap)) == Got(v, rest)
  {
    var s := Quoted(v) + rest;
    assert s[0] == '"' && s[1..] == Quote(v) + "\"" + rest;
    ReadQuotedUndoesQuote(v, rest, '"', "", cap);
    assert "" + v == v;
  }

  lemma {:induction false} TokenLengthStops(key: string, x: string)
    requires forall i :: 0 <= i < |key| ==> TokenChar(key[i])
    requires x != [] && !TokenChar(x[0])
    ensures TokenLength(key + x) == |key|
  {
    if key == [] {
      assert key + x == x;
    } else {
      assert (key + x)[1..] == key[1..] + x;
      TokenLengthStops(key[1..], x);
    }
  }

  lemma KeyUndoesPrint(key: string, x: string)
    requires HeaderNameValid(key)
    ensures ReadKey("; " + key + "=" + x) == Key(key, x)
  {
    var s := "; " + key + "=" + x;
    var t := key + "=" + x;
    assert s[1..][0] == ' ' && s[1..][1..] == t;
    assert t[0] == key[0] && !Ows(key[0]);
    assert SkipOws(s[1..]) == t;
    TokenLengthStops(key, "=" + x);
    assert t == key + ("=" + x);
    assert t[..|key|] == key && t[|key|..] == "=" + x;
  }

  lemma FilenameUndoesPrint(l: Limits, n: string, f: string)
    requires Plain(f) && |f| <= l.maxFilenameBytes
    ensures DispositionParams(l, "; filename=" + Quoted(f), Some(n), None) == FormData(n, Some(f))
  {
    var s := "; " + "filename" + "=" + (Quoted(f) + "");
    assert "; filename=" + Quoted(f) == s;
    KeyUndoesPrint("filename", Quoted(f) + "");
    ParameterUndoesQuote(f, "", l.maxFilenameBytes);
    assert !IEq("filename", "name");
    assert DispositionParams(l, s, Some(n), None) == DispositionParams(l, "", Some(n), Some(f));
  }

  lemma NameUndoesPrint(l: Limits, n: string, tail: string)
    requires n != [] && Plain(n) && |n| <= l.maxNameBytes && (tail == [] || tail[0] == ';')
    ensures DispositionParams(l, "; name=" + Quoted(n) + tail, None, None) ==
            DispositionParams(l, tail, Some(n), None)
  {
    var s := "; " + "name" + "=" + (Quoted(n) + tail);
    assert "; name=" + Quoted(n) + tail == s;
    KeyUndoesPrint("name", Quoted(n) + tail);
    ParameterUndoesQuote(n, tail, l.maxNameBytes);
  }

  lemma ParamsListUndoesPrint(l: Limits, n: string, f: Option<string>, tail: string)
    requires n != [] && Plain(n) && |n| <= l.maxNameBytes
    requires f.Some? ==> Plain(f.value) && |f.value| <= l.maxFilenameBytes
    requires tail == if f.Some? then "; filename=" + Quoted(f.value) else ""
    ensures DispositionParams(l, "; name=" + Quoted(n) + tail, None, None) == FormData(n, f)
  {
    NameUndoesPrint(l, n, tail);
    if f.Some? {
      FilenameUndoesPrint(l, n, f.value);
    }
  }

  lemma TypeUndoesPrint(params: string)
    requires params != [] && params[0] == ';'
    ensures AfterType("form-data" + params, "form-data") == Some(params)
  {
    var value := "form-data" + params;
    IndexOfUnique(value, ';', 9);
    assert value[..9] == "form-data" && value[9..] == params;
    assert value[0] == 'f';
  }

  lemma ParamsUndoPrint(l: Limits, p: Part)
    requires Printable(l, p)
    ensures ParseDisposition(l, DispositionValue(p)) == FormData(p.name, p.filename)
  {
    var tail := FilenameParam(p);
    TypeUndoesPrint("; name=" + Quoted(p.name) + tail);
    ParamsListUndoesPrint(l, p.name, p.filename, tail);
  }

  // ------------------------------------------------------------ header lines

  lemma {:induction false} FindCrlfAfterLine(line: string, rest: string)
    requires CR !in line
    ensures FindCrlf(line + CRLF + rest) == |line|
    decreases |line|
  {
    var h := line + CRLF + rest;
    if line != [] {
      assert h[0] == line[0];
      assert h[1..] == line[1..] + CRLF + rest;
      FindCrlfAfterLine(line[1..], rest);
    }
  }

  /** The line loop reads a printed line back as its name and value. */
  lemma LineUndoesPrint(name: string, value: string, rest: string)
    requires HeaderNameValid(name) && Trimmed(value)
    ensures var h := Line(name, value) + CRLF + rest;
      var k := |Line(name, value)|;
      var c := |name|;
      && FindCrlf(h) == k && 0 < c < k
      && h[..k] == Line(name, value) && h[k + 2..] == rest
      && IndexOf(h[..k], ':') == c && h[..k][..c] == name
      && TrimRight(SkipOws(h[..k][c + 1..])) == value
  {
    var line := Line(name, value);
    var h := line + CRLF + rest;
    forall i | 0 <= i < |line| ensures line[i] != CR {
      if i < |name| {
        assert line[i] == name[i] && TokenChar(name[i]);
      } else if i >= |name| + 2 {
        assert line[i] == value[i - |name| - 2];
      }
    }
    FindCrlfAfterLine(line, rest);
    assert h[..|line|] == line;
    forall i | 0 <= i < |name| ensures line[i] != ':' {
      assert line[i] == name[i] && TokenChar(name[i]);
    }
    IndexOfUnique(line, ':', |name|);
    assert line[..|name|] == name;
    var v := line[|name| + 1..];
    assert v[0] == ' ' && v[1..] == value;
    assert SkipOws(v) == value;
  }

  lemma DispositionTrimmed(l: Limits, p: Part)
    requires Printable(l, p)
    ensures Trimmed(DispositionValue(p))
  {
    QuotePlain(p.name);
    var head := "; name=" + Quoted(p.name);
    assert HeaderValueValid(head) && head[|head| - 1] == '"';
    var tail := FilenameParam(p);
    if p.filename.Some? {
      QuotePlain(p.filename.value);
      assert HeaderValueValid(tail) && tail[|tail| - 1] == '"';
    }
    assert HeaderValueValid(head + tail) && (head + tail)[|head + tail| - 1] == '"';
    assert DispositionValue(p)[0] == 'f';
  }

  /** A printed line is read as one field, whatever follows. */
  lemma LineIsField(l: Limits, name: string, value: string, rest: string, count: nat,
                    d: Option<(string, Option<string>)>, t: Option<string>)
    requires HeaderNameValid(name) && Trimmed(value) && count < l.maxHeaderCount
    ensures HeaderLines(l, Line(name, value) + CRLF + rest, count, d, t) == HeaderField(l, name, value, rest, count, d, t)
  {
    LineUndoesPrint(name, value, rest);
  }

  lemma DispositionField(l: Limits, name: string, v: string, rest: string, n: string, f: Option<string>)
    requires HeaderNameValid(name) && IEq(name, "Content-Disposition") && 1 <= l.maxHeaderCount
    requires Trimmed(v) && ParseDisposition(l, v) == FormData(n, f)
    ensures HeaderLines(l, Line(name, v) + CRLF + rest, 0, None, None) == HeaderLines(l, rest, 1, Some((n, f)), None)
  {
    LineIsField(l, name, v, rest, 0, None, None);
  }

  lemma DispositionName()
    ensures HeaderNameValid("Content-Disposition") && IEq("Content-Disposition", "Content-Disposition")
  {
  }

  lemma DispositionLine(l: Limits, v: string, rest: string, n: string, f: Option<string>)
    requires Trimmed(v) && ParseDisposition(l, v) == FormData(n, f) && 1 <= l.maxHeaderCount
    ensures HeaderLines(l, Line("Content-Disposition", v) + CRLF + rest, 0, None, None) ==
            HeaderLines(l, rest, 1, Some((n, f)), None)
  {
    DispositionName();
    DispositionField(l, "Content-Disposition", v, rest, n, f);
  }

  lemma ContentTypeLine(l: Limits, v: string, rest: string, d: (string, Option<string>))
    requires Trimmed(v) && |v| <= l.maxContentTypeBytes && 2 <= l.maxHeaderCount
    ensures HeaderLines(l, Line("Content-Type", v) + CRLF + rest, 1, Some(d), None) ==
            HeaderLines(l, rest, 2, Some(d), Some(v))
  {
    LineIsField(l, "Content-Type", v, rest, 1, Some(d), None);
    assert !IEq("Content-Type", "Content-Disposition");
  }

  /** Reading a printed header block gives back the part. */
  lemma HeaderUndoesPrint(l: Limits, p: Part)
    requires Printable(l, p)
    ensures ParseHeaderBlock(l, PrintHeader(p)) == BlockPart(p)
  {
    var d := DispositionValue(p);
    DispositionTrimmed(l, p);
    ParamsUndoPrint(l, p);
    if p.contentType.Some? {
      TypedBlock(l, p, d, p.contentType.value);
    } else {
      DispositionLine(l, d, CRLF, p.name, p.filename);
      assert PrintHeader(p) == Line("Content-Disposition", d) + CRLF + CRLF;
    }
  }

  lemma TypedBlock(l: Limits, p: Part, d: string, t: string)
    requires p.contentType == Some(t) && d == DispositionValue(p) && Trimmed(d) && ParseDisposition(l, d) == FormData(p.name, p.filename)
    requires Trimmed(t) && |t| <= l.maxContentTypeBytes && 2 <= l.maxHeaderCount
    ensures HeaderLines(l, PrintHeader(p), 0, None, None) == BlockPart(p)
  {
    var rest := Line("Content-Type", t) + CRLF + CRLF;
    assert PrintHeader(p) == Line("Content-Disposition", d) + CRLF + rest;
    DispositionLine(l, d, rest, p.name, p.filename);
    ContentTypeLine(l, t, CRLF, (p.name, p.filename));
    assert HeaderLines(l, CRLF, 2, Some((p.name, p.filename)), Some(t)) == BlockPart(p);
  }
}
