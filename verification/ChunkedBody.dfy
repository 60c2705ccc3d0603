/**
 Streaming a request body of HTTP/1.1: chunk framing inside one fixed buffer for
 bodies of unknown length, plain pieces up to the declared count otherwise.
 `Decode` is the receiver of section 7.1 of RFC 9112.
 */
module ChunkedBody {
  import opened Octets

  const PREFIX_BYTES: nat := 20
  const OVERHEAD_BYTES: nat := 22
  const SIZE_MAX: nat := 0xFFFF_FFFF_FFFF_FFFF
  const FINAL_CHUNK := "0\r\n\r\n"

  // ---------------------------------------------------------------- hexadecimal

  function HexDigit(d: nat): (c: char)
    requires d < 16
    ensures HexDigitValue(c) == Some(d)
  {
    if d < 10 then ('0' as int + d) as char else ('a' as int + d - 10) as char
  }

  function HexDigitValue(c: char): (r: Option<nat>)
    ensures r.Some? ==> r.value < 16
  {
    if '0' <= c <= '9' then Some(c as int - '0' as int)
    else if 'a' <= c <= 'f' then Some(c as int - 'a' as int + 10)
    else if 'A' <= c <= 'F' then Some(c as int - 'A' as int + 10)
    else None
  }

  /** `%zx` */
  function Hex(n: nat): (s: string)
    ensures s != []
    ensures forall i :: 0 <= i < |s| ==> HexDigitValue(s[i]).Some?
  {
    if n < 16 then [HexDigit(n)] else Hex(n / 16) + [HexDigit(n % 16)]
  }

  function HexValue(s: string): nat
    requires forall i :: 0 <= i < |s| ==> HexDigitValue(s[i]).Some?
  {
    if s == [] then 0 else 16 * HexValue(s[..|s| - 1]) + HexDigitValue(s[|s| - 1]).value
  }

  lemma {:induction false} HexValueOfHex(n: nat)
    ensures HexValue(Hex(n)) == n
  {
    if n < 16 {
      assert Hex(n)[..0] == "";
      assert HexValue("") == 0;
    } else {
      HexValueOfHex(n / 16);
      assert Hex(n)[..|Hex(n)| - 1] == Hex(n / 16);
    }
  }

  function Pow16(k: nat): nat {
    if k == 0 then 1 else 16 * Pow16(k - 1)
  }

  lemma {:induction false} HexLength(n: nat, k: nat)
    requires k > 0 && n < Pow16(k)
    ensures |Hex(n)| <= k
  {
    if n >= 16 {
      assert k > 1;
      HexLength(n / 16, k - 1);
    }
  }

  /** The prefix of any chunk of a 64-bit size fits the reserved space. */
  lemma PrefixFits(n: nat)
    requires n <= SIZE_MAX
    ensures |Hex(n)| + 2 < PREFIX_BYTES
  {
    assert Pow16(4) == 0x1_0000;
    assert Pow16(8) == 0x1_0000 * Pow16(4) by { assert Pow16(6) == 256 * Pow16(4); }
    assert Pow16(12) == 0x1_0000 * Pow16(8) by { assert Pow16(10) == 256 * Pow16(8); }
    assert Pow16(16) == 0x1_0000 * Pow16(12) by { assert Pow16(14) == 256 * Pow16(12); }
    HexLength(n, 16);
  }

  // ------------------------------------------------------- framing and decoding

  function Chunk(d: string): string {
    Hex(|d|) + CRLF + d + CRLF
  }

  function Frames(pieces: seq<string>): string {
    if pieces == [] then "" else Chunk(pieces[0]) + Frames(pieces[1..])
  }

  lemma {:induction false} FramesSnoc(pieces: seq<string>, d: string)
    ensures Frames(pieces + [d]) == Frames(pieces) + Chunk(d)
  {
    var c := Chunk(d);
    if pieces == [] {
      assert pieces + [d] == [d] && [d][1..] == [];
      assert Frames([d]) == c + Frames([]);
    } else {
      var first, rest := Chunk(pieces[0]), Frames(pieces[1..]);
      FramesSnoc(pieces[1..], d);
      assert (pieces + [d])[0] == pieces[0] && (pieces + [d])[1..] == pieces[1..] + [d];
      assert first + (rest + c) == (first + rest) + c;
    }
  }

  function HexRun(s: string): (k: nat)
    ensures k <= |s|
    ensures forall i :: 0 <= i < k ==> HexDigitValue(s[i]).Some?
    ensures k < |s| ==> HexDigitValue(s[k]).None?
  {
    if s != [] && HexDigitValue(s[0]).Some? then 1 + HexRun(s[1..]) else 0
  }

  /** chunked-body without extensions and trailers, to the end of the input. */
  function Decode(w: string): Option<string>
    decreases |w|
  {
    var k := HexRun(w);
    if k == 0 || |w| < k + 2 || w[k..k + 2] != CRLF then None
    else
      var n, r := HexValue(w[..k]), w[k + 2..];
      if n == 0 then if r == CRLF then Some("") else None
      else if |r| < n + 2 || r[n..n + 2] != CRLF then None
      else
        match Decode(r[n + 2..])
        case None => None
        case Some(tail) => Some(r[..n] + tail)
  }

  lemma {:induction false} HexRunStops(h: string, x: string)
    requires forall i :: 0 <= i < |h| ==> HexDigitValue(h[i]).Some?
    requires x != [] && HexDigitValue(x[0]).None?
    ensures HexRun(h + x) == |h|
  {
    if h == [] {
      assert h + x == x;
    } else {
      assert (h + x)[1..] == h[1..] + x;
      HexRunStops(h[1..], x);
    }
  }

  lemma DecodeChunk(d: string, rest: string)
    requires d != []
    ensures Decode(Chunk(d) + rest) ==
      match Decode(rest) case None => None case Some(tail) => Some(d + tail)
  {
    var h := Hex(|d|);
    ChunkParts(h, d, rest);
    HexRunStops(h, CRLF + d + CRLF + rest);
    HexValueOfHex(|d|);
  }

  lemma ChunkParts(h: string, d: string, rest: string)
    ensures var w, k := (h + CRLF + d + CRLF) + rest, |h|;
      && w == h + (CRLF + d + CRLF + rest)
      && |w| >= k + 2 && w[..k] == h && w[k..k + 2] == CRLF && PieceParts(w[k + 2..], d, rest)
  {
    var w := (h + CRLF + d + CRLF) + rest;
    assert w[|h| + 2..] == d + CRLF + rest;
  }

  predicate PieceParts(r: string, d: string, rest: string) {
    |r| >= |d| + 2 && r[..|d|] == d && r[|d|..|d| + 2] == CRLF && r[|d| + 2..] == rest
  }

  lemma DecodeFinal()
    ensures Decode(FINAL_CHUNK) == Some("")
  {
    assert HexRun(FINAL_CHUNK[1..]) == 0;
    assert HexRun(FINAL_CHUNK) == 1;
    assert FINAL_CHUNK[1..3] == CRLF && FINAL_CHUNK[3..] == CRLF;
    assert FINAL_CHUNK[..1] == "0" && "0"[..0] == "";
    assert HexValue("") == 0;
  }

  /** The receiver gets exactly the data read, however the source cut it. */
  lemma {:induction false} DecodeUndoesFrames(pieces: seq<string>)
    requires forall i :: 0 <= i < |pieces| ==> pieces[i] != []
    ensures Decode(Frames(pieces) + FINAL_CHUNK) == Some(Concat(pieces))
  {
    if pieces == [] {
      assert Frames(pieces) + FINAL_CHUNK == FINAL_CHUNK;
      DecodeFinal();
    } else {
      var rest := Frames(pieces[1..]) + FINAL_CHUNK;
      assert Frames(pieces) + FINAL_CHUNK == Chunk(pieces[0]) + rest;
      DecodeUndoesFrames(pieces[1..]);
      DecodeChunk(pieces[0], rest);
    }
  }

  /** No proper prefix made of whole chunks is a complete body: the final chunk ends it. */
  lemma {:induction false} FramesAloneIncomplete(pieces: seq<string>)
    requires forall i :: 0 <= i < |pieces| ==> pieces[i] != []
    ensures Decode(Frames(pieces)) == None
  {
    if pieces != [] {
      FramesAloneIncomplete(pieces[1..]);
      DecodeChunk(pieces[0], Frames(pieces[1..]));
    }
  }

  // ------------------------------------------------------------ in-place framing

  /** Copies `s` into the buffer at `at`; nothing else changes. */
  method Put(buffer: array<char>, at: nat, s: string)
    requires at + |s| <= buffer.Length
    modifies buffer
    ensures buffer[..] == old(buffer[..at]) + s + old(buffer[at + |s|..])
  {
    for i := 0 to |s|
      invariant buffer[at..at + i] == s[..i]
      invariant buffer[..at] == old(buffer[..at]) && buffer[at + i..] == old(buffer[at + i..])
    {
      buffer[at + i] := s[i];
    }
  }

  /** Stores `s` at the cursor, behind `text`: the cursor after it. */
  method Copy(data: array<char>, cursor: nat, s: string, ghost text: string) returns (next: nat)
    requires cursor + |s| <= data.Length && data[..cursor] == text
    modifies data
    ensures next == cursor + |s| && data[..next] == text + s
  {
    ghost var before := data[..];
    Put(data, cursor, s);
    next := cursor + |s|;
    assert data[..next] == data[..][..next] == before[..cursor] + s;
  }

  /** memmove of the first `n` octets of the buffer up to `to`. */
  method MoveUp(buffer: array<char>, n: nat, to: nat)
    requires to + n <= buffer.Length
    modifies buffer
    ensures buffer[..] == old(buffer[..to]) + old(buffer[..n]) + old(buffer[to + n..])
  {
    var i := n;
    while i > 0
      invariant 0 <= i <= n
      invariant buffer[..to + i] == old(buffer[..to + i])
      invariant buffer[to + i..to + n] == old(buffer[i..n])
      invariant buffer[to + n..] == old(buffer[to + n..])
    {
      i := i - 1;
      buffer[to + i] := buffer[i];
    }
  }

  /** What printing, moving and terminating do to a buffer holding `b`. */
  lemma FramedInPlace(b: string, b1: string, b2: string, b3: string, prefix: string, n: nat)
    requires |prefix| <= PREFIX_BYTES && PREFIX_BYTES + n + 2 <= |b|
    requires b1 == prefix + b[|prefix|..]
    requires b2 == b1[..PREFIX_BYTES - |prefix|] + b1[..|prefix|] + b1[PREFIX_BYTES..]
    requires b3 == b2[..PREFIX_BYTES + n] + CRLF + b2[PREFIX_BYTES + n + 2..]
    ensures |b3| == |b|
    ensures b3[PREFIX_BYTES..PREFIX_BYTES + n] == b[PREFIX_BYTES..PREFIX_BYTES + n]
    ensures b3[PREFIX_BYTES - |prefix|..PREFIX_BYTES + n + 2] == prefix + b[PREFIX_BYTES..PREFIX_BYTES + n] + CRLF
  {
    assert b1[..|prefix|] == prefix;
    assert b1[PREFIX_BYTES..] == b[PREFIX_BYTES..];
    assert b2[PREFIX_BYTES..] == b[PREFIX_BYTES..];
    assert b2[PREFIX_BYTES - |prefix|..PREFIX_BYTES] == prefix;
    assert forall i :: PREFIX_BYTES <= i < |b| ==> b2[i] == b2[PREFIX_BYTES..][i - PREFIX_BYTES];
    assert forall i :: PREFIX_BYTES <= i < |b| ==> b[PREFIX_BYTES..][i - PREFIX_BYTES] == b[i];
  }

  /**
   Frames the payload already in the buffer: the size line is printed at the
   start and moved up against the payload, the CR LF goes after it. The payload
   is not touched, and the framed chunk is contiguous.
   */
  method FrameChunk(buffer: array<char>, produced: nat) returns (offset: nat, size: nat)
    requires 0 < produced <= SIZE_MAX && PREFIX_BYTES + produced + 2 <= buffer.Length
    modifies buffer
    ensures offset + size <= buffer.Length
    ensures buffer[offset..offset + size] == Chunk(old(buffer[PREFIX_BYTES..PREFIX_BYTES + produced]))
    ensures buffer[PREFIX_BYTES..PREFIX_BYTES + produced] == old(buffer[PREFIX_BYTES..PREFIX_BYTES + produced])
  {
    ghost var b := buffer[..];
    var prefix := Hex(produced) + CRLF;
    PrefixFits(produced);
    Put(buffer, 0, prefix);
    ghost var b1 := buffer[..];
    assert b1 == prefix + b[|prefix|..];
    offset := PREFIX_BYTES - |prefix|;
    MoveUp(buffer, |prefix|, offset);
    ghost var b2 := buffer[..];
    assert b2 == b1[..offset] + b1[..|prefix|] + b1[PREFIX_BYTES..];
    Put(buffer, PREFIX_BYTES + produced, CRLF);
    ghost var b3 := buffer[..];
    assert b3 == b2[..PREFIX_BYTES + produced] + CRLF + b2[PREFIX_BYTES + produced + 2..];
    FramedInPlace(b, b1, b2, b3, prefix, produced);
    size := |prefix| + produced + 2;
    assert buffer[offset..offset + size] == b3[offset..offset + size];
  }
}
