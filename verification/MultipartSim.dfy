/**
 Forward simulation between two sets of parser callbacks: as long as the first
 accepts and nothing bad has happened to its user state, the second parser goes
 through the same states, and their user states stay related. `inside` tells
 whether a part is open.
 */
module MultipartSim {
  import opened Octets
  import opened MultipartHeaders
  import opened Multipart

  type Relation<!U, !V> = (bool, U, V) -> bool

  ghost predicate Simulates<U(!new), V(!new)>(k: Callbacks<U>, l: Callbacks<V>, rel: Relation<U, V>, bad: U -> bool) {
    && (forall u: U, v: V, p: Part :: rel(false, u, v) && k.begin(u, p).ok && !bad(k.begin(u, p).user) ==>
          l.begin(v, p).ok && rel(true, k.begin(u, p).user, l.begin(v, p).user))
    && (forall u: U, v: V, d: string :: rel(true, u, v) && k.data(u, d).ok && !bad(k.data(u, d).user) ==>
          l.data(v, d).ok && rel(true, k.data(u, d).user, l.data(v, d).user))
    && (forall u: U, v: V :: rel(true, u, v) && k.end(u).ok && !bad(k.end(u).user) ==>
          l.end(v).ok && rel(false, k.end(u).user, l.end(v).user))
  }

  /** What is bad stays bad. */
  ghost predicate Absorbing<U(!new)>(k: Callbacks<U>, bad: U -> bool) {
    && (forall u: U, p: Part :: bad(u) ==> bad(k.begin(u, p).user))
    && (forall u: U, d: string :: bad(u) ==> bad(k.data(u, d).user))
    && (forall u: U :: bad(u) ==> bad(k.end(u).user))
  }

  /** The two parsers differ in their user state only. */
  ghost predicate Paired<U, V>(rel: Relation<U, V>, s: State<U>, t: State<V>) {
    && t == State(s.phase, s.initialIndex, s.header, s.pending, s.suffixState, s.currentFile,
                  s.fieldBytes, s.partCount, s.total, t.user)
    && rel(s.phase == Body || s.phase == Suffix, s.user, t.user)
  }

  ghost predicate PairedOutcome<U, V>(rel: Relation<U, V>, bad: U -> bool, x: Outcome<U>, y: Outcome<V>) {
    x.status == Ok && !bad(x.s.user) ==> y.status == Ok && Paired(rel, x.s, y.s)
  }

  ghost predicate Setup<U(!new), V(!new)>(c: Config<U>, d: Config<V>, rel: Relation<U, V>, bad: U -> bool) {
    c.boundary == d.boundary && c.limits == d.limits && Simulates(c.callbacks, d.callbacks, rel, bad) && Absorbing(c.callbacks, bad)
  }

  lemma StepAbsorbs<U(!new)>(c: Config<U>, bad: U -> bool, s: State<U>, b: char)
    requires Absorbing(c.callbacks, bad) && bad(s.user) && s.phase != Body
    ensures bad(Step(c, s, b).s.user)
  {
    if s.phase == Headers {
      var t := s.(header := s.header + [b]);
      assert HeaderByte(c, s, b).s.user == s.user || HeaderByte(c, s, b) == BeginPart(c, t);
      BeginAbsorbs(c, bad, t);
    }
  }

  lemma BeginAbsorbs<U(!new)>(c: Config<U>, bad: U -> bool, s: State<U>)
    requires Absorbing(c.callbacks, bad) && bad(s.user)
    ensures bad(BeginPart(c, s).s.user)
  {
  }

  /** Whatever is fed to it. */
  lemma {:induction false} FeedAbsorbs<U(!new)>(c: Config<U>, bad: U -> bool, s: State<U>, x: string)
    requires Absorbing(c.callbacks, bad) && bad(s.user)
    ensures bad(FeedLoop(c, s, x).s.user)
    decreases |x|, |s.pending|
  {
    if x == [] {
    } else if s.phase == Body && s.pending == [] {
      var n := IndexOf(x, CR);
      if n > 0 {
        var o := Emit(c, s, x[..n]);
        if o.status == Ok {
          FeedAbsorbs(c, bad, o.s.(total := o.s.total + n), x[n..]);
        }
      } else {
        FeedAbsorbs(c, bad, s.(pending := [CR], total := s.total + 1), x[1..]);
      }
    } else if s.phase == Body && !Matches(c, s, x[0]) {
      var o := Emit(c, s, s.pending);
      if o.status == Ok {
        FeedAbsorbs(c, bad, o.s.(pending := ""), x);
      }
    } else if s.phase == Body {
      FeedAbsorbs(c, bad, Advance(c, s, x[0]), x[1..]);
    } else {
      StepAbsorbs(c, bad, s, x[0]);
      var o := Step(c, s, x[0]);
      if o.status == Ok {
        FeedAbsorbs(c, bad, o.s, x[1..]);
      }
    }
  }

  lemma {:induction false} ChunksAbsorb<U(!new)>(c: Config<U>, bad: U -> bool, s: State<U>, chunks: seq<string>)
    requires Absorbing(c.callbacks, bad) && bad(s.user)
    ensures bad(ParseChunks(c, s, chunks).s.user)
    decreases |chunks|
  {
    if chunks != [] {
      FeedAbsorbs(c, bad, s, chunks[0]);
      var o := FeedCall(c, s, chunks[0]);
      if o.status == Ok {
        ChunksAbsorb(c, bad, o.s, chunks[1..]);
      }
    }
  }

  lemma EmitSim<U(!new), V(!new)>(c: Config<U>, d: Config<V>, rel: Relation<U, V>, bad: U -> bool, s: State<U>, t: State<V>, x: string)
    requires Setup(c, d, rel, bad) && Paired(rel, s, t) && s.phase == Body
    ensures PairedOutcome(rel, bad, Emit(c, s, x), Emit(d, t, x))
    ensures Emit(c, s, x).status == Ok ==> Emit(c, s, x).s.phase == Body
  {
  }

  lemma AdmitSim<U(!new), V(!new)>(c: Config<U>, d: Config<V>, rel: Relation<U, V>, bad: U -> bool, s: State<U>, t: State<V>, p: Part)
    requires Setup(c, d, rel, bad) && Paired(rel, s, t) && s.phase == Headers
    ensures PairedOutcome(rel, bad, AdmitPart(c, s, p), AdmitPart(d, t, p))
  {
  }

  lemma HeaderSim<U(!new), V(!new)>(c: Config<U>, d: Config<V>, rel: Relation<U, V>, bad: U -> bool, s: State<U>, t: State<V>, b: char)
    requires Setup(c, d, rel, bad) && Paired(rel, s, t) && s.phase == Headers
    ensures PairedOutcome(rel, bad, HeaderByte(c, s, b), HeaderByte(d, t, b))
  {
    var s1, t1 := s.(header := s.header + [b]), t.(header := t.header + [b]);
    match ParseHeaderBlock(c.limits, s1.header)
    case BlockPart(p) => AdmitSim(c, d, rel, bad, s1, t1, p);
    case _ =>
  }

  lemma SuffixSim<U(!new), V(!new)>(c: Config<U>, d: Config<V>, rel: Relation<U, V>, bad: U -> bool, s: State<U>, t: State<V>, b: char)
    requires Setup(c, d, rel, bad) && Paired(rel, s, t) && s.phase == Suffix
    ensures PairedOutcome(rel, bad, SuffixByte(c, s, b), SuffixByte(d, t, b))
  {
  }

  lemma StepSim<U(!new), V(!new)>(c: Config<U>, d: Config<V>, rel: Relation<U, V>, bad: U -> bool, s: State<U>, t: State<V>, b: char)
    requires Setup(c, d, rel, bad) && Paired(rel, s, t) && s.phase != Body
    ensures PairedOutcome(rel, bad, Step(c, s, b), Step(d, t, b))
  {
    match s.phase
    case Headers => HeaderSim(c, d, rel, bad, s, t, b);
    case Suffix => SuffixSim(c, d, rel, bad, s, t, b);
    case _ =>
  }

  lemma {:induction false} FeedSim<U(!new), V(!new)>(c: Config<U>, d: Config<V>, rel: Relation<U, V>, bad: U -> bool,
                                                     s: State<U>, t: State<V>, x: string)
    requires Setup(c, d, rel, bad) && Paired(rel, s, t)
    ensures PairedOutcome(rel, bad, FeedLoop(c, s, x), FeedLoop(d, t, x))
    decreases |x|, |s.pending|
  {
    if x == [] {
    } else if s.phase == Body && s.pending == [] {
      RunSim(c, d, rel, bad, s, t, x);
    } else if s.phase == Body && !Matches(c, s, x[0]) {
      MismatchSim(c, d, rel, bad, s, t, x);
    } else {
      OctetSim(c, d, rel, bad, s, t, x);
    }
  }

  /** An octet of a header, of a suffix, or of the delimiter. */
  lemma {:induction false} OctetSim<U(!new), V(!new)>(c: Config<U>, d: Config<V>, rel: Relation<U, V>, bad: U -> bool,
                                                      s: State<U>, t: State<V>, x: string)
    requires Setup(c, d, rel, bad) && Paired(rel, s, t) && x != []
    requires s.phase == Body ==> s.pending != [] && Matches(c, s, x[0])
    ensures PairedOutcome(rel, bad, FeedLoop(c, s, x), FeedLoop(d, t, x))
    decreases |x|, |s.pending|, 1
  {
    var o, e := Step(c, s, x[0]), Step(d, t, x[0]);
    assert FeedLoop(c, s, x) == if o.status != Ok then o else FeedLoop(c, o.s, x[1..]);
    assert FeedLoop(d, t, x) == if e.status != Ok then e else FeedLoop(d, e.s, x[1..]);
    StepPaired(c, d, rel, bad, s, t, x[0]);
    if o.status == Ok {
      if bad(o.s.user) {
        FeedAbsorbs(c, bad, o.s, x[1..]);
      } else {
        FeedSim(c, d, rel, bad, o.s, e.s, x[1..]);
      }
    }
  }

  lemma StepPaired<U(!new), V(!new)>(c: Config<U>, d: Config<V>, rel: Relation<U, V>, bad: U -> bool, s: State<U>, t: State<V>, b: char)
    requires Setup(c, d, rel, bad) && Paired(rel, s, t)
    requires s.phase == Body ==> s.pending != [] && Matches(c, s, b)
    ensures PairedOutcome(rel, bad, Step(c, s, b), Step(d, t, b))
  {
    if s.phase != Body {
      StepSim(c, d, rel, bad, s, t, b);
    }
  }

  /** A run of octets that cannot start a delimiter. */
  lemma {:induction false} RunSim<U(!new), V(!new)>(c: Config<U>, d: Config<V>, rel: Relation<U, V>, bad: U -> bool,
                                                    s: State<U>, t: State<V>, x: string)
    requires Setup(c, d, rel, bad) && Paired(rel, s, t) && x != [] && s.phase == Body && s.pending == []
    ensures PairedOutcome(rel, bad, FeedLoop(c, s, x), FeedLoop(d, t, x))
    decreases |x|, |s.pending|, 1
  {
    var n := IndexOf(x, CR);
    if n > 0 {
      EmitSim(c, d, rel, bad, s, t, x[..n]);
      var o, e := Emit(c, s, x[..n]), Emit(d, t, x[..n]);
      if o.status == Ok {
        RestSim(c, d, rel, bad, o.s.(total := o.s.total + n), e.s.(total := e.s.total + n), x[n..], x, s);
      }
    } else {
      FeedSim(c, d, rel, bad, s.(pending := [CR], total := s.total + 1), t.(pending := [CR], total := t.total + 1), x[1..]);
    }
  }

  /** A delimiter that turns out not to be one. */
  lemma {:induction false} MismatchSim<U(!new), V(!new)>(c: Config<U>, d: Config<V>, rel: Relation<U, V>, bad: U -> bool,
                                                         s: State<U>, t: State<V>, x: string)
    requires Setup(c, d, rel, bad) && Paired(rel, s, t) && x != [] && s.phase == Body && s.pending != [] && !Matches(c, s, x[0])
    ensures PairedOutcome(rel, bad, FeedLoop(c, s, x), FeedLoop(d, t, x))
    decreases |x|, |s.pending|, 1
  {
    EmitSim(c, d, rel, bad, s, t, s.pending);
    var o, e := Emit(c, s, s.pending), Emit(d, t, t.pending);
    if o.status == Ok {
      RestSim(c, d, rel, bad, o.s.(pending := ""), e.s.(pending := ""), x, x, s);
    }
  }

  /** The rest of the octets after a callback: nothing is left to say once something bad has happened. */
  lemma {:induction false} RestSim<U(!new), V(!new)>(c: Config<U>, d: Config<V>, rel: Relation<U, V>, bad: U -> bool,
                                                     s: State<U>, t: State<V>, x: string, whole: string, before: State<U>)
    requires Setup(c, d, rel, bad) && (!bad(s.user) ==> Paired(rel, s, t))
    requires |x| < |whole| || (|x| == |whole| && |s.pending| < |before.pending|)
    ensures PairedOutcome(rel, bad, FeedLoop(c, s, x), FeedLoop(d, t, x))
    decreases |whole|, |before.pending|, 0
  {
    if bad(s.user) {
      FeedAbsorbs(c, bad, s, x);
    } else {
      FeedSim(c, d, rel, bad, s, t, x);
    }
  }

  /** An accepted chunked parse to which nothing bad happened is matched by an accepted parse with related results. */
  lemma {:induction false} ChunksSim<U(!new), V(!new)>(c: Config<U>, d: Config<V>, rel: Relation<U, V>, bad: U -> bool,
                                                       s: State<U>, t: State<V>, chunks: seq<string>)
    requires Setup(c, d, rel, bad) && Paired(rel, s, t)
    ensures PairedOutcome(rel, bad, ParseChunks(c, s, chunks), ParseChunks(d, t, chunks))
    decreases |chunks|
  {
    if chunks != [] {
      FeedSim(c, d, rel, bad, s, t, chunks[0]);
      var o, e := FeedCall(c, s, chunks[0]), FeedCall(d, t, chunks[0]);
      if o.status == Ok {
        if bad(o.s.user) {
          ChunksAbsorb(c, bad, o.s, chunks[1..]);
        } else {
          ChunksSim(c, d, rel, bad, o.s, e.s, chunks[1..]);
        }
      }
    }
  }
}
