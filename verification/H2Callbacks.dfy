/**
 The response callbacks as the source runs them: flags updated in place and header
 text copied into one fixed storage, which the delivered headers point into.
 */
module H2Callbacks {
  import opened Octets
  import opened ChunkedBody
  import opened H2Response

  /** A stored text, as a reader that stops at the terminator sees it. */
  predicate TextAt(storage: seq<char>, at: nat, text: string) {
    && at + |text| < |storage|
    && storage[at..at + |text|] == text && storage[at + |text|] == NUL
  }

  /** The terminated text that starts at a position. */
  function CString(storage: seq<char>, at: nat): string
    requires at <= |storage|
  {
    storage[at..at + IndexOf(storage[at..], NUL)]
  }

  /** Reading to the first terminator gives back a text that has none inside. */
  lemma TextReadsBack(storage: seq<char>, at: nat, text: string)
    requires TextAt(storage, at, text) && NUL !in text
    ensures CString(storage, at) == text
  {
    var tail := storage[at..];
    assert tail[..|text|] == text && tail[|text|] == NUL;
    forall i | 0 <= i < |text|
      ensures tail[i] != NUL
    {
      assert tail[i] == text[i];
    }
    IndexOfUnique(tail, NUL, |text|);
  }

  lemma TextKept(a: seq<char>, b: seq<char>, used: nat, at: nat, text: string)
    requires used <= |a| == |b| && a[..used] == b[..used] && TextAt(a, at, text) && at + |text| < used
    ensures TextAt(b, at, text)
  {
    assert a[at..at + |text|] == a[..used][at..at + |text|] && b[at..at + |text|] == b[..used][at..at + |text|];
    assert a[at + |text|] == a[..used][at + |text|] && b[at + |text|] == b[..used][at + |text|];
  }

  predicate EntryAt(storage: seq<char>, used: nat, entries: seq<(nat, nat)>, fields: seq<Field>, k: nat)
    requires k < |entries| == |fields|
  {
    && entries[k].0 + |fields[k].name| < used && entries[k].1 + |fields[k].value| < used
    && TextAt(storage, entries[k].0, fields[k].name) && TextAt(storage, entries[k].1, fields[k].value)
    && Unbroken(fields[k])
  }

  /** No terminator inside a field. */
  predicate Unbroken(f: Field) {
    NUL !in f.name && NUL !in f.value
  }

  lemma ValidIsUnbroken(f: Field)
    requires NameValid(f.name) && ValueValid(f.value)
    ensures Unbroken(f)
  {
  }

  /** Every field can be read where its entry points. */
  predicate Holds(storage: seq<char>, used: nat, entries: seq<(nat, nat)>, fields: seq<Field>) {
    && used == StoredSize(fields) <= |storage| && |entries| == |fields|
    && forall k :: 0 <= k < |entries| ==> EntryAt(storage, used, entries, fields, k)
  }

  /** Copying one more field behind the others leaves those readable. */
  lemma HoldsMore(a: seq<char>, b: seq<char>, used: nat, entries: seq<(nat, nat)>, fields: seq<Field>, f: Field)
    requires Holds(a, used, entries, fields) && used + Stored(f) <= |a| && Unbroken(f)
    requires b == a[..used] + (f.name + [NUL] + f.value + [NUL]) + a[used + Stored(f)..]
    ensures Holds(b, used + Stored(f), entries + [(used, used + |f.name| + 1)], fields + [f])
  {
    var entries', fields', used' := entries + [(used, used + |f.name| + 1)], fields + [f], used + Stored(f);
    assert fields'[..|fields|] == fields;
    forall k | 0 <= k < |entries'|
      ensures EntryAt(b, used', entries', fields', k)
    {
      if k < |entries| {
        assert EntryAt(a, used, entries, fields, k);
        assert a[..used] == b[..used];
        TextKept(a, b, used, entries[k].0, fields[k].name);
        TextKept(a, b, used, entries[k].1, fields[k].value);
      } else {
        CopiedTexts(a[..used], f, a[used + Stored(f)..], b);
      }
    }
  }

  lemma CopiedTexts(x: seq<char>, f: Field, y: seq<char>, b: seq<char>)
    requires b == x + (f.name + [NUL] + f.value + [NUL]) + y
    ensures TextAt(b, |x|, f.name) && TextAt(b, |x| + |f.name| + 1, f.value)
  {
    var n, v := |x|, |x| + |f.name| + 1;
    assert b[n..n + |f.name|] == f.name;
    assert b[v..v + |f.value|] == f.value;
  }

  class HeaderText {
    const storage: array<char>
    var used: nat
    /** Where each field's name and value were copied to. */
    var entries: seq<(nat, nat)>
    ghost var fields: seq<Field>

    ghost predicate Valid()
      reads this, storage
    {
      Holds(storage[..], used, entries, fields)
    }

    constructor (l: Limits)
      ensures Valid() && fresh(storage) && storage.Length == Capacity(l) && fields == [] && used == 0
    {
      storage := new char[Capacity(l)](_ => NUL);
      used, entries, fields := 0, [], [];
    }

    /** The copy at the end of chttp_h2_on_header. */
    method Add(f: Field)
      requires Valid() && Stored(f) <= storage.Length - used && Unbroken(f)
      modifies this, storage
      ensures Valid() && fields == old(fields) + [f] && used == old(used) + Stored(f)
    {
      ghost var before := storage[..];
      Put(storage, used, f.name + [NUL] + f.value + [NUL]);
      HoldsMore(before, storage[..], used, entries, fields, f);
      entries := entries + [(used, used + |f.name| + 1)];
      used := used + Stored(f);
      fields := fields + [f];
    }

    /** What the application reads through a delivered header's pointers is the field. */
    lemma HeaderReadsBack(k: nat)
      requires Valid() && k < |entries|
      ensures |fields| == |entries| && entries[k].0 <= storage.Length && entries[k].1 <= storage.Length
      ensures CString(storage[..], entries[k].0) == fields[k].name && CString(storage[..], entries[k].1) == fields[k].value
    {
      assert EntryAt(storage[..], used, entries, fields, k);
      TextReadsBack(storage[..], entries[k].0, fields[k].name);
      TextReadsBack(storage[..], entries[k].1, fields[k].value);
    }

    /** An informational response gives its storage back. */
    method Clear()
      modifies this
      ensures Valid() && fields == [] && used == 0
    {
      used, entries, fields := 0, [], [];
    }
  }

  class Callbacks {
    const l: Limits
    const head: bool
    const text: HeaderText
    var blockOpen: bool
    var regularSeen: bool
    var statusSeen: bool
    var trailers: bool
    var final: bool
    var current: nat
    var status: nat
    var infos: nat
    var listBytes: nat
    var lengthSeen: bool
    var length: nat
    var body: string

    ghost function View(): Response
      reads this, text
    {
      Response(head, blockOpen, regularSeen, statusSeen, trailers, final, current, status, infos,
               text.fields, listBytes, text.used, lengthSeen, length, body)
    }

    /** The storage has its size and holds the fields. */
    ghost predicate Valid()
      reads this, text, text.storage
    {
      text.Valid() && text.storage.Length == Capacity(l)
    }

    constructor (l: Limits, head: bool)
      ensures Valid() && View() == Fresh(head) && this.l == l && fresh(text) && fresh(text.storage)
    {
      this.l, this.head := l, head;
      text := new HeaderText(l);
      blockOpen, regularSeen, statusSeen, trailers, final := false, false, false, false, false;
      current, status, infos, listBytes, lengthSeen, length, body := 0, 0, 0, 0, false, 0, "";
    }

    method Begin() returns (ok: bool)
      requires Valid()
      modifies this
      ensures Valid() && ok == OnBegin(old(View())).Some?
      ensures View() == if ok then OnBegin(old(View())).value else old(View())
    {
      if blockOpen { return false; }
      blockOpen, regularSeen, statusSeen, current, trailers := true, false, false, 0, final;
      ok := true;
    }

    method PseudoHeader(f: Field) returns (ok: bool)
      requires Valid()
      modifies this
      ensures Valid() && ok == OnPseudo(old(View()), f).Some?
      ensures ok ==> View() == OnPseudo(old(View()), f).value
    {
      if trailers || regularSeen || statusSeen || !IEq(f.name, ":status") || StatusCode(f.value).None? { return false; }
      current, statusSeen := StatusCode(f.value).value, true;
      ok := true;
    }

    method StoreHeader(f: Field)
      requires Valid() && Stored(f) <= Capacity(l) - text.used && Unbroken(f)
      modifies this, text, text.storage
      ensures Valid() && View() == Keep(old(View()), f)
    {
      regularSeen := true;
      listBytes := listBytes + Size(f);
      text.Add(f);
    }

    method NoteContentLength(f: Field)
      requires Valid()
      modifies `lengthSeen, `length
      ensures Valid() && View() == NoteLength(old(View()), f)
    {
      if f.name == CONTENT_LENGTH && Decimal(f.value).Some? {
        lengthSeen, length := true, Decimal(f.value).value;
      }
    }

    /** The storage test of the source never fails once the list limits have passed. */
    method OneHeader(f: Field) returns (ok: bool)
      requires Valid() && Sound(l, View())
      modifies this, text, text.storage
      ensures Valid() && ok == OnHeader(l, old(View()), f).Some?
      ensures ok ==> View() == OnHeader(l, old(View()), f).value
    {
      if !blockOpen || f.name == [] { return false; }
      if f.name[0] == ':' {
        ok := PseudoHeader(f);
        return;
      }
      if !NameValid(f.name) || !ValueValid(f.value) || f.name in CONNECTION_FIELDS { return false; }
      if f.name == CONTENT_LENGTH {
        var n := Decimal(f.value);
        if trailers || n.None? || (lengthSeen && length != n.value) { return false; }
      }
      if |text.entries| >= l.maxCount || listBytes + Size(f) > l.maxBytes { return false; }
      StorageNeverRunsOut(l, View(), f);
      ValidIsUnbroken(f);
      assert OnHeader(l, View(), f) == Some(Store(View(), f));
      NoteContentLength(f);
      StoreHeader(f);
      ok := true;
    }

    method ForgetInformational()
      requires Valid()
      modifies this, text
      ensures Valid() && View() == Forget(old(View()))
    {
      infos := infos + 1;
      text.Clear();
      listBytes, lengthSeen, length := 0, false, 0;
    }

    method End(endStream: bool) returns (ok: bool)
      requires Valid()
      modifies this, text
      ensures Valid() && ok == OnEnd(l, old(View()), endStream).Some?
      ensures ok ==> View() == OnEnd(l, old(View()), endStream).value
    {
      if !blockOpen { return false; }
      blockOpen := false;
      if trailers { return !statusSeen && endStream; }
      if !statusSeen { return false; }
      if current < 200 {
        if endStream || current == 101 || infos >= l.maxInfos { return false; }
        ForgetInformational();
        return true;
      }
      status, final := current, true;
      ok := true;
    }

    method OneData(d: string) returns (ok: bool)
      requires Valid()
      modifies this
      ensures Valid() && ok == OnData(l, old(View()), d).Some?
      ensures View() == if ok then OnData(l, old(View()), d).value else old(View())
    {
      if !final || ((head || status == 204 || status == 304) && d != []) || |body| + |d| > l.maxBody { return false; }
      body := body + d;
      ok := true;
    }

    /** Any accepted event, on the fields and the storage in place. */
    method Handle(e: Event) returns (ok: bool)
      requires Valid() && Sound(l, View())
      modifies this, text, text.storage
      ensures Valid() && ok == H2Response.Step(l, old(View()), e).Some?
      ensures ok ==> View() == H2Response.Step(l, old(View()), e).value && Sound(l, View())
    {
      if H2Response.Step(l, View(), e).Some? {
        StepSound(l, View(), e);
      }
      match e {
        case BeginHeaders => ok := Begin();
        case Header(f) => ok := OneHeader(f);
        case EndHeaders(endStream) => ok := End(endStream);
        case Data(d) => ok := OneData(d);
      }
    }
  }

  /**
   A whole response in place, up to the first event that is refused: what is stored
   is what the events carried, and every header can be read where its entry points.
   */
  method Receive(l: Limits, head: bool, events: seq<Event>) returns (r: Callbacks, ok: bool)
    ensures r.Valid() && r.l == l && ok == Feed(l, Fresh(head), events).Some?
    ensures ok ==> r.View() == Feed(l, Fresh(head), events).value && |r.text.entries| == |FieldsOf(events)|
    ensures ok ==> forall k :: 0 <= k < |FieldsOf(events)| ==>
      && r.text.entries[k].0 <= r.text.storage.Length && r.text.entries[k].1 <= r.text.storage.Length
      && CString(r.text.storage[..], r.text.entries[k].0) == FieldsOf(events)[k].name
      && CString(r.text.storage[..], r.text.entries[k].1) == FieldsOf(events)[k].value
  {
    r := new Callbacks(l, head);
    for i := 0 to |events|
      invariant r.Valid() && r.l == l && Sound(l, r.View()) && fresh(r) && fresh(r.text) && fresh(r.text.storage)
      invariant Feed(l, Fresh(head), events) == Feed(l, r.View(), events[i..])
    {
      assert events[i..][0] == events[i] && events[i..][1..] == events[i + 1..];
      ok := r.Handle(events[i]);
      if !ok {
        return;
      }
    }
    assert events[|events|..] == [];
    DeliveredExactly(l, head, events);
    forall k | 0 <= k < |r.text.entries|
      ensures r.text.entries[k].0 <= r.text.storage.Length && r.text.entries[k].1 <= r.text.storage.Length
      ensures CString(r.text.storage[..], r.text.entries[k].0) == r.text.fields[k].name
      ensures CString(r.text.storage[..], r.text.entries[k].1) == r.text.fields[k].value
    {
      r.text.HeaderReadsBack(k);
    }
    ok := true;
  }
}
