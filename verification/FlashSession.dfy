/** The flash operations as the source runs them, over a session's stored payload. */
module FlashSession {
  import opened Octets
  import opened Decimals
  import opened ChunkedBody
  import opened Flash

  // ---------------------------------------------------------------- the length parser

  lemma {:induction false} ValueGrows(a: string, b: string)
    requires Digits(a + b)
    ensures Digits(a) && Value(a + b) >= Value(a)
    decreases |b|
  {
    forall i | 0 <= i < |a|
      ensures Digit(a[i])
    {
      assert (a + b)[i] == a[i];
    }
    if b == "" {
      assert a + b == a;
    } else {
      var s := a + b;
      assert s[..|s| - 1] == a + b[..|b| - 1];
      ValueGrows(a, b[..|b| - 1]);
    }
  }

  /** No size is read when a stretch before the colon is not a number that fits. */
  lemma NoSize(s: string, i: nat)
    requires i <= IndexOf(s, ':')
    requires !Digits(s[..i]) || Value(s[..i]) > SIZE_MAX
    ensures ReadSize(s).None?
  {
    var k := IndexOf(s, ':');
    if Digits(s[..k]) {
      assert s[..k] == s[..i] + s[i..k];
      ValueGrows(s[..i], s[i..k]);
    }
  }

  lemma ValueSnoc(s: string, i: nat)
    requires i < |s| && Digits(s[..i]) && Digit(s[i])
    ensures Digits(s[..i + 1]) && Value(s[..i + 1]) == Value(s[..i]) * 10 + ValueOf(s[i])
  {
    assert s[..i + 1][..i] == s[..i];
  }

  /** chttp_web_flash_parse_size at the front of `s`. */
  method ParseSize(s: string) returns (ok: bool, value: nat, used: nat)
    ensures ok <==> ReadSize(s).Some?
    ensures ok ==> value == ReadSize(s).value && used == IndexOf(s, ':') + 1
  {
    value, used := 0, 0;
    while used < |s| && s[used] != ':'
      invariant used <= IndexOf(s, ':')
      invariant Digits(s[..used]) && value == Value(s[..used]) <= SIZE_MAX
      decreases |s| - used
    {
      if !Digit(s[used]) {
        assert !Digit(s[..used + 1][used]);
        NoSize(s, used + 1);
        return false, 0, 0;
      }
      ValueSnoc(s, used);
      if value > (SIZE_MAX - ValueOf(s[used])) / 10 {
        NoSize(s, used + 1);
        return false, 0, 0;
      }
      value, used := value * 10 + ValueOf(s[used]), used + 1;
    }
    assert used == IndexOf(s, ':');
    ok := used != 0 && used < |s|;
    used := used + 1;
  }

  // ---------------------------------------------------------------- output storage

  /** Where a message lies in the octets of the caller's storage. */
  datatype View = View(levelAt: nat, levelSize: nat, textAt: nat, textSize: nat)

  predicate Reads(v: View, octets: string, m: Message) {
    && v.levelAt + v.levelSize <= |octets| && octets[v.levelAt..v.levelAt + v.levelSize] == m.level
    && v.textAt + v.textSize <= |octets| && octets[v.textAt..v.textAt + v.textSize] == m.text
  }

  predicate ReadsAt(views: seq<View>, octets: string, q: seq<Message>, i: nat) {
    i < |views| && i < |q| && Reads(views[i], octets, q[i])
  }

  /** The views over the octets are the messages of the queue, in order. */
  ghost predicate Views(views: seq<View>, octets: string, q: seq<Message>) {
    |views| == |q| && forall i: nat :: i < |q| ==> ReadsAt(views, octets, q, i)
  }

  lemma ReadsStable(v: View, octets: string, x: string, m: Message)
    requires Reads(v, octets, m)
    ensures Reads(v, octets + x, m)
  {
    SliceStable(octets, x, v.levelAt, v.levelAt + v.levelSize);
    SliceStable(octets, x, v.textAt, v.textAt + v.textSize);
  }

  lemma ViewsSnoc(views: seq<View>, octets: string, q: seq<Message>, m: Message)
    requires Views(views, octets, q)
    ensures Views(views + [ViewAt(|octets|, m)], octets + (m.level + m.text), q + [m])
  {
    var n := octets + (m.level + m.text);
    assert n[|octets|..|octets| + |m.level|] == m.level;
    assert n[|octets| + |m.level|..|octets| + |m.level| + |m.text|] == m.text;
    forall i: nat | i < |q| + 1
      ensures ReadsAt(views + [ViewAt(|octets|, m)], n, q + [m], i)
    {
      if i < |q| {
        assert ReadsAt(views, octets, q, i);
        ReadsStable(views[i], octets, m.level + m.text, q[i]);
      }
    }
  }

  function ViewAt(at: nat, m: Message): View {
    View(at, |m.level|, at + |m.level|, |m.text|)
  }

  /** chttp_web_flash_buffer: either pointer may be missing. */
  class Storage {
    const messages: array?<View>
    const messageCapacity: nat
    const bytes: array?<char>
    const byteCapacity: nat

    constructor (messages: array?<View>, messageCapacity: nat, bytes: array?<char>, byteCapacity: nat)
      requires messages != null ==> messages.Length == messageCapacity
      requires bytes != null ==> bytes.Length == byteCapacity
      ensures Valid()
      ensures this.messages == messages && this.messageCapacity == messageCapacity
      ensures this.bytes == bytes && this.byteCapacity == byteCapacity
    {
      this.messages, this.messageCapacity := messages, messageCapacity;
      this.bytes, this.byteCapacity := bytes, byteCapacity;
    }

    predicate Valid() {
      && (messages != null ==> messages.Length == messageCapacity)
      && (bytes != null ==> bytes.Length == byteCapacity)
    }

    /** Room for `count` messages of `octets` octets, octet storage being there even when none are needed. */
    predicate Room(count: nat, octets: nat) {
      count == 0 || (messages != null && bytes != null && count <= messageCapacity && octets <= byteCapacity)
    }

    ghost predicate Holds(q: seq<Message>)
      requires Valid()
      reads messages, bytes
    {
      Room(|q|, Bytes(q)) && (q != [] ==> Views(messages[..|q|], bytes[..Bytes(q)], q))
    }
  }

  // ---------------------------------------------------------------- the scan

  /** One turn of the scan's parsing: the message and how far it reaches. */
  method ParseEntry(s: string, c: Config) returns (entry: Option<Entry>)
    ensures entry == ReadEntry(s, c)
  {
    var ok, level, a := ParseSize(s);
    if !ok {
      return None;
    }
    var ok', text, b := ParseSize(s[a..]);
    if !ok' {
      return None;
    }
    entry := Cut(s, a + b, level, text, c);
  }

  function Prepend(done: seq<Message>, rest: Option<seq<Message>>): Option<seq<Message>> {
    if rest.None? then None else Some(done + rest.value)
  }

  /** The messages read so far, and those still ahead in `rest`, are all of the queue. */
  predicate Ahead(all: Option<seq<Message>>, c: Config, rest: string, done: seq<Message>) {
    all == Prepend(done, ReadEntries(rest, c, |done|))
  }

  lemma AheadStart(rest: string, c: Config)
    ensures Ahead(ReadEntries(rest, c, 0), c, rest, [])
  {
    var r := ReadEntries(rest, c, 0);
    assert r.Some? ==> [] + r.value == r.value;
  }

  lemma AheadStep(all: Option<seq<Message>>, c: Config, rest: string, done: seq<Message>, e: Entry)
    requires Ahead(all, c, rest, done) && rest != "" && |done| < c.maxMessages && ReadEntry(rest, c) == Some(e)
    ensures Ahead(all, c, rest[e.used..], done + [e.message])
  {
    EntriesUnfold(rest, c, |done|);
    PrependTwice(done, e.message, ReadEntries(rest[e.used..], c, |done| + 1));
  }

  lemma EntriesUnfold(t: string, c: Config, count: nat)
    requires t != "" && count < c.maxMessages && ReadEntry(t, c).Some?
    ensures var e := ReadEntry(t, c).value; ReadEntries(t, c, count) == Prepend([e.message], ReadEntries(t[e.used..], c, count + 1))
  {
  }

  lemma PrependTwice(done: seq<Message>, m: Message, r: Option<seq<Message>>)
    ensures Prepend(done, Prepend([m], r)) == Prepend(done + [m], r)
  {
    if r.Some? {
      assert done + ([m] + r.value) == (done + [m]) + r.value;
    }
  }

  lemma EntrySize(s: string, c: Config)
    requires ReadEntry(s, c).Some?
    ensures Size(ReadEntry(s, c).value.message) <= ReadEntry(s, c).value.used
  {
  }

  /** At every point of a scan of a good queue, what was read is a prefix of it. */
  lemma AheadPrefix(all: Option<seq<Message>>, c: Config, rest: string, done: seq<Message>)
    requires Ahead(all, c, rest, done) && all.Some?
    ensures |done| <= |all.value| && Bytes(done) <= Bytes(all.value)
  {
    BytesAppend(done, ReadEntries(rest, c, |done|).value);
  }

  lemma AheadEnd(all: Option<seq<Message>>, c: Config, done: seq<Message>)
    requires Ahead(all, c, "", done)
    ensures all == Some(done)
  {
    assert done + [] == done;
  }

  lemma AheadStuck(all: Option<seq<Message>>, c: Config, rest: string, done: seq<Message>)
    requires Ahead(all, c, rest, done) && rest != ""
    requires |done| >= c.maxMessages || ReadEntry(rest, c).None?
    ensures all.None?
  {
  }

  lemma BytesSnoc(q: seq<Message>, m: Message)
    ensures Bytes(q + [m]) == Bytes(q) + |m.level| + |m.text|
  {
    BytesAppend(q, [m]);
    assert [m][1..] == [];
  }

  /** Copies one message behind the octets stored so far and records its view. */
  method Store(out: Storage, count: nat, cursor: nat, m: Message, ghost done: seq<Message>)
    requires out.Valid() && count == |done| && cursor == Bytes(done)
    requires out.Holds(done) && out.Room(count + 1, cursor + |m.level| + |m.text|)
    modifies out.messages, out.bytes
    ensures out.Holds(done + [m])
  {
    ghost var views, octets := out.messages[..count], out.bytes[..cursor];
    assert done == [] ==> views == [] && octets == "";
    var next := Copy(out.bytes, cursor, m.level, octets);
    next := Copy(out.bytes, next, m.text, octets + m.level);
    assert octets + m.level + m.text == octets + (m.level + m.text);
    out.messages[count] := ViewAt(cursor, m);
    assert out.messages[..count + 1] == views + [ViewAt(cursor, m)];
    ViewsSnoc(views, octets, done, m);
    BytesSnoc(done, m);
  }

  /** Why a turn of the scan ends it: nothing can be read, or the storage is too small for the whole queue. */
  ghost predicate Stops(status: Status, store: bool, out: Storage, all: Option<seq<Message>>) {
    || (status == Malformed && all.None?)
    || (status == Capacity && store && (all.Some? ==> !out.Room(|all.value|, Bytes(all.value))))
  }

  /** One turn of the scan. */
  method ScanOne(rest: string, c: Config, store: bool, out: Storage, count: nat, bytes: nat, ghost all: Option<seq<Message>>, ghost done: seq<Message>)
    returns (status: Status, used: nat, size: nat, ghost m: Message)
    requires out.Valid() && (store ==> out.Holds(done))
    requires Ahead(all, c, rest, done) && rest != ""
    requires count == |done| && bytes == Bytes(done)
    modifies if store then {out.messages, out.bytes} else {}
    ensures status == Ok ==> 0 < used <= |rest| && size <= used && bytes + size == Bytes(done + [m])
    ensures status == Ok ==> Ahead(all, c, rest[used..], done + [m]) && (store ==> out.Holds(done + [m]))
    ensures status != Ok ==> Stops(status, store, out, all)
  {
    used, size, m := 0, 0, Message("", "");
    var entry := ParseEntry(rest, c);
    if count >= c.maxMessages || entry.None? {
      AheadStuck(all, c, rest, done);
      return Malformed, 0, 0, m;
    }
    var message := entry.value.message;
    used, size, m := entry.value.used, |message.level| + |message.text|, message;
    EntrySize(rest, c);
    AheadStep(all, c, rest, done, entry.value);
    BytesSnoc(done, m);
    if store {
      if !out.Room(count + 1, bytes + size) {
        if all.Some? {
          AheadPrefix(all, c, rest[used..], done + [m]);
        }
        return Capacity, 0, 0, m;
      }
      Store(out, count, bytes, message, done);
    }
    status := Ok;
  }

  /** The loop of the scan. No sum of lengths in it can pass the largest size. */
  method ScanAll(s: string, c: Config, store: bool, out: Storage) returns (status: Status, count: nat, bytes: nat)
    requires out.Valid() && |s| <= HARD_MAX_SERIALIZED
    modifies if store then {out.messages, out.bytes} else {}
    ensures status != Ok ==> Stops(status, store, out, ReadEntries(s, c, 0))
    ensures status == Ok ==> ReadEntries(s, c, 0).Some?
    ensures status == Ok ==> count == |ReadEntries(s, c, 0).value| && bytes == Bytes(ReadEntries(s, c, 0).value)
    ensures status == Ok && store ==> out.Holds(ReadEntries(s, c, 0).value)
  {
    ghost var all, done := ReadEntries(s, c, 0), [];
    AheadStart(s, c);
    count, bytes := 0, 0;
    var rest := s;
    while rest != ""
      invariant Ahead(all, c, rest, done) && count == |done| && bytes == Bytes(done)
      invariant bytes + |rest| <= |s| && (store ==> out.Holds(done))
      decreases |rest|
    {
      var used, size;
      ghost var m;
      status, used, size, m := ScanOne(rest, c, store, out, count, bytes, all, done);
      if status != Ok {
        return status, 0, 0;
      }
      assert size <= SIZE_MAX && bytes <= SIZE_MAX - size;
      done := done + [m];
      count, bytes, rest := count + 1, bytes + size, rest[used..];
    }
    AheadEnd(all, c, done);
    status := Ok;
  }

  /**
   chttp_web_flash_scan_queue: without storage it measures, with storage it also
   copies. Both passes count the messages and octets of the same queue.
   */
  method Scan(s: string, c: Config, store: bool, out: Storage) returns (status: Status, count: nat, bytes: nat)
    requires out.Valid()
    modifies if store then {out.messages, out.bytes} else {}
    ensures status == InvalidArgument <==> !ConfigValid(c)
    ensures ConfigValid(c) && status != Ok ==> Stops(status, store, out, Queue(Some(s), c))
    ensures status == Ok ==> Queue(Some(s), c).Some?
    ensures status == Ok ==> count == |Queue(Some(s), c).value| && bytes == Bytes(Queue(Some(s), c).value)
    ensures status == Ok && store ==> out.Holds(Queue(Some(s), c).value)
  {
    if !ConfigValid(c) {
      return InvalidArgument, 0, 0;
    }
    if |s| > c.maxSerialized || |s| < |PREFIX| || s[..|PREFIX|] != PREFIX {
      return Malformed, 0, 0;
    }
    assert Queue(Some(s), c) == ReadEntries(s[|PREFIX|..], c, 0);
    status, count, bytes := ScanAll(s[|PREFIX|..], c, store, out);
  }

  // ---------------------------------------------------------------- push and consume

  /** The checks of a consume in their order; `removes` is whether the session lets go of the value. */
  function ConsumeStatus(stored: Option<string>, c: Config, out: Storage, removes: bool): Status {
    if !ConfigValid(c) then InvalidArgument
    else if stored.None? then Ok
    else if Queue(stored, c).None? then Malformed
    else if !out.Room(|Queue(stored, c).value|, Bytes(Queue(stored, c).value)) then Capacity
    else if !removes then Refused
    else Ok
  }

  lemma EmptyItem()
    ensures Item(Message("", "")) == "0:0:"
  {
    assert Show(0) == "0";
  }

  /**
   A message without octets is accepted by a push, passes the check on the storage
   of a consume that brings none for octets, and is then refused by its second pass.
   */
  lemma EmptyMessageRefused(c: Config, out: Storage)
    requires ConfigValid(c) && c.maxSerialized >= 6
    requires out.Valid() && out.messages != null && out.messageCapacity >= 1 && out.bytes == null
    ensures Accepts(None, c, Message("", ""))
    ensures var q := Queue(Pushed(None, Message("", "")), c);
      q == Some([Message("", "")]) && |q.value| <= out.messageCapacity && Bytes(q.value) == 0 <= out.byteCapacity
    ensures ConsumeStatus(Pushed(None, Message("", "")), c, out, true) == Capacity
  {
    var m := Message("", "");
    EmptyItem();
    PushAppends(None, c, m);
    assert [] + [m] == [m] && [m][1..] == [];
  }

  class Session {
    var stored: Option<string>

    constructor ()
      ensures stored == None
    {
      stored := None;
    }

    /** chttp_web_flash_push: a push that fails leaves the session alone. */
    method Push(c: Config, m: Message, sets: bool) returns (status: Status)
      modifies this
      ensures status == PushStatus(old(stored), c, m, sets)
      ensures stored == if status == Ok then Pushed(old(stored), m) else old(stored)
    {
      if !ConfigValid(c) {
        return InvalidArgument;
      }
      if |m.level| > c.maxLevel || |m.text| > c.maxText {
        return Capacity;
      }
      var count := 0;
      if stored.Some? {
        var none := new Storage(null, 0, null, 0);
        var bytes;
        status, count, bytes := Scan(stored.value, c, false, none);
        if status != Ok {
          return;
        }
      }
      var base, lengths := Base(stored), Lengths(m);
      if count >= c.maxMessages || |lengths| >= LENGTHS_BYTES {
        return Capacity;
      }
      var total := |base| + |lengths| + |m.level| + |m.text|;
      if total > SIZE_MAX || total > c.maxSerialized || total > HARD_MAX_SERIALIZED {
        return Capacity;
      }
      var next := new char[HARD_MAX_SERIALIZED + 1](_ => NUL);
      var cursor := Copy(next, 0, base, "");
      cursor := Copy(next, cursor, lengths, base);
      cursor := Copy(next, cursor, m.level, base + lengths);
      cursor := Copy(next, cursor, m.text, base + lengths + m.level);
      Joined(base, lengths, m.level, m.text);
      if !sets {
        return Refused;
      }
      stored := Some(next[..total]);
      status := Ok;
    }

    /**
     chttp_web_flash_consume: the whole queue in order and then nothing stored, or
     no message and the session as it was. Octet storage has to be there for any
     message at all, even one without an octet.
     */
    method Consume(c: Config, out: Storage, removes: bool) returns (status: Status, count: nat)
      requires out.Valid()
      modifies this, out.messages, out.bytes
      ensures status == ConsumeStatus(old(stored), c, out, removes)
      ensures status == Ok ==> stored == None && count == |Queue(old(stored), c).value| && out.Holds(Queue(old(stored), c).value)
      ensures status != Ok ==> stored == old(stored) && count == 0
    {
      if !ConfigValid(c) {
        return InvalidArgument, 0;
      }
      if stored.None? {
        return Ok, 0;
      }
      var n, bytes;
      status, n, bytes := Scan(stored.value, c, false, out);
      if status != Ok {
        return status, 0;
      }
      if n > out.messageCapacity || bytes > out.byteCapacity || (n != 0 && out.messages == null) || (bytes != 0 && out.bytes == null) {
        return Capacity, 0;
      }
      status, n, bytes := Scan(stored.value, c, true, out);
      if status != Ok {
        return status, 0;
      }
      if !removes {
        return Refused, 0;
      }
      stored := None;
      count := n;
    }
  }

  lemma Joined(base: string, lengths: string, level: string, text: string)
    ensures base + lengths + level + text == base + (lengths + level + text)
  {
  }

  /**
   Any pushes onto a fresh session, some refused, and then one consume: the messages
   that were accepted, in order, and an empty session, exactly when the storage has
   room for them.
   */
  method PushThenConsume(c: Config, messages: seq<Message>, out: Storage) returns (session: Session, status: Status, count: nat)
    requires out.Valid()
    modifies out.messages, out.bytes
    ensures var q := Accepted(None, c, messages);
      && (status == Ok <==> ConfigValid(c) && out.Room(|q|, Bytes(q)))
      && (status == Ok ==> session.stored == None && count == |q| && out.Holds(q))
      && (status != Ok ==> session.stored == PushAll(None, c, messages) && count == 0)
  {
    session := new Session();
    for i := 0 to |messages|
      invariant PushAll(None, c, messages) == PushAll(session.stored, c, messages[i..])
    {
      assert messages[i..][0] == messages[i] && messages[i..][1..] == messages[i + 1..];
      PushSucceedsExactly(session.stored, c, messages[i], true);
      var pushed := session.Push(c, messages[i], true);
    }
    assert messages[|messages|..] == [];
    PushesAppend(None, c, messages);
    assert [] + Accepted(None, c, messages) == Accepted(None, c, messages);
    status, count := session.Consume(c, out, true);
  }
}
