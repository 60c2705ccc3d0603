/**
 The flash queue a web session carries from one request to the next: messages in
 a length-prefixed text form, appended by push and handed over once by consume.
 */
module Flash {
  import opened Octets
  import opened Decimals
  import opened ChunkedBody

  datatype Message = Message(level: string, text: string)

  datatype Config = Config(maxMessages: nat, maxLevel: nat, maxText: nat, maxSerialized: nat)

  const PREFIX := "1;"
  const HARD_MAX_MESSAGES := 16
  const HARD_MAX_SERIALIZED := 1024

  predicate ConfigValid(c: Config) {
    && 0 < c.maxMessages <= HARD_MAX_MESSAGES
    && c.maxLevel != 0 && c.maxText != 0
    && |PREFIX| <= c.maxSerialized <= HARD_MAX_SERIALIZED
  }

  // ---------------------------------------------------------------- the text form

  /** A decimal number in front of a colon, when there is one that fits a size. */
  function ReadSize(s: string): Option<nat> {
    var k := IndexOf(s, ':');
    if k == 0 || k == |s| || !Digits(s[..k]) || Value(s[..k]) > SIZE_MAX then None else Some(Value(s[..k]))
  }

  datatype Entry = Entry(message: Message, used: nat)

  /** The two texts behind the lengths, which end at `b`. */
  function Cut(s: string, b: nat, l: nat, t: nat, c: Config): (r: Option<Entry>)
    requires b <= |s|
    ensures r.Some? ==> b <= r.value.used <= |s|
  {
    if l > c.maxLevel || t > c.maxText || l > |s| - b || t > |s| - b - l then None
    else Some(Entry(Message(s[b..b + l], s[b + l..b + l + t]), b + l + t))
  }

  datatype Lead = Lead(level: nat, text: nat, end: nat)

  /** The two lengths in front of `s` and where the texts start. */
  function ReadLead(s: string): (r: Option<Lead>)
    ensures r.Some? ==> 0 < r.value.end <= |s|
  {
    if ReadSize(s).None? then None
    else
      var a := IndexOf(s, ':') + 1;
      if ReadSize(s[a..]).None? then None
      else Some(Lead(ReadSize(s).value, ReadSize(s[a..]).value, a + IndexOf(s[a..], ':') + 1))
  }

  /** The entry at the front of `s`. */
  function ReadEntry(s: string, c: Config): (r: Option<Entry>)
    ensures r.Some? ==> 0 < r.value.used <= |s|
  {
    var lead := ReadLead(s);
    if lead.None? then None else Cut(s, lead.value.end, lead.value.level, lead.value.text, c)
  }

  function ReadEntries(s: string, c: Config, count: nat): Option<seq<Message>>
    decreases |s|
  {
    if s == "" then Some([])
    else if count >= c.maxMessages || ReadEntry(s, c).None? then None
    else
      var e := ReadEntry(s, c).value;
      var rest := ReadEntries(s[e.used..], c, count + 1);
      if rest.None? then None else Some([e.message] + rest.value)
  }

  /** The queue a stored payload stands for; nothing stored is the empty queue. */
  function Queue(stored: Option<string>, c: Config): Option<seq<Message>> {
    if stored.None? then Some([])
    else if |stored.value| > c.maxSerialized || !(PREFIX <= stored.value) then None
    else ReadEntries(stored.value[|PREFIX|..], c, 0)
  }

  function Lengths(m: Message): string {
    Show(|m.level|) + ":" + Show(|m.text|) + ":"
  }

  function Item(m: Message): string {
    Lengths(m) + m.level + m.text
  }

  function Base(stored: Option<string>): string {
    if stored.None? then PREFIX else stored.value
  }

  predicate Fits(m: Message, c: Config) {
    |m.level| <= c.maxLevel && |m.text| <= c.maxText
  }

  /** When a push succeeds. */
  predicate Accepts(stored: Option<string>, c: Config, m: Message) {
    && ConfigValid(c) && Fits(m, c)
    && Queue(stored, c).Some? && |Queue(stored, c).value| < c.maxMessages
    && |Base(stored)| + |Item(m)| <= c.maxSerialized
  }

  function Pushed(stored: Option<string>, m: Message): Option<string> {
    Some(Base(stored) + Item(m))
  }

  // ---------------------------------------------------------------- pushing appends

  lemma SizeReadsBack(n: nat, rest: string)
    requires n <= SIZE_MAX
    ensures var s := Show(n) + ":" + rest; ReadSize(s) == Some(n) && IndexOf(s, ':') == |Show(n)| && s[|Show(n)| + 1..] == rest
  {
    var s := Show(n) + ":" + rest;
    ValueOfShow(n);
    IndexOfUnique(s, ':', |Show(n)|);
    assert s[..|Show(n)|] == Show(n);
  }

  lemma ItemReadsBack(m: Message, c: Config)
    requires Fits(m, c) && |m.level| + |m.text| <= SIZE_MAX
    ensures ReadEntry(Item(m), c) == Some(Entry(m, |Item(m)|))
  {
    LeadReadsBack(m);
    var s, b := Item(m), |Lengths(m)|;
    assert s[b..b + |m.level|] == m.level && s[b + |m.level|..b + |m.level| + |m.text|] == m.text;
  }

  lemma LeadReadsBack(m: Message)
    requires |m.level| + |m.text| <= SIZE_MAX
    ensures ReadLead(Item(m)) == Some(Lead(|m.level|, |m.text|, |Lengths(m)|))
  {
    ItemSplit(m);
    SizeReadsBack(|m.level|, Show(|m.text|) + ":" + (m.level + m.text));
    SizeReadsBack(|m.text|, m.level + m.text);
  }

  lemma ItemSplit(m: Message)
    ensures Item(m) == Show(|m.level|) + ":" + (Show(|m.text|) + ":" + (m.level + m.text))
  {
  }

  lemma SizeStable(s: string, x: string)
    requires ReadSize(s).Some?
    ensures ReadSize(s + x) == ReadSize(s) && IndexOf(s + x, ':') == IndexOf(s, ':')
  {
    var k := IndexOf(s, ':');
    IndexOfUnique(s + x, ':', k);
    assert (s + x)[..k] == s[..k];
  }

  lemma LeadStable(s: string, x: string)
    requires ReadLead(s).Some?
    ensures ReadLead(s + x) == ReadLead(s)
  {
    var a := IndexOf(s, ':') + 1;
    SizeStable(s, x);
    SizeStable(s[a..], x);
    assert (s + x)[a..] == s[a..] + x;
  }

  lemma EntryStable(s: string, x: string, c: Config)
    requires ReadEntry(s, c).Some?
    ensures ReadEntry(s + x, c) == ReadEntry(s, c)
  {
    LeadStable(s, x);
    var lead := ReadLead(s).value;
    CutStable(s, x, lead.end, lead.level, lead.text, c);
  }

  lemma CutStable(s: string, x: string, b: nat, l: nat, t: nat, c: Config)
    requires b <= |s| && Cut(s, b, l, t, c).Some?
    ensures Cut(s + x, b, l, t, c) == Cut(s, b, l, t, c)
  {
    SliceStable(s, x, b, b + l);
    SliceStable(s, x, b + l, b + l + t);
  }

  lemma SliceStable(s: string, x: string, i: nat, j: nat)
    requires i <= j <= |s|
    ensures (s + x)[i..j] == s[i..j]
  {
  }

  lemma {:induction false} EntriesSnoc(s: string, m: Message, c: Config, count: nat)
    requires ReadEntries(s, c, count).Some? && Fits(m, c) && |m.level| + |m.text| <= SIZE_MAX
    requires count + |ReadEntries(s, c, count).value| < c.maxMessages
    ensures ReadEntries(s + Item(m), c, count) == Some(ReadEntries(s, c, count).value + [m])
    decreases |s|
  {
    if s == "" {
      SnocBase(m, c, count);
      assert ReadEntries(s, c, count).value + [m] == [m];
    } else {
      var used := ReadEntry(s, c).value.used;
      var q := ReadEntries(s[used..], c, count + 1).value;
      SnocUnfold(s, c, count);
      EntriesSnoc(s[used..], m, c, count + 1);
      EntriesGrow(s, Item(m), c, count, q + [m]);
      SnocShape(ReadEntry(s, c).value.message, q, m);
    }
  }

  lemma SnocBase(m: Message, c: Config, count: nat)
    requires Fits(m, c) && |m.level| + |m.text| <= SIZE_MAX && count < c.maxMessages
    ensures ReadEntries("" + Item(m), c, count) == Some([m])
  {
    ItemReadsBack(m, c);
    assert "" + Item(m) == Item(m) && Item(m)[|Item(m)|..] == "";
    assert [m] + [] == [m];
  }

  lemma SnocUnfold(s: string, c: Config, count: nat)
    requires s != "" && ReadEntries(s, c, count).Some?
    ensures count < c.maxMessages && ReadEntry(s, c).Some? && ReadEntries(s[ReadEntry(s, c).value.used..], c, count + 1).Some?
    ensures ReadEntries(s, c, count).value ==
      [ReadEntry(s, c).value.message] + ReadEntries(s[ReadEntry(s, c).value.used..], c, count + 1).value
  {
  }

  lemma SnocShape(a: Message, q: seq<Message>, m: Message)
    ensures [a] + (q + [m]) == ([a] + q) + [m]
  {
  }

  lemma EntriesGrow(s: string, x: string, c: Config, count: nat, q: seq<Message>)
    requires count < c.maxMessages && ReadEntry(s, c).Some?
    requires ReadEntries(s[ReadEntry(s, c).value.used..] + x, c, count + 1) == Some(q)
    ensures ReadEntries(s + x, c, count) == Some([ReadEntry(s, c).value.message] + q)
  {
    EntryStable(s, x, c);
    var used := ReadEntry(s, c).value.used;
    assert (s + x)[used..] == s[used..] + x;
  }

  /** A push that is accepted appends exactly its message to the queue. */
  lemma PushAppends(stored: Option<string>, c: Config, m: Message)
    requires Accepts(stored, c, m)
    ensures Queue(Pushed(stored, m), c) == Some(Queue(stored, c).value + [m])
  {
    var s := Base(stored);
    assert PREFIX[|PREFIX|..] == "";
    assert (s + Item(m))[|PREFIX|..] == s[|PREFIX|..] + Item(m);
    EntriesSnoc(s[|PREFIX|..], m, c, 0);
  }

  // ---------------------------------------------------------------- any number of pushes

  function PushAll(stored: Option<string>, c: Config, messages: seq<Message>): Option<string>
    decreases |messages|
  {
    if messages == [] then stored
    else PushAll(if Accepts(stored, c, messages[0]) then Pushed(stored, messages[0]) else stored, c, messages[1..])
  }

  function Accepted(stored: Option<string>, c: Config, messages: seq<Message>): seq<Message>
    decreases |messages|
  {
    if messages == [] then []
    else if Accepts(stored, c, messages[0]) then [messages[0]] + Accepted(Pushed(stored, messages[0]), c, messages[1..])
    else Accepted(stored, c, messages[1..])
  }

  /** Whatever was stored, the queue grows by the accepted messages, in order, and by nothing else. */
  lemma {:induction false} PushesAppend(stored: Option<string>, c: Config, messages: seq<Message>)
    requires Queue(stored, c).Some?
    ensures Queue(PushAll(stored, c, messages), c) == Some(Queue(stored, c).value + Accepted(stored, c, messages))
    decreases |messages|
  {
    var q := Queue(stored, c).value;
    if messages == [] {
      assert q + [] == q;
    } else if Accepts(stored, c, messages[0]) {
      PushAppends(stored, c, messages[0]);
      PushesAppend(Pushed(stored, messages[0]), c, messages[1..]);
      Regroup(q, messages[0], Accepted(Pushed(stored, messages[0]), c, messages[1..]));
    } else {
      PushesAppend(stored, c, messages[1..]);
    }
  }

  lemma Regroup(q: seq<Message>, m: Message, r: seq<Message>)
    ensures (q + [m]) + r == q + ([m] + r)
  {
  }

  // ---------------------------------------------------------------- outcomes of the two operations

  datatype Status = Ok | InvalidArgument | Malformed | Capacity | Refused

  const LENGTHS_BYTES := 64

  /** The checks of a push in their order; `sets` is whether the session takes the new value. */
  function PushStatus(stored: Option<string>, c: Config, m: Message, sets: bool): Status {
    if !ConfigValid(c) then InvalidArgument
    else if !Fits(m, c) then Capacity
    else if Queue(stored, c).None? then Malformed
    else if |Queue(stored, c).value| >= c.maxMessages then Capacity
    else if |Lengths(m)| >= LENGTHS_BYTES then Capacity
    else if |Base(stored)| + |Item(m)| > SIZE_MAX || |Base(stored)| + |Item(m)| > c.maxSerialized then Capacity
    else if !sets then Refused
    else Ok
  }

  /** The buffer for the two lengths is never the reason for a refusal. */
  lemma PushSucceedsExactly(stored: Option<string>, c: Config, m: Message, sets: bool)
    ensures PushStatus(stored, c, m, sets) == Ok <==> Accepts(stored, c, m) && sets
  {
    if Accepts(stored, c, m) {
      ShowFits64(|m.level|);
      ShowFits64(|m.text|);
    }
  }

  function Size(m: Message): nat {
    |m.level| + |m.text|
  }

  function Bytes(q: seq<Message>): nat {
    if q == [] then 0 else Size(q[0]) + Bytes(q[1..])
  }

  lemma {:induction false} BytesAppend(a: seq<Message>, b: seq<Message>)
    ensures Bytes(a + b) == Bytes(a) + Bytes(b)
  {
    if a == [] {
      assert a + b == b;
    } else {
      assert (a + b)[1..] == a[1..] + b;
      BytesAppend(a[1..], b);
    }
  }
}
