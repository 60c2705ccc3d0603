/**
 The asynchronous file writer of a download: bytes are appended to a bounded
 buffer, written at increasing file offsets by operations that may complete
 short, and flushed. The operating system is the ghost file below: it applies a
 completed write at the offset and from the bytes that were submitted.
 */
module FileSink {

  datatype Code = OK | EINVAL | EBUSY | ENOBUFS | ESHUTDOWN | ENOTSUP | EPERM | ERANGE | EIO | ECANCELED | EPROTO

  datatype Result = Ready | Wait | Error

  datatype Operation = WriteAt | FlushFile | OtherOperation

  /** What the file runtime answers to a submission. */
  datatype Submit = Accepted(id: nat) | Full | Closed | Unsupported | AccessDenied | LeaseInUse | IdExhausted | InvalidArgument

  datatype Kind = Succeeded | FailedKind | CancelledKind | OtherKind

  datatype Completion = Completion(kind: Kind, bytes: nat, error: int)

  function MapSubmit(s: Submit): Code {
    match s
    case Accepted(_) => OK
    case Full => ENOBUFS
    case Closed => ESHUTDOWN
    case Unsupported => ENOTSUP
    case AccessDenied => EPERM
    case LeaseInUse => EBUSY
    case IdExhausted => ERANGE
    case InvalidArgument => EINVAL
  }

  // ---------------------------------------------------------------- the transfer as a value

  datatype Pending = Idle | Writing(id: nat) | Flushing(id: nat)

  /**
   What was accepted, how much of it is written (`offset`) and how much the file has
   of it (`landed`, ahead of `offset` only after a failed write), how far the buffer
   is drained (`drained`), and how much a completed flush covered (`durable`).
   */
  datatype Sink = Sink(capacity: nat, accepted: string, offset: nat, landed: nat, drained: nat,
                       status: Code, pending: Pending, flushed: bool, durable: nat)
  {
    function Unwritten(): int {
      |accepted| - offset
    }

    predicate Valid() {
      && offset <= landed <= |accepted| && drained + Unwritten() <= capacity
      && (status == OK ==> landed == offset)
      && (pending.Writing? ==> offset == landed < |accepted|)
      && (pending.Flushing? ==> offset == |accepted|)
      && (flushed ==> durable == |accepted| == landed)
    }

    function Failed(code: Code): Sink {
      if status == OK then this.(status := code) else this
    }
  }

  function Opened(capacity: nat): Sink {
    Sink(capacity, "", 0, 0, 0, OK, Idle, false, 0)
  }

  function AppendCode(s: Sink, data: string): Code {
    if s.status != OK then s.status
    else if |data| > s.capacity - s.drained - s.Unwritten() then ENOBUFS
    else if !s.pending.Idle? || s.drained != 0 then EBUSY
    else OK
  }

  function Appended(s: Sink, data: string): Sink {
    if AppendCode(s, data) == OK then s.(accepted := s.accepted + data, flushed := false)
    else s.(status := AppendCode(s, data))
  }

  function AdvanceResult(s: Sink, submit: Submit): Result {
    if s.status != OK then Error
    else if !s.pending.Idle? then Wait
    else if s.offset < |s.accepted| then if submit.Accepted? then Wait else Error
    else Ready
  }

  function Advanced(s: Sink, submit: Submit): Sink {
    if s.status != OK || !s.pending.Idle? then s
    else if s.offset < |s.accepted| then
      if submit.Accepted? then s.(pending := Writing(submit.id)) else s.(status := MapSubmit(submit))
    else s.(drained := 0)
  }

  /** chttp_file_sink_transfer_write: an append, and an advance behind one that succeeded. */
  function WriteResult(s: Sink, data: string, submit: Submit): Result {
    if AppendCode(s, data) == OK then AdvanceResult(Appended(s, data), submit) else Error
  }

  function Written(s: Sink, data: string, submit: Submit): Sink {
    if AppendCode(s, data) == OK then Advanced(Appended(s, data), submit) else Appended(s, data)
  }

  function FlushResult(s: Sink, submit: Submit): Result {
    if AdvanceResult(s, submit) != Ready then AdvanceResult(s, submit)
    else if s.flushed then Ready
    else if submit.Accepted? then Wait
    else Error
  }

  function Flushed(s: Sink, submit: Submit): Sink {
    var a := Advanced(s, submit);
    if AdvanceResult(s, submit) != Ready || s.flushed then a
    else if submit.Accepted? then a.(pending := Flushing(submit.id))
    else a.(status := MapSubmit(submit))
  }

  /** What the operating system wrote: the reported count of a success, any part otherwise. */
  function Landing(s: Sink, completion: Completion, actual: nat): nat
    requires s.Valid()
  {
    if completion.kind == Succeeded && completion.bytes <= s.Unwritten() then completion.bytes
    else if actual <= s.Unwritten() then actual
    else s.Unwritten()
  }

  function WriteDone(s: Sink, completion: Completion, actual: nat): Sink
    requires s.Valid() && s.pending.Writing?
  {
    var t := s.(pending := Idle, landed := s.offset + Landing(s, completion, actual));
    if completion.kind == CancelledKind then t.Failed(ECANCELED)
    else if completion.kind != Succeeded || completion.bytes == 0 || completion.bytes > s.Unwritten() then t.Failed(EIO)
    else t.(offset := t.landed, drained := if completion.bytes == s.Unwritten() then 0 else s.drained + completion.bytes)
  }

  function FlushDone(s: Sink, completion: Completion): Sink {
    var t := s.(pending := Idle);
    if completion.kind == CancelledKind then t.Failed(ECANCELED)
    else if completion.kind != Succeeded then t.Failed(EIO)
    else t.(flushed := true, durable := s.landed)
  }

  /** The completion callback; one that names nothing in flight fails the transfer. */
  function Completed(s: Sink, id: nat, operation: Operation, completion: Completion, actual: nat): Sink
    requires s.Valid()
  {
    if s.pending == Writing(id) && operation == WriteAt then WriteDone(s, completion, actual)
    else if s.pending == Flushing(id) && operation == FlushFile then FlushDone(s, completion)
    else s.Failed(EPROTO)
  }

  // ---------------------------------------------------------------- the transfer in place

  /** Writing `d` at `offset` of a file that reaches at least that far. */
  ghost function WrittenAt(file: string, offset: nat, d: string): string
    requires offset <= |file|
  {
    file[..offset] + d + if offset + |d| < |file| then file[offset + |d|..] else ""
  }

  class Transfer {
    const buffer: array<char>
    var bufferOffset: nat
    var bufferSize: nat
    var submittedSize: nat
    var fileOffset: nat
    var transferred: nat
    var status: Code
    var nativeStatus: int
    var pending: bool
    var pendingRequest: nat
    var pendingOperation: Operation
    var flushed: bool

    /** Everything appended so far, and the file as the operating system holds it. */
    ghost var accepted: string
    ghost var file: string
    /** The bytes and offset of the write in flight, as submitted. */
    ghost var inflight: string
    ghost var inflightOffset: nat
    /** How much of the file was there when a flush last completed. */
    ghost var durable: nat

    ghost function InFlight(): Pending
      reads this
    {
      if !pending then Idle else if pendingOperation == WriteAt then Writing(pendingRequest) else Flushing(pendingRequest)
    }

    ghost function Model(): Sink
      reads this
    {
      Sink(buffer.Length, accepted, fileOffset, |file|, bufferOffset, status, InFlight(), flushed, durable)
    }

    /** The file holds what was accepted up to the offset, the buffer the rest. */
    ghost predicate Split()
      reads this, buffer
    {
      && buffer.Length > 0
      && bufferOffset <= bufferSize <= buffer.Length
      && transferred == fileOffset
      && |accepted| == fileOffset + (bufferSize - bufferOffset)
      && accepted[fileOffset..] == buffer[bufferOffset..bufferSize]
      && |file| <= |accepted| && file == accepted[..|file|]
    }

    ghost predicate Valid()
      reads this, buffer
    {
      && Split() && Model().Valid()
      && (pending && pendingOperation == WriteAt ==>
        && inflight == buffer[bufferOffset..bufferSize]
        && inflightOffset == fileOffset
        && submittedSize == |inflight|)
      && (pending ==> pendingOperation != OtherOperation)
    }

    constructor (capacity: nat)
      requires capacity > 0
      ensures Valid() && fresh(buffer) && Model() == Opened(capacity)
    {
      buffer := new char[capacity](_ => '\0');
      bufferOffset, bufferSize, submittedSize, fileOffset, transferred := 0, 0, 0, 0, 0;
      status, nativeStatus := OK, 0;
      pending, pendingRequest, pendingOperation, flushed := false, 0, OtherOperation, false;
      accepted, file, inflight, inflightOffset, durable := "", "", "", 0, 0;
    }

    method FailWith(code: Code, native: int)
      requires code != OK
      modifies this`status, this`nativeStatus
      ensures status == if old(status) == OK then code else old(status)
      ensures nativeStatus == if old(status) == OK then native else old(nativeStatus)
    {
      if status != OK { return; }
      status := code;
      nativeStatus := native;
    }

    method CopyIn(data: string)
      requires bufferSize + |data| <= buffer.Length
      modifies buffer
      ensures buffer[..bufferSize + |data|] == old(buffer[..bufferSize]) + data
    {
      for i := 0 to |data|
        invariant buffer[..bufferSize] == old(buffer[..bufferSize])
        invariant buffer[bufferSize..bufferSize + i] == data[..i]
      {
        buffer[bufferSize + i] := data[i];
      }
    }

    /** All of `data` is accepted, or the transfer is failed and nothing is. */
    method Append(data: string) returns (r: Code)
      requires Valid()
      modifies this, buffer
      ensures Valid() && r == AppendCode(old(Model()), data) && Model() == Appended(old(Model()), data)
      ensures file == old(file)
    {
      if status != OK { return status; }
      r := OK;
      if pending || bufferOffset != 0 { r := EBUSY; }
      if |data| > buffer.Length - bufferSize { r := ENOBUFS; }
      if r != OK {
        FailWith(r, 0);
        return;
      }
      Accept(data);
    }

    method Accept(data: string)
      requires Valid() && status == OK && !pending && bufferOffset == 0 && bufferSize + |data| <= buffer.Length
      modifies this, buffer
      ensures Valid() && Model() == old(Model()).(accepted := old(accepted) + data, flushed := false) && file == old(file)
    {
      CopyIn(data);
      assert buffer[..bufferSize + |data|] == accepted[fileOffset..] + data == (accepted + data)[fileOffset..];
      bufferSize := bufferSize + |data|;
      accepted := accepted + data;
      flushed := false;
    }

    method SubmitWrite(submit: Submit) returns (r: Result)
      requires Valid() && status == OK && !pending && bufferOffset < bufferSize
      modifies this
      ensures Valid() && r == AdvanceResult(old(Model()), submit) && Model() == Advanced(old(Model()), submit)
      ensures file == old(file) && buffer[..] == old(buffer[..])
      ensures r == Wait ==> inflight == accepted[|file|..] && inflightOffset == |file|
    {
      submittedSize := bufferSize - bufferOffset;
      pendingOperation := WriteAt;
      if !submit.Accepted? {
        FailWith(MapSubmit(submit), 0);
        return Error;
      }
      pending := true;
      pendingRequest := submit.id;
      inflight, inflightOffset := buffer[bufferOffset..bufferSize], fileOffset;
      r := Wait;
    }

    method Advance(submit: Submit) returns (r: Result)
      requires Valid()
      modifies this
      ensures Valid() && r == AdvanceResult(old(Model()), submit) && Model() == Advanced(old(Model()), submit)
      ensures file == old(file)
      ensures r == Ready ==> bufferSize == 0
    {
      if status != OK { return Error; }
      if pending { return Wait; }
      if bufferOffset < bufferSize {
        r := SubmitWrite(submit);
        return;
      }
      bufferOffset, bufferSize := 0, 0;
      r := Ready;
    }

    method Write(data: string, submit: Submit) returns (r: Result)
      requires Valid()
      modifies this, buffer
      ensures Valid() && file == old(file)
      ensures r == WriteResult(old(Model()), data, submit) && Model() == Written(old(Model()), data, submit)
    {
      var appended := Append(data);
      if appended != OK { return Error; }
      r := Advance(submit);
    }

    method Flush(submit: Submit) returns (r: Result)
      requires Valid()
      modifies this
      ensures Valid() && r == FlushResult(old(Model()), submit) && Model() == Flushed(old(Model()), submit)
      ensures file == old(file)
    {
      if status != OK { return Error; }
      r := Advance(submit);
      if r != Ready { return; }
      if flushed { return; }
      submittedSize := 0;
      pendingOperation := FlushFile;
      if !submit.Accepted? {
        FailWith(MapSubmit(submit), 0);
        return Error;
      }
      pending := true;
      pendingRequest := submit.id;
      r := Wait;
    }

    /** `n` more bytes of the buffer are in the file. */
    method Progress(n: nat)
      requires Split() && 0 < n <= bufferSize - bufferOffset && !pending && !flushed
      requires |file| == fileOffset + n
      modifies this`bufferOffset, this`bufferSize, this`fileOffset, this`transferred
      ensures Valid() && fileOffset == |file|
      ensures bufferOffset == if n == old(bufferSize - bufferOffset) then 0 else old(bufferOffset) + n
    {
      assert accepted[fileOffset + n..] == accepted[fileOffset..][n..];
      assert buffer[bufferOffset..bufferSize][n..] == buffer[bufferOffset + n..bufferSize];
      bufferOffset := bufferOffset + n;
      fileOffset := fileOffset + n;
      transferred := transferred + n;
      if bufferOffset == bufferSize {
        bufferOffset, bufferSize := 0, 0;
      }
    }

    /** The operating system has put `actual` bytes of the write in flight into the file. */
    ghost method Land(actual: nat)
      requires Valid() && pending && pendingOperation == WriteAt && actual <= |inflight|
      modifies `file
      ensures Split() && !flushed && file == old(file) + inflight[..actual] == accepted[..fileOffset + actual]
      ensures |file| == fileOffset + actual
    {
      assert accepted[..fileOffset + actual] == accepted[..fileOffset] + accepted[fileOffset..][..actual];
      file := WrittenAt(file, inflightOffset, inflight[..actual]);
    }

    /** The write in flight is over. */
    method Landed(ghost actual: nat)
      requires Valid() && pending && pendingOperation == WriteAt && actual <= |inflight|
      modifies `file, `pending, `pendingRequest
      ensures Split() && !pending && !flushed
      ensures Model() == old(Model()).(pending := Idle, landed := fileOffset + actual)
      ensures file == old(file) + inflight[..actual]
    {
      Land(actual);
      pending := false;
      pendingRequest := 0;
    }

    method CompleteWrite(completion: Completion, ghost actual: nat)
      requires Valid() && pending && pendingOperation == WriteAt
      modifies this
      ensures Valid() && Model() == WriteDone(old(Model()), completion, actual)
      ensures file == old(file) + old(inflight)[..Landing(old(Model()), completion, actual)]
    {
      Landed(Landing(Model(), completion, actual));
      if completion.kind == CancelledKind {
        FailWith(ECANCELED, completion.error);
      } else if completion.kind != Succeeded || completion.bytes == 0 || completion.bytes > submittedSize ||
                completion.bytes > bufferSize - bufferOffset {
        FailWith(EIO, completion.error);
      } else {
        Progress(completion.bytes);
      }
    }

    method CompleteFlush(completion: Completion)
      requires Valid() && pending && pendingOperation == FlushFile
      modifies this
      ensures Valid() && Model() == FlushDone(old(Model()), completion) && file == old(file)
    {
      pending := false;
      pendingRequest := 0;
      if completion.kind == FailedKind {
        FailWith(EIO, completion.error);
      } else if completion.kind == CancelledKind {
        FailWith(ECANCELED, completion.error);
      } else if completion.kind != Succeeded {
        FailWith(EIO, completion.error);
      } else {
        flushed := true;
        durable := |file|;
      }
    }

    /**
     The completion callback. `actual` is what the operating system wrote of a write
     that did not succeed.
     */
    method Complete(id: nat, operation: Operation, completion: Completion, ghost actual: nat)
      requires Valid()
      modifies this
      ensures Valid() && Model() == Completed(old(Model()), id, operation, completion, actual)
      ensures old(file) <= file
    {
      if !pending || pendingRequest != id || pendingOperation != operation {
        FailWith(EPROTO, 0);
      } else if operation == WriteAt {
        CompleteWrite(completion, actual);
      } else {
        CompleteFlush(completion);
      }
    }
  }

  // ---------------------------------------------------------------- whole histories

  /** One thing that can happen to an open transfer. */
  datatype Event =
    | AppendEvent(data: string)
    | WriteEvent(data: string, submit: Submit)
    | AdvanceEvent(submit: Submit)
    | FlushEvent(submit: Submit)
    | CompleteEvent(id: nat, operation: Operation, completion: Completion, actual: nat)

  datatype Outcome = Coded(code: Code) | Answered(result: Result) | Settled

  function Answer(s: Sink, e: Event): Outcome {
    match e
    case AppendEvent(data) => Coded(AppendCode(s, data))
    case WriteEvent(data, submit) => Answered(WriteResult(s, data, submit))
    case AdvanceEvent(submit) => Answered(AdvanceResult(s, submit))
    case FlushEvent(submit) => Answered(FlushResult(s, submit))
    case CompleteEvent(_, _, _, _) => Settled
  }

  function Step(s: Sink, e: Event): (r: Sink)
    requires s.Valid()
    ensures r.Valid()
  {
    match e
    case AppendEvent(data) => Appended(s, data)
    case WriteEvent(data, submit) => Written(s, data, submit)
    case AdvanceEvent(submit) => Advanced(s, submit)
    case FlushEvent(submit) => Flushed(s, submit)
    case CompleteEvent(id, operation, completion, actual) => Completed(s, id, operation, completion, actual)
  }

  function Run(capacity: nat, events: seq<Event>): (s: Sink)
    ensures s.Valid()
  {
    if events == [] then Opened(capacity) else Step(Run(capacity, events[..|events| - 1]), events[|events| - 1])
  }

  /** What an event adds to the accepted data: an append that succeeds, alone or as part of a write, all of its data. */
  function Added(s: Sink, e: Event): string {
    if (e.AppendEvent? || e.WriteEvent?) && AppendCode(s, e.data) == OK then e.data else ""
  }

  /** The data of the appends that succeeded. */
  function AppendedText(capacity: nat, events: seq<Event>): string {
    if events == [] then ""
    else AppendedText(capacity, events[..|events| - 1]) + Added(Run(capacity, events[..|events| - 1]), events[|events| - 1])
  }

  lemma StepAdds(s: Sink, e: Event)
    requires s.Valid()
    ensures Step(s, e).accepted == s.accepted + Added(s, e)
  {
    assert s.accepted + "" == s.accepted;
  }

  lemma {:induction false} AcceptedIsAppended(capacity: nat, events: seq<Event>)
    ensures Run(capacity, events).accepted == AppendedText(capacity, events)
  {
    if events != [] {
      var n := |events| - 1;
      AcceptedIsAppended(capacity, events[..n]);
      StepAdds(Run(capacity, events[..n]), events[n]);
    }
  }

  /** Ready means written: everything accepted is in the file and nothing is in flight; after a flush it is durable. */
  lemma ReadyMeansWritten(capacity: nat, events: seq<Event>)
    requires events != []
    requires Answer(Run(capacity, events[..|events| - 1]), events[|events| - 1]) == Answered(Ready)
    ensures var s := Run(capacity, events);
      && s.landed == s.offset == |s.accepted| && s.status == OK && s.pending == Idle
      && (events[|events| - 1].FlushEvent? ==> s.durable == |s.accepted|)
  {
    ReadyStep(Run(capacity, events[..|events| - 1]), events[|events| - 1]);
  }

  lemma ReadyStep(s: Sink, e: Event)
    requires s.Valid() && Answer(s, e) == Answered(Ready)
    ensures var t := Step(s, e);
      && t.landed == t.offset == |t.accepted| && t.status == OK && t.pending == Idle
      && (e.FlushEvent? ==> t.durable == |t.accepted|)
  {
  }

  /** The first failure is final: no later event clears it, accepts data or reports ready. */
  lemma {:induction false} FailureIsFinal(capacity: nat, events: seq<Event>, more: seq<Event>)
    requires Run(capacity, events).status != OK
    ensures Run(capacity, events + more).status == Run(capacity, events).status
    ensures Run(capacity, events + more).accepted == Run(capacity, events).accepted
    ensures more != [] ==> Answer(Run(capacity, events + more[..|more| - 1]), more[|more| - 1]) != Answered(Ready)
    decreases |more|
  {
    if more == [] {
      assert events + more == events;
    } else {
      var n := |more| - 1;
      FailureIsFinal(capacity, events, more[..n]);
      assert (events + more)[..|events + more| - 1] == events + more[..n];
      FailedStep(Run(capacity, events + more[..n]), more[n]);
    }
  }

  lemma FailedStep(s: Sink, e: Event)
    requires s.Valid() && s.status != OK
    ensures Step(s, e).status == s.status && Step(s, e).accepted == s.accepted && Answer(s, e) != Answered(Ready)
  {
  }

  /** At event `i`: what was answered, and what the file held, all accepted data if the answer was ready. */
  ghost predicate LoggedAt(capacity: nat, events: seq<Event>, outcomes: seq<Outcome>, files: seq<string>, file: string, i: nat) {
    && i < |events| && i < |outcomes| && i < |files|
    && outcomes[i] == Answer(Run(capacity, events[..i]), events[i])
    && files[i] <= file
    && (outcomes[i] == Answered(Ready) ==> files[i] == AppendedText(capacity, events[..i + 1]))
  }

  ghost predicate Logged(capacity: nat, events: seq<Event>, outcomes: seq<Outcome>, files: seq<string>, file: string) {
    |outcomes| == |events| == |files| && forall i: nat :: i < |events| ==> LoggedAt(capacity, events, outcomes, files, file, i)
  }

  lemma LoggedNext(capacity: nat, events: seq<Event>, outcomes: seq<Outcome>, files: seq<string>, file: string, e: Event, o: Outcome, next: string)
    requires Logged(capacity, events, outcomes, files, file) && file <= next
    requires o == Answer(Run(capacity, events), e)
    requires o == Answered(Ready) ==> next == AppendedText(capacity, events + [e])
    ensures Logged(capacity, events + [e], outcomes + [o], files + [next], next)
  {
    forall i: nat | i < |events| + 1
      ensures LoggedAt(capacity, events + [e], outcomes + [o], files + [next], next, i)
    {
      if i < |events| {
        assert LoggedAt(capacity, events, outcomes, files, file, i);
        assert (events + [e])[..i] == events[..i] && (events + [e])[..i + 1] == events[..i + 1];
      } else {
        assert (events + [e])[..i] == events && (events + [e])[..i + 1] == events + [e];
      }
    }
  }

  /**
   Any history of a transfer: whatever the runtime answers and however short the
   writes are, the file is a prefix of the data of the appends that succeeded, and
   all of it at every event that reports ready.
   */
  method History(capacity: nat, events: seq<Event>) returns (t: Transfer, outcomes: seq<Outcome>, ghost files: seq<string>)
    requires capacity > 0
    ensures t.Valid() && fresh(t) && t.Model() == Run(capacity, events)
    ensures t.accepted == AppendedText(capacity, events) && t.file <= t.accepted
    ensures Logged(capacity, events, outcomes, files, t.file)
  {
    t := new Transfer(capacity);
    outcomes, files := [], [];
    for i := 0 to |events|
      invariant t.Valid() && fresh(t) && fresh(t.buffer) && t.Model() == Run(capacity, events[..i])
      invariant Logged(capacity, events[..i], outcomes, files, t.file)
    {
      ghost var was := t.file;
      var outcome := Handle(t, events[i]);
      assert events[..i + 1] == events[..i] + [events[i]] && events[..i + 1][..i] == events[..i];
      if outcome == Answered(Ready) {
        AllWritten(t, capacity, events[..i + 1]);
      }
      LoggedNext(capacity, events[..i], outcomes, files, was, events[i], outcome, t.file);
      outcomes, files := outcomes + [outcome], files + [t.file];
    }
    assert events[..|events|] == events;
    AcceptedIsAppended(capacity, events);
  }

  lemma AllWritten(t: Transfer, capacity: nat, events: seq<Event>)
    requires t.Valid() && t.Model() == Run(capacity, events) && events != []
    requires Answer(Run(capacity, events[..|events| - 1]), events[|events| - 1]) == Answered(Ready)
    ensures t.file == AppendedText(capacity, events)
  {
    ReadyMeansWritten(capacity, events);
    AcceptedIsAppended(capacity, events);
    assert t.accepted[..|t.accepted|] == t.accepted;
  }

  /** One event on the transfer in place. */
  method Handle(t: Transfer, e: Event) returns (outcome: Outcome)
    requires t.Valid()
    modifies t, t.buffer
    ensures t.Valid() && t.Model() == Step(old(t.Model()), e) && outcome == Answer(old(t.Model()), e)
    ensures old(t.file) <= t.file
  {
    match e {
      case AppendEvent(data) =>
        var code := t.Append(data);
        outcome := Coded(code);
      case WriteEvent(data, submit) =>
        var r := t.Write(data, submit);
        outcome := Answered(r);
      case AdvanceEvent(submit) =>
        var r := t.Advance(submit);
        outcome := Answered(r);
      case FlushEvent(submit) =>
        var r := t.Flush(submit);
        outcome := Answered(r);
      case CompleteEvent(id, operation, completion, actual) =>
        t.Complete(id, operation, completion, actual);
        outcome := Settled;
    }
  }
}
