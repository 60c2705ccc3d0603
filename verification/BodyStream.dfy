/**
 The body source of a request slot: every advance reads one piece from the
 application and hands the framed piece to the network. `pieces` is what the
 source produced, `wire` what the network was given.
 */
module BodyStream {
  import opened Octets
  import opened ChunkedBody

  /** One read of the application's source; the end of a file source is an empty read. */
  datatype Read = ReadFailed | ReadWait | ReadData(data: string)

  datatype Plan = Plan(chunkBytes: nat, maxBody: nat, lengthKnown: bool, contentLength: nat) {
    predicate Valid() {
      0 < chunkBytes && chunkBytes + OVERHEAD_BYTES <= SIZE_MAX
    }
  }

  datatype Stage = Sending | FinalSent | Done | Failed

  /** The pieces the network accepted, and how far the body is. */
  datatype Progress = Progress(pieces: seq<string>, stage: Stage)

  function Sent(p: Progress): nat {
    |Concat(p.pieces)|
  }

  /** The most the next read may produce; a body already at its length offers a whole buffer. */
  function Capacity(plan: Plan, p: Progress): nat {
    if !plan.lengthKnown || Sent(p) >= plan.contentLength || plan.chunkBytes <= plan.contentLength - Sent(p)
    then plan.chunkBytes else plan.contentLength - Sent(p)
  }

  /** What an advance does with the octets of a successful read. */
  function Take(plan: Plan, p: Progress, data: string, sendAccepted: bool): Progress {
    if |data| > Capacity(plan, p) then p.(stage := Failed)
    else if plan.lengthKnown && Sent(p) == plan.contentLength then p.(stage := if data == "" then Done else Failed)
    else if data == "" then p.(stage := if plan.lengthKnown || !sendAccepted then Failed else FinalSent)
    else if !plan.lengthKnown && Sent(p) + |data| > plan.maxBody then p.(stage := Failed)
    else if !sendAccepted then p.(stage := Failed)
    else p.(pieces := p.pieces + [data])
  }

  /** One advance: which piece is accepted, and when the body fails, ends or is complete. */
  function Turn(plan: Plan, p: Progress, read: Read, sendAccepted: bool): Progress {
    match p.stage
    case Sending =>
      if read.ReadData? then Take(plan, p, read.data, sendAccepted)
      else if read.ReadWait? && plan.lengthKnown then p
      else p.(stage := Failed)
    case FinalSent => p.(stage := Done)
    case Done => p
    case Failed => p
  }

  /** The octets on the wire at any point of a body. */
  function Wire(plan: Plan, p: Progress, final: bool): string {
    if plan.lengthKnown then Concat(p.pieces) else Frames(p.pieces) + if final then FINAL_CHUNK else ""
  }

  class Stream {
    const plan: Plan
    const buffer: array<char>
    var transferred: nat
    var enabled: bool
    var complete: bool
    var finalPending: bool
    var sendPending: bool
    var failed: bool
    ghost var pieces: seq<string>
    ghost var wire: string

    ghost function Model(): Progress
      reads this
    {
      Progress(pieces, if failed then Failed else if complete then Done else if finalPending then FinalSent else Sending)
    }

    ghost predicate Valid()
      reads this
    {
      && plan.Valid() && buffer.Length == plan.chunkBytes + OVERHEAD_BYTES
      && (enabled <==> !complete)
      && transferred == Sent(Model())
      && ProgressValid(plan, Model())
      && wire == Wire(plan, Model(), finalPending || complete)
      && (plan.lengthKnown ==> !finalPending) && (failed ==> !finalPending && !complete)
    }

    constructor (plan: Plan)
      requires plan.Valid()
      ensures Valid() && fresh(buffer) && wire == "" && this.plan == plan
      ensures Model() == Progress([], Sending)
    {
      this.plan := plan;
      buffer := new char[plan.chunkBytes + OVERHEAD_BYTES](_ => '\0');
      transferred, enabled, complete, finalPending, sendPending, failed := 0, true, false, false, false, false;
      pieces, wire := [], "";
    }

    /** Records a piece that was sent. */
    ghost method Record(d: string)
      requires Valid() && Model().stage == Sending && d != ""
      requires Sent(Model()) + |d| <= if plan.lengthKnown then plan.contentLength else plan.maxBody
      modifies this`pieces, this`wire
      ensures pieces == old(pieces) + [d]
      ensures wire == Wire(plan, Model(), false) == old(wire) + if plan.lengthKnown then d else Chunk(d)
      ensures Sent(Model()) == transferred + |d| && ProgressValid(plan, Model())
    {
      Added(plan, Model(), d);
      pieces := pieces + [d];
      wire := wire + if plan.lengthKnown then d else Chunk(d);
    }

    /** chttp_slot_source_finished */
    method Finish()
      requires Valid() && !failed && (if plan.lengthKnown then transferred == plan.contentLength else finalPending)
      modifies this`enabled, this`complete, this`finalPending
      ensures Valid() && Model() == Progress(old(pieces), Done)
    {
      enabled, complete, finalPending := false, true, false;
    }

    method Fail()
      requires Valid() && Model().stage == Sending
      modifies this`failed
      ensures Valid() && Model() == old(Model()).(stage := Failed)
    {
      failed := true;
    }

    /** A read of a body whose length was declared. */
    method AdvanceKnown(data: string, sendAccepted: bool)
      requires Valid() && plan.lengthKnown && Model().stage == Sending
      modifies this, buffer
      ensures Valid() && Model() == Take(plan, old(Model()), data, sendAccepted)
      ensures wire != old(wire) ==> sendPending
    {
      var remaining := plan.contentLength - transferred;
      var capacity := if remaining == 0 || plan.chunkBytes <= remaining then plan.chunkBytes else remaining;
      var n := |data|;
      if n > capacity {
        Fail();
        return;
      }
      Put(buffer, 0, data);
      assert buffer[..n] == buffer[..][..n] == data;
      if remaining == 0 {
        if n != 0 { Fail(); } else { Finish(); }
        return;
      }
      if n == 0 || !sendAccepted {
        Fail();
        return;
      }
      Record(buffer[..n]);
      sendPending := true;
      transferred := transferred + n;
    }

    /** The final chunk of a body of unknown length. */
    method SendFinal(sendAccepted: bool)
      requires Valid() && !plan.lengthKnown && Model().stage == Sending
      modifies this, buffer
      ensures Valid() && Model() == Progress(old(pieces), if sendAccepted then FinalSent else Failed)
      ensures sendAccepted ==> sendPending
      ensures !sendAccepted ==> wire == old(wire)
    {
      Put(buffer, 0, FINAL_CHUNK);
      assert buffer[..5] == buffer[..][..5] == FINAL_CHUNK;
      if !sendAccepted {
        Fail();
        return;
      }
      assert wire + "" == wire;
      wire := wire + buffer[..5];
      sendPending, finalPending := true, true;
    }

    /** A chunk read into the buffer, framed where it lies. */
    method SendChunk(n: nat, ghost d: string, sendAccepted: bool)
      requires Valid() && !plan.lengthKnown && Model().stage == Sending
      requires 0 < n == |d| <= plan.chunkBytes && transferred + n <= plan.maxBody
      requires buffer[PREFIX_BYTES..PREFIX_BYTES + n] == d
      modifies this, buffer
      ensures Valid()
      ensures Model() == if sendAccepted then Progress(old(pieces) + [d], Sending) else old(Model()).(stage := Failed)
      ensures wire != old(wire) ==> sendPending
    {
      var offset, size := FrameChunk(buffer, n);
      if !sendAccepted {
        Fail();
        return;
      }
      assert buffer[offset..offset + size] == Chunk(d);
      Record(d);
      sendPending := true;
      transferred := transferred + n;
    }

    /** A read of a body of unknown length. */
    method AdvanceUnknown(data: string, sendAccepted: bool)
      requires Valid() && !plan.lengthKnown && Model().stage == Sending
      modifies this, buffer
      ensures Valid() && Model() == Take(plan, old(Model()), data, sendAccepted)
      ensures wire != old(wire) ==> sendPending
    {
      var n := |data|;
      if n > plan.chunkBytes {
        Fail();
        return;
      }
      Put(buffer, PREFIX_BYTES, data);
      assert buffer[PREFIX_BYTES..PREFIX_BYTES + n] == buffer[..][PREFIX_BYTES..PREFIX_BYTES + n] == data;
      if n == 0 {
        SendFinal(sendAccepted);
      } else if transferred > plan.maxBody || n > plan.maxBody - transferred {
        Fail();
      } else {
        SendChunk(n, data, sendAccepted);
      }
    }

    /** chttp_slot_source_advance; only a file source, whose length is known, can ask to wait. */
    method Advance(read: Read, sendAccepted: bool)
      requires Valid()
      modifies this, buffer
      ensures Valid() && Model() == Turn(plan, old(Model()), read, sendAccepted)
      ensures wire != old(wire) ==> sendPending
    {
      if !enabled || complete || failed { return; }
      if finalPending {
        Finish();
        return;
      }
      if read.ReadWait? && plan.lengthKnown { return; }
      if !read.ReadData? {
        Fail();
      } else if plan.lengthKnown {
        AdvanceKnown(read.data, sendAccepted);
      } else {
        AdvanceUnknown(read.data, sendAccepted);
      }
    }
  }

  /** What every advance keeps. */
  predicate ProgressValid(plan: Plan, p: Progress) {
    && (forall i :: 0 <= i < |p.pieces| ==> p.pieces[i] != "")
    && Sent(p) <= (if plan.lengthKnown then plan.contentLength else plan.maxBody)
    && (plan.lengthKnown ==> p.stage != FinalSent && (p.stage == Done ==> Sent(p) == plan.contentLength))
  }

  lemma Added(plan: Plan, p: Progress, d: string)
    ensures var q := p.(pieces := p.pieces + [d]);
      && Sent(q) == Sent(p) + |d|
      && Wire(plan, q, false) == Wire(plan, p, false) + if plan.lengthKnown then d else Chunk(d)
  {
    FramesSnoc(p.pieces, d);
    ConcatAppend(p.pieces, [d]);
    assert Concat([d]) == d + Concat([]) == d;
    assert Frames(p.pieces) + "" == Frames(p.pieces);
  }

  // ---------------------------------------------------------------- whole bodies

  datatype Call = Call(read: Read, sendAccepted: bool)

  function Run(plan: Plan, calls: seq<Call>): Progress {
    if calls == [] then Progress([], Sending)
    else
      var last := calls[|calls| - 1];
      Turn(plan, Run(plan, calls[..|calls| - 1]), last.read, last.sendAccepted)
  }

  /** The data of the reads up to the first that produced nothing. */
  function Produced(calls: seq<Call>): seq<string> {
    if calls == [] then []
    else
      var before, last := Produced(calls[..|calls| - 1]), calls[|calls| - 1].read;
      if Ended(calls[..|calls| - 1]) || !last.ReadData? || last.data == "" then before else before + [last.data]
  }

  predicate Ended(calls: seq<Call>) {
    exists i :: 0 <= i < |calls| && calls[i].read == ReadData("")
  }

  lemma EndedSnoc(calls: seq<Call>)
    requires calls != []
    ensures Ended(calls) <==> Ended(calls[..|calls| - 1]) || calls[|calls| - 1].read == ReadData("")
  {
    var n := |calls| - 1;
    if Ended(calls[..n]) {
      var i :| 0 <= i < n && calls[..n][i].read == ReadData("");
      assert calls[i].read == ReadData("");
    }
    if Ended(calls) {
      var i :| 0 <= i < |calls| && calls[i].read == ReadData("");
      assert i < n ==> calls[..n][i].read == ReadData("");
    }
  }

  /** Nothing is dropped, repeated or reordered: until it fails, a body is what the source produced. */
  lemma {:induction false} RunTakesEveryRead(plan: Plan, calls: seq<Call>)
    ensures ProgressValid(plan, Run(plan, calls))
    ensures Run(plan, calls).stage == Sending ==> !Ended(calls)
    ensures Run(plan, calls).stage == FinalSent || Run(plan, calls).stage == Done ==> Ended(calls)
    ensures Run(plan, calls).stage != Failed ==> Run(plan, calls).pieces == Produced(calls)
    ensures Run(plan, calls).pieces <= Produced(calls)
  {
    if calls != [] {
      var n := |calls| - 1;
      RunTakesEveryRead(plan, calls[..n]);
      EndedSnoc(calls);
      TurnKeeps(plan, Run(plan, calls[..n]), calls[n].read, calls[n].sendAccepted);
    }
  }

  lemma TurnKeeps(plan: Plan, p: Progress, read: Read, sendAccepted: bool)
    requires ProgressValid(plan, p)
    ensures ProgressValid(plan, Turn(plan, p, read, sendAccepted))
  {
    if p.stage == Sending && read.ReadData? {
      Added(plan, p, read.data);
    }
  }

  /**
   A body that completes reaches its receiver as exactly what the source produced:
   through the chunked decoder, or as it stands and of the declared length.
   */
  lemma CompletedBody(plan: Plan, calls: seq<Call>)
    requires Run(plan, calls).stage == Done
    ensures var wire, data := Wire(plan, Run(plan, calls), true), Concat(Produced(calls));
      if plan.lengthKnown then wire == data && |data| == plan.contentLength
      else Decode(wire) == Some(data) && |data| <= plan.maxBody
  {
    RunTakesEveryRead(plan, calls);
    if !plan.lengthKnown {
      DecodeUndoesFrames(Produced(calls));
    }
  }

  /** Until its final chunk is out, a body of unknown length is not a complete message. */
  lemma IncompleteBody(plan: Plan, calls: seq<Call>)
    requires !plan.lengthKnown && (Run(plan, calls).stage == Sending || Run(plan, calls).stage == Failed)
    ensures Decode(Wire(plan, Run(plan, calls), false)) == None
  {
    RunTakesEveryRead(plan, calls);
    var frames := Frames(Run(plan, calls).pieces);
    FramesAloneIncomplete(Run(plan, calls).pieces);
    assert frames + "" == frames;
  }

  /** The stream in place, over any run of advances. */
  method SendBody(plan: Plan, calls: seq<Call>) returns (stream: Stream)
    requires plan.Valid()
    ensures stream.Valid() && stream.plan == plan && stream.Model() == Run(plan, calls)
    ensures stream.complete && !plan.lengthKnown ==> Decode(stream.wire) == Some(Concat(Produced(calls)))
    ensures stream.complete && plan.lengthKnown ==> stream.wire == Concat(Produced(calls)) && |stream.wire| == plan.contentLength
  {
    stream := new Stream(plan);
    for i := 0 to |calls|
      invariant stream.Valid() && stream.plan == plan && fresh(stream) && fresh(stream.buffer)
      invariant stream.Model() == Run(plan, calls[..i])
    {
      assert calls[..i + 1][..i] == calls[..i];
      stream.Advance(calls[i].read, calls[i].sendAccepted);
    }
    assert calls[..|calls|] == calls;
    if stream.complete {
      CompletedBody(plan, calls);
    }
  }
}
