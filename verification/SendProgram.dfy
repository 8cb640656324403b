/** Sender and SendService in the form they are written in: a chunk loop that reuses one buffer, indexed
    loops over the entries, and a stop token that is polled on the way. */
module SendProgram {
  import opened Results
  import opened TransferTypes
  import opened Session
  import opened SessionOutcome
  import opened Progress
  import opened ReceiveProgram

  // ---------- the specification ----------

  function ThenSent(out: seq<Msg>, s: Sent): Sent { s.(out := out + s.out) }

  /** The sender's steps on a given stream of acknowledgements, until it stops or waits in vain. */
  function DriveSender(job: Job, s: Sender, inbox: seq<Msg>): Sent
    requires Sendable(job) && SenderInRange(job, s)
    decreases SenderRank(job, s)
  {
    match SenderStep(job, s, inbox)
    case None => Sent(s, inbox, [])
    case Some(step) =>
      SenderProgress(job, s, inbox);
      ThenSent(step.out, DriveSender(job, step.next, step.inbox))
  }

  function SenderOutcome(s: Sender): Option<ErrorCode> {
    match s
    case SDone => None
    case SFailed(e) => Some(e)
    case _ => Some(NetworkFailure)
  }

  /** The program stopped with this error exactly where the machine stopped. */
  predicate SenderStoppedAt(end: Sent, error: ErrorCode, inbox: seq<Msg>, before: seq<Msg>, outbox: seq<Msg>) {
    SenderOutcome(end.next) == Some(error) && inbox == end.inbox && outbox == before + end.out
  }

  /** A cancelled program has sent a prefix of what it would have sent. */
  predicate CutShort(end: Sent, before: seq<Msg>, outbox: seq<Msg>) {
    before <= outbox <= before + end.out
  }

  /** What a completed file means: after the acknowledged offset everything is sent, in non-empty chunks
      of which only the last may be short. */
  predicate FileSent(job: Job, i: nat, f: FileRun, sent: seq<Msg>)
    requires Sendable(job) && i < |job.files|
  {
    var content := job.files[i].content;
    && f.info == InfoOf(job, job.files[i])
    && f.offset <= |content| && Concat(f.payloads) == content[f.offset..]
    && (forall k :: 0 <= k < |f.payloads| ==> 0 < |f.payloads[k]| <= job.chunk)
    && (forall k :: 0 <= k < |f.payloads| - 1 ==> |f.payloads[k]| == job.chunk)
    && sent == [Info(f.info)] + DataMessages(f.payloads) + [FileEnd]
  }

  function SumOfSizes(files: seq<Source>): nat {
    if files == [] then 0 else SumOfSizes(files[..|files| - 1]) + |files[|files| - 1].content|
  }

  /** The total in HELLO is the sum of the sizes if and only if that fits in 64 bits. */
  lemma {:induction false} TotalIffItFits(files: seq<Source>)
    ensures TotalBytes(files) == SumOfSizes(files) % 0x1_0000_0000_0000_0000
    ensures TotalBytes(files) == SumOfSizes(files) <==> SumOfSizes(files) < 0x1_0000_0000_0000_0000
  {
    if files != [] {
      TotalIffItFits(files[..|files| - 1]);
    }
  }

  /** Bytes carried by DATA packets. */
  function DataBytes(out: seq<Msg>): nat {
    if out == [] then 0
    else DataBytes(out[..|out| - 1]) + (if out[|out| - 1].Data? then |out[|out| - 1].payload| else 0)
  }

  /** What is left to send of the first |runs| files after the acknowledged offsets. */
  function Remaining(runs: seq<FileRun>): int {
    if runs == [] then 0
    else Remaining(runs[..|runs| - 1]) + runs[|runs| - 1].info.size - runs[|runs| - 1].offset
  }

  lemma {:induction false} DataBytesConcat(a: seq<Msg>, b: seq<Msg>)
    ensures DataBytes(a + b) == DataBytes(a) + DataBytes(b)
  {
    if b == [] {
      assert a + b == a;
    } else {
      DataBytesConcat(a, b[..|b| - 1]);
      assert (a + b)[..|a + b| - 1] == a + b[..|b| - 1];
    }
  }

  lemma {:induction false} DataBytesOf(payloads: seq<seq<byte>>)
    ensures DataBytes(DataMessages(payloads)) == |Concat(payloads)|
  {
    if payloads == [] {
    } else {
      var k := |payloads| - 1;
      DataBytesOf(payloads[..k]);
      ConcatSnoc(payloads[..k], payloads[k]);
      assert payloads[..k] + [payloads[k]] == payloads;
      assert DataMessages(payloads)[..k] == DataMessages(payloads[..k]);
    }
  }

  /** A completed file costs exactly the bytes after its offset. */
  lemma FileCost(job: Job, i: nat, f: FileRun, sent: seq<Msg>)
    requires Sendable(job) && i < |job.files| && FileSent(job, i, f, sent)
    ensures DataBytes(sent) == f.info.size - f.offset && Full(f)
  {
    hide DataMessages;
    hide Concat;
    DataBytesConcat([Info(f.info)] + DataMessages(f.payloads), [FileEnd]);
    DataBytesConcat([Info(f.info)], DataMessages(f.payloads));
    DataBytesOf(f.payloads);
    assert [Info(f.info)][..0] == [] && [FileEnd][..0] == [];
  }

  // ---------- facts about the machine ----------

  lemma Waits(job: Job, i: nat)
    requires Sendable(job) && i < |job.files|
    ensures DriveSender(job, SAwait(i), []) == Sent(SAwait(i), [], [])
  {
  }

  lemma SendsInfo(job: Job, i: nat, inbox: seq<Msg>)
    requires Sendable(job) && i < |job.files|
    ensures DriveSender(job, SFile(i), inbox)
         == ThenSent([Info(InfoOf(job, job.files[i]))], DriveSender(job, SAwait(i), inbox))
  {
    hide InfoOf;
  }

  lemma TakesAck(job: Job, i: nat, inbox: seq<Msg>)
    requires Sendable(job) && i < |job.files| && inbox != []
    ensures var end := DriveSender(job, SAwait(i), inbox);
            if !inbox[0].Ack? then end == Sent(SFailed(UnexpectedPacket), inbox[1..], [])
            else if inbox[0].offset > |job.files[i].content| then end == Sent(SFailed(InvalidResumeOffset), inbox[1..], [])
            else end == DriveSender(job, SData(i, inbox[0].offset), inbox[1..])
  {
    var step := SenderStep(job, SAwait(i), inbox).value;
    var rest := DriveSender(job, step.next, inbox[1..]);
    assert [] + rest.out == rest.out;
  }

  lemma SendsChunk(job: Job, i: nat, sent: nat, inbox: seq<Msg>)
    requires Sendable(job) && i < |job.files| && sent <= |job.files[i].content|
    ensures var content := job.files[i].content;
            var next := NextChunk(job, |content|, sent);
            DriveSender(job, SData(i, sent), inbox)
            == if sent == |content| then ThenSent([FileEnd], DriveSender(job, SFile(i + 1), inbox))
               else ThenSent([Data(content[sent..next])], DriveSender(job, SData(i, next), inbox))
  {
  }

  lemma SendsHello(job: Job, inbox: seq<Msg>)
    requires Sendable(job)
    ensures DriveSender(job, SHello, inbox)
         == ThenSent([Hello(TransferManifest(|job.files|, TotalBytes(job.files), |job.directories|))],
                     DriveSender(job, AfterDirectory(job, 0), inbox))
  {
    hide TotalBytes;
  }

  lemma SendsDirectory(job: Job, i: nat, inbox: seq<Msg>)
    requires Sendable(job) && i < |job.directories|
    ensures DriveSender(job, SDirectory(i), inbox)
         == ThenSent([Directory(job.directories[i])], DriveSender(job, AfterDirectory(job, i + 1), inbox))
  {
  }

  lemma SendsFinish(job: Job, inbox: seq<Msg>)
    requires Sendable(job)
    ensures DriveSender(job, SFile(|job.files|), inbox) == Sent(SDone, inbox, [Finish])
  {
    assert DriveSender(job, SDone, inbox) == Sent(SDone, inbox, []);
  }

  lemma SentAfter(start: Sent, sent: seq<Msg>, more: seq<Msg>, end: Sent)
    requires start == ThenSent(sent, ThenSent(more, end))
    ensures start == ThenSent(sent + more, end)
  {
    assert sent + (more + end.out) == sent + more + end.out;
  }

  lemma StoppedLater(start: Sent, sent: seq<Msg>, end: Sent, error: ErrorCode, inbox: seq<Msg>,
                     before: seq<Msg>, outbox: seq<Msg>)
    requires start == ThenSent(sent, end) && SenderStoppedAt(end, error, inbox, before + sent, outbox)
    ensures SenderStoppedAt(start, error, inbox, before, outbox)
  {
    assert before + sent + end.out == before + (sent + end.out);
  }

  lemma CutLater(start: Sent, sent: seq<Msg>, end: Sent, before: seq<Msg>, outbox: seq<Msg>)
    requires start == ThenSent(sent, end) && CutShort(end, before + sent, outbox)
    ensures CutShort(start, before, outbox)
  {
    assert before + sent + end.out == before + (sent + end.out);
  }

  lemma OneMoreMessage(payloads: seq<seq<byte>>, last: seq<byte>)
    ensures DataMessages(payloads + [last]) == DataMessages(payloads) + [Data(last)]
  {
  }

  lemma MoreData(head: seq<Msg>, payloads: seq<seq<byte>>, last: seq<byte>)
    ensures head + DataMessages(payloads) + [Data(last)] == head + DataMessages(payloads + [last])
  {
    assert DataMessages(payloads + [last]) == DataMessages(payloads) + [Data(last)];
  }

  /** The payloads sent so far cover the content from the offset to `sent`, in full chunks but perhaps the last,
      and leave the machine where it sends the rest. */
  predicate ChunksSent(job: Job, inbox: seq<Msg>, i: nat, offset: nat, sent: nat, full: bool, payloads: seq<seq<byte>>)
    requires Sendable(job) && i < |job.files|
  {
    var content := job.files[i].content;
    && offset <= sent <= |content|
    && Concat(payloads) == content[offset..sent]
    && (forall k :: 0 <= k < |payloads| ==> 0 < |payloads[k]| <= job.chunk)
    && (forall k :: 0 <= k < |payloads| - (if full then 0 else 1) ==> |payloads[k]| == job.chunk)
    && DriveSender(job, SData(i, offset), inbox) == ThenSent(DataMessages(payloads), DriveSender(job, SData(i, sent), inbox))
  }

  lemma NoChunks(job: Job, inbox: seq<Msg>, i: nat, offset: nat)
    requires Sendable(job) && i < |job.files| && offset <= |job.files[i].content|
    ensures ChunksSent(job, inbox, i, offset, offset, true, [])
  {
    hide DriveSender;
    NoData();
    var start := DriveSender(job, SData(i, offset), inbox);
    assert [] + start.out == start.out;
  }

  lemma OneMoreChunk(job: Job, inbox: seq<Msg>, i: nat, offset: nat, sent: nat, payloads: seq<seq<byte>>)
    requires Sendable(job) && i < |job.files| && ChunksSent(job, inbox, i, offset, sent, true, payloads)
    requires sent < |job.files[i].content|
    ensures var content := job.files[i].content;
            var next := NextChunk(job, |content|, sent);
            ChunksSent(job, inbox, i, offset, next, next - sent == job.chunk, payloads + [content[sent..next]])
  {
    hide DriveSender;
    hide DataMessages;
    hide Concat;
    var content := job.files[i].content;
    var next := NextChunk(job, |content|, sent);
    var payload := content[sent..next];
    SendsChunk(job, i, sent, inbox);
    SentAfter(DriveSender(job, SData(i, offset), inbox), DataMessages(payloads), [Data(payload)], DriveSender(job, SData(i, next), inbox));
    OneMoreMessage(payloads, payload);
    ConcatSnoc(payloads, payload);
    assert content[offset..sent] + content[sent..next] == content[offset..next];
  }

  lemma ChunkLength(job: Job, inbox: seq<Msg>, i: nat, offset: nat, sent: nat, full: bool, payloads: seq<seq<byte>>)
    requires Sendable(job) && i < |job.files| && ChunksSent(job, inbox, i, offset, sent, full, payloads)
    ensures offset <= sent && offset + |Concat(payloads)| == sent
  {
    hide DriveSender;
    hide DataMessages;
    hide Concat;
  }

  lemma AllChunks(job: Job, inbox: seq<Msg>, i: nat, offset: nat, full: bool, payloads: seq<seq<byte>>)
    requires Sendable(job) && i < |job.files| && ChunksSent(job, inbox, i, offset, |job.files[i].content|, full, payloads)
    ensures offset <= |job.files[i].content| && Concat(payloads) == job.files[i].content[offset..]
    ensures forall k :: 0 <= k < |payloads| ==> 0 < |payloads[k]| <= job.chunk
    ensures forall k :: 0 <= k < |payloads| - 1 ==> |payloads[k]| == job.chunk
    ensures DriveSender(job, SData(i, offset), inbox)
         == ThenSent(DataMessages(payloads) + [FileEnd], DriveSender(job, SFile(i + 1), inbox))
  {
    hide DriveSender;
    hide DataMessages;
    hide Concat;
    var content := job.files[i].content;
    assert content[offset..|content|] == content[offset..];
    SendsChunk(job, i, |content|, inbox);
    SentAfter(DriveSender(job, SData(i, offset), inbox), DataMessages(payloads), [FileEnd], DriveSender(job, SFile(i + 1), inbox));
  }

  lemma ChunksCut(job: Job, inbox: seq<Msg>, i: nat, offset: nat, sent: nat, full: bool, payloads: seq<seq<byte>>, before: seq<Msg>)
    requires Sendable(job) && i < |job.files| && ChunksSent(job, inbox, i, offset, sent, full, payloads)
    ensures CutShort(DriveSender(job, SData(i, offset), inbox), before, before + DataMessages(payloads))
  {
    hide DriveSender;
    hide DataMessages;
    hide Concat;
  }

  // ---------- the program ----------

  /** ifstream::read into the buffer: as much as there is, up to the buffer's size. */
  method ReadInto(content: seq<byte>, position: nat, buffer: array<byte>) returns (count: nat)
    requires position <= |content|
    modifies buffer
    ensures count == Min(buffer.Length, |content| - position)
    ensures buffer[..count] == content[position..position + count]
  {
    count := Min(buffer.Length, |content| - position);
    for k := 0 to count
      invariant forall j :: 0 <= j < k ==> buffer[j] == content[position + j]
    {
      buffer[k] := content[position + k];
    }
  }

  class SendingSide {
    const job: Job
    var inbox: seq<Msg>
    var outbox: seq<Msg>
    var events: seq<ProgressEvent>
    /** How often the stop token can still be polled before a stop is requested; None if it never is. */
    var polls: Option<nat>

    constructor (job: Job, inbox: seq<Msg>, polls: Option<nat>)
      ensures this.job == job && this.inbox == inbox && this.polls == polls && outbox == [] && events == []
    {
      this.job, this.inbox, this.polls, outbox, events := job, inbox, polls, [], [];
    }

    method StopRequested() returns (stop: bool)
      modifies this`polls
      ensures stop ==> old(polls).Some?
      ensures polls.Some? <==> old(polls).Some?
    {
      if polls.None? {
        return false;
      }
      if polls.value == 0 {
        return true;
      }
      polls := Some(polls.value - 1);
      return false;
    }

    method WritePacket(m: Msg)
      modifies this`outbox
      ensures outbox == old(outbox) + [m]
    {
      outbox := outbox + [m];
    }

    method Emit(event: ProgressEvent)
      modifies this`events
      ensures events == old(events) + [event]
    {
      events := events + [event];
    }

    /** send_one_file, the chunk loop and FILE_END. */
    method SendData(i: nat, offset: u64, index: nat, count: nat)
      returns (error: Option<ErrorCode>, ghost payloads: seq<seq<byte>>)
      requires Sendable(job) && i < |job.files| && offset <= |job.files[i].content|
      modifies this`outbox, this`events, this`polls
      ensures error.None? ==>
                && var content := job.files[i].content;
                && Concat(payloads) == content[offset..]
                && (forall k :: 0 <= k < |payloads| ==> 0 < |payloads[k]| <= job.chunk)
                && (forall k :: 0 <= k < |payloads| - 1 ==> |payloads[k]| == job.chunk)
                && outbox == old(outbox) + (DataMessages(payloads) + [FileEnd])
                && events == old(events) + FileTrace(Send, FileRun(InfoOf(job, job.files[i]), offset, payloads), index, count)
                && DriveSender(job, SData(i, offset), inbox)
                   == ThenSent(DataMessages(payloads) + [FileEnd], DriveSender(job, SFile(i + 1), inbox))
      ensures polls.Some? <==> old(polls).Some?
      ensures error.Some? ==>
                && error == Some(Cancelled) && old(polls).Some?
                && CutShort(DriveSender(job, SData(i, offset), inbox), old(outbox), outbox)
    {
      hide DriveSender;
      hide TransferringTrace;
      hide DataMessages;
      hide Concat;
      hide InfoOf;
      hide ChunksSent;
      hide CutShort;
      var content := job.files[i].content;
      var info := InfoOf(job, job.files[i]);
      var buffer := new byte[job.chunk];
      var sentSize: nat := offset;
      var good := true;
      payloads := [];
      NoData();
      NoEvents(Send, info, offset, index, count);
      NoChunks(job, inbox, i, offset);
      assert events + [] == events && outbox + [] == outbox;
      while good
        invariant offset <= sentSize <= |content| && (!good ==> sentSize == |content|)
        invariant polls.Some? <==> old(polls).Some?
        invariant ChunksSent(job, inbox, i, offset, sentSize, good, payloads)
        invariant outbox == old(outbox) + DataMessages(payloads)
        invariant events == old(events) + TransferringTrace(Send, FileRun(info, offset, payloads), index, count)
        decreases good, |content| - sentSize
      {
        var stop := StopRequested();
        if stop {
          ChunksCut(job, inbox, i, offset, sentSize, good, payloads, old(outbox));
          return Some(Cancelled), payloads;
        }
        var readCount := ReadInto(content, sentSize, buffer);
        if readCount == 0 {
          break;
        }
        good := readCount == job.chunk;
        var payload := buffer[..readCount];
        WritePacket(Data(payload));
        ChunkLength(job, inbox, i, offset, sentSize, true, payloads);
        OneMoreChunk(job, inbox, i, offset, sentSize, payloads);
        MoreData(old(outbox), payloads, payload);
        MoreEvents(Send, info, offset, payloads, payload, index, count);
        sentSize := sentSize + readCount;
        payloads := payloads + [payload];
        Emit(ProgressEvent(Send, info.relativePath, sentSize, info.size, index, count, Transferring));
      }
      AllChunks(job, inbox, i, offset, good, payloads);
      assert outbox + [FileEnd] == old(outbox) + (DataMessages(payloads) + [FileEnd]);
      WritePacket(FileEnd);
      EndEvents(events, Send, FileRun(info, offset, payloads), index, count, old(events));
      Emit(ProgressEvent(Send, info.relativePath, info.size, info.size, index, count, FileCompleted));
      return None, payloads;
    }

    /** send_one_file: FILE_INFO, the acknowledgement, the rest of the file. */
    method SendOneFile(i: nat, index: nat, count: nat) returns (error: Option<ErrorCode>, ghost run: FileRun)
      requires Sendable(job) && i < |job.files|
      modifies this`inbox, this`outbox, this`events, this`polls
      ensures polls.Some? <==> old(polls).Some?
      ensures error.None? ==>
                && old(inbox) == [Ack(run.offset)] + inbox
                && old(outbox) <= outbox && FileSent(job, i, run, outbox[|old(outbox)|..])
                && events == old(events) + FileTrace(Send, run, index, count)
                && old(DriveSender(job, SFile(i), inbox))
                   == ThenSent(outbox[|old(outbox)|..], DriveSender(job, SFile(i + 1), inbox))
      ensures error.Some? && error != Some(Cancelled) ==>
                SenderStoppedAt(old(DriveSender(job, SFile(i), inbox)), error.value, inbox, old(outbox), outbox)
      ensures error == Some(Cancelled) ==>
                old(polls).Some? && CutShort(old(DriveSender(job, SFile(i), inbox)), old(outbox), outbox)
      ensures error.Some? ==>
                match error.value
                case Cancelled => true
                case NetworkFailure => old(inbox) == []
                case UnexpectedPacket => old(inbox) != [] && !old(inbox)[0].Ack?
                case InvalidResumeOffset =>
                  old(inbox) != [] && old(inbox)[0].Ack? && old(inbox)[0].offset > |job.files[i].content|
                case _ => false
    {
      hide DriveSender;
      hide FileTrace;
      hide DataMessages;
      hide InfoOf;
      hide Concat;
      ghost var start := DriveSender(job, SFile(i), inbox);
      ghost var out0, in0 := outbox, inbox;
      run := FileRun(FileInfo("", 0, ""), 0, []);
      var stop := StopRequested();
      if stop {
        return Some(Cancelled), run;
      }
      var content := job.files[i].content;
      var info := InfoOf(job, job.files[i]);
      SendsInfo(job, i, inbox);
      WritePacket(Info(info));
      if inbox == [] {
        Waits(job, i);
        return Some(NetworkFailure), run;
      }
      TakesAck(job, i, inbox);
      var ack := inbox[0];
      inbox := inbox[1..];
      if !ack.Ack? {
        return Some(UnexpectedPacket), run;
      }
      if ack.offset > |content| {
        return Some(InvalidResumeOffset), run;
      }
      ghost var middle := DriveSender(job, SData(i, ack.offset), inbox);
      ghost var payloads;
      error, payloads := SendData(i, ack.offset, index, count);
      if error.Some? {
        CutLater(start, [Info(info)], middle, out0, outbox);
        return;
      }
      run := FileRun(info, ack.offset, payloads);
      ghost var sent := [Info(info)] + (DataMessages(payloads) + [FileEnd]);
      SentAfter(start, [Info(info)], DataMessages(payloads) + [FileEnd], DriveSender(job, SFile(i + 1), inbox));
      assert outbox == out0 + sent;
      assert outbox[|out0|..] == sent;
      assert sent == [Info(info)] + DataMessages(payloads) + [FileEnd];
      assert in0 == [Ack(ack.offset)] + inbox;
      return None, run;
    }

    /** total_entry_bytes, with the wrap of a 64-bit sum. */
    method TotalEntryBytes() returns (total: u64)
      ensures total == TotalBytes(job.files)
    {
      total := 0;
      assert job.files[..|job.files|] == job.files;
      for k := 0 to |job.files|
        invariant total == TotalBytes(job.files[..k])
      {
        assert job.files[..k + 1][..k] == job.files[..k];
        total := (total + |job.files[k].content|) % 0x1_0000_0000_0000_0000;
      }
    }

    /** send_task, the loop over directories. */
    method SendDirectories() returns (error: Option<ErrorCode>)
      requires Sendable(job)
      modifies this`outbox, this`polls
      ensures polls.Some? <==> old(polls).Some?
      ensures var start := DriveSender(job, AfterDirectory(job, 0), inbox);
              if error.None? then
                && old(outbox) <= outbox && DataBytes(outbox[|old(outbox)|..]) == 0
                && start == ThenSent(outbox[|old(outbox)|..], DriveSender(job, SFile(0), inbox))
              else error == Some(Cancelled) && old(polls).Some? && CutShort(start, old(outbox), outbox)
    {
      hide DriveSender;
      hide DataBytes;
      ghost var start := DriveSender(job, AfterDirectory(job, 0), inbox);
      ghost var sent: seq<Msg> := [];
      Nothing();
      assert [] + start.out == start.out && outbox + [] == outbox;
      for k := 0 to |job.directories|
        invariant polls.Some? <==> old(polls).Some?
        invariant outbox == old(outbox) + sent && DataBytes(sent) == 0
        invariant start == ThenSent(sent, DriveSender(job, AfterDirectory(job, k), inbox))
      {
        var stop := StopRequested();
        if stop {
          return Some(Cancelled);
        }
        var m := Directory(job.directories[k]);
        WritePacket(m);
        SendsDirectory(job, k, inbox);
        SentAfter(start, sent, [m], DriveSender(job, AfterDirectory(job, k + 1), inbox));
        DataBytesConcat(sent, [m]);
        NotData(m);
        assert old(outbox) + sent + [m] == old(outbox) + (sent + [m]);
        sent := sent + [m];
      }
      assert outbox[|old(outbox)|..] == sent;
      return None;
    }

    /** send_task, the loop over files. */
    method SendFiles() returns (error: Option<ErrorCode>, ghost runs: seq<FileRun>)
      requires Sendable(job)
      modifies this`inbox, this`outbox, this`events, this`polls
      ensures polls.Some? <==> old(polls).Some?
      ensures var start := old(DriveSender(job, SFile(0), inbox));
              if error.None? then
                && |runs| == |job.files| && events == old(events) + FilesTrace(Send, runs, |job.files|)
                && (forall k :: 0 <= k < |runs| ==> runs[k].info == InfoOf(job, job.files[k]) && Full(runs[k]))
                && old(outbox) <= outbox && DataBytes(outbox[|old(outbox)|..]) == Remaining(runs)
                && start == ThenSent(outbox[|old(outbox)|..], DriveSender(job, SFile(|job.files|), inbox))
              else if error == Some(Cancelled) then old(polls).Some? && CutShort(start, old(outbox), outbox)
              else SenderStoppedAt(start, error.value, inbox, old(outbox), outbox)
    {
      hide DriveSender;
      hide DataBytes;
      hide Remaining;
      hide FilesTrace;
      hide FileTrace;
      hide FileSent;
      hide InfoOf;
      hide Full;
      ghost var start := DriveSender(job, SFile(0), inbox);
      ghost var sent: seq<Msg> := [];
      runs := [];
      Nothing();
      NoFiles(Send, |job.files|);
      assert [] + start.out == start.out && outbox + [] == outbox && events + [] == events;
      for k := 0 to |job.files|
        invariant polls.Some? <==> old(polls).Some?
        invariant |runs| == k && events == old(events) + FilesTrace(Send, runs, |job.files|)
        invariant forall j :: 0 <= j < k ==> runs[j].info == InfoOf(job, job.files[j]) && Full(runs[j])
        invariant outbox == old(outbox) + sent && DataBytes(sent) == Remaining(runs)
        invariant start == ThenSent(sent, DriveSender(job, SFile(k), inbox))
      {
        var stop := StopRequested();
        if stop {
          return Some(Cancelled), runs;
        }
        ghost var middle, out0 := DriveSender(job, SFile(k), inbox), outbox;
        ghost var run;
        error, run := SendOneFile(k, k + 1, |job.files|);
        if error.Some? {
          if error == Some(Cancelled) {
            CutLater(start, sent, middle, old(outbox), outbox);
          } else {
            StoppedLater(start, sent, middle, error.value, inbox, old(outbox), outbox);
          }
          return;
        }
        ghost var more := outbox[|out0|..];
        assert outbox == out0 + more;
        SentAfter(start, sent, more, DriveSender(job, SFile(k + 1), inbox));
        InfoSent(job, k, run, more);
        FileCost(job, k, run, more);
        DataBytesConcat(sent, more);
        MoreRemaining(runs, run);
        MoreFiles(Send, runs, run, |job.files|);
        assert old(outbox) + sent + more == old(outbox) + (sent + more);
        assert old(events) + FilesTrace(Send, runs, |job.files|) + FileTrace(Send, run, k + 1, |job.files|)
            == old(events) + (FilesTrace(Send, runs, |job.files|) + FileTrace(Send, run, k + 1, |job.files|));
        sent := sent + more;
        runs := runs + [run];
      }
      assert outbox[|old(outbox)|..] == sent;
      return None, runs;
    }

    /** SendService::send from HELLO to FINISH, with send_task in between. */
    method SendSession() returns (error: Option<ErrorCode>, ghost runs: seq<FileRun>)
      requires Sendable(job)
      modifies this`inbox, this`outbox, this`events, this`polls
      ensures var start := old(DriveSender(job, SHello, inbox));
              if error.None? then
                && start.next == SDone && inbox == start.inbox && outbox == old(outbox) + start.out
                && |runs| == |job.files| && events == old(events) + TaskTrace(Send, runs)
                && (forall k :: 0 <= k < |runs| ==> runs[k].info == InfoOf(job, job.files[k]) && Full(runs[k]))
                && DataBytes(start.out) == Remaining(runs)
              else if error == Some(Cancelled) then old(polls).Some? && CutShort(start, old(outbox), outbox)
              else SenderStoppedAt(start, error.value, inbox, old(outbox), outbox)
    {
      hide DriveSender;
      hide DataBytes;
      hide Remaining;
      hide FilesTrace;
      hide InfoOf;
      hide Full;
      hide TotalBytes;
      ghost var start := DriveSender(job, SHello, inbox);
      ghost var out0 := outbox;
      runs := [];
      var total := TotalEntryBytes();
      SendsHello(job, inbox);
      var hello := Hello(TransferManifest(|job.files|, total, |job.directories|));
      WritePacket(hello);
      ghost var sent := [hello];
      ghost var middle, out1 := DriveSender(job, AfterDirectory(job, 0), inbox), outbox;
      Emit(ProgressEvent(Send, "", 0, 0, 0, |job.files|, TaskStarted));
      error := SendDirectories();
      if error.Some? {
        CutLater(start, sent, middle, out0, outbox);
        return;
      }
      ghost var more := outbox[|out1|..];
      SentAfter(start, sent, more, DriveSender(job, SFile(0), inbox));
      DataBytesConcat(sent, more);
      NotData(hello);
      assert outbox == out0 + (sent + more);
      sent := sent + more;
      middle, out1 := DriveSender(job, SFile(0), inbox), outbox;
      error, runs := SendFiles();
      if error.Some? {
        if error == Some(Cancelled) {
          CutLater(start, sent, middle, out0, outbox);
        } else {
          StoppedLater(start, sent, middle, error.value, inbox, out0, outbox);
        }
        return;
      }
      more := outbox[|out1|..];
      SentAfter(start, sent, more, DriveSender(job, SFile(|job.files|), inbox));
      DataBytesConcat(sent, more);
      assert outbox == out0 + (sent + more);
      sent := sent + more;
      Emit(ProgressEvent(Send, "", 0, 0, |job.files|, |job.files|, TaskCompleted));
      var stop := StopRequested();
      if stop {
        return Some(Cancelled), runs;
      }
      SendsFinish(job, inbox);
      DataBytesConcat(sent, [Finish]);
      NotData(Finish);
      assert out0 + sent + [Finish] == out0 + (sent + [Finish]);
      WritePacket(Finish);
      return None, runs;
    }
  }

  lemma Nothing()
    ensures DataBytes([]) == 0 && Remaining([]) == 0
  {
  }

  lemma NotData(m: Msg)
    requires !m.Data?
    ensures DataBytes([m]) == 0
  {
    assert [m][..0] == [];
  }

  lemma NoFiles(d: Direction, count: nat)
    ensures FilesTrace(d, [], count) == []
  {
  }

  lemma InfoSent(job: Job, i: nat, f: FileRun, sent: seq<Msg>)
    requires Sendable(job) && i < |job.files| && FileSent(job, i, f, sent)
    ensures f.info == InfoOf(job, job.files[i])
  {
  }

  lemma MoreRemaining(runs: seq<FileRun>, run: FileRun)
    ensures Remaining(runs + [run]) == Remaining(runs) + run.info.size - run.offset
  {
    assert (runs + [run])[..|runs|] == runs;
  }
}
