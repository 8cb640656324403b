/** The two channels: what the sender does keeps them linked, and the message the receiver finds is
    always the one it expects. */
module SessionLinks {
  import opened Results
  import opened TransferTypes
  import opened Session
  import opened SessionInvariant

  // ---------- the sender ----------

  lemma OpeningStep(job: Job, s: Sender)
    requires Sendable(job) && SenderInRange(job, s) && SenderStep(job, s, []).Some?
    requires s.SHello? || s.SDirectory? || Near(job, s, 0)
    ensures var step := SenderStep(job, s, []).value;
            && step.inbox == [] && SenderInRange(job, step.next)
            && (step.next.SDirectory? || Near(job, step.next, 0))
            && SentBefore(job, step.next) == SentBefore(job, s) + step.out
  {
    hide TotalBytes;
    hide InfoOf;
    var opening := Opening(job);
    match s
    case SHello =>
      assert opening[..1] == [opening[0]];
      assert job.directories == [] ==> DirectoryMessages(job) == [] && opening == [opening[0]];
    case SDirectory(i) =>
      assert opening[i + 1] == Directory(job.directories[i]);
      assert opening[..i + 2] == opening[..i + 1] + [opening[i + 1]];
      assert i + 1 == |job.directories| ==> opening[..i + 2] == opening;
    case _ =>
  }

  lemma NearStep(job: Job, s: Sender, k: nat)
    requires Sendable(job) && SenderInRange(job, s) && Near(job, s, k) && SenderStep(job, s, []).Some?
    ensures var step := SenderStep(job, s, []).value;
            && step.inbox == [] && SenderInRange(job, step.next)
            && !step.next.SFailed? && Near(job, step.next, k) && Ahead(job, step.next) == Ahead(job, s) + step.out
  {
  }

  lemma FeedsStep(job: Job, s: Sender, i: nat, from: nat, channel: seq<Msg>)
    requires Sendable(job) && SenderInRange(job, s) && i < |job.files| && from <= |job.files[i].content|
    requires Feeds(job, s, i, from, channel) && SenderStep(job, s, []).Some?
    ensures var step := SenderStep(job, s, []).value;
            && step.inbox == [] && SenderInRange(job, step.next)
            && !step.next.SFailed? && Feeds(job, step.next, i, from, channel + step.out)
  {
    var content := job.files[i].content;
    if s.SData? {
      if s.sent == |content| {
        assert [FileEnd] + Ahead(job, SFile(i + 1)) == [FileEnd];
      } else {
        ChunksSnoc(job, content, from, s.sent);
      }
    } else {
      NearStep(job, s, i + 1);
      var step := SenderStep(job, s, []).value;
      assert channel + step.out
          == Chunks(job, content, from, |content|) + ([FileEnd] + (Ahead(job, s) + step.out));
    }
  }

  /** Whatever the sender does keeps the channels linked, and it never fails. */
  lemma SenderKeepsLinked(job: Job, setup: Setup, w: World)
    requires Sendable(job) && SenderInRange(job, w.sender) && PcOk(job, w.receiver.pc) && Linked(job, w)
    requires Step(job, setup, w, SenderActs).Some?
    ensures var next := Step(job, setup, w, SenderActs).value;
            && next.receiver == w.receiver && next.store == w.store
            && SenderInRange(job, next.sender) && !next.sender.SFailed?
            && Linked(job, next)
  {
    hide SentBefore;
    hide Ahead;
    hide Feeds;
    hide Acknowledged;
    hide Near;
    hide TotalBytes;
    hide SenderStep;
    hide OpeningLinked;
    match w.receiver.pc
    case RHello => OpeningLinkedStep(job, setup, w);
    case RDirectory(_) => OpeningLinkedStep(job, setup, w);
    case RAck(_, _, _) => Blocked(job, w.sender);
    case RDone => Blocked(job, w.sender);
    case RFile(i) => NearStep(job, w.sender, i);
    case ROpen(i, _, offset) => AcknowledgedStep(job, setup, w, i, offset);
    case RData(i, _, output) => AcknowledgedStep(job, setup, w, i, output.Size());
    case RSave(i, _, output) => FeedsStep(job, w.sender, i, output.Size(), w.toReceiver);
    case RClose(i, _, _) => NearStep(job, w.sender, i + 1);
    case RClear(i, _) => NearStep(job, w.sender, i + 1);
    case _ =>
  }

  lemma Blocked(job: Job, s: Sender)
    requires Sendable(job) && SenderInRange(job, s) && (s.SAwait? || s.SDone?)
    ensures SenderStep(job, s, []) == None
  {
  }

  lemma OpeningLinkedStep(job: Job, setup: Setup, w: World)
    requires Sendable(job) && SenderInRange(job, w.sender) && OpeningLinked(job, w)
    requires Step(job, setup, w, SenderActs).Some?
    ensures var next := Step(job, setup, w, SenderActs).value;
            SenderInRange(job, next.sender) && !next.sender.SFailed? && OpeningLinked(job, next)
  {
    OpeningStep(job, w.sender);
    hide SenderStep;
    hide SentBefore;
    hide TotalBytes;
    var step := SenderStep(job, w.sender, w.toSender).value;
    var n := OpeningRead(w.receiver.pc);
    var sent := SentBefore(job, w.sender);
    assert (sent + step.out)[n..] == sent[n..] + step.out;
  }

  lemma AcknowledgedStep(job: Job, setup: Setup, w: World, i: nat, from: nat)
    requires Sendable(job) && SenderInRange(job, w.sender) && i < |job.files| && from <= |job.files[i].content|
    requires Acknowledged(job, w, i, from) && Step(job, setup, w, SenderActs).Some?
    ensures var next := Step(job, setup, w, SenderActs).value;
            && SenderInRange(job, next.sender) && !next.sender.SFailed? && Acknowledged(job, next, i, from)
  {
    if w.toSender == [] {
      FeedsStep(job, w.sender, i, from, w.toReceiver);
    } else {
      var content := job.files[i].content;
      assert Aligned(job, |content|, from, from) && Chunks(job, content, from, from) == [];
    }
  }

  // ---------- what the receiver finds ----------

  lemma HelloExpected(job: Job, w: World)
    requires Sendable(job) && SenderInRange(job, w.sender) && w.receiver.pc.RHello?
    requires Linked(job, w) && w.toReceiver != []
    ensures w.toReceiver[0] == Hello(TransferManifest(|job.files|, TotalBytes(job.files), |job.directories|))
    ensures var counted := Receiver(RHello, |job.files|, |job.directories|);
            var next := w.(receiver := counted.(pc := AfterDirectoryReceived(counted, 0)), toReceiver := w.toReceiver[1..]);
            Linked(job, next)
  {
    hide TotalBytes;
    var opening := Opening(job);
    var sent := SentBefore(job, w.sender);
    assert sent[0..] == sent;
    if job.directories == [] {
      assert DirectoryMessages(job) == [];
      assert (opening + Ahead(job, w.sender))[1..] == Ahead(job, w.sender);
    }
  }

  lemma DirectoryExpected(job: Job, w: World)
    requires Sendable(job) && SenderInRange(job, w.sender) && w.receiver.pc.RDirectory? && PcOk(job, w.receiver.pc)
    requires Linked(job, w) && w.toReceiver != []
    ensures w.toReceiver[0] == Directory(job.directories[w.receiver.pc.i])
    ensures var next := w.(receiver := w.receiver.(pc := AfterDirectoryReceived(w.receiver, w.receiver.pc.i + 1)),
                           toReceiver := w.toReceiver[1..]);
            Linked(job, next)
  {
    hide TotalBytes;
    var i := w.receiver.pc.i;
    var sent := SentBefore(job, w.sender);
    var opening := Opening(job);
    assert sent[i + 1..][0] == sent[i + 1] == opening[i + 1];
    assert sent[i + 1..][1..] == sent[i + 2..];
    if i + 1 == |job.directories| {
      assert !w.sender.SDirectory?;
      assert (opening + Ahead(job, w.sender))[|opening|..] == Ahead(job, w.sender);
    }
  }

  lemma FileExpected(job: Job, w: World)
    requires Sendable(job) && SenderInRange(job, w.sender) && w.receiver.pc.RFile? && PcOk(job, w.receiver.pc)
    requires Linked(job, w) && w.toReceiver != []
    ensures var i := w.receiver.pc.i;
            && w.toReceiver[1..] == []
            && (if i == |job.files| then w.toReceiver[0] == Finish && w.sender == SDone
                else w.toReceiver[0] == Info(InfoOf(job, job.files[i])) && w.sender == SAwait(i))
  {
  }

  /** Inside a file the receiver finds the next chunk, or FILE_END once it has everything. */
  lemma DataExpected(job: Job, w: World)
    requires Sendable(job) && SenderInRange(job, w.sender) && w.receiver.pc.RData? && PcOk(job, w.receiver.pc)
    requires Linked(job, w) && w.toReceiver != []
    ensures var pc := w.receiver.pc;
            var content := job.files[pc.i].content;
            var from := pc.output.Size();
            && w.toSender == []
            && (if from == |content| then
                  && w.toReceiver == [FileEnd] + Ahead(job, w.sender) && Near(job, w.sender, pc.i + 1)
                else
                  && w.toReceiver[0] == Data(content[from..NextChunk(job, |content|, from)])
                  && Feeds(job, w.sender, pc.i, NextChunk(job, |content|, from), w.toReceiver[1..]))
  {
    var pc := w.receiver.pc;
    var content := job.files[pc.i].content;
    var from := pc.output.Size();
    var to := if w.sender.SData? then w.sender.sent else |content|;
    AlignedForward(job, |content|, from, to);
    if from == |content| {
      assert Chunks(job, content, from, to) == [];
    } else {
      assert from < to;
      var next := NextChunk(job, |content|, from);
      assert Chunks(job, content, from, to) == [Data(content[from..next])] + Chunks(job, content, next, to);
      assert !w.sender.SData? ==> w.toReceiver[1..] == Chunks(job, content, next, to) + ([FileEnd] + Ahead(job, w.sender));
    }
  }

  /** Steps that read and write nothing, between points that expect the same of the channels. */
  predicate SameLink(pc: ReceiverPc, next: ReceiverPc) {
    match pc
    case ROpen(i, _, offset) => next.RData? && next.i == i && next.output.Size() == offset
    case RSave(i, _, output) => next.RData? && next.i == i && next.output == output
    case RClose(i, _, _) => next.RClear? && next.i == i
    case RClear(i, _) => next.RFile? && next.i == i + 1
    case _ => false
  }

  lemma SameLinkKept(job: Job, w: World, next: ReceiverPc, store: Store)
    requires Sendable(job) && SenderInRange(job, w.sender) && PcOk(job, w.receiver.pc) && Linked(job, w)
    requires PcOk(job, next) && SameLink(w.receiver.pc, next)
    ensures Linked(job, w.(receiver := w.receiver.(pc := next), store := store))
  {
    hide SentBefore;
    hide Chunks;
    hide Aligned;
    hide InfoOf;
    hide OpeningLinked;
    hide Feeds;
    hide Near;
    hide Ahead;
  }

  lemma AckLinked(job: Job, w: World)
    requires Sendable(job) && SenderInRange(job, w.sender) && PcOk(job, w.receiver.pc) && Linked(job, w)
    requires w.receiver.pc.RAck? && w.receiver.pc.offset <= |job.files[w.receiver.pc.i].content|
    ensures w.toSender == []
    ensures var pc := w.receiver.pc;
            Linked(job, w.(receiver := w.receiver.(pc := ROpen(pc.i, pc.info, pc.offset)), toSender := [Ack(pc.offset)]))
  {
    hide Feeds;
    hide Near;
    hide Ahead;
  }

  lemma TakenLinked(job: Job, w: World, next: ReceiverPc, store: Store)
    requires Sendable(job) && SenderInRange(job, w.sender) && w.receiver.pc.RFile? && PcOk(job, w.receiver.pc)
    requires Linked(job, w) && w.toReceiver != []
    requires if w.receiver.pc.i == |job.files| then next == RDone else next.RAck? && next.i == w.receiver.pc.i
    requires PcOk(job, next)
    ensures Linked(job, w.(receiver := w.receiver.(pc := next), store := store, toReceiver := w.toReceiver[1..]))
  {
  }

  lemma DataLinked(job: Job, w: World, next: ReceiverPc)
    requires Sendable(job) && SenderInRange(job, w.sender) && w.receiver.pc.RData? && PcOk(job, w.receiver.pc)
    requires Linked(job, w) && w.toReceiver != [] && PcOk(job, next)
    requires var pc := w.receiver.pc;
             var size := |job.files[pc.i].content|;
             if pc.output.Size() == size then next.RClose? && next.i == pc.i
             else (next.RSave? || next.RData?) && next.i == pc.i && next.output.Size() == NextChunk(job, size, pc.output.Size())
    ensures Linked(job, w.(receiver := w.receiver.(pc := next), toReceiver := w.toReceiver[1..]))
  {
    hide Feeds;
    hide Near;
    DataExpected(job, w);
    assert ([FileEnd] + Ahead(job, w.sender))[1..] == Ahead(job, w.sender);
  }
}
