/** The programs and the composed session are about the same steps: what a program does on a stream is a
    run of its side of the session, and what the sender emits can go on the wire. */
module SessionPrograms {
  import opened TransferTypes
  import opened Session
  import opened SessionInvariant
  import opened SessionRuns
  import opened SessionOutcome
  import opened ReceiveProgram
  import opened SendProgram
  import MessageWire

  function Times(n: nat, a: Action): seq<Action> { seq(n, _ => a) }

  lemma TimesStep(n: nat, a: Action)
    requires n > 0
    ensures Times(n, a)[0] == a && Times(n, a)[1..] == Times(n - 1, a)
  {
  }

  /** The receiver's program on the packets in its channel is a run of ReceiverActs alone. */
  lemma {:induction false} ReceiverProgramIsRun(job: Job, setup: Setup, w: World) returns (n: nat)
    requires Session.Sendable(job) && SenderInRange(job, w.sender)
    requires |w.toSender| + |Drive(setup.resume, job.digest, w.receiver, w.store, w.toReceiver).out| <= setup.capacity
    ensures var end := Drive(setup.resume, job.digest, w.receiver, w.store, w.toReceiver);
            Run(job, setup, w, Times(n, ReceiverActs),
                w.(receiver := end.next, store := end.store, toReceiver := end.inbox, toSender := w.toSender + end.out))
    decreases |w.toReceiver|, OwnSteps(w.receiver.pc)
  {
    hide ReceiverStep;
    var end := Drive(setup.resume, job.digest, w.receiver, w.store, w.toReceiver);
    var step := ReceiverStep(setup.resume, job.digest, w.receiver, w.store, w.toReceiver);
    if step.None? {
      n := 0;
      assert Times(0, ReceiverActs) == [];
      assert w.toSender + [] == w.toSender;
    } else {
      var s := step.value;
      var next := w.(receiver := s.next, store := s.store, toReceiver := s.inbox, toSender := w.toSender + s.out);
      Shrinks(setup.resume, job.digest, w.receiver, w.store, w.toReceiver);
      var m := ReceiverProgramIsRun(job, setup, next);
      n := m + 1;
      TimesStep(n, ReceiverActs);
      var rest := Drive(setup.resume, job.digest, s.next, s.store, s.inbox);
      assert w.toSender + s.out + rest.out == w.toSender + (s.out + rest.out);
    }
  }

  lemma Shrinks(resume: bool, digest: seq<byte> -> string, r: Receiver, store: Store, inbox: seq<Msg>)
    requires ReceiverStep(resume, digest, r, store, inbox).Some?
    ensures var s := ReceiverStep(resume, digest, r, store, inbox).value;
            |s.inbox| < |inbox| || (|s.inbox| == |inbox| && OwnSteps(s.next.pc) < OwnSteps(r.pc))
  {
  }

  /** The sender's program on a stream of acknowledgements is a run of SenderActs alone. */
  lemma {:induction false} SenderProgramIsRun(job: Job, setup: Setup, w: World) returns (n: nat)
    requires Session.Sendable(job) && SenderInRange(job, w.sender)
    requires |w.toReceiver| + |DriveSender(job, w.sender, w.toSender).out| <= setup.capacity
    ensures var end := DriveSender(job, w.sender, w.toSender);
            Run(job, setup, w, Times(n, SenderActs),
                w.(sender := end.next, toSender := end.inbox, toReceiver := w.toReceiver + end.out))
    decreases SenderRank(job, w.sender)
  {
    hide SenderStep;
    var step := SenderStep(job, w.sender, w.toSender);
    if step.None? {
      n := 0;
      assert Times(0, SenderActs) == [];
      assert w.toReceiver + [] == w.toReceiver;
    } else {
      var s := step.value;
      SenderProgress(job, w.sender, w.toSender);
      var next := w.(sender := s.next, toSender := s.inbox, toReceiver := w.toReceiver + s.out);
      var m := SenderProgramIsRun(job, setup, next);
      n := m + 1;
      TimesStep(n, SenderActs);
      var rest := DriveSender(job, s.next, s.inbox);
      assert w.toReceiver + s.out + rest.out == w.toReceiver + (s.out + rest.out);
    }
  }

  /** What the packet format asks of a job: strings of bytes that leave room in the length field, and chunks
      below 2^63 bytes. */
  predicate WireJob(job: Job) {
    && job.chunk < 0x8000_0000_0000_0000
    && (forall f <- job.files :: MessageWire.ShortText(f.path) && MessageWire.ShortText(job.digest(f.content)))
    && (forall d <- job.directories :: MessageWire.ShortText(d))
  }

  /** Everything the sender of a well-formed job emits survives the wire. */
  lemma {:induction false} SenderStaysOnTheWire(job: Job, s: Sender, inbox: seq<Msg>)
    requires JobOk(job) && WireJob(job) && Session.Sendable(job) && SenderInRange(job, s)
    ensures MessageWire.AllSendable(DriveSender(job, s, inbox).out)
    decreases SenderRank(job, s)
  {
    var step := SenderStep(job, s, inbox);
    if step.Some? {
      StepOnTheWire(job, s, inbox);
      hide SenderStep;
      SenderProgress(job, s, inbox);
      hide MessageWire.Fits;
      hide JobOk;
      hide WireJob;
      SenderStaysOnTheWire(job, step.value.next, step.value.inbox);
    }
  }

  lemma StepOnTheWire(job: Job, s: Sender, inbox: seq<Msg>)
    requires JobOk(job) && WireJob(job) && Session.Sendable(job) && SenderInRange(job, s) && SenderStep(job, s, inbox).Some?
    ensures MessageWire.AllSendable(SenderStep(job, s, inbox).value.out) && |SenderStep(job, s, inbox).value.out| <= 1
  {
    hide TotalBytes;
    hide MessageWire.Fits;
    hide MessageWire.ByteText;
    var out := SenderStep(job, s, inbox).value.out;
    match s {
      case SDirectory(i) =>
        assert job.directories[i] in job.directories;
      case SFile(i) =>
        if i < |job.files| {
          assert job.files[i] in job.files;
        }
      case _ =>
    }
    if out != [] {
      MessageWire.ShortFits(out[0]);
    }
  }
}
