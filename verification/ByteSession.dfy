/** The session over byte channels: packets are written and read in pieces of any size, the network holds a
    bounded number of bytes, and a connection may be lost inside a packet.  It keeps everything that the
    session of whole messages promises. */
module ByteSession {
  import opened Results
  import opened TransferTypes
  import opened ResumeManager
  import opened Session
  import opened SessionInvariant
  import opened SessionTheorems
  import opened SessionRuns
  import opened SessionOutcome
  import opened SessionPrograms
  import opened MessageWire
  import opened Pipes
  import P = Packets

  datatype ByteWorld = ByteWorld(sender: Sender, receiver: Receiver, forward: Pipe, back: Pipe, store: Store)

  /** One side takes a step of its own, or with the packet it has read; bytes enter and leave the network; or
      the connection is lost and both sides stop, as in Session.Crash. */
  datatype ByteAction =
    | SenderSteps
    | ReceiverSteps
    | ForwardSends(n: nat)
    | ForwardArrives(n: nat)
    | BackSends(n: nat)
    | BackArrives(n: nat)
    | Disconnects(flushed: nat, kept: nat)

  function StartBytes(store: Store): ByteWorld { ByteWorld(SHello, IDLE, NO_BYTES, NO_BYTES, store) }

  function WithUnsent(pipe: Pipe, bytes: seq<byte>): Pipe { pipe.(unsent := bytes) }

  function WithoutGot(pipe: Pipe): Pipe { pipe.(got := []) }

  /** send_packet of messages whose packets cannot be written fails before any byte is sent. */
  function SenderMoves(job: Job, b: ByteWorld): Option<ByteWorld>
    requires Session.Sendable(job) && SenderInRange(job, b.sender)
  {
    if b.forward.unsent != [] then None
    else if b.sender.SAwait? then
      if Awaited(b.back.got) > 0 then None
      else
        (match ReadMessage(b.back.got)
         case Err(e) => Some(b.(sender := SFailed(e), back := WithoutGot(b.back)))
         case Ok(m) => Some(b.(sender := SenderStep(job, b.sender, [m]).value.next, back := WithoutGot(b.back))))
    else
      match SenderStep(job, b.sender, [])
      case None => None
      case Some(s) =>
        if AllSendable(s.out) then Some(b.(sender := s.next, forward := WithUnsent(b.forward, Written(s.out))))
        else Some(b.(sender := SFailed(InvalidPayload)))
  }

  function ReceiverMoves(job: Job, setup: Setup, b: ByteWorld): Option<ByteWorld> {
    if b.back.unsent != [] then None
    else if Reads(b.receiver.pc) then
      if Awaited(b.forward.got) > 0 then None
      else
        (match ReadMessage(b.forward.got)
         case Err(e) =>
           Some(b.(receiver := b.receiver.(pc := RFailed(e)), forward := WithoutGot(b.forward), store := Flushed(b.receiver.pc, b.store)))
         case Ok(m) =>
           var (next, store) := TakeMessage(setup.resume, b.receiver, b.store, m);
           Some(b.(receiver := next, store := store, forward := WithoutGot(b.forward))))
    else
      match ReceiverStep(setup.resume, job.digest, b.receiver, b.store, [])
      case None => None
      case Some(r) =>
        if AllSendable(r.out) then Some(b.(receiver := r.next, store := r.store, back := WithUnsent(b.back, Written(r.out))))
        else Some(b.(receiver := r.next.(pc := RFailed(InvalidPayload)), store := r.store))
  }

  function Sent(pipe: Pipe, n: nat, capacity: nat): Option<Pipe> {
    if 0 < n <= |pipe.unsent| && |pipe.net| + n <= capacity then
      Some(pipe.(unsent := pipe.unsent[n..], net := pipe.net + pipe.unsent[..n]))
    else None
  }

  /** recv never returns more than read_exact asks for. */
  function Arrived(pipe: Pipe, n: nat): Option<Pipe> {
    if 0 < n <= |pipe.net| && n <= Awaited(pipe.got) then
      Some(pipe.(net := pipe.net[n..], got := pipe.got + pipe.net[..n]))
    else None
  }

  /** setup.capacity counts bytes here. */
  function ByteStep(job: Job, setup: Setup, b: ByteWorld, a: ByteAction): Option<ByteWorld>
    requires Session.Sendable(job) && SenderInRange(job, b.sender)
  {
    match a
    case SenderSteps => SenderMoves(job, b)
    case ReceiverSteps => ReceiverMoves(job, setup, b)
    case ForwardSends(n) =>
      (match Sent(b.forward, n, setup.capacity) case None => None case Some(pipe) => Some(b.(forward := pipe)))
    case ForwardArrives(n) =>
      if !Reads(b.receiver.pc) || b.back.unsent != [] then None
      else (match Arrived(b.forward, n) case None => None case Some(pipe) => Some(b.(forward := pipe)))
    case BackSends(n) =>
      (match Sent(b.back, n, setup.capacity) case None => None case Some(pipe) => Some(b.(back := pipe)))
    case BackArrives(n) =>
      if !b.sender.SAwait? || b.forward.unsent != [] then None
      else (match Arrived(b.back, n) case None => None case Some(pipe) => Some(b.(back := pipe)))
    case Disconnects(flushed, kept) => Some(StartBytes(LeftBehind(b, flushed, kept)))
  }

  /** What is on disk after the connection was lost. */
  function LeftBehind(b: ByteWorld, flushed: nat, kept: nat): Store {
    AfterCrash(World(b.sender, b.receiver, [], [], b.store), flushed, kept)
  }

  // ---------- the messages behind the bytes ----------

  /** The world of whole messages that these bytes stand for. */
  predicate Stands(b: ByteWorld, w: World) {
    && w.sender == b.sender && w.receiver == b.receiver && w.store == b.store
    && Carries(b.forward, w.toReceiver) && Carries(b.back, w.toSender)
  }

  /** Room for one message more. */
  function Wide(setup: Setup, w: World): Setup { setup.(capacity := |w.toReceiver| + |w.toSender| + 1) }

  /** The invariant does not depend on the capacity. */
  lemma WideInv(job: Job, setup: Setup, init: Store, w: World, capacity: nat)
    requires Inv(job, setup, init, w) && capacity > 0
    ensures Inv(job, setup.(capacity := capacity), init, w)
  {
    hide Linked;
    hide JobOk;
    hide ResumeSafe;
  }

  lemma SenderRefines(job: Job, setup: Setup, b: ByteWorld, w: World)
    requires JobOk(job) && WireJob(job) && Session.Sendable(job) && SenderInRange(job, b.sender)
    requires Stands(b, w) && SenderMoves(job, b).Some?
    ensures Step(job, Wide(setup, w), w, SenderActs).Some?
    ensures Stands(SenderMoves(job, b).value, Step(job, Wide(setup, w), w, SenderActs).value)
  {
    hide JobOk;
    hide WireJob;
    hide Carries;
    hide Awaited;
    hide ReadMessage;
    hide Written;
    if b.sender.SAwait? {
      ReadsMessage(b.back, w.toSender);
      assert w.toReceiver + [] == w.toReceiver;
      SameAnswer(job, b.sender, w.toSender);
      hide SenderStep;
    } else {
      SameWithout(job, b.sender, w.toSender);
      StepOnTheWire(job, b.sender, []);
      hide SenderStep;
      var s := SenderStep(job, b.sender, []).value;
      Writes(b.forward, w.toReceiver, s.out);
      assert s.inbox == [];
    }
  }

  lemma SameAnswer(job: Job, s: Sender, inbox: seq<Msg>)
    requires Session.Sendable(job) && SenderInRange(job, s) && s.SAwait? && inbox != []
    ensures SenderStep(job, s, inbox).Some? && SenderStep(job, s, [inbox[0]]).Some?
    ensures var t := SenderStep(job, s, [inbox[0]]).value;
            SenderStep(job, s, inbox) == Some(t.(inbox := inbox[1..])) && t.out == []
  {
  }

  lemma SameWithout(job: Job, s: Sender, inbox: seq<Msg>)
    requires Session.Sendable(job) && SenderInRange(job, s) && !s.SAwait?
    ensures SenderStep(job, s, []).None? <==> SenderStep(job, s, inbox).None?
    ensures SenderStep(job, s, []).Some? ==>
              SenderStep(job, s, inbox) == Some(SenderStep(job, s, []).value.(inbox := inbox))
              && SenderStep(job, s, []).value.inbox == []
  {
  }

  lemma ReceiverRefines(job: Job, setup: Setup, b: ByteWorld, w: World)
    requires Session.Sendable(job) && SenderInRange(job, b.sender)
    requires Stands(b, w) && ReceiverMoves(job, setup, b).Some?
    ensures Step(job, Wide(setup, w), w, ReceiverActs).Some?
    ensures Stands(ReceiverMoves(job, setup, b).value, Step(job, Wide(setup, w), w, ReceiverActs).value)
  {
    hide Carries;
    hide Awaited;
    hide ReadMessage;
    hide Written;
    hide TakeMessage;
    if Reads(b.receiver.pc) {
      ReadsMessage(b.forward, w.toReceiver);
      assert w.toSender + [] == w.toSender;
    } else {
      OwnAlike(setup.resume, job.digest, b.receiver, b.store, w.toReceiver);
      hide ReceiverStep;
      var r := ReceiverStep(setup.resume, job.digest, b.receiver, b.store, []).value;
      Writes(b.back, w.toSender, r.out);
    }
  }

  lemma OwnAlike(resume: bool, digest: seq<byte> -> string, r: Receiver, store: Store, inbox: seq<Msg>)
    requires !Reads(r.pc)
    ensures ReceiverStep(resume, digest, r, store, []).None? <==> ReceiverStep(resume, digest, r, store, inbox).None?
    ensures ReceiverStep(resume, digest, r, store, []).Some? ==>
              var s := ReceiverStep(resume, digest, r, store, []).value;
              && ReceiverStep(resume, digest, r, store, inbox) == Some(s.(inbox := inbox)) && s.inbox == []
              && AllSendable(s.out) && |s.out| <= 1
  {
    hide OpenOutput;
    hide UpdateState;
    hide ClearState;
    hide Flushed;
    if r.pc.RAck? {
      ShortFits(Ack(r.pc.offset));
    }
  }

  /** A step that is not one of bytes alone is the step of the messages. */
  function MessageAction(a: ByteAction): Option<Action> {
    match a
    case SenderSteps => Some(SenderActs)
    case ReceiverSteps => Some(ReceiverActs)
    case Disconnects(flushed, kept) => Some(Crash(flushed, kept))
    case _ => None
  }

  /** Every step on the bytes is a step on the messages, or none. */
  lemma Refines(job: Job, setup: Setup, b: ByteWorld, w: World, a: ByteAction) returns (next: World)
    requires JobOk(job) && WireJob(job) && Session.Sendable(job) && SenderInRange(job, b.sender)
    requires Stands(b, w) && ByteStep(job, setup, b, a).Some?
    ensures Stands(ByteStep(job, setup, b, a).value, next)
    ensures if MessageAction(a).None? then next == w
            else Step(job, Wide(setup, w), w, MessageAction(a).value) == Some(next)
  {
    hide JobOk;
    hide WireJob;
    hide Carries;
    hide SenderMoves;
    hide ReceiverMoves;
    hide Awaited;
    hide SenderStep;
    hide ReceiverStep;
    next := w;
    match a {
      case SenderSteps =>
        SenderRefines(job, setup, b, w);
        next := Step(job, Wide(setup, w), w, SenderActs).value;
      case ReceiverSteps =>
        ReceiverRefines(job, setup, b, w);
        next := Step(job, Wide(setup, w), w, ReceiverActs).value;
      case ForwardSends(n) => Sends(b.forward, w.toReceiver, n);
      case ForwardArrives(n) => Arrives(b.forward, w.toReceiver, n);
      case BackSends(n) => Sends(b.back, w.toSender, n);
      case BackArrives(n) => Arrives(b.back, w.toSender, n);
      case Disconnects(flushed, kept) =>
        CarriesNothing(NO_BYTES);
        SameCrash(b, w, flushed, kept);
        next := StartSession(AfterCrash(w, flushed, kept));
    }
  }

  lemma SameCrash(b: ByteWorld, w: World, flushed: nat, kept: nat)
    requires Stands(b, w)
    ensures LeftBehind(b, flushed, kept) == AfterCrash(w, flushed, kept)
  {
  }

  // ---------- every run ----------

  ghost predicate ByteRun(job: Job, setup: Setup, from: ByteWorld, actions: seq<ByteAction>, to: ByteWorld)
    requires Session.Sendable(job)
    decreases |actions|
  {
    if actions == [] then from == to
    else
      && SenderInRange(job, from.sender)
      && ByteStep(job, setup, from, actions[0]).Some?
      && ByteRun(job, setup, ByteStep(job, setup, from, actions[0]).value, actions[1..], to)
  }

  /** Every lost connection leaves a store on which a retry can succeed. */
  ghost predicate BytesRecoverable(job: Job, setup: Setup, from: ByteWorld, actions: seq<ByteAction>)
    requires Session.Sendable(job)
    decreases |actions|
  {
    actions == [] ||
    ( && SenderInRange(job, from.sender)
      && ByteStep(job, setup, from, actions[0]).Some?
      && (actions[0].Disconnects? ==> CanRetry(job, setup, LeftBehind(from, actions[0].flushed, actions[0].kept)))
      && BytesRecoverable(job, setup, ByteStep(job, setup, from, actions[0]).value, actions[1..]))
  }

  predicate Connected(actions: seq<ByteAction>) { forall a <- actions :: !a.Disconnects? }

  /** The bytes stand for a world of messages that satisfies the invariant. */
  ghost predicate ByteInv(job: Job, setup: Setup, init: Store, b: ByteWorld) {
    WireJob(job) && exists w :: Stands(b, w) && Inv(job, setup, init, w)
  }

  lemma Behind(job: Job, setup: Setup, init: Store, b: ByteWorld) returns (w: World)
    requires ByteInv(job, setup, init, b)
    ensures Stands(b, w) && Inv(job, setup, init, w) && WireJob(job)
    ensures JobOk(job) && Session.Sendable(job) && SenderInRange(job, b.sender) && setup.capacity > 0
    ensures PcOk(job, b.receiver.pc) && !b.sender.SFailed? && !b.receiver.pc.RFailed?
  {
    hide Inv;
    hide JobOk;
    hide PcOk;
    hide Carries;
    w :| Stands(b, w) && Inv(job, setup, init, w);
    InvParts(job, setup, init, w);
  }

  lemma ByteStepKeeps(job: Job, setup: Setup, init: Store, b: ByteWorld, w: World, a: ByteAction) returns (next: World)
    requires Stands(b, w) && Inv(job, setup, init, w) && WireJob(job)
    requires Session.Sendable(job) && SenderInRange(job, b.sender) && ByteStep(job, setup, b, a).Some?
    requires a.Disconnects? ==> CanRetry(job, setup, LeftBehind(b, a.flushed, a.kept))
    ensures Stands(ByteStep(job, setup, b, a).value, next) && Inv(job, setup, init, next)
    ensures if MessageAction(a).None? then next == w
            else Step(job, Wide(setup, w), w, MessageAction(a).value) == Some(next)
  {
    hide Inv;
    hide JobOk;
    hide WireJob;
    hide Carries;
    hide ByteStep;
    hide Step;
    hide CanRetry;
    InvParts(job, setup, init, w);
    hide PcOk;
    hide Linked;
    hide DiskOk;
    next := Refines(job, setup, b, w, a);
    if a.Disconnects? {
      SameCrash(b, w, a.flushed, a.kept);
      WideRetry(job, setup, w, LeftBehind(b, a.flushed, a.kept));
    }
    if MessageAction(a).Some? {
      var wide := Wide(setup, w);
      WideInv(job, setup, init, w, wide.capacity);
      StepKeepsInv(job, wide, init, w, MessageAction(a).value);
      WideInv(job, wide, init, next, setup.capacity);
    }
  }

  lemma WideRetry(job: Job, setup: Setup, w: World, store: Store)
    requires CanRetry(job, setup, store)
    ensures CanRetry(job, Wide(setup, w), store)
  {
  }

  lemma {:induction false} ByteRunKeeps(job: Job, setup: Setup, init: Store, b: ByteWorld, actions: seq<ByteAction>, to: ByteWorld)
    requires ByteInv(job, setup, init, b) && Session.Sendable(job)
    requires ByteRun(job, setup, b, actions, to) && BytesRecoverable(job, setup, b, actions)
    ensures ByteInv(job, setup, init, to)
    decreases |actions|
  {
    hide Inv;
    hide JobOk;
    hide WireJob;
    hide Stands;
    hide ByteStep;
    hide CanRetry;
    if actions != [] {
      var w := Behind(job, setup, init, b);
      var next := ByteStepKeeps(job, setup, init, b, w, actions[0]);
      ByteRunKeeps(job, setup, init, ByteStep(job, setup, b, actions[0]).value, actions[1..], to);
    }
  }

  /** With resume and no directories every lost connection is recoverable. */
  lemma {:induction false} BytesResume(job: Job, setup: Setup, from: ByteWorld, actions: seq<ByteAction>, to: ByteWorld)
    requires Session.Sendable(job) && setup.resume && job.directories == []
    requires ByteRun(job, setup, from, actions, to)
    ensures BytesRecoverable(job, setup, from, actions)
    decreases |actions|
  {
    hide ByteStep;
    if actions != [] {
      BytesResume(job, setup, ByteStep(job, setup, from, actions[0]).value, actions[1..], to);
    }
  }

  lemma StartStands(job: Job, setup: Setup, init: Store)
    requires StoreReady(job, setup, init) && WireJob(job)
    ensures ByteInv(job, setup, init, StartBytes(init))
  {
    hide Inv;
    hide StoreReady;
    hide WireJob;
    InvHoldsInitially(job, setup, init);
    CarriesNothing(NO_BYTES);
    hide Carries;
    assert Stands(StartBytes(init), StartSession(init));
  }

  /** Over bytes, however they are cut, delayed and lost: neither side ever fails, and the bytes a retry would
      keep are always the source's. */
  lemma BytesSafe(job: Job, setup: Setup, init: Store, actions: seq<ByteAction>, b: ByteWorld)
    requires StoreReady(job, setup, init) && Session.Sendable(job) && WireJob(job)
    requires ByteRun(job, setup, StartBytes(init), actions, b) && BytesRecoverable(job, setup, StartBytes(init), actions)
    ensures !b.sender.SFailed? && !b.receiver.pc.RFailed?
    ensures setup.resume ==> ResumeSafe(job, b.store)
    ensures b.receiver.pc.RAck? ==>
              var pc := b.receiver.pc;
              pc.i < |job.files| && OffsetIsRight(setup, job.files[pc.i], b.store, pc.offset)
  {
    hide StoreReady;
    hide WireJob;
    hide ByteRun;
    hide BytesRecoverable;
    hide Inv;
    StartStands(job, setup, init);
    ByteRunKeeps(job, setup, init, StartBytes(init), actions, b);
    var w := Behind(job, setup, init, b);
    InvSafe(job, setup, init, w);
  }

  // ---------- progress ----------

  /** More than any one packet has bytes, counted twice. */
  const PER_STEP: nat := 2 * P.U64_SIZE

  /** A byte is handed over once and arrives once. */
  function Load(pipe: Pipe): nat { 2 * |pipe.unsent| + |pipe.net| }

  function Weighted(steps: nat, load: nat): nat { PER_STEP * steps + load }

  function StepsLeft(job: Job, b: ByteWorld): nat
    requires Session.Sendable(job) && SenderInRange(job, b.sender) && PcOk(job, b.receiver.pc)
  {
    SenderRank(job, b.sender) + ReceiverRank(job, b.receiver.pc)
  }

  function ByteRank(job: Job, b: ByteWorld): nat
    requires Session.Sendable(job) && SenderInRange(job, b.sender) && PcOk(job, b.receiver.pc)
  {
    Weighted(StepsLeft(job, b), Load(b.forward) + Load(b.back))
  }

  lemma StepsLeftIs(job: Job, setup: Setup, init: Store, b: ByteWorld, w: World)
    requires Stands(b, w) && Inv(job, setup, init, w)
    ensures Session.Sendable(job) && SenderInRange(job, b.sender) && PcOk(job, b.receiver.pc)
    ensures Rank(job, setup, init, w) == StepsLeft(job, b)
  {
    hide Inv;
    hide PcOk;
    hide SenderRank;
    hide ReceiverRank;
    InvParts(job, setup, init, w);
  }

  /** One packet at most is added to what is under way. */
  lemma LoadAfter(job: Job, setup: Setup, b: ByteWorld, a: ByteAction)
    requires JobOk(job) && WireJob(job) && Session.Sendable(job) && SenderInRange(job, b.sender)
    requires ByteStep(job, setup, b, a).Some? && !a.Disconnects?
    ensures var c := ByteStep(job, setup, b, a).value;
            if MessageAction(a).Some? then Load(c.forward) + Load(c.back) < Load(b.forward) + Load(b.back) + PER_STEP
            else Load(c.forward) + Load(c.back) < Load(b.forward) + Load(b.back)
  {
    hide JobOk;
    hide WireJob;
    hide Awaited;
    hide ReadMessage;
    hide Written;
    if a.SenderSteps? && !b.sender.SAwait? {
      StepOnTheWire(job, b.sender, []);
      WrittenLength(SenderStep(job, b.sender, []).value.out);
    } else if a.ReceiverSteps? && !Reads(b.receiver.pc) {
      OwnAlike(setup.resume, job.digest, b.receiver, b.store, []);
      WrittenLength(ReceiverStep(setup.resume, job.digest, b.receiver, b.store, []).value.out);
    }
    hide SenderStep;
    hide ReceiverStep;
    hide TakeMessage;
  }

  lemma RankDrops(before: nat, after: nat, load: nat, more: nat)
    requires after < before && more < load + PER_STEP
    ensures Weighted(after, more) < Weighted(before, load)
  {
    assert PER_STEP * (after + 1) <= PER_STEP * before;
  }

  /** Every step of either side and every piece of a packet that moves brings the end closer. */
  lemma ByteProgress(job: Job, setup: Setup, init: Store, b: ByteWorld, w: World, a: ByteAction) returns (next: World)
    requires Stands(b, w) && Inv(job, setup, init, w) && WireJob(job) && !a.Disconnects?
    requires Session.Sendable(job) && SenderInRange(job, b.sender) && PcOk(job, b.receiver.pc)
    requires ByteStep(job, setup, b, a).Some?
    ensures var c := ByteStep(job, setup, b, a).value;
            && Stands(c, next) && Inv(job, setup, init, next)
            && SenderInRange(job, c.sender) && PcOk(job, c.receiver.pc) && ByteRank(job, c) < ByteRank(job, b)
  {
    hide Inv;
    hide JobOk;
    hide WireJob;
    hide Carries;
    hide ByteStep;
    hide Step;
    hide PcOk;
    hide Rank;
    hide StepsLeft;
    hide Load;
    next := ByteStepKeeps(job, setup, init, b, w, a);
    var c := ByteStep(job, setup, b, a).value;
    var wide := Wide(setup, w);
    InvParts(job, setup, init, w);
    LoadAfter(job, setup, b, a);
    WideInv(job, setup, init, w, wide.capacity);
    StepsLeftIs(job, wide, init, b, w);
    WideInv(job, setup, init, next, wide.capacity);
    StepsLeftIs(job, wide, init, c, next);
    if MessageAction(a).Some? {
      Progress(job, wide, init, w, MessageAction(a).value);
      RankDrops(StepsLeft(job, b), StepsLeft(job, c), Load(b.forward) + Load(b.back), Load(c.forward) + Load(c.back));
    }
  }

  // ---------- no deadlock ----------

  /** At no time are there messages both ways, and at the end there are none. */
  lemma OneWay(job: Job, w: World)
    requires Session.Sendable(job) && SenderInRange(job, w.sender) && PcOk(job, w.receiver.pc) && Linked(job, w)
    ensures w.toSender == [] || (w.toReceiver == [] && w.sender.SAwait?)
    ensures w.toReceiver != [] ==> !w.receiver.pc.RDone?
  {
    hide SentBefore;
    hide Ahead;
    hide Near;
    hide Feeds;
    hide TotalBytes;
  }

  /** While a message is on its way to a reader that waits for it, some byte can move or the reader can go on. */
  lemma PipeMoves(pipe: Pipe, ms: seq<Msg>, capacity: nat) returns (n: nat)
    requires Carries(pipe, ms) && ms != [] && capacity > 0
    ensures Awaited(pipe.got) == 0 || Arrived(pipe, n).Some? || Sent(pipe, n, capacity).Some?
  {
    hide Carries;
    hide Awaited;
    n := 1;
    if Awaited(pipe.got) > 0 {
      CanArrive(pipe, ms);
    }
  }

  lemma NothingThere(pipe: Pipe, ms: seq<Msg>)
    requires Carries(pipe, ms)
    ensures ms == [] ==> pipe == NO_BYTES
  {
    hide Carries;
    if ms == [] {
      CarriesNothing(pipe);
    }
  }

  lemma SenderWrites(job: Job, setup: Setup, w: World)
    requires Session.Sendable(job) && SenderInRange(job, w.sender) && w.toSender == []
    requires Step(job, setup, w, SenderActs).Some?
    ensures !w.sender.SAwait? && SenderStep(job, w.sender, []).Some?
  {
  }

  /** An acknowledgement is on its way. */
  lemma AnswerMoves(job: Job, setup: Setup, b: ByteWorld, w: World) returns (a: ByteAction)
    requires Stands(b, w) && w.toSender != [] && w.toReceiver == [] && b.sender.SAwait? && setup.capacity > 0
    requires Session.Sendable(job) && SenderInRange(job, b.sender)
    ensures !a.Disconnects? && ByteStep(job, setup, b, a).Some?
  {
    hide Carries;
    hide Awaited;
    hide SenderStep;
    hide ReceiverMoves;
    NothingThere(b.forward, w.toReceiver);
    var n := PipeMoves(b.back, w.toSender, setup.capacity);
    a := if Awaited(b.back.got) == 0 then SenderSteps
         else if Arrived(b.back, n).Some? then BackArrives(n) else BackSends(n);
  }

  /** A message is on its way to a receiver that reads. */
  lemma MessageMoves(job: Job, setup: Setup, b: ByteWorld, w: World) returns (a: ByteAction)
    requires Stands(b, w) && w.toSender == [] && w.toReceiver != [] && Reads(b.receiver.pc) && setup.capacity > 0
    requires Session.Sendable(job) && SenderInRange(job, b.sender)
    ensures !a.Disconnects? && ByteStep(job, setup, b, a).Some?
  {
    hide Carries;
    hide Awaited;
    hide SenderMoves;
    hide TakeMessage;
    hide ReadMessage;
    NothingThere(b.back, w.toSender);
    var n := PipeMoves(b.forward, w.toReceiver, setup.capacity);
    a := if Awaited(b.forward.got) == 0 then ReceiverSteps
         else if Arrived(b.forward, n).Some? then ForwardArrives(n) else ForwardSends(n);
  }

  /** The receiver is busy with its disk, or about to acknowledge. */
  lemma OwnMoves(job: Job, setup: Setup, init: Store, b: ByteWorld, w: World)
    requires Stands(b, w) && w.toSender == [] && Inv(job, setup, init, w) && InFile(w.receiver.pc) && !w.receiver.pc.RData?
    requires Session.Sendable(job) && SenderInRange(job, b.sender)
    ensures ByteStep(job, setup, b, ReceiverSteps).Some?
  {
    hide Inv;
    hide Carries;
    hide SenderMoves;
    NothingThere(b.back, w.toSender);
    OwnStep(job, setup, init, w);
    OwnAlike(setup.resume, job.digest, b.receiver, b.store, w.toReceiver);
    hide ReceiverStep;
  }

  /** Nothing is on its way and the receiver waits. */
  lemma SenderMovesOn(job: Job, setup: Setup, b: ByteWorld, w: World)
    requires Stands(b, w) && w.toSender == [] && w.toReceiver == []
    requires Session.Sendable(job) && SenderInRange(job, b.sender)
    requires Step(job, setup, w, SenderActs).Some?
    ensures ByteStep(job, setup, b, SenderSteps).Some?
  {
    hide Carries;
    hide ReceiverMoves;
    NothingThere(b.forward, w.toReceiver);
    SenderWrites(job, setup, w);
    hide SenderStep;
  }

  /** While the session is not over, a side can act or a byte can move, whatever number of bytes the network
      holds. */
  lemma BytesNoDeadlock(job: Job, setup: Setup, init: Store, b: ByteWorld, w: World) returns (a: ByteAction)
    requires Stands(b, w) && Inv(job, setup, init, w)
    requires Session.Sendable(job) && SenderInRange(job, b.sender)
    requires !(b.sender.SDone? && b.receiver.pc.RDone?)
    ensures !a.Disconnects? && ByteStep(job, setup, b, a).Some?
  {
    hide Inv;
    hide JobOk;
    hide DiskOk;
    hide Linked;
    hide Carries;
    hide ByteStep;
    hide Step;
    InvParts(job, setup, init, w);
    OneWay(job, w);
    if w.toSender != [] {
      a := AnswerMoves(job, setup, b, w);
    } else if InFile(w.receiver.pc) && !w.receiver.pc.RData? {
      OwnMoves(job, setup, init, b, w);
      a := ReceiverSteps;
    } else if w.toReceiver != [] {
      a := MessageMoves(job, setup, b, w);
    } else {
      SenderCanAct(job, setup, w);
      SenderMovesOn(job, setup, b, w);
      a := SenderSteps;
    }
  }

  // ---------- the result ----------

  /** No side can act and no byte can move. */
  ghost predicate BytesStopped(job: Job, setup: Setup, b: ByteWorld)
    requires Session.Sendable(job)
  {
    SenderInRange(job, b.sender) && forall a: ByteAction :: !a.Disconnects? ==> ByteStep(job, setup, b, a).None?
  }

  /** Both sides are done, no byte is left over, and the disk is as it should be. */
  ghost predicate BytesDelivered(job: Job, setup: Setup, init: Store, b: ByteWorld)
    requires Session.Sendable(job)
  {
    b.forward == NO_BYTES && b.back == NO_BYTES && Delivered(job, setup, init, World(b.sender, b.receiver, [], [], b.store))
  }

  lemma DoneIsDelivered(job: Job, setup: Setup, init: Store, b: ByteWorld, w: World)
    requires Stands(b, w) && Inv(job, setup, init, w) && Session.Sendable(job) && b.receiver.pc.RDone?
    ensures BytesDelivered(job, setup, init, b)
  {
    hide Inv;
    hide Carries;
    hide TargetFiles;
    hide TargetDirectories;
    EndsWithTheTree(job, setup, init, w);
    NothingThere(b.forward, w.toReceiver);
    NothingThere(b.back, w.toSender);
  }

  lemma {:induction false} ByteRunsAreBounded(job: Job, setup: Setup, init: Store, b: ByteWorld, w: World,
                                              actions: seq<ByteAction>, to: ByteWorld) returns (end: World)
    requires Stands(b, w) && Inv(job, setup, init, w) && WireJob(job)
    requires Session.Sendable(job) && SenderInRange(job, b.sender) && PcOk(job, b.receiver.pc)
    requires ByteRun(job, setup, b, actions, to) && Connected(actions)
    ensures Stands(to, end) && Inv(job, setup, init, end)
    ensures SenderInRange(job, to.sender) && PcOk(job, to.receiver.pc)
    ensures |actions| + ByteRank(job, to) <= ByteRank(job, b)
    decreases |actions|
  {
    hide Inv;
    hide WireJob;
    hide Stands;
    hide ByteStep;
    hide ByteRank;
    hide PcOk;
    if actions == [] {
      end := w;
    } else {
      var next := ByteProgress(job, setup, init, b, w, actions[0]);
      end := ByteRunsAreBounded(job, setup, init, ByteStep(job, setup, b, actions[0]).value, next, actions[1..], to);
    }
  }

  lemma {:induction false} BytesCanFinish(job: Job, setup: Setup, init: Store, b: ByteWorld, w: World)
    returns (actions: seq<ByteAction>, to: ByteWorld)
    requires Stands(b, w) && Inv(job, setup, init, w) && WireJob(job)
    requires Session.Sendable(job) && SenderInRange(job, b.sender) && PcOk(job, b.receiver.pc)
    ensures ByteRun(job, setup, b, actions, to) && Connected(actions) && BytesDelivered(job, setup, init, to)
    decreases ByteRank(job, b)
  {
    hide Inv;
    hide WireJob;
    hide Stands;
    hide ByteStep;
    hide ByteRank;
    hide PcOk;
    hide BytesDelivered;
    if b.sender.SDone? && b.receiver.pc.RDone? {
      DoneIsDelivered(job, setup, init, b, w);
      actions, to := [], b;
    } else {
      var a := BytesNoDeadlock(job, setup, init, b, w);
      var next := ByteProgress(job, setup, init, b, w, a);
      var rest;
      rest, to := BytesCanFinish(job, setup, init, ByteStep(job, setup, b, a).value, next);
      actions := [a] + rest;
      assert actions[1..] == rest;
    }
  }

  /** The main result, over bytes: after any run with any number of lost connections, anywhere in a packet,
      and retries, every further run without one is bounded, can only stop when everything has been delivered
      and no byte is left over, and one that stops there exists. */
  lemma ByteDelivery(job: Job, setup: Setup, init: Store, actions: seq<ByteAction>, b: ByteWorld)
    requires StoreReady(job, setup, init) && Session.Sendable(job) && WireJob(job)
    requires ByteRun(job, setup, StartBytes(init), actions, b) && BytesRecoverable(job, setup, StartBytes(init), actions)
    ensures SenderInRange(job, b.sender) && PcOk(job, b.receiver.pc)
    ensures forall rest, end :: ByteRun(job, setup, b, rest, end) && Connected(rest) ==>
              && |rest| <= ByteRank(job, b)
              && (BytesStopped(job, setup, end) ==> BytesDelivered(job, setup, init, end))
    ensures exists rest, end :: ByteRun(job, setup, b, rest, end) && Connected(rest) && BytesDelivered(job, setup, init, end)
  {
    hide Inv;
    hide StoreReady;
    hide WireJob;
    hide ByteRun;
    hide BytesRecoverable;
    hide ByteRank;
    hide Stands;
    hide ByteStep;
    hide BytesDelivered;
    hide PcOk;
    StartStands(job, setup, init);
    ByteRunKeeps(job, setup, init, StartBytes(init), actions, b);
    var w := Behind(job, setup, init, b);
    forall rest, end | ByteRun(job, setup, b, rest, end) && Connected(rest)
      ensures |rest| <= ByteRank(job, b)
      ensures BytesStopped(job, setup, end) ==> BytesDelivered(job, setup, init, end)
    {
      var at := ByteRunsAreBounded(job, setup, init, b, w, rest, end);
      if BytesStopped(job, setup, end) {
        StoppedIsDone(job, setup, init, end, at);
      }
    }
    var rest, end := BytesCanFinish(job, setup, init, b, w);
  }

  lemma StoppedIsDone(job: Job, setup: Setup, init: Store, b: ByteWorld, w: World)
    requires Stands(b, w) && Inv(job, setup, init, w) && Session.Sendable(job) && BytesStopped(job, setup, b)
    ensures BytesDelivered(job, setup, init, b)
  {
    hide Inv;
    hide Stands;
    hide ByteStep;
    hide BytesDelivered;
    if !(b.sender.SDone? && b.receiver.pc.RDone?) {
      var a := BytesNoDeadlock(job, setup, init, b, w);
    } else {
      DoneIsDelivered(job, setup, init, b, w);
    }
  }
}
