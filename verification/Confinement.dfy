/** Whatever packets arrive, the receiver writes nothing outside save_dir. */
module Confinement {
  import opened TransferTypes
  import opened Paths
  import opened ResumeManager
  import opened Session
  import opened ReceiveProgram

  /** save_dir itself, or reached from it through names alone: no "..", nothing empty, no slash in front. */
  predicate Inside(place: string) { place == "" || Plain(place) }

  predicate AllInside(store: Store) {
    (forall p <- store.files :: Inside(p)) && (forall p <- store.dirs :: Inside(p))
  }

  /** A file that is being received has a safe path. */
  predicate SafePc(pc: ReceiverPc) {
    match pc
    case RAck(_, info, _) => SafePath(info.relativePath)
    case ROpen(_, info, _) => SafePath(info.relativePath)
    case RData(_, info, _) => SafePath(info.relativePath)
    case RSave(_, info, _) => SafePath(info.relativePath)
    case RClose(_, info, _) => SafePath(info.relativePath)
    case RClear(_, info) => SafePath(info.relativePath)
    case _ => true
  }

  lemma ParentsInside(path: string)
    requires SafePath(path)
    ensures forall p <- WithAbove(Place(path)) :: Inside(p)
    ensures forall p <- Parents(path) :: Inside(p)
  {
    PlaceIsInside(path);
    var place := Place(path);
    hide Components;
    hide Place;
    hide Plain;
    forall p | p in Ancestors(place)
      ensures Inside(p)
    {
      AncestorIsPlain(p, place);
    }
  }

  lemma DirectoryInside(r: Receiver, store: Store, path: string)
    requires r.pc.RDirectory? && AllInside(store)
    ensures var (pc, s) := TakeDirectory(r, store, path);
            SafePc(pc) && AllInside(s) && (!SafePath(path) ==> pc.RFailed? && s == store)
  {
    if SafePath(path) {
      ParentsInside(path);
    }
    hide SafePath;
    hide Place;
    hide Inside;
    hide WithAbove;
    hide LastComponent;
    hide Exists;
  }

  lemma InfoInside(resume: bool, i: nat, store: Store, info: FileInfo)
    requires AllInside(store)
    ensures var (pc, s) := TakeInfo(resume, i, store, info);
            && SafePc(pc) && AllInside(s)
            && (!SafePath(info.relativePath) ==> pc == RFailed(UnsafePath) && s == store)
  {
    if SafePath(info.relativePath) {
      ParentsInside(info.relativePath);
    }
    hide SafePath;
    hide Place;
    hide Inside;
    hide Parents;
    hide Exists;
    hide TrustedOffset;
  }

  lemma FlushedInside(pc: ReceiverPc, store: Store)
    requires AllInside(store) && SafePc(pc)
    ensures AllInside(Flushed(pc, store))
  {
    if pc.RData? || pc.RSave? || pc.RClose? {
      PlaceIsInside(pc.info.relativePath);
    }
    hide SafePath;
    hide Place;
    hide Inside;
  }

  lemma MessageInside(resume: bool, r: Receiver, store: Store, m: Msg)
    requires AllInside(store) && SafePc(r.pc) && Reads(r.pc)
    ensures var (next, s) := TakeMessage(resume, r, store, m);
            AllInside(s) && SafePc(next.pc)
  {
    FlushedInside(r.pc, store);
    match r.pc {
      case RDirectory(_) =>
        if m.Directory? {
          DirectoryInside(r, store, m.path);
        }
      case RFile(i) =>
        if m.Info? {
          InfoInside(resume, i, store, m.info);
        }
      case _ =>
    }
    hide AllInside;
    hide SafePath;
    hide Flushed;
    hide TakeDirectory;
    hide TakeInfo;
  }

  lemma OwnInside(resume: bool, digest: seq<byte> -> string, r: Receiver, store: Store, inbox: seq<Msg>)
    requires AllInside(store) && SafePc(r.pc) && !Reads(r.pc) && ReceiverStep(resume, digest, r, store, inbox).Some?
    ensures var s := ReceiverStep(resume, digest, r, store, inbox).value;
            AllInside(s.store) && SafePc(s.next.pc)
  {
    FlushedInside(r.pc, store);
    PlaceIsInside(r.pc.info.relativePath);
    hide SafePath;
    hide Place;
    hide Inside;
    hide Flushed;
    hide UpdateState;
    hide ClearState;
  }

  lemma StepInside(resume: bool, digest: seq<byte> -> string, r: Receiver, store: Store, inbox: seq<Msg>)
    requires AllInside(store) && SafePc(r.pc) && ReceiverStep(resume, digest, r, store, inbox).Some?
    ensures var s := ReceiverStep(resume, digest, r, store, inbox).value;
            AllInside(s.store) && SafePc(s.next.pc)
  {
    hide AllInside;
    hide SafePc;
    hide TakeMessage;
    if Reads(r.pc) {
      MessageInside(resume, r, store, inbox[0]);
    } else {
      OwnInside(resume, digest, r, store, inbox);
    }
  }

  /** From a disk with nothing outside, on every stream of packets whoever sent it: every file and directory that
      the receiver leaves behind is inside save_dir. */
  lemma {:induction false} NothingOutside(resume: bool, digest: seq<byte> -> string, r: Receiver, store: Store, inbox: seq<Msg>)
    requires AllInside(store) && SafePc(r.pc)
    ensures var end := Drive(resume, digest, r, store, inbox);
            AllInside(Flushed(end.next.pc, end.store)) && SafePc(end.next.pc)
    decreases |inbox|, OwnSteps(r.pc)
  {
    hide AllInside;
    hide SafePc;
    hide Flushed;
    var step := ReceiverStep(resume, digest, r, store, inbox);
    if step.None? {
      FlushedInside(r.pc, store);
    } else {
      StepInside(resume, digest, r, store, inbox);
      var s := step.value;
      NothingOutside(resume, digest, s.next, s.store, s.inbox);
    }
  }
}
