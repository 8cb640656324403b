/** EventSubscription: a bounded queue that gives up non-terminal events first. */
module EventQueue {
  import opened Results
  import opened ControlTypes

  predicate Terminal(e: Envelope) { TerminalType(e.event.kind) }

  function WithoutFirst(queue: seq<Envelope>): seq<Envelope> {
    if queue == [] then []
    else if !Terminal(queue[0]) then queue[1..]
    else [queue[0]] + WithoutFirst(queue[1..])
  }

  /** offer. */
  function Offered(queue: seq<Envelope>, event: Envelope, limit: nat): seq<Envelope> {
    if |queue| < limit then queue + [event]
    else if !Terminal(event) then queue
    else WithoutFirst(queue) + [event]
  }

  // ---------- the subscription ----------

  lemma {:induction false} WithoutAt(queue: seq<Envelope>, i: nat)
    requires i < |queue| && !Terminal(queue[i]) && forall j :: 0 <= j < i ==> Terminal(queue[j])
    ensures WithoutFirst(queue) == queue[..i] + queue[i + 1..]
    decreases |queue|
  {
    if i > 0 {
      hide TerminalType;
      var rest := queue[1..];
      assert rest[i - 1] == queue[i];
      assert forall j :: 0 <= j < i - 1 ==> rest[j] == queue[j + 1];
      WithoutAt(rest, i - 1);
      assert Terminal(queue[0]);
      Shifted(queue, i);
    }
  }

  lemma Shifted(queue: seq<Envelope>, i: nat)
    requires 0 < i < |queue|
    ensures [queue[0]] + (queue[1..][..i - 1] + queue[1..][i..]) == queue[..i] + queue[i + 1..]
  {
  }

  lemma {:induction false} WithoutNone(queue: seq<Envelope>)
    requires forall e <- queue :: Terminal(e)
    ensures WithoutFirst(queue) == queue
  {
    if queue != [] {
      assert queue[0] in queue;
      WithoutNone(queue[1..]);
    }
  }

  /** The kinds that are never given up, by name. */
  predicate Lasting(e: Envelope) {
    e.event.kind in {TaskCompleted, TaskFailed, TaskCanceled, ReceiverStopped, ErrorRaised}
  }

  /** What offer makes of a queue: below the limit it appends; at the limit it refuses what is not lasting, and
      for what is it gives up the oldest event that is not, if there is one. */
  ghost predicate OfferTakes(queue: seq<Envelope>, event: Envelope, limit: nat, after: seq<Envelope>) {
    if |queue| < limit then after == queue + [event]
    else if !Lasting(event) then after == queue
    else if forall e <- queue :: Lasting(e) then after == queue + [event]
    else exists i ::
      && 0 <= i < |queue| && !Lasting(queue[i]) && (forall j :: 0 <= j < i ==> Lasting(queue[j]))
      && after == queue[..i] + queue[i + 1..] + [event]
  }

  lemma LastingIsTerminal(e: Envelope)
    ensures Lasting(e) <==> Terminal(e)
  {
  }

  lemma OfferedTakes(queue: seq<Envelope>, event: Envelope, limit: nat)
    ensures OfferTakes(queue, event, limit, Offered(queue, event, limit))
  {
    hide Lasting;
    hide Terminal;
    forall e: Envelope
      ensures Lasting(e) <==> Terminal(e)
    {
      LastingIsTerminal(e);
    }
    if forall e <- queue :: Terminal(e) {
      WithoutNone(queue);
    } else {
      FirstNonTerminal(queue);
      var i: nat :| i < |queue| && !Terminal(queue[i]) && forall j :: 0 <= j < i ==> Terminal(queue[j]);
      WithoutAt(queue, i);
    }
  }

  lemma {:induction false} FirstNonTerminal(queue: seq<Envelope>)
    ensures (forall e <- queue :: Terminal(e))
         || exists i: nat :: i < |queue| && !Terminal(queue[i]) && forall j :: 0 <= j < i ==> Terminal(queue[j])
  {
    var i := 0;
    while i < |queue| && Terminal(queue[i])
      invariant 0 <= i <= |queue| && forall j :: 0 <= j < i ==> Terminal(queue[j])
    {
      i := i + 1;
    }
  }

  class EventSubscription {
    var queue: seq<Envelope>
    var ready: bool

    constructor ()
      ensures queue == [] && !ready
    {
      queue, ready := [], false;
    }

    /** A waiting receive is always woken: as long as an event is queued, ready is set. */
    predicate Awake()
      reads this
    {
      queue != [] ==> ready
    }

    method Offer(event: Envelope, queueSize: nat)
      modifies this
      ensures queue == Offered(old(queue), event, queueSize)
      ensures ready == (old(ready) || |old(queue)| < queueSize || Terminal(event))
      ensures OfferTakes(old(queue), event, queueSize, queue)
      ensures old(Awake()) ==> Awake()
    {
      hide OfferTakes;
      OfferedTakes(queue, event, queueSize);
      if |queue| >= queueSize {
        if !Terminal(event) {
          return;
        }
        var index := 0;
        while index < |queue|
          invariant 0 <= index <= |queue| && queue == old(queue)
          invariant forall j :: 0 <= j < index ==> Terminal(queue[j])
        {
          if !Terminal(queue[index]) {
            WithoutAt(queue, index);
            queue := queue[..index] + queue[index + 1..];
            break;
          }
          index := index + 1;
        }
        if index == |old(queue)| {
          WithoutNone(queue);
        }
      }
      queue := queue + [event];
      ready := true;
    }

    /** One round of receive under the lock: the oldest event, or None when the caller has to wait. */
    method TryReceive() returns (event: Option<Envelope>)
      modifies this
      ensures old(queue) == [] ==> event == None && queue == [] && !ready
      ensures old(queue) != [] ==> event == Some(old(queue)[0]) && queue == old(queue)[1..] && ready == old(ready)
      ensures old(Awake()) ==> Awake()
    {
      if queue != [] {
        event := Some(queue[0]);
        queue := queue[1..];
        return;
      }
      ready := false;
      return None;
    }
  }

  // ---------- every run of offers and receives ----------

  datatype QueueAction = Offer(event: Envelope) | Receive

  /** The queue, what came out of it and what was offered to it so far. */
  datatype Flow = Flow(queue: seq<Envelope>, delivered: seq<Envelope>, offered: seq<Envelope>)

  function FlowStep(f: Flow, a: QueueAction, limit: nat): Flow {
    match a
    case Offer(e) => Flow(Offered(f.queue, e, limit), f.delivered, f.offered + [e])
    case Receive => if f.queue == [] then f else Flow(f.queue[1..], f.delivered + [f.queue[0]], f.offered)
  }

  function FlowRun(f: Flow, actions: seq<QueueAction>, limit: nat): Flow
    decreases |actions|
  {
    if actions == [] then f else FlowRun(FlowStep(f, actions[0], limit), actions[1..], limit)
  }

  function Terminals(s: seq<Envelope>): seq<Envelope> {
    if s == [] then []
    else Terminals(s[..|s| - 1]) + (if Terminal(s[|s| - 1]) then [s[|s| - 1]] else [])
  }

  /** s can be had from t by leaving elements out. */
  predicate Subsequence(s: seq<Envelope>, t: seq<Envelope>)
    decreases |t|
  {
    s == [] || (t != [] && (if s[|s| - 1] == t[|t| - 1] then Subsequence(s[..|s| - 1], t[..|t| - 1])
                            else Subsequence(s, t[..|t| - 1])))
  }

  /** Nothing is reordered or made up, no terminal event is lost, and only terminal events exceed the limit. */
  predicate FlowOk(f: Flow, limit: nat) {
    && Subsequence(f.delivered + f.queue, f.offered)
    && Terminals(f.delivered + f.queue) == Terminals(f.offered)
    && (|f.queue| > limit ==> forall e <- f.queue :: Terminal(e))
  }

  lemma {:induction false} TerminalsConcat(a: seq<Envelope>, b: seq<Envelope>)
    ensures Terminals(a + b) == Terminals(a) + Terminals(b)
  {
    if b == [] {
      assert a + b == a;
    } else {
      TerminalsConcat(a, b[..|b| - 1]);
      assert (a + b)[..|a + b| - 1] == a + b[..|b| - 1];
    }
  }

  lemma TerminalsOne(e: Envelope)
    ensures Terminals([e]) == if Terminal(e) then [e] else []
  {
    assert [e][..0] == [];
  }

  lemma {:induction false} WithoutKeepsTerminals(queue: seq<Envelope>)
    ensures Terminals(WithoutFirst(queue)) == Terminals(queue)
    ensures (forall e <- queue :: Terminal(e)) ==> WithoutFirst(queue) == queue
    ensures !(forall e <- queue :: Terminal(e)) ==> |WithoutFirst(queue)| == |queue| - 1
  {
    if queue != [] {
      var head := queue[0];
      assert queue == [head] + queue[1..];
      TerminalsConcat([head], queue[1..]);
      TerminalsOne(head);
      if Terminal(head) {
        WithoutKeepsTerminals(queue[1..]);
        TerminalsConcat([head], WithoutFirst(queue[1..]));
        assert forall e :: e in queue <==> e == head || e in queue[1..];
      } else {
        assert head in queue;
      }
    }
  }

  lemma {:induction false} SubsequenceSkip(s: seq<Envelope>, t: seq<Envelope>, e: Envelope)
    requires Subsequence(s, t)
    ensures Subsequence(s, t + [e])
    ensures Subsequence(s + [e], t + [e])
    decreases |t|
  {
    assert (t + [e])[..|t|] == t && (s + [e])[..|s|] == s;
    if s != [] && s[|s| - 1] == e {
      var last := |s| - 1;
      var u := t[..|t| - 1];
      assert u + [t[|t| - 1]] == t;
      if s[last] != t[|t| - 1] {
        SubsequenceDrop(s, u, last);
        assert s[..last] + s[last + 1..] == s[..last];
      }
      SubsequenceSkip(s[..last], u, t[|t| - 1]);
    }
  }

  /** Leaving out one more element. */
  lemma {:induction false} SubsequenceDrop(s: seq<Envelope>, t: seq<Envelope>, i: nat)
    requires Subsequence(s, t) && i < |s|
    ensures Subsequence(s[..i] + s[i + 1..], t)
    decreases |t|
  {
    var last := |s| - 1;
    var r := s[..i] + s[i + 1..];
    var u := t[..|t| - 1];
    assert t == u + [t[|t| - 1]];
    if s[last] == t[|t| - 1] {
      if i == last {
        assert r == s[..last];
        SubsequenceSkip(s[..last], u, t[|t| - 1]);
      } else {
        SubsequenceDrop(s[..last], u, i);
        assert r == (s[..last][..i] + s[..last][i + 1..]) + [s[last]];
        SubsequenceSkip(s[..last][..i] + s[..last][i + 1..], u, t[|t| - 1]);
      }
    } else {
      SubsequenceDrop(s, u, i);
      SubsequenceSkip(r, u, t[|t| - 1]);
    }
  }

  lemma FlowStepKeeps(f: Flow, a: QueueAction, limit: nat)
    requires FlowOk(f, limit)
    ensures FlowOk(FlowStep(f, a, limit), limit)
  {
    match a
    case Receive =>
      if f.queue != [] {
        assert f.delivered + [f.queue[0]] + f.queue[1..] == f.delivered + f.queue;
      }
    case Offer(e) => OfferKeeps(f, e, limit);
  }

  lemma OfferKeeps(f: Flow, e: Envelope, limit: nat)
    requires FlowOk(f, limit)
    ensures FlowOk(FlowStep(f, Offer(e), limit), limit)
  {
    hide Subsequence;
    hide Terminals;
    var all := f.delivered + f.queue;
    SubsequenceSkip(all, f.offered, e);
    TerminalsConcat(f.offered, [e]);
    TerminalsOne(e);
    assert Terminals(f.offered) + [] == Terminals(f.offered);
    if |f.queue| < limit {
      assert all + [e] == f.delivered + (f.queue + [e]);
      TerminalsConcat(all, [e]);
    } else if Terminal(e) {
      var kept := WithoutFirst(f.queue);
      WithoutKeepsTerminals(f.queue);
      TerminalsConcat(f.delivered, f.queue);
      TerminalsConcat(f.delivered, kept);
      TerminalsConcat(f.delivered + kept, [e]);
      assert f.delivered + kept + [e] == f.delivered + (kept + [e]);
      WithoutIsSubsequence(f.delivered, f.queue, f.offered);
      SubsequenceSkip(f.delivered + kept, f.offered, e);
      if |kept + [e]| > limit {
        AllTerminalAfter(f.queue, limit);
      }
    }
  }

  lemma AllTerminalAfter(queue: seq<Envelope>, limit: nat)
    requires |queue| > limit ==> forall e <- queue :: Terminal(e)
    requires |queue| >= limit && |WithoutFirst(queue)| + 1 > limit
    ensures forall e <- WithoutFirst(queue) :: Terminal(e)
  {
    WithoutKeepsTerminals(queue);
  }

  lemma WithoutIsSubsequence(front: seq<Envelope>, queue: seq<Envelope>, t: seq<Envelope>)
    requires Subsequence(front + queue, t)
    ensures Subsequence(front + WithoutFirst(queue), t)
  {
    hide Subsequence;
    if i: nat :| i < |queue| && !Terminal(queue[i]) && forall j :: 0 <= j < i ==> Terminal(queue[j]) {
      WithoutAt(queue, i);
      var s := front + queue;
      var k := |front| + i;
      SubsequenceDrop(s, t, k);
      assert s[..k] + s[k + 1..] == front + (queue[..i] + queue[i + 1..]);
    } else {
      FirstNonTerminal(queue);
      WithoutNone(queue);
    }
  }

  lemma {:induction false} FlowRunKeeps(f: Flow, actions: seq<QueueAction>, limit: nat)
    requires FlowOk(f, limit)
    ensures FlowOk(FlowRun(f, actions, limit), limit)
    decreases |actions|
  {
    hide FlowOk;
    hide FlowStep;
    if actions != [] {
      FlowStepKeeps(f, actions[0], limit);
      FlowRunKeeps(FlowStep(f, actions[0], limit), actions[1..], limit);
    }
  }

  /** A new subscription. */
  const EMPTY_FLOW := Flow([], [], [])

  /** Over every run of offers and receives of a new subscription. */
  lemma QueueLaws(actions: seq<QueueAction>, limit: nat)
    ensures FlowOk(FlowRun(EMPTY_FLOW, actions, limit), limit)
  {
    FlowRunKeeps(EMPTY_FLOW, actions, limit);
  }

  /** The events of some kinds, in order. */
  function OfKinds(s: seq<Envelope>, kinds: set<EventType>): seq<Envelope> {
    if s == [] then []
    else OfKinds(s[..|s| - 1], kinds) + (if s[|s| - 1].event.kind in kinds then [s[|s| - 1]] else [])
  }

  lemma {:induction false} TerminalsAre(s: seq<Envelope>)
    ensures Terminals(s) == OfKinds(s, {TaskCompleted, TaskFailed, TaskCanceled, ReceiverStopped, ErrorRaised})
  {
    if s != [] {
      TerminalsAre(s[..|s| - 1]);
      LastingIsTerminal(s[|s| - 1]);
    }
  }

  /** What the offers of a run brought, oldest first. */
  function OffersOf(actions: seq<QueueAction>): seq<Envelope> {
    if actions == [] then [] else (if actions[0].Offer? then [actions[0].event] else []) + OffersOf(actions[1..])
  }

  lemma {:induction false} AllOffered(f: Flow, actions: seq<QueueAction>, limit: nat)
    ensures FlowRun(f, actions, limit).offered == f.offered + OffersOf(actions)
    decreases |actions|
  {
    if actions != [] {
      AllOffered(FlowStep(f, actions[0], limit), actions[1..], limit);
    }
  }

  /** Over every run of a new subscription, kind by kind: the ends of tasks, the ends of the receiver and the
      errors come out as often and in the order in which they were offered, or wait in the queue; and what the
      next offer does to the queue. */
  lemma KindsSurvive(actions: seq<QueueAction>, limit: nat, next: Envelope)
    ensures var f := FlowRun(EMPTY_FLOW, actions, limit);
            && OfKinds(f.delivered + f.queue, {TaskCompleted, TaskFailed, TaskCanceled, ReceiverStopped, ErrorRaised})
               == OfKinds(OffersOf(actions), {TaskCompleted, TaskFailed, TaskCanceled, ReceiverStopped, ErrorRaised})
            && OfferTakes(f.queue, next, limit, FlowStep(f, Offer(next), limit).queue)
  {
    hide FlowRun;
    hide OfferTakes;
    hide Subsequence;
    QueueLaws(actions, limit);
    var f := FlowRun(EMPTY_FLOW, actions, limit);
    TerminalsAre(f.delivered + f.queue);
    AllOffered(EMPTY_FLOW, actions, limit);
    assert [] + OffersOf(actions) == OffersOf(actions);
    TerminalsAre(OffersOf(actions));
    OfferedTakes(f.queue, next, limit);
  }

  /** offer makes nothing up. */
  lemma {:induction false} OfferedFrom(queue: seq<Envelope>, e: Envelope, limit: nat)
    ensures forall x <- Offered(queue, e, limit) :: x in queue || x == e
  {
    if |queue| >= limit && Terminal(e) {
      if i: nat :| i < |queue| && !Terminal(queue[i]) && forall j :: 0 <= j < i ==> Terminal(queue[j]) {
        WithoutAt(queue, i);
      } else {
        FirstNonTerminal(queue);
        WithoutNone(queue);
      }
    }
  }
}
