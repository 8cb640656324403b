/** The numbers EventBus gives to its events, the adapter's check for gaps in them, and which drops of a
    subscription's queue the check can notice. */
module EventSequence {
  import opened Results
  import opened ControlTypes
  import opened EventQueue

  /** The numbers only grow. */
  predicate Rising(s: seq<Envelope>) { forall i, j :: 0 <= i < j < |s| ==> s[i].number < s[j].number }

  predicate UpTo(s: seq<Envelope>, last: nat) { forall e <- s :: e.number <= last }

  /** The bus with one subscription; scheduled is what has been handed to the loop as offers to it. */
  class EventBus {
    var sequence: nat
    var scheduled: seq<Envelope>

    constructor ()
      ensures sequence == 0 && scheduled == []
    {
      sequence, scheduled := 0, [];
    }

    /** No number was scheduled after a greater one. */
    predicate InOrder()
      reads this
    {
      Rising(scheduled) && UpTo(scheduled, sequence)
    }

    /** The part of publish and heartbeat under the lock. */
    method Number(event: Event) returns (numbered: Envelope)
      modifies this`sequence
      ensures numbered == Envelope(sequence, event) && sequence == old(sequence) + 1
    {
      sequence := sequence + 1;
      return Envelope(sequence, event);
    }

    /** The part of publish after the lock is free. */
    method Schedule(numbered: Envelope)
      modifies this`scheduled
      ensures scheduled == old(scheduled) + [numbered]
    {
      scheduled := scheduled + [numbered];
    }

    /** Undisturbed between its two parts, publish keeps the order. */
    method Publish(event: Event)
      modifies this
      ensures scheduled == old(scheduled) + [Envelope(sequence, event)] && sequence == old(sequence) + 1
      ensures old(InOrder()) ==> InOrder()
    {
      var numbered := Number(event);
      Schedule(numbered);
      assert forall e <- scheduled :: e in old(scheduled) || e == numbered;
    }

    /** Sent at once and only to the connection that asked for it. */
    method Heartbeat() returns (beat: Envelope)
      modifies this`sequence
      ensures beat == Envelope(sequence, Event(EventType.Heartbeat, NoBody)) && sequence == old(sequence) + 1
      ensures old(InOrder()) ==> InOrder()
    {
      beat := Number(Event(EventType.Heartbeat, NoBody));
    }
  }

  /** A delivery whose number does not follow the one before it. */
  predicate Gap(numbers: seq<int>, k: nat) {
    0 < k < |numbers| && numbers[k] != numbers[k - 1] + 1
  }

  /** The handler's test: is this number not the one after the last? */
  predicate GapAfter(last: Option<int>, number: int) { last.Some? && number != last.value + 1 }

  /** The message handler inside subscribe, with the closure variable `sequence`. */
  class Adapter {
    var sequence: Option<int>
    var refreshes: nat

    constructor ()
      ensures sequence == None && refreshes == 0
    {
      sequence, refreshes := None, 0;
    }

    method OnMessage(number: int) returns (gap: bool)
      modifies this
      ensures gap == GapAfter(old(sequence), number)
      ensures sequence == Some(number) && refreshes == old(refreshes) + (if gap then 1 else 0)
    {
      gap := sequence.Some? && number != sequence.value + 1;
      sequence := Some(number);
      if gap {
        refreshes := refreshes + 1;
      }
    }

    /** A whole stream of deliveries: the handler refreshes exactly at the gaps, also at one between the last
        delivery before a reconnect and the first after it. */
    method OnMessages(numbers: seq<int>) returns (gaps: seq<bool>)
      modifies this
      ensures |gaps| == |numbers|
      ensures forall k :: 0 < k < |gaps| ==> (gaps[k] <==> Gap(numbers, k))
      ensures gaps != [] ==> (gaps[0] <==> GapAfter(old(sequence), numbers[0]))
      ensures sequence == if numbers == [] then old(sequence) else Some(numbers[|numbers| - 1])
    {
      gaps := [];
      for k := 0 to |numbers|
        invariant |gaps| == k && forall j :: 0 < j < k ==> (gaps[j] <==> Gap(numbers, j))
        invariant k > 0 ==> (gaps[0] <==> GapAfter(old(sequence), numbers[0]))
        invariant sequence == if k == 0 then old(sequence) else Some(numbers[k - 1])
      {
        var gap := OnMessage(numbers[k]);
        gaps := gaps + [gap];
      }
    }
  }

  /** Deliveries without a flagged gap are consecutive. */
  lemma {:induction false} NoGapMeansConsecutive(numbers: seq<int>, i: nat, j: nat)
    requires i <= j < |numbers|
    requires forall k :: i < k <= j ==> !Gap(numbers, k)
    ensures forall k :: i <= k <= j ==> numbers[k] == numbers[i] + (k - i)
    decreases j - i
  {
    if i < j {
      NoGapMeansConsecutive(numbers, i, j - 1);
      assert !Gap(numbers, j);
    }
  }

  /** When numbers only grow, a flagged gap means that some number in between was never delivered here. */
  lemma GapMeansMissing(numbers: seq<int>, k: nat)
    requires Gap(numbers, k) && forall i, j :: 0 <= i < j < |numbers| ==> numbers[i] < numbers[j]
    ensures exists missing :: numbers[k - 1] < missing < numbers[k] && missing !in numbers
  {
    var missing := numbers[k - 1] + 1;
    forall i | 0 <= i < |numbers|
      ensures numbers[i] != missing
    {
      if i < k - 1 {
        assert numbers[i] < numbers[k - 1];
      } else if i >= k {
        assert numbers[k - 1] < numbers[k] <= numbers[i];
      }
    }
    assert numbers[k - 1] < missing < numbers[k] && missing !in numbers;
  }

  // ---------- which drops are noticed ----------

  function Numbers(s: seq<Envelope>): (r: seq<int>)
    ensures |r| == |s| && forall i :: 0 <= i < |s| ==> r[i] == s[i].number
  {
    seq(|s|, i requires 0 <= i < |s| => s[i].number)
  }

  predicate Has(s: seq<Envelope>, number: nat) { exists e <- s :: e.number == number }

  lemma {:induction false} SubsequenceRises(s: seq<Envelope>, t: seq<Envelope>)
    requires Subsequence(s, t) && Rising(t)
    ensures Rising(s) && forall e <- s :: e in t
    decreases |t|
  {
    if s != [] {
      var u := t[..|t| - 1];
      assert t == u + [t[|t| - 1]];
      if s[|s| - 1] == t[|t| - 1] {
        var r := s[..|s| - 1];
        SubsequenceRises(r, u);
        forall i | 0 <= i < |r|
          ensures s[i].number < s[|s| - 1].number
        {
          assert r[i] in u;
          var k :| 0 <= k < |u| && u[k] == r[i];
          assert t[k].number < t[|t| - 1].number;
        }
        assert forall e <- s :: e in r || e == s[|s| - 1];
      } else {
        SubsequenceRises(s, u);
      }
    }
  }

  /** Deliveries stay delivered, offers stay offered, and a number that is neither in the queue nor offered
      again is never delivered. */
  lemma {:induction false} NeverReturns(f: Flow, actions: seq<QueueAction>, limit: nat, number: nat)
    ensures var to := FlowRun(f, actions, limit);
            && |f.delivered| <= |to.delivered| && to.delivered[..|f.delivered|] == f.delivered
            && |f.offered| <= |to.offered| && to.offered[..|f.offered|] == f.offered
            && (!Has(f.delivered + f.queue, number) && !Has(to.offered[|f.offered|..], number)
                ==> !Has(to.delivered + to.queue, number))
    decreases |actions|
  {
    hide Offered;
    if actions != [] {
      var next := FlowStep(f, actions[0], limit);
      var to := FlowRun(f, actions, limit);
      NeverReturns(next, actions[1..], limit, number);
      if !Has(f.delivered + f.queue, number) && !Has(to.offered[|f.offered|..], number) {
        match actions[0] {
          case Offer(e) =>
            OfferedFrom(f.queue, e, limit);
            assert next.offered[|f.offered|] == to.offered[|f.offered|..][0] == e;
            assert to.offered[|next.offered|..] == to.offered[|f.offered|..][1..];
          case Receive =>
            assert f.queue != [] ==> next.delivered + next.queue == f.delivered + f.queue;
        }
      }
    }
  }

  /** Between a smaller and a greater number, a number that is missing lies in a gap. */
  lemma {:induction false} MissingIsInAGap(numbers: seq<int>, i: nat, j: nat, lost: int)
    requires i < j < |numbers| && numbers[i] < lost < numbers[j] && lost !in numbers
    ensures exists k :: i < k <= j && Gap(numbers, k) && numbers[k - 1] < lost < numbers[k]
    decreases j - i
  {
    if numbers[i + 1] < lost {
      MissingIsInAGap(numbers, i + 1, j, lost);
    } else {
      assert numbers[i + 1] != lost;
      assert Gap(numbers, i + 1);
    }
  }

  /** A delivery from the k-th on shows that this number is missing. */
  ghost predicate Noticed(numbers: seq<int>, from: nat, lost: int) {
    exists k :: from <= k < |numbers| && Gap(numbers, k) && numbers[k - 1] < lost < numbers[k]
  }

  /** What the queue gives up when e is offered. */
  predicate GivenUp(f: Flow, e: Envelope, limit: nat, lost: Envelope) {
    lost in f.queue + [e] && lost !in Offered(f.queue, e, limit)
  }

  /** For numbers that enter the queue in order: a drop is noticed by a later delivery if and only if the
      first delivery of all has a smaller number and the last one a greater number. */
  lemma DropNoticedIff(before: seq<QueueAction>, e: Envelope, after: seq<QueueAction>, limit: nat, lost: Envelope)
    requires GivenUp(FlowRun(EMPTY_FLOW, before, limit), e, limit, lost)
    requires Rising(FlowRun(FlowStep(FlowRun(EMPTY_FLOW, before, limit), Offer(e), limit), after, limit).offered)
    ensures var dropped := FlowStep(FlowRun(EMPTY_FLOW, before, limit), Offer(e), limit);
            var numbers := Numbers(FlowRun(dropped, after, limit).delivered);
            (Noticed(numbers, |dropped.delivered|, lost.number)
             <==> (numbers != [] && numbers[0] < lost.number < numbers[|numbers| - 1]))
  {
    hide Numbers;
    hide Noticed;
    hide FlowStep;
    var f := FlowRun(EMPTY_FLOW, before, limit);
    QueueLaws(before, limit);
    hide FlowRun;
    hide FlowOk;
    hide GivenUp;
    DropFacts(f, e, after, limit, lost);
    var dropped := FlowStep(f, Offer(e), limit);
    NoticedWhen(Numbers(FlowRun(dropped, after, limit).delivered), |dropped.delivered|, lost.number);
  }

  lemma NoticedWhen(numbers: seq<int>, from: nat, lost: int)
    requires forall i, j :: 0 <= i < j < |numbers| ==> numbers[i] < numbers[j]
    requires lost !in numbers && from <= |numbers| && forall i :: 0 <= i < from ==> numbers[i] < lost
    ensures Noticed(numbers, from, lost) <==> (numbers != [] && numbers[0] < lost < numbers[|numbers| - 1])
  {
    if numbers != [] && numbers[0] < lost < numbers[|numbers| - 1] {
      MissingIsInAGap(numbers, 0, |numbers| - 1, lost);
    }
  }

  lemma DropFacts(f: Flow, e: Envelope, after: seq<QueueAction>, limit: nat, lost: Envelope)
    requires FlowOk(f, limit) && GivenUp(f, e, limit, lost)
    requires Rising(FlowRun(FlowStep(f, Offer(e), limit), after, limit).offered)
    ensures var dropped := FlowStep(f, Offer(e), limit);
            var numbers := Numbers(FlowRun(dropped, after, limit).delivered);
            && (forall i, j :: 0 <= i < j < |numbers| ==> numbers[i] < numbers[j])
            && lost.number !in numbers && |dropped.delivered| <= |numbers|
            && (forall i :: 0 <= i < |dropped.delivered| ==> numbers[i] < lost.number)
  {
    hide FlowOk;
    var dropped := FlowStep(f, Offer(e), limit);
    assert dropped.offered == f.offered + [e];
    hide FlowStep;
    var to := FlowRun(dropped, after, limit);
    NeverReturns(dropped, after, limit, lost.number);
    RunsRise(f, e, after, limit);
    DropIsGone(f, e, limit, lost);
    LostIsOffered(f, e, limit, lost, to.offered);
    hide FlowRun;
    hide GivenUp;
    NotDelivered(to, lost.number);
    var numbers := Numbers(to.delivered);
    forall i | 0 <= i < |dropped.delivered|
      ensures numbers[i] < lost.number
    {
      assert to.delivered[i] == to.delivered[..|dropped.delivered|][i] == dropped.delivered[i];
    }
  }

  lemma NotDelivered(f: Flow, number: nat)
    requires !Has(f.delivered + f.queue, number)
    ensures number !in Numbers(f.delivered)
  {
    assert forall x <- f.delivered :: x in f.delivered + f.queue;
  }

  /** What leaves and fills the queue is in order when the offers are. */
  lemma RunsRise(f: Flow, e: Envelope, after: seq<QueueAction>, limit: nat)
    requires FlowOk(f, limit)
    requires Rising(FlowRun(FlowStep(f, Offer(e), limit), after, limit).offered)
    ensures var to := FlowRun(FlowStep(f, Offer(e), limit), after, limit);
            Rising(f.delivered + f.queue + [e]) && Rising(to.delivered) && (forall x <- f.queue :: x in f.offered)
  {
    hide Subsequence;
    hide Terminals;
    hide Offered;
    var dropped := FlowStep(f, Offer(e), limit);
    var to := FlowRun(dropped, after, limit);
    FlowStepKeeps(f, Offer(e), limit);
    FlowRunKeeps(dropped, after, limit);
    NeverReturns(dropped, after, limit, 0);
    hide FlowRun;
    Front(to.offered, f.offered + [e]);
    Front(f.offered + [e], f.offered);
    FromOffers(to, limit);
    Front(to.delivered + to.queue, to.delivered);
    FromOffers(f, limit);
    SubsequenceSkip(f.delivered + f.queue, f.offered, e);
    SubsequenceRises(f.delivered + f.queue + [e], f.offered + [e]);
  }

  lemma Front(s: seq<Envelope>, t: seq<Envelope>)
    requires Rising(s) && |t| <= |s| && s[..|t|] == t
    ensures Rising(t)
  {
    assert forall i :: 0 <= i < |t| ==> t[i] == s[i];
  }

  lemma FromOffers(f: Flow, limit: nat)
    requires FlowOk(f, limit) && Rising(f.offered)
    ensures Rising(f.delivered + f.queue) && forall x <- f.queue :: x in f.offered
  {
    SubsequenceRises(f.delivered + f.queue, f.offered);
    assert forall x <- f.queue :: x in f.delivered + f.queue;
  }

  /** After the drop the number is neither delivered nor queued, and everything delivered is smaller. */
  lemma DropIsGone(f: Flow, e: Envelope, limit: nat, lost: Envelope)
    requires GivenUp(f, e, limit, lost) && Rising(f.delivered + f.queue + [e])
    ensures var dropped := FlowStep(f, Offer(e), limit);
            !Has(dropped.delivered + dropped.queue, lost.number) && forall x <- dropped.delivered :: x.number < lost.number
  {
    var all := f.delivered + f.queue + [e];
    OfferedFrom(f.queue, e, limit);
    hide Offered;
    assert all == f.delivered + (f.queue + [e]);
    var i :| 0 <= i < |f.queue + [e]| && (f.queue + [e])[i] == lost;
    var at := |f.delivered| + i;
    assert all[at] == lost;
    forall x | x in f.delivered
      ensures x.number < lost.number
    {
      var k :| 0 <= k < |f.delivered| && f.delivered[k] == x;
      assert all[k] == x;
    }
    forall x | x in Offered(f.queue, e, limit)
      ensures x.number != lost.number
    {
      assert x in f.queue + [e];
      var k :| 0 <= k < |f.queue + [e]| && (f.queue + [e])[k] == x;
      assert all[|f.delivered| + k] == x;
    }
  }

  lemma LostIsOffered(f: Flow, e: Envelope, limit: nat, lost: Envelope, offered: seq<Envelope>)
    requires GivenUp(f, e, limit, lost) && Rising(offered) && (forall x <- f.queue :: x in f.offered)
    requires |f.offered| < |offered| && offered[..|f.offered| + 1] == f.offered + [e]
    ensures !Has(offered[|f.offered| + 1..], lost.number)
  {
    hide Offered;
    assert lost in f.offered + [e];
    var i :| 0 <= i < |f.offered + [e]| && (f.offered + [e])[i] == lost;
    assert offered[i] == lost;
  }

  // ---------- drops that no gap shows ----------

  function Note(number: nat): Envelope { Envelope(number, Event(TaskStarted, NoBody)) }

  function Final(number: nat): Envelope { Envelope(number, Event(TaskCompleted, NoBody)) }

  /** Consecutive numbers. */
  function Series(final: bool, first: nat, count: nat): (s: seq<Envelope>)
    ensures |s| == count && forall i :: 0 <= i < count ==> s[i] == if final then Final(first + i) else Note(first + i)
  {
    seq(count, i requires 0 <= i < count => if final then Final(first + i) else Note(first + i))
  }

  function Offers(es: seq<Envelope>): seq<QueueAction> { if es == [] then [] else [Offer(es[0])] + Offers(es[1..]) }

  function Receives(n: nat): seq<QueueAction> { if n == 0 then [] else [Receive] + Receives(n - 1) }

  lemma {:induction false} FlowRunConcat(f: Flow, a: seq<QueueAction>, b: seq<QueueAction>, limit: nat)
    ensures FlowRun(f, a + b, limit) == FlowRun(FlowRun(f, a, limit), b, limit)
    decreases |a|
  {
    hide FlowStep;
    if a == [] {
      assert a + b == b;
    } else {
      assert (a + b)[1..] == a[1..] + b;
      FlowRunConcat(FlowStep(f, a[0], limit), a[1..], b, limit);
    }
  }

  lemma FlowRunOne(f: Flow, a: QueueAction, limit: nat)
    ensures FlowRun(f, [a], limit) == FlowStep(f, a, limit)
  {
    hide FlowStep;
    assert [a][1..] == [];
  }

  lemma FlowThen(f: Flow, a: seq<QueueAction>, g: Flow, b: seq<QueueAction>, h: Flow, limit: nat)
    requires FlowRun(f, a, limit) == g && FlowRun(g, b, limit) == h
    ensures FlowRun(f, a + b, limit) == h
  {
    FlowRunConcat(f, a, b, limit);
  }

  /** As long as there is room, offers queue up. */
  lemma {:induction false} FlowFills(queue: seq<Envelope>, delivered: seq<Envelope>, offered: seq<Envelope>, es: seq<Envelope>, limit: nat)
    requires |queue| + |es| <= limit
    ensures FlowRun(Flow(queue, delivered, offered), Offers(es), limit) == Flow(queue + es, delivered, offered + es)
    decreases |es|
  {
    var f := Flow(queue, delivered, offered);
    if es == [] {
      assert queue + es == queue && offered + es == offered;
    } else {
      assert FlowStep(f, Offer(es[0]), limit) == Flow(queue + [es[0]], delivered, offered + [es[0]]);
      hide FlowStep;
      assert Offers(es)[1..] == Offers(es[1..]);
      FlowFills(queue + [es[0]], delivered, offered + [es[0]], es[1..], limit);
      Refront(queue, es);
      Refront(offered, es);
    }
  }

  lemma Refront(a: seq<Envelope>, b: seq<Envelope>)
    requires b != []
    ensures a + [b[0]] + b[1..] == a + b
  {
  }

  lemma {:induction false} FlowDrains(queue: seq<Envelope>, delivered: seq<Envelope>, offered: seq<Envelope>, limit: nat)
    ensures FlowRun(Flow(queue, delivered, offered), Receives(|queue|), limit) == Flow([], delivered + queue, offered)
    decreases |queue|
  {
    var f := Flow(queue, delivered, offered);
    if queue == [] {
      assert delivered + queue == delivered;
    } else {
      assert FlowStep(f, Receive, limit) == Flow(queue[1..], delivered + [queue[0]], offered);
      hide FlowStep;
      assert Receives(|queue|)[1..] == Receives(|queue| - 1);
      FlowDrains(queue[1..], delivered + [queue[0]], offered, limit);
      Refront(delivered, queue);
    }
  }

  lemma FlowTakes(queue: seq<Envelope>, delivered: seq<Envelope>, offered: seq<Envelope>, limit: nat)
    requires queue != []
    ensures FlowRun(Flow(queue, delivered, offered), [Receive], limit) == Flow(queue[1..], delivered + [queue[0]], offered)
  {
    FlowRunOne(Flow(queue, delivered, offered), Receive, limit);
  }

  lemma FlowOffers(queue: seq<Envelope>, delivered: seq<Envelope>, offered: seq<Envelope>, e: Envelope, limit: nat)
    ensures FlowRun(Flow(queue, delivered, offered), [Offer(e)], limit) == Flow(Offered(queue, e, limit), delivered, offered + [e])
  {
    FlowRunOne(Flow(queue, delivered, offered), Offer(e), limit);
  }

  /** A full queue gives up its first entry for the last one. */
  lemma FirstDrop(first: Envelope, rest: seq<Envelope>, last: Envelope, limit: nat) returns (actions: seq<QueueAction>)
    requires !Terminal(first) && Terminal(last) && |rest| + 1 == limit
    ensures FlowRun(EMPTY_FLOW, actions, limit) == Flow([], rest + [last], [first] + rest + [last])
  {
    hide FlowRun;
    var full := [first] + rest;
    FlowFills([], [], [], full, limit);
    assert [] + full == full;
    WithoutAt(full, 0);
    assert full[..0] + full[1..] == rest;
    FlowOffers(full, [], full, last, limit);
    hide Offered;
    FlowDrains(rest + [last], [], full + [last], limit);
    assert [] + (rest + [last]) == rest + [last];
    FlowThen(Flow(full, [], full), [Offer(last)], Flow(rest + [last], [], full + [last]), Receives(limit),
             Flow([], rest + [last], full + [last]), limit);
    FlowThen(EMPTY_FLOW, Offers(full), Flow(full, [], full), [Offer(last)] + Receives(limit), Flow([], rest + [last], full + [last]), limit);
    actions := Offers(full) + ([Offer(last)] + Receives(limit));
  }

  /** In order, but dropped before anything was delivered: the queue is full of 1 and later, terminal events,
      and 1 makes room for one more; what comes out are consecutive numbers. */
  lemma FirstDropUnnoticed(limit: nat) returns (actions: seq<QueueAction>)
    requires limit > 0
    ensures var f := FlowRun(EMPTY_FLOW, actions, limit);
            && Rising(f.offered) && f.queue == [] && Note(1) in f.offered && Note(1) !in f.delivered
            && f.delivered == Series(true, 2, limit) && forall k :: !Gap(Numbers(f.delivered), k)
  {
    var rest, last := Series(true, 2, limit - 1), Final(limit + 1);
    actions := FirstDrop(Note(1), rest, last, limit);
    hide FlowRun;
    assert rest + [last] == Series(true, 2, limit);
    assert ([Note(1)] + rest + [last])[0] == Note(1);
  }

  /** A full queue refuses an event that is not terminal. */
  lemma OutOfOrder(one: Envelope, rest: seq<Envelope>, early: Envelope, late: Envelope, limit: nat) returns (actions: seq<QueueAction>)
    requires !Terminal(early) && |rest| == limit > 0
    ensures FlowRun(EMPTY_FLOW, actions, limit) == Flow([], [one] + rest + [late], [one] + rest + [early] + [late])
  {
    hide FlowRun;
    var first, last := rest[0], rest[1..];
    FlowOffers([], [], [], one, limit);
    FlowTakes([one], [], [one], limit);
    assert [] + [one] == [one] && [one][1..] == [];
    FlowThen(EMPTY_FLOW, [Offer(one)], Flow([one], [], [one]), [Receive], Flow([], [one], [one]), limit);
    FlowFills([], [one], [one], rest, limit);
    assert [] + rest == rest;
    FlowThen(EMPTY_FLOW, [Offer(one)] + [Receive], Flow([], [one], [one]), Offers(rest), Flow(rest, [one], [one] + rest), limit);
    FlowOffers(rest, [one], [one] + rest, early, limit);
    var offered := [one] + rest + [early];
    FlowTakes(rest, [one], offered, limit);
    FlowOffers(last, [one] + [first], offered, late, limit);
    assert Offered(last, late, limit) == last + [late];
    hide Offered;
    FlowDrains(last + [late], [one] + [first], offered + [late], limit);
    var end := Flow([], [one] + [first] + (last + [late]), offered + [late]);
    FlowThen(Flow(last, [one] + [first], offered), [Offer(late)], Flow(last + [late], [one] + [first], offered + [late]),
             Receives(limit), end, limit);
    FlowThen(Flow(rest, [one], offered), [Receive], Flow(last, [one] + [first], offered), [Offer(late)] + Receives(limit), end, limit);
    FlowThen(Flow(rest, [one], [one] + rest), [Offer(early)], Flow(rest, [one], offered), [Receive] + ([Offer(late)] + Receives(limit)), end, limit);
    actions := [Offer(one)] + [Receive] + Offers(rest) + ([Offer(early)] + ([Receive] + ([Offer(late)] + Receives(limit))));
    FlowThen(EMPTY_FLOW, [Offer(one)] + [Receive] + Offers(rest), Flow(rest, [one], [one] + rest),
             [Offer(early)] + ([Receive] + ([Offer(late)] + Receives(limit))), end, limit);
    assert [one] + [first] + (last + [late]) == [one] + rest + [late];
  }

  /** Two threads took two numbers, and scheduled the greater one first, when the queue was full: with
      deliveries before and after it, its drop leaves no gap. */
  lemma OutOfOrderUnnoticed(limit: nat) returns (actions: seq<QueueAction>)
    requires limit > 0
    ensures var f := FlowRun(EMPTY_FLOW, actions, limit);
            && f.queue == [] && f.delivered == Series(false, 1, limit + 2) && (forall k :: !Gap(Numbers(f.delivered), k))
            && Note(limit + 3) in f.offered && Note(limit + 3) !in f.delivered
  {
    var rest := Series(false, 2, limit);
    actions := OutOfOrder(Note(1), rest, Note(limit + 3), Note(limit + 2), limit);
    hide FlowRun;
    assert [Note(1)] + rest + [Note(limit + 2)] == Series(false, 1, limit + 2);
    assert ([Note(1)] + rest + [Note(limit + 3)] + [Note(limit + 2)])[limit + 1] == Note(limit + 3);
  }
}
