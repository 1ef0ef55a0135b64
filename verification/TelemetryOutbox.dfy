/**
 The bounded telemetry outbox of the climate provider (apps/home-assistant-climate-provider/src/
 telemetry.ts:126-178): coalescing enqueues, priority eviction, and flushes that other enqueues overtake.
 */
module TelemetryOutbox {
  const CAPACITY := 1000
  const BATCH := 100

  datatype Kind = ResourceState | ResourceHealth | ResourceMetric | ExecutionProgress

  /** `id` is the content hash of the event, so two queued events may share it. */
  datatype Event = Event(id: string, kind: Kind, resourceId: string, metricName: string)

  datatype Queued = Queued(event: Event, sequence: nat, attempts: nat, nextAttemptAt: int)

  // ------------------------------------------------------------------------------------------ enqueue

  predicate SameMetric(a: Event, b: Event) {
    a.kind.ResourceMetric? && b.kind.ResourceMetric? && a.resourceId == b.resourceId && a.metricName == b.metricName
  }

  /** The queue without the older readings of the metric that `e` reports. */
  function Coalesced(q: seq<Queued>, e: Event): seq<Queued> {
    if q == [] then []
    else
      var front := Coalesced(q[..|q| - 1], e);
      if SameMetric(q[|q| - 1].event, e) then front else front + [q[|q| - 1]]
  }

  /** The oldest metric, or the oldest event when there is no metric. */
  function Victim(q: seq<Queued>): (v: nat)
    requires q != []
    ensures v < |q|
    ensures q[v].event.kind.ResourceMetric? || (v == 0 && forall x <- q :: !x.event.kind.ResourceMetric?)
    ensures q[v].event.kind.ResourceMetric? ==> forall k :: 0 <= k < v ==> !q[k].event.kind.ResourceMetric?
  {
    FirstMetric(q, 0)
  }

  function FirstMetric(q: seq<Queued>, from: nat): (v: nat)
    requires q != [] && from <= |q|
    requires forall k :: 0 <= k < from ==> !q[k].event.kind.ResourceMetric?
    ensures v < |q|
    ensures q[v].event.kind.ResourceMetric? || (v == 0 && forall x <- q :: !x.event.kind.ResourceMetric?)
    ensures q[v].event.kind.ResourceMetric? ==> forall k :: 0 <= k < v ==> !q[k].event.kind.ResourceMetric?
    decreases |q| - from
  {
    if from == |q| then 0 else if q[from].event.kind.ResourceMetric? then from else FirstMetric(q, from + 1)
  }

  function Without(q: seq<Queued>, i: nat): seq<Queued>
    requires i < |q|
  {
    q[..i] + q[i + 1..]
  }

  function Trimmed(q: seq<Queued>): seq<Queued>
    decreases |q|
  {
    if |q| <= CAPACITY then q else Trimmed(Without(q, Victim(q)))
  }

  function Enqueued(q: seq<Queued>, e: Event, sequence: nat): seq<Queued> {
    Trimmed(Coalesced(q, e) + [Queued(e, sequence, 0, 0)])
  }

  // ------------------------------------------------------------------------------------------ flush

  /** The events that are due, in queue order. */
  function Due(q: seq<Queued>, now: int): seq<Queued> {
    if q == [] then []
    else
      var front := Due(q[..|q| - 1], now);
      if q[|q| - 1].nextAttemptAt <= now then front + [q[|q| - 1]] else front
  }

  function FirstBatch(q: seq<Queued>, now: int): seq<Queued> {
    var due := Due(q, now);
    if |due| <= BATCH then due else due[..BATCH]
  }

  function Ids(q: seq<Queued>): set<string> {
    set x | x in q :: x.event.id
  }

  /** The queue after the receiver acknowledged `accepted`. */
  function Acknowledged(q: seq<Queued>, accepted: set<string>): seq<Queued> {
    if q == [] then []
    else
      var front := Acknowledged(q[..|q| - 1], accepted);
      if q[|q| - 1].event.id in accepted then front else front + [q[|q| - 1]]
  }

  function Pow2(n: nat): nat {
    if n == 0 then 1 else 2 * Pow2(n - 1)
  }

  /** Milliseconds to wait after the given number of failed attempts. */
  function Backoff(attempts: nat): int {
    var delay := 500 * Pow2(if attempts < 6 then attempts else 6);
    if delay < 30000 then delay else 30000
  }

  /** Each retry waits longer than the one before until the cap of 30 s, which holds from the sixth on. */
  lemma BackoffGrowsToCap(a: nat, b: nat)
    ensures a <= b ==> Backoff(a) <= Backoff(b)
    ensures a < b && Backoff(b) < 30000 ==> Backoff(b) >= 2 * Backoff(a)
    ensures Backoff(a) == 30000 <==> a >= 6
  {
    assert Pow2(0) == 1 && Pow2(1) == 2 && Pow2(2) == 4 && Pow2(3) == 8;
    assert Pow2(4) == 16 && Pow2(5) == 32 && Pow2(6) == 64;
  }

  function Postponed(x: Queued, now: int): Queued {
    x.(attempts := x.attempts + 1, nextAttemptAt := now + Backoff(x.attempts + 1))
  }

  /** The queue after a batch with these ids could not be delivered; each event reads the clock anew. */
  function Retried(q: seq<Queued>, failed: set<string>, clock: nat -> int): seq<Queued> {
    seq(|q|, i requires 0 <= i < |q| => if q[i].event.id in failed then Postponed(q[i], clock(i)) else q[i])
  }

  // ------------------------------------------------------------------------------------------ queue order

  function Sequences(q: seq<Queued>): set<nat> {
    set x | x in q :: x.sequence
  }

  predicate Sorted(q: seq<Queued>) {
    forall i, j :: 0 <= i < j < |q| ==> q[i].sequence < q[j].sequence
  }

  predicate OneReadingEach(q: seq<Queued>) {
    forall i, j :: 0 <= i < j < |q| ==> !SameMetric(q[i].event, q[j].event)
  }

  predicate Below(q: seq<Queued>, bound: nat) {
    forall x <- q :: 1 <= x.sequence < bound
  }

  predicate HasMetric(q: seq<Queued>) {
    exists x <- q :: x.event.kind.ResourceMetric?
  }

  /** Coalescing drops exactly the older readings of the metric. */
  lemma {:induction false} CoalescedKeeps(q: seq<Queued>, e: Event)
    ensures forall x :: x in Coalesced(q, e) <==> x in q && !SameMetric(x.event, e)
    ensures |Coalesced(q, e)| <= |q|
  {
    if q != [] {
      CoalescedKeeps(q[..|q| - 1], e);
      assert q == q[..|q| - 1] + [q[|q| - 1]];
    }
  }

  lemma OrderKeptByLast(front: seq<Queued>, last: Queued, whole: seq<Queued>)
    requires whole != [] && last == whole[|whole| - 1]
    requires forall x <- front :: x in whole[..|whole| - 1]
    ensures Sorted(whole) && Sorted(front) ==> Sorted(front + [last])
    ensures OneReadingEach(whole) && OneReadingEach(front) ==> OneReadingEach(front + [last])
  {
    forall i | 0 <= i < |front|
      ensures Sorted(whole) ==> front[i].sequence < last.sequence
      ensures OneReadingEach(whole) ==> !SameMetric(front[i].event, last.event)
    {
      var x := front[i];
      assert x in front;
      assert x in whole[..|whole| - 1];
      var k :| 0 <= k < |whole| - 1 && whole[k] == x;
    }
  }

  lemma {:induction false} CoalescedKeepsOrder(q: seq<Queued>, e: Event)
    ensures Sorted(q) ==> Sorted(Coalesced(q, e))
    ensures OneReadingEach(q) ==> OneReadingEach(Coalesced(q, e))
  {
    if q != [] {
      var front := q[..|q| - 1];
      CoalescedKeepsOrder(front, e);
      CoalescedKeeps(front, e);
      OrderKeptByLast(Coalesced(front, e), q[|q| - 1], q);
    }
  }

  /** Acknowledging removes exactly the events with an accepted id. */
  lemma {:induction false} AcknowledgedKeeps(q: seq<Queued>, accepted: set<string>)
    ensures forall x :: x in Acknowledged(q, accepted) <==> x in q && x.event.id !in accepted
    ensures |Acknowledged(q, accepted)| <= |q|
  {
    if q != [] {
      AcknowledgedKeeps(q[..|q| - 1], accepted);
      assert q == q[..|q| - 1] + [q[|q| - 1]];
    }
  }

  lemma {:induction false} AcknowledgedKeepsOrder(q: seq<Queued>, accepted: set<string>)
    ensures Sorted(q) ==> Sorted(Acknowledged(q, accepted))
    ensures OneReadingEach(q) ==> OneReadingEach(Acknowledged(q, accepted))
  {
    if q != [] {
      var front := q[..|q| - 1];
      AcknowledgedKeepsOrder(front, accepted);
      AcknowledgedKeeps(front, accepted);
      OrderKeptByLast(Acknowledged(front, accepted), q[|q| - 1], q);
    }
  }

  lemma WithoutShifts(q: seq<Queued>, i: nat)
    requires i < |q|
    ensures var w := Without(q, i);
            |w| == |q| - 1 && forall k :: 0 <= k < |w| ==> w[k] == if k < i then q[k] else q[k + 1]
  {}

  lemma WithoutKeepsOrder(q: seq<Queued>, i: nat)
    requires i < |q|
    ensures Sorted(q) ==> Sorted(Without(q, i))
    ensures OneReadingEach(q) ==> OneReadingEach(Without(q, i))
  {
    WithoutShifts(q, i);
  }

  lemma WithoutKeeps(q: seq<Queued>, i: nat)
    requires i < |q| && Sorted(q)
    ensures Sorted(Without(q, i))
    ensures OneReadingEach(q) ==> OneReadingEach(Without(q, i))
    ensures forall x :: x in Without(q, i) <==> x in q && x != q[i]
  {
    var w := Without(q, i);
    WithoutKeepsOrder(q, i);
    WithoutShifts(q, i);
    forall x | x in q && x != q[i] ensures x in w {
      var k :| 0 <= k < |q| && q[k] == x;
      assert x == w[if k < i then k else k - 1];
    }
    forall x | x in w ensures x in q && x != q[i] {
      var k :| 0 <= k < |w| && w[k] == x;
      assert x == q[if k < i then k else k + 1];
    }
  }

  /** Trimming leaves a sorted part of at most 1000 events, and gives up events other than metrics only last. */
  lemma {:induction false} TrimmedKeeps(q: seq<Queued>)
    requires Sorted(q)
    ensures var t := Trimmed(q);
            && |t| <= CAPACITY && (|q| <= CAPACITY ==> t == q)
            && Sorted(t) && (OneReadingEach(q) ==> OneReadingEach(t))
            && (forall x <- t :: x in q)
            && ((exists x <- q :: x !in t && !x.event.kind.ResourceMetric?) ==> !HasMetric(t))
    decreases |q|
  {
    if |q| > CAPACITY {
      var v := Victim(q);
      WithoutKeeps(q, v);
      TrimmedKeeps(Without(q, v));
    }
  }

  // ------------------------------------------------------------------------------------------ conservation

  /** The outbox, the flushes under way, and where every sequence number that left the queue went. */
  datatype Ledger = Ledger(
    queue: seq<Queued>,
    next: nat,
    inFlight: seq<seq<Queued>>,
    acknowledged: set<nat>,
    superseded: set<nat>,
    evicted: set<nat>)

  datatype Move =
    | Enqueue(event: Event)
    | BeginFlush(now: int)
    | Delivered(flush: nat, accepted: set<string>)
    | NotDelivered(flush: nat, clock: nat -> int)

  const EMPTY := Ledger([], 1, [], {}, {}, {})

  function Next(l: Ledger, m: Move): Ledger {
    match m
    case Enqueue(e) =>
      var kept := Coalesced(l.queue, e);
      var extended := kept + [Queued(e, l.next, 0, 0)];
      var trimmed := Trimmed(extended);
      l.(queue := trimmed, next := l.next + 1,
         superseded := l.superseded + (Sequences(l.queue) - Sequences(kept)),
         evicted := l.evicted + (Sequences(extended) - Sequences(trimmed)))
    case BeginFlush(now) =>
      var batch := FirstBatch(l.queue, now);
      if batch == [] then l else l.(inFlight := l.inFlight + [batch])
    case Delivered(f, accepted) =>
      if f < |l.inFlight| then
        var rest := Acknowledged(l.queue, accepted);
        l.(queue := rest, acknowledged := l.acknowledged + (Sequences(l.queue) - Sequences(rest)))
      else l
    case NotDelivered(f, clock) =>
      if f < |l.inFlight| then l.(queue := Retried(l.queue, Ids(l.inFlight[f]), clock)) else l
  }

  function Run(l: Ledger, moves: seq<Move>): Ledger
    decreases |moves|
  {
    if moves == [] then l else Run(Next(l, moves[0]), moves[1..])
  }

  predicate Issued(l: Ledger, n: nat) {
    1 <= n < l.next
  }

  /** How many of the four places a sequence number is in. */
  function Places(l: Ledger, n: nat): nat {
    (if n in Sequences(l.queue) then 1 else 0) + (if n in l.acknowledged then 1 else 0)
    + (if n in l.superseded then 1 else 0) + (if n in l.evicted then 1 else 0)
  }

  ghost predicate Conserves(l: Ledger) {
    && 1 <= l.next
    && Sorted(l.queue) && Below(l.queue, l.next) && OneReadingEach(l.queue)
    && |l.queue| <= CAPACITY
    && (forall n: nat :: Places(l, n) == if Issued(l, n) then 1 else 0)
  }

  lemma SequencesOfPart(part: seq<Queued>, whole: seq<Queued>)
    requires forall x <- part :: x in whole
    ensures Sequences(part) <= Sequences(whole)
  {}

  lemma ExtendedQueue(l: Ledger, e: Event)
    requires Conserves(l)
    ensures var kept := Coalesced(l.queue, e);
            var extended := kept + [Queued(e, l.next, 0, 0)];
            && Sorted(extended) && OneReadingEach(extended)
            && (forall x <- extended :: 1 <= x.sequence <= l.next)
            && Sequences(extended) == Sequences(kept) + {l.next}
            && Sequences(kept) <= Sequences(l.queue)
            && l.next !in Sequences(l.queue)
  {
    CoalescedKeeps(l.queue, e);
    CoalescedKeepsOrder(l.queue, e);
    var kept := Coalesced(l.queue, e);
    var added := Queued(e, l.next, 0, 0);
    var extended := kept + [added];
    forall x <- extended ensures x == added || x in kept {}
    forall n ensures n in Sequences(extended) <==> n in Sequences(kept) + {l.next} {
      if n == l.next {
        assert added in extended;
      } else if n in Sequences(kept) {
        var x :| x in kept && x.sequence == n;
        assert x in extended;
      }
    }
  }

  lemma EnqueueKeepsOrder(l: Ledger, e: Event)
    requires Conserves(l)
    ensures var q := Next(l, Enqueue(e)).queue;
            Sorted(q) && Below(q, l.next + 1) && OneReadingEach(q) && |q| <= CAPACITY
  {
    var extended := Coalesced(l.queue, e) + [Queued(e, l.next, 0, 0)];
    ExtendedQueue(l, e);
    TrimmedKeeps(extended);
    forall x <- Trimmed(extended) ensures 1 <= x.sequence < l.next + 1 {
      assert x in extended;
    }
  }

  lemma EnqueuePlaces(l: Ledger, e: Event, n: nat)
    requires Conserves(l)
    ensures var t := Next(l, Enqueue(e)); Places(t, n) == if Issued(t, n) then 1 else 0
  {
    var t := Next(l, Enqueue(e));
    var kept := Coalesced(l.queue, e);
    var extended := kept + [Queued(e, l.next, 0, 0)];
    ExtendedQueue(l, e);
    TrimmedKeeps(extended);
    SequencesOfPart(t.queue, extended);
    assert Places(l, n) == if Issued(l, n) then 1 else 0;
  }

  lemma EnqueueConserves(l: Ledger, e: Event)
    requires Conserves(l)
    ensures Conserves(Next(l, Enqueue(e)))
  {
    var t := Next(l, Enqueue(e));
    EnqueueKeepsOrder(l, e);
    forall n: nat ensures Places(t, n) == if Issued(t, n) then 1 else 0 {
      EnqueuePlaces(l, e, n);
    }
  }

  lemma DeliveredConserves(l: Ledger, f: nat, accepted: set<string>)
    requires Conserves(l)
    ensures Conserves(Next(l, Delivered(f, accepted)))
  {
    if f < |l.inFlight| {
      var t := Next(l, Delivered(f, accepted));
      AcknowledgedKeeps(l.queue, accepted);
      AcknowledgedKeepsOrder(l.queue, accepted);
      SequencesOfPart(t.queue, l.queue);
      forall n: nat ensures Places(t, n) == if Issued(t, n) then 1 else 0 {
        assert Places(l, n) == if Issued(l, n) then 1 else 0;
      }
    }
  }

  lemma RetriedKeeps(q: seq<Queued>, failed: set<string>, clock: nat -> int)
    ensures var r := Retried(q, failed, clock);
            && |r| == |q|
            && (forall i :: 0 <= i < |q| ==> r[i].event == q[i].event && r[i].sequence == q[i].sequence)
            && Sequences(r) == Sequences(q)
  {
    var r := Retried(q, failed, clock);
    assert forall i :: 0 <= i < |q| ==> r[i] == if q[i].event.id in failed then Postponed(q[i], clock(i)) else q[i];
    forall n ensures n in Sequences(r) <==> n in Sequences(q) {
      if n in Sequences(r) {
        var x :| x in r && x.sequence == n;
        var i :| 0 <= i < |r| && r[i] == x;
        assert q[i] in q;
      }
      if n in Sequences(q) {
        var x :| x in q && x.sequence == n;
        var i :| 0 <= i < |q| && q[i] == x;
        assert r[i] in r;
      }
    }
  }

  lemma NotDeliveredConserves(l: Ledger, f: nat, clock: nat -> int)
    requires Conserves(l)
    ensures Conserves(Next(l, NotDelivered(f, clock)))
  {
    if f < |l.inFlight| {
      var t := Next(l, NotDelivered(f, clock));
      RetriedKeeps(l.queue, Ids(l.inFlight[f]), clock);
      forall x <- t.queue ensures 1 <= x.sequence < t.next {
        var i :| 0 <= i < |t.queue| && t.queue[i] == x;
        assert l.queue[i] in l.queue;
      }
      forall n: nat ensures Places(t, n) == if Issued(t, n) then 1 else 0 {
        assert Places(l, n) == if Issued(l, n) then 1 else 0;
      }
    }
  }

  lemma NextConserves(l: Ledger, m: Move)
    requires Conserves(l)
    ensures Conserves(Next(l, m))
  {
    match m
    case Enqueue(e) => EnqueueConserves(l, e);
    case BeginFlush(now) =>
      var t := Next(l, m);
      forall n: nat ensures Places(t, n) == if Issued(t, n) then 1 else 0 {
        assert Places(l, n) == if Issued(l, n) then 1 else 0;
      }
    case Delivered(f, accepted) => DeliveredConserves(l, f, accepted);
    case NotDelivered(f, clock) => NotDeliveredConserves(l, f, clock);
  }

  lemma {:induction false} RunConserves(l: Ledger, moves: seq<Move>)
    requires Conserves(l)
    ensures Conserves(Run(l, moves))
    decreases |moves|
  {
    if moves != [] {
      NextConserves(l, moves[0]);
      RunConserves(Next(l, moves[0]), moves[1..]);
    }
  }

  /**
   With enqueues interleaved into any number of flushes under way, whatever those come back with: every sequence
   number issued is in exactly one of queued, acknowledged, superseded and evicted; the queue is strictly ordered,
   at most 1000 long, and holds at most one reading per resource and metric.
   */
  lemma OutboxConserves(moves: seq<Move>, n: nat)
    ensures var l := Run(EMPTY, moves);
            && Places(l, n) == (if Issued(l, n) then 1 else 0)
            && Sorted(l.queue) && |l.queue| <= 1000 && OneReadingEach(l.queue)
  {
    assert forall k: nat :: Places(EMPTY, k) == 0;
    RunConserves(EMPTY, moves);
  }

  /** An enqueue evicts an event other than a metric only when the queue is left without any metric. */
  lemma MetricsAreEvictedFirst(moves: seq<Move>, e: Event, x: Queued)
    ensures var l := Run(EMPTY, moves);
            var t := Next(l, Enqueue(e));
            (x in l.queue && x !in t.queue && !x.event.kind.ResourceMetric?) ==> !HasMetric(t.queue)
  {
    assert forall k: nat :: Places(EMPTY, k) == 0;
    RunConserves(EMPTY, moves);
    var l := Run(EMPTY, moves);
    ExtendedQueue(l, e);
    CoalescedKeeps(l.queue, e);
    var extended := Coalesced(l.queue, e) + [Queued(e, l.next, 0, 0)];
    TrimmedKeeps(extended);
    if x in l.queue && !x.event.kind.ResourceMetric? {
      assert x in Coalesced(l.queue, e);
      assert x in extended;
    }
  }

  /** One enqueue evicts one event at most: the victim of the queue that grew too long. */
  lemma AtMostOneEvicted(l: Ledger, e: Event)
    requires Conserves(l)
    ensures var extended := Coalesced(l.queue, e) + [Queued(e, l.next, 0, 0)];
            Next(l, Enqueue(e)).queue
            == if |extended| <= CAPACITY then extended else Without(extended, Victim(extended))
  {
    CoalescedKeeps(l.queue, e);
    var extended := Coalesced(l.queue, e) + [Queued(e, l.next, 0, 0)];
    assert |extended| <= CAPACITY + 1;
    if |extended| > CAPACITY {
      assert |Without(extended, Victim(extended))| == CAPACITY;
      assert Trimmed(extended) == Trimmed(Without(extended, Victim(extended)));
    }
  }

  lemma VictimOfExtended(kept: seq<Queued>, added: Queued)
    requires kept != []
    ensures Victim(kept + [added]) == |kept| <==> added.event.kind.ResourceMetric? && !HasMetric(kept)
  {
    var q := kept + [added];
    assert q[|kept|] == added;
    assert forall k :: 0 <= k < |kept| ==> q[k] == kept[k] && kept[k] in kept;
    if HasMetric(kept) {
      var x :| x in kept && x.event.kind.ResourceMetric?;
      var k :| 0 <= k < |kept| && kept[k] == x;
    }
  }

  lemma WithoutHas(q: seq<Queued>, v: nat, k: nat)
    requires v < |q| && k < |q| && Sorted(q)
    ensures q[k] in Without(q, v) <==> v != k
  {
    WithoutKeeps(q, v);
    assert q[k] in q && q[v] in q;
  }

  /** A new event is evicted on arrival exactly if it is the only metric behind a full queue of other events. */
  lemma NewestStaysUnless(moves: seq<Move>, e: Event)
    ensures var l := Run(EMPTY, moves);
            var kept := Coalesced(l.queue, e);
            Queued(e, l.next, 0, 0) in Next(l, Enqueue(e)).queue
            <==> !(e.kind.ResourceMetric? && |kept| == CAPACITY && !HasMetric(kept))
  {
    assert forall k: nat :: Places(EMPTY, k) == 0;
    RunConserves(EMPTY, moves);
    NewestStays(Run(EMPTY, moves), e);
  }

  lemma NewestStays(l: Ledger, e: Event)
    requires Conserves(l)
    ensures var kept := Coalesced(l.queue, e);
            Queued(e, l.next, 0, 0) in Next(l, Enqueue(e)).queue
            <==> !(e.kind.ResourceMetric? && |kept| == CAPACITY && !HasMetric(kept))
  {
    var kept, added := Coalesced(l.queue, e), Queued(e, l.next, 0, 0);
    var extended := kept + [added];
    AtMostOneEvicted(l, e);
    CoalescedKeeps(l.queue, e);
    assert extended[|kept|] == added;
    if |extended| > CAPACITY {
      ExtendedQueue(l, e);
      VictimOfExtended(kept, added);
      WithoutHas(extended, Victim(extended), |kept|);
    }
  }

  lemma {:induction false} DueKeeps(q: seq<Queued>, now: int)
    ensures forall x :: x in Due(q, now) <==> x in q && x.nextAttemptAt <= now
  {
    if q != [] {
      DueKeeps(q[..|q| - 1], now);
      assert q == q[..|q| - 1] + [q[|q| - 1]];
    }
  }

  lemma {:induction false} DueKeepsOrder(q: seq<Queued>, now: int)
    ensures Sorted(q) ==> Sorted(Due(q, now))
    ensures OneReadingEach(q) ==> OneReadingEach(Due(q, now))
  {
    if q != [] {
      var front := q[..|q| - 1];
      DueKeepsOrder(front, now);
      DueKeeps(front, now);
      OrderKeptByLast(Due(front, now), q[|q| - 1], q);
    }
  }

  lemma BehindPrefix(q: seq<Queued>, n: nat, j: nat)
    requires n <= |q| && j < |q| && q[j] !in q[..n]
    ensures j >= n
  {}

  /** A batch holds due events only, at most a hundred, and passes over a due event only for a hundred older ones. */
  lemma BatchIsOldestDue(q: seq<Queued>, now: int, x: Queued, y: Queued)
    requires Sorted(q)
    ensures var batch := FirstBatch(q, now);
            && |batch| <= 100 && (x in batch ==> x in q && x.nextAttemptAt <= now)
            && (y in q && y.nextAttemptAt <= now && y !in batch ==>
                  |batch| == 100 && (x in batch ==> x.sequence < y.sequence))
  {
    DueKeeps(q, now);
    DueKeepsOrder(q, now);
    var due, batch := Due(q, now), FirstBatch(q, now);
    if x in batch {
      var i :| 0 <= i < |batch| && batch[i] == x;
      assert due[i] == x && x in due;
    }
    if y in q && y.nextAttemptAt <= now && y !in batch {
      var j :| 0 <= j < |due| && due[j] == y;
      BehindPrefix(due, |batch|, j);
    }
  }

  // ------------------------------------------------------------------------------------------ waiting

  /** Readings of a clock that does not run backwards, from `now` on. */
  ghost predicate Ticks(clock: nat -> int, now: int) {
    now <= clock(0) && forall i: nat, j: nat :: i <= j ==> clock(i) <= clock(j)
  }

  function TimeAfter(now: int, m: Move): int {
    match m
    case BeginFlush(t) => t
    case NotDelivered(_, clock) => clock(CAPACITY)
    case _ => now
  }

  ghost predicate TimeFits(now: int, m: Move) {
    match m
    case BeginFlush(t) => now <= t
    case NotDelivered(_, clock) => Ticks(clock, now)
    case _ => true
  }

  ghost predicate Timed(now: int, moves: seq<Move>)
    decreases |moves|
  {
    moves != [] ==> TimeFits(now, moves[0]) && Timed(TimeAfter(now, moves[0]), moves[1..])
  }

  /** No event waits longer than its back-off from now. */
  predicate Waits(q: seq<Queued>, now: int) {
    forall i :: 0 <= i < |q| ==> q[i].nextAttemptAt <= now + Backoff(q[i].attempts)
  }

  lemma WaitsFor(part: seq<Queued>, q: seq<Queued>, now: int)
    requires Waits(q, now) && forall x <- part :: x in q
    ensures Waits(part, now)
  {
    forall i | 0 <= i < |part| ensures part[i].nextAttemptAt <= now + Backoff(part[i].attempts) {
      var x := part[i];
      assert x in part;
      var k :| 0 <= k < |q| && q[k] == x;
    }
  }

  lemma EnqueueWaits(l: Ledger, e: Event, now: int)
    requires Conserves(l) && Waits(l.queue, now) && 0 <= now
    ensures Waits(Next(l, Enqueue(e)).queue, now)
  {
    var kept, added := Coalesced(l.queue, e), Queued(e, l.next, 0, 0);
    CoalescedKeeps(l.queue, e);
    WaitsFor(kept, l.queue, now);
    assert Pow2(0) == 1;
    assert Waits(kept + [added], now);
    ExtendedQueue(l, e);
    TrimmedKeeps(kept + [added]);
    WaitsFor(Trimmed(kept + [added]), kept + [added], now);
  }

  lemma RetryWaits(q: seq<Queued>, failed: set<string>, clock: nat -> int, now: int)
    requires Waits(q, now) && Ticks(clock, now) && |q| <= CAPACITY
    ensures var r := Retried(q, failed, clock);
            && Waits(r, clock(CAPACITY))
            && forall i :: 0 <= i < |q| ==> q[i].nextAttemptAt <= r[i].nextAttemptAt
  {
    var r := Retried(q, failed, clock);
    forall i | 0 <= i < |q|
      ensures r[i].nextAttemptAt <= clock(CAPACITY) + Backoff(r[i].attempts)
      ensures q[i].nextAttemptAt <= r[i].nextAttemptAt
    {
      BackoffGrowsToCap(q[i].attempts, q[i].attempts + 1);
      assert clock(0) <= clock(i) <= clock(CAPACITY);
    }
  }

  lemma NextWaits(l: Ledger, m: Move, now: int)
    requires Conserves(l) && Waits(l.queue, now) && 0 <= now && TimeFits(now, m)
    ensures Waits(Next(l, m).queue, TimeAfter(now, m)) && now <= TimeAfter(now, m)
  {
    match m
    case Enqueue(e) => EnqueueWaits(l, e, now);
    case BeginFlush(_) =>
    case Delivered(_, accepted) =>
      AcknowledgedKeeps(l.queue, accepted);
      WaitsFor(Acknowledged(l.queue, accepted), l.queue, now);
    case NotDelivered(f, clock) =>
      assert clock(0) <= clock(CAPACITY);
      if f < |l.inFlight| {
        RetryWaits(l.queue, Ids(l.inFlight[f]), clock, now);
      }
  }

  /** An event that is still there is not due any sooner than it was. */
  predicate NoSooner(q: seq<Queued>, later: seq<Queued>) {
    forall x <- q, y <- later :: x.sequence == y.sequence ==> x.nextAttemptAt <= y.nextAttemptAt
  }

  lemma SameSequenceSameEntry(q: seq<Queued>, x: Queued, y: Queued)
    requires Sorted(q) && x in q && y in q && x.sequence == y.sequence
    ensures x == y
  {}

  lemma RetryNoSooner(l: Ledger, failed: set<string>, clock: nat -> int, now: int)
    requires Conserves(l) && Waits(l.queue, now) && Ticks(clock, now)
    ensures NoSooner(l.queue, Retried(l.queue, failed, clock))
  {
    var q, r := l.queue, Retried(l.queue, failed, clock);
    RetryWaits(q, failed, clock, now);
    forall x <- q, y <- r | x.sequence == y.sequence ensures x.nextAttemptAt <= y.nextAttemptAt {
      var i :| 0 <= i < |r| && r[i] == y;
      assert q[i] in q && q[i].sequence == y.sequence;
      SameSequenceSameEntry(q, x, q[i]);
    }
  }

  lemma NextNoSooner(l: Ledger, m: Move, now: int)
    requires Conserves(l) && Waits(l.queue, now) && TimeFits(now, m)
    ensures NoSooner(l.queue, Next(l, m).queue)
  {
    var q, r := l.queue, Next(l, m).queue;
    if m.NotDelivered? {
      if m.flush < |l.inFlight| {
        RetryNoSooner(l, Ids(l.inFlight[m.flush]), m.clock, now);
      } else {
        NoSoonerThanItself(q);
      }
    } else {
      forall x <- q, y <- r | x.sequence == y.sequence ensures x.nextAttemptAt <= y.nextAttemptAt {
        StaysOrIsNew(l, m, y);
        SameSequenceSameEntry(q, x, y);
      }
    }
  }

  lemma NoSoonerThanItself(q: seq<Queued>)
    requires Sorted(q)
    ensures NoSooner(q, q)
  {
    forall x <- q, y <- q | x.sequence == y.sequence ensures x.nextAttemptAt <= y.nextAttemptAt {
      SameSequenceSameEntry(q, x, y);
    }
  }

  lemma StaysOrIsNew(l: Ledger, m: Move, y: Queued)
    requires Conserves(l) && !m.NotDelivered? && y in Next(l, m).queue
    ensures y in l.queue || y.sequence == l.next
  {
    match m
    case Enqueue(e) =>
      ExtendedQueue(l, e);
      CoalescedKeeps(l.queue, e);
      TrimmedKeeps(Coalesced(l.queue, e) + [Queued(e, l.next, 0, 0)]);
    case BeginFlush(_) =>
    case Delivered(_, accepted) => AcknowledgedKeeps(l.queue, accepted);
  }

  /** A number that left the queue does not come back. */
  lemma {:induction false} GoneStaysGone(l: Ledger, moves: seq<Move>, n: nat)
    requires Conserves(l) && n < l.next && n !in Sequences(l.queue)
    ensures n !in Sequences(Run(l, moves).queue)
    decreases |moves|
  {
    if moves != [] {
      var t := Next(l, moves[0]);
      NextConserves(l, moves[0]);
      if n in Sequences(t.queue) {
        ComesFrom(l, moves[0], n);
      }
      GoneStaysGone(t, moves[1..], n);
    }
  }

  lemma ComesFrom(l: Ledger, m: Move, n: nat)
    requires Conserves(l) && n < l.next && n in Sequences(Next(l, m).queue)
    ensures n in Sequences(l.queue)
  {
    if m.NotDelivered? {
      if m.flush < |l.inFlight| {
        RetriedKeeps(l.queue, Ids(l.inFlight[m.flush]), m.clock);
      }
    } else {
      var y :| y in Next(l, m).queue && y.sequence == n;
      StaysOrIsNew(l, m, y);
    }
  }

  lemma {:induction false} RunNoSooner(l: Ledger, moves: seq<Move>, now: int, x: Queued, y: Queued)
    requires Conserves(l) && Waits(l.queue, now) && 0 <= now && Timed(now, moves)
    requires x in l.queue && y in Run(l, moves).queue && x.sequence == y.sequence
    ensures x.nextAttemptAt <= y.nextAttemptAt
    decreases |moves|
  {
    if moves == [] {
      SameSequenceSameEntry(l.queue, x, y);
    } else {
      var t := Next(l, moves[0]);
      NextConserves(l, moves[0]);
      NextWaits(l, moves[0], now);
      NextNoSooner(l, moves[0], now);
      assert y.sequence in Sequences(Run(l, moves).queue);
      if x.sequence !in Sequences(t.queue) {
        GoneStaysGone(t, moves[1..], x.sequence);
      }
      var z :| z in t.queue && z.sequence == x.sequence;
      RunNoSooner(t, moves[1..], TimeAfter(now, moves[0]), z, y);
    }
  }

  lemma {:induction false} RunWaits(l: Ledger, moves: seq<Move>, now: int) returns (end: int)
    requires Conserves(l) && Waits(l.queue, now) && 0 <= now && Timed(now, moves)
    ensures Conserves(Run(l, moves)) && Waits(Run(l, moves).queue, end) && 0 <= end
    ensures forall more :: Timed(now, moves + more) ==> Timed(end, more)
    decreases |moves|
  {
    if moves == [] {
      end := now;
      assert forall more: seq<Move> :: moves + more == more;
    } else {
      NextConserves(l, moves[0]);
      NextWaits(l, moves[0], now);
      end := RunWaits(Next(l, moves[0]), moves[1..], TimeAfter(now, moves[0]));
      assert forall more: seq<Move> :: (moves + more)[1..] == moves[1..] + more;
    }
  }

  lemma TimedPrefix(now: int, moves: seq<Move>, more: seq<Move>)
    requires Timed(now, moves + more)
    ensures Timed(now, moves)
    decreases |moves|
  {
    if moves != [] {
      assert (moves + more)[1..] == moves[1..] + more;
      TimedPrefix(TimeAfter(now, moves[0]), moves[1..], more);
    }
  }

  /**
   Over every run with a clock that does not run backwards: an event of a batch that could not be delivered is in no
   later batch before its back-off has passed, whatever was enqueued, delivered or failed in between.
   */
  lemma FailedEventsWait(before: seq<Move>, f: nat, clock: nat -> int, after: seq<Move>, later: int, x: Queued,
                         y: Queued)
    requires Timed(0, before + ([NotDelivered(f, clock)] + after))
    requires var l := Run(EMPTY, before); f < |l.inFlight| && x in l.queue && x.event.id in Ids(l.inFlight[f])
    requires y in FirstBatch(Run(Next(Run(EMPTY, before), NotDelivered(f, clock)), after).queue, later)
    requires y.sequence == x.sequence
    ensures clock(0) + Backoff(x.attempts + 1) <= later
  {
    var l, m := Run(EMPTY, before), NotDelivered(f, clock);
    assert forall k: nat :: Places(EMPTY, k) == 0;
    TimedPrefix(0, before, [m] + after);
    var end := RunWaits(EMPTY, before, 0);
    assert Timed(end, [m] + after) && ([m] + after)[1..] == after;
    NextConserves(l, m);
    NextWaits(l, m, end);
    var i :| 0 <= i < |l.queue| && l.queue[i] == x;
    var z := Next(l, m).queue[i];
    assert z == Postponed(x, clock(i)) && clock(0) <= clock(i);
    BatchHolds(Run(Next(l, m), after).queue, later, y);
    RunNoSooner(Next(l, m), after, TimeAfter(end, m), z, y);
  }

  lemma BatchHolds(q: seq<Queued>, now: int, y: Queued)
    requires y in FirstBatch(q, now)
    ensures y in q && y.nextAttemptAt <= now
  {
    DueKeeps(q, now);
    var due, batch := Due(q, now), FirstBatch(q, now);
    var i :| 0 <= i < |batch| && batch[i] == y;
    assert due[i] == y && y in due;
  }

  // ------------------------------------------------------------------------------------------ by the fields

  /** A later reading of the same metric of the same resource. */
  predicate Supersedes(e: Event, older: Event) {
    && e.kind == ResourceMetric && older.kind == ResourceMetric
    && e.resourceId == older.resourceId && e.metricName == older.metricName
  }

  /**
   In every run, what an enqueue supersedes are exactly the queued readings of the same metric of the same resource; an
   event of another kind supersedes nothing.
   */
  lemma SupersededExactly(moves: seq<Move>, e: Event, n: nat)
    ensures var l := Run(EMPTY, moves);
            n in Next(l, Enqueue(e)).superseded <==>
              n in l.superseded || exists x <- l.queue :: x.sequence == n && Supersedes(e, x.event)
  {
    assert forall k: nat :: Places(EMPTY, k) == 0;
    RunConserves(EMPTY, moves);
    SupersededOnce(Run(EMPTY, moves), e, n);
  }

  lemma SupersededOnce(l: Ledger, e: Event, n: nat)
    requires Conserves(l)
    ensures n in Sequences(l.queue) - Sequences(Coalesced(l.queue, e)) <==>
            exists x <- l.queue :: x.sequence == n && Supersedes(e, x.event)
  {
    var q, kept := l.queue, Coalesced(l.queue, e);
    CoalescedKeeps(q, e);
    if n in Sequences(q) && n !in Sequences(kept) {
      var x :| x in q && x.sequence == n;
      assert x !in kept;
      assert x.sequence == n && Supersedes(e, x.event);
    }
    if exists x <- q :: x.sequence == n && Supersedes(e, x.event) {
      var x :| x in q && x.sequence == n && Supersedes(e, x.event);
      assert n in Sequences(q) && x !in kept;
      NotKept(q, kept, x);
    }
  }

  lemma NotKept(q: seq<Queued>, kept: seq<Queued>, x: Queued)
    requires Sorted(q) && x in q && x !in kept && forall y <- kept :: y in q
    ensures x.sequence !in Sequences(kept)
  {
    forall y <- kept ensures y.sequence != x.sequence {
      if y.sequence == x.sequence {
        SameSequenceSameEntry(q, y, x);
      }
    }
  }

  /** A new event carries the next number, has not been tried, and is due at once; it stands behind all others. */
  lemma NewEventIsDue(l: Ledger, e: Event, x: Queued, now: int)
    requires Conserves(l) && 0 <= now && x in Next(l, Enqueue(e)).queue && x !in l.queue
    ensures x.event == e && x.sequence == l.next && x.attempts == 0 && x.nextAttemptAt <= now
    ensures forall y <- Next(l, Enqueue(e)).queue :: y == x || y.sequence < x.sequence
  {
    var extended := Coalesced(l.queue, e) + [Queued(e, l.next, 0, 0)];
    CoalescedKeeps(l.queue, e);
    ExtendedQueue(l, e);
    TrimmedKeeps(extended);
    forall y <- Next(l, Enqueue(e)).queue ensures y == Queued(e, l.next, 0, 0) || y in l.queue {
      assert y in extended;
    }
  }

  /** A failure postpones exactly the events of its batch: one attempt more, and half a second doubled with each. */
  lemma RetriedExactly(q: seq<Queued>, failed: set<string>, clock: nat -> int, i: nat)
    requires i < |q|
    ensures var x, y := q[i], Retried(q, failed, clock)[i];
            && y.event == x.event && y.sequence == x.sequence
            && (x.event.id !in failed ==> y == x)
            && (x.event.id in failed ==> y.attempts == x.attempts + 1 && y.nextAttemptAt == clock(i) + Wait(y.attempts))
  {
    var r := Retried(q, failed, clock);
    assert r[i] == if q[i].event.id in failed then Postponed(q[i], clock(i)) else q[i];
    WaitIsBackoff(q[i].attempts + 1);
  }

  /** 1, 2, 4, 8 and 16 s after the first five failures, then 30 s. */
  function Wait(attempts: nat): int {
    match attempts
    case 0 => 500
    case 1 => 1000
    case 2 => 2000
    case 3 => 4000
    case 4 => 8000
    case 5 => 16000
    case _ => 30000
  }

  lemma WaitIsBackoff(attempts: nat)
    ensures Backoff(attempts) == Wait(attempts)
  {
    assert Pow2(0) == 1 && Pow2(1) == 2 && Pow2(2) == 4 && Pow2(3) == 8;
    assert Pow2(4) == 16 && Pow2(5) == 32 && Pow2(6) == 64;
  }

  // ------------------------------------------------------------------------------------------ as an object

  /** The `pendingTelemetryEvents` and `nextTelemetrySequence` of the stored document. */
  class Outbox {
    var pending: seq<Queued>
    var next: nat

    constructor ()
      ensures pending == [] && next == 1
    {
      pending, next := [], 1;
    }

    /** `#enqueue`: number the event, drop the readings it supersedes, append it, and trim to capacity. */
    method Enqueue(e: Event)
      modifies this
      ensures pending == Enqueued(old(pending), e, old(next)) && next == old(next) + 1
    {
      var complete := Queued(e, next, 0, 0);
      next := next + 1;
      var kept: seq<Queued> := [];
      for i := 0 to |pending|
        invariant kept == Coalesced(pending[..i], e)
      {
        assert pending[..i + 1][..i] == pending[..i];
        if !SameMetric(pending[i].event, e) {
          kept := kept + [pending[i]];
        }
      }
      assert pending[..|pending|] == pending;
      pending := kept + [complete];
      while |pending| > CAPACITY
        invariant next == old(next) + 1
        invariant Trimmed(pending) == Enqueued(old(pending), e, old(next))
      {
        var v := FindVictim();
        pending := pending[..v] + pending[v + 1..];
      }
    }

    /** `findIndex` of the first metric, or 0. */
    method FindVictim() returns (v: nat)
      requires pending != []
      ensures v == Victim(pending)
    {
      v := 0;
      while v < |pending| && !pending[v].event.kind.ResourceMetric?
        invariant v <= |pending|
        invariant forall k :: 0 <= k < v ==> !pending[k].event.kind.ResourceMetric?
        invariant FirstMetric(pending, 0) == FirstMetric(pending, v)
      {
        v := v + 1;
      }
      if v == |pending| {
        v := 0;
      }
    }

    /** The synchronous start of `flush`. */
    method BeginFlush(now: int) returns (batch: seq<Queued>)
      ensures batch == FirstBatch(pending, now)
    {
      var due: seq<Queued> := [];
      for i := 0 to |pending|
        invariant due == Due(pending[..i], now)
      {
        assert pending[..i + 1][..i] == pending[..i];
        if pending[i].nextAttemptAt <= now {
          due := due + [pending[i]];
        }
      }
      assert pending[..|pending|] == pending;
      batch := if |due| <= BATCH then due else due[..BATCH];
    }

    /** `flush` after the receiver answered: the acknowledged ids leave the queue as it is now. */
    method Settle(accepted: set<string>)
      modifies this`pending
      ensures pending == Acknowledged(old(pending), accepted)
    {
      var kept: seq<Queued> := [];
      for i := 0 to |pending|
        invariant kept == Acknowledged(pending[..i], accepted)
      {
        assert pending[..i + 1][..i] == pending[..i];
        if pending[i].event.id !in accepted {
          kept := kept + [pending[i]];
        }
      }
      assert pending[..|pending|] == pending;
      pending := kept;
    }

    /** `flush` after the call failed: every queued event of the batch waits longer. */
    method Retry(batch: seq<Queued>, clock: nat -> int)
      modifies this`pending
      ensures pending == Retried(old(pending), Ids(batch), clock)
    {
      for i := 0 to |pending|
        invariant |pending| == |old(pending)|
        invariant forall k :: 0 <= k < i ==> pending[k] == Retried(old(pending), Ids(batch), clock)[k]
        invariant forall k :: i <= k < |pending| ==> pending[k] == old(pending)[k]
      {
        if pending[i].event.id in Ids(batch) {
          pending := pending[i := Postponed(pending[i], clock(i))];
        }
      }
    }
  }
}
