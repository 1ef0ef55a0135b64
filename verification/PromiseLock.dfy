/**
 The promise-chain locks of the two providers: `#withTaskLock` (apps/home-assistant-climate-provider/src/
 execution.ts:514-529), which keeps one tail promise per task and forgets it after the last holder, and
 `#serializeMutation` (apps/npc-tank-provider-adapter/src/runtime.ts:1007-1014), which keeps a single tail
 forever. A caller chains itself behind the tail it finds, becomes the tail, and runs once that chain settled;
 it settles its own link whether its action returned or threw.
 */
module PromiseLock {
  import opened Wrappers

  datatype Phase = Waiting | Running | Released

  /** One call: its lock key and the caller whose tail promise it found, if any. */
  datatype Ticket = Ticket(key: string, previous: Option<nat>, phase: Phase)

  /** Callers in order of arrival, and the map from keys to the caller that queued last. */
  datatype Lock = Lock(tickets: seq<Ticket>, tails: map<string, nat>)

  const IDLE := Lock([], map[])

  /** Every ticket chains behind an earlier one. */
  predicate WellLinked(tickets: seq<Ticket>) {
    forall i :: 0 <= i < |tickets| && tickets[i].previous.Some? ==> tickets[i].previous.value < i
  }

  /** The promise `previous.then(() => current)` of ticket `i` is settled. */
  predicate Settled(tickets: seq<Ticket>, i: nat)
    requires i < |tickets| && WellLinked(tickets)
    decreases i
  {
    && tickets[i].phase.Released?
    && (tickets[i].previous.Some? ==> Settled(tickets, tickets[i].previous.value))
  }

  predicate MayEnter(l: Lock, i: nat)
    requires WellLinked(l.tickets)
  {
    && i < |l.tickets|
    && l.tickets[i].phase.Waiting?
    && (l.tickets[i].previous.Some? ==> Settled(l.tickets, l.tickets[i].previous.value))
  }

  datatype Move =
    | Arrive(key: string)
    | Enter(ticket: nat)
    | Leave(ticket: nat)

  function Arriving(l: Lock, key: string): Lock {
    Lock(l.tickets + [Ticket(key, if key in l.tails then Some(l.tails[key]) else None, Waiting)],
         l.tails[key := |l.tickets|])
  }

  function WithPhase(l: Lock, i: nat, phase: Phase): Lock
    requires i < |l.tickets|
  {
    l.(tickets := l.tickets[i := l.tickets[i].(phase := phase)])
  }

  /** `forgets` tells the lock map, which drops a tail nobody chained behind, from the mutation tail. */
  function Leaving(l: Lock, i: nat, forgets: bool): Lock
    requires i < |l.tickets|
  {
    var key := l.tickets[i].key;
    var released := WithPhase(l, i, Released);
    if forgets && key in l.tails && l.tails[key] == i then released.(tails := released.tails - {key}) else released
  }

  function Next(l: Lock, m: Move, forgets: bool): Lock
    requires WellLinked(l.tickets)
  {
    match m
    case Arrive(key) => Arriving(l, key)
    case Enter(i) => if MayEnter(l, i) then WithPhase(l, i, Running) else l
    case Leave(i) => if i < |l.tickets| && l.tickets[i].phase.Running? then Leaving(l, i, forgets) else l
  }

  // --------------------------------------------------------------------------------------- the invariant

  /** `j` is the last ticket of its key among the first `n`. */
  ghost predicate IsLastOf(tickets: seq<Ticket>, j: nat, n: nat, key: string) {
    && j < n <= |tickets| && tickets[j].key == key
    && forall k :: j < k < n ==> tickets[k].key != key
  }

  /** Ticket `i` chains behind the ticket of its key that arrived just before it, unless that one is long gone. */
  ghost predicate ChainsBehindLast(tickets: seq<Ticket>, i: nat)
    requires i < |tickets|
  {
    match tickets[i].previous
    case Some(p) => p < i && IsLastOf(tickets, p, i, tickets[i].key)
    case None => forall k :: 0 <= k < i && tickets[k].key == tickets[i].key ==> tickets[k].phase.Released?
  }

  /** First come, first served: a ticket moves only after every earlier ticket of its key was released. */
  ghost predicate ServedInOrder(tickets: seq<Ticket>) {
    forall i, j :: 0 <= i < j < |tickets| && tickets[i].key == tickets[j].key && !tickets[j].phase.Waiting? ==>
      tickets[i].phase.Released?
  }

  ghost predicate TailIsLast(l: Lock, key: string) {
    if key in l.tails then IsLastOf(l.tickets, l.tails[key], |l.tickets|, key)
    else forall k :: 0 <= k < |l.tickets| && l.tickets[k].key == key ==> l.tickets[k].phase.Released?
  }

  ghost predicate Fair(l: Lock) {
    && WellLinked(l.tickets)
    && (forall i :: 0 <= i < |l.tickets| ==> ChainsBehindLast(l.tickets, i))
    && ServedInOrder(l.tickets)
    && (forall key :: TailIsLast(l, key))
  }

  /** Settling a ticket means that it and every earlier ticket of its key are released. */
  lemma {:induction false} SettledReachesBack(tickets: seq<Ticket>, i: nat, k: nat)
    requires WellLinked(tickets) && i < |tickets| && Settled(tickets, i)
    requires forall n :: 0 <= n < |tickets| ==> ChainsBehindLast(tickets, n)
    requires k <= i && tickets[k].key == tickets[i].key
    ensures tickets[k].phase.Released?
    decreases i
  {
    assert ChainsBehindLast(tickets, i);
    if k < i && tickets[i].previous.Some? {
      var p := tickets[i].previous.value;
      assert k <= p;
      SettledReachesBack(tickets, p, k);
    }
  }

  /** Conversely a ticket is settled as soon as it and all earlier tickets of its key are released. */
  lemma {:induction false} ReleasedIsSettled(tickets: seq<Ticket>, i: nat)
    requires WellLinked(tickets) && i < |tickets|
    requires forall n :: 0 <= n < |tickets| ==> ChainsBehindLast(tickets, n)
    requires forall k :: 0 <= k <= i && tickets[k].key == tickets[i].key ==> tickets[k].phase.Released?
    ensures Settled(tickets, i)
    decreases i
  {
    assert ChainsBehindLast(tickets, i);
    if tickets[i].previous.Some? {
      ReleasedIsSettled(tickets, tickets[i].previous.value);
    }
  }

  lemma ArrivingIsFair(l: Lock, key: string)
    requires Fair(l)
    ensures Fair(Arriving(l, key))
  {
    var t := Arriving(l, key);
    assert TailIsLast(l, key);
    forall i | 0 <= i < |t.tickets| ensures ChainsBehindLast(t.tickets, i) {
      if i < |l.tickets| {
        assert ChainsBehindLast(l.tickets, i);
      }
    }
    forall other ensures TailIsLast(t, other) {
      assert TailIsLast(l, other);
    }
  }

  /** Only the phase of one ticket changes, away from Waiting in order, or to Released. */
  lemma PhaseChangeIsFair(l: Lock, i: nat, phase: Phase)
    requires Fair(l) && i < |l.tickets|
    requires l.tickets[i].phase.Released? ==> phase.Released?
    requires !phase.Waiting?
    requires forall k :: 0 <= k < i && l.tickets[k].key == l.tickets[i].key ==> l.tickets[k].phase.Released?
    ensures Fair(WithPhase(l, i, phase))
  {
    var t := WithPhase(l, i, phase);
    forall n | 0 <= n < |t.tickets| ensures ChainsBehindLast(t.tickets, n) {
      assert ChainsBehindLast(l.tickets, n);
    }
    forall key ensures TailIsLast(t, key) {
      assert TailIsLast(l, key);
    }
  }

  lemma LeavingIsFair(l: Lock, i: nat, forgets: bool)
    requires Fair(l) && i < |l.tickets| && l.tickets[i].phase.Running?
    ensures Fair(Leaving(l, i, forgets))
  {
    PhaseChangeIsFair(l, i, Released);
    var released := WithPhase(l, i, Released);
    var t := Leaving(l, i, forgets);
    forall key ensures TailIsLast(t, key) {
      assert TailIsLast(released, key);
    }
  }

  lemma NextIsFair(l: Lock, m: Move, forgets: bool)
    requires Fair(l)
    ensures Fair(Next(l, m, forgets))
  {
    match m
    case Arrive(key) => ArrivingIsFair(l, key);
    case Enter(i) =>
      if MayEnter(l, i) {
        assert ChainsBehindLast(l.tickets, i);
        forall k | 0 <= k < i && l.tickets[k].key == l.tickets[i].key ensures l.tickets[k].phase.Released? {
          if l.tickets[i].previous.Some? {
            SettledReachesBack(l.tickets, l.tickets[i].previous.value, k);
          }
        }
        PhaseChangeIsFair(l, i, Running);
      }
    case Leave(i) =>
      if i < |l.tickets| && l.tickets[i].phase.Running? {
        LeavingIsFair(l, i, forgets);
      }
  }

  /** The lock after a run of arrivals, entries and departures. */
  ghost predicate Reaches(l: Lock, moves: seq<Move>, forgets: bool, t: Lock)
    decreases |moves|
  {
    if moves == [] then l == t
    else WellLinked(l.tickets) && Reaches(Next(l, moves[0], forgets), moves[1..], forgets, t)
  }

  lemma {:induction false} RunIsFair(l: Lock, moves: seq<Move>, forgets: bool, t: Lock)
    requires Fair(l) && Reaches(l, moves, forgets, t)
    ensures Fair(t)
    decreases |moves|
  {
    if moves != [] {
      NextIsFair(l, moves[0], forgets);
      RunIsFair(Next(l, moves[0], forgets), moves[1..], forgets, t);
    }
  }

  // --------------------------------------------------------------------------------------- main results

  /**
   In every run of either lock: two calls with the same key never run at the same time, and a call runs only
   after every earlier call with that key was released.
   */
  lemma MutualExclusionInOrder(moves: seq<Move>, forgets: bool, l: Lock, i: nat, j: nat)
    requires Reaches(IDLE, moves, forgets, l)
    requires i < j < |l.tickets| && l.tickets[i].key == l.tickets[j].key
    ensures l.tickets[j].phase.Running? || l.tickets[j].phase.Released? ==> l.tickets[i].phase.Released?
    ensures !(l.tickets[i].phase.Running? && l.tickets[j].phase.Running?)
  {
    RunIsFair(IDLE, moves, forgets, l);
  }

  /** No lost wake-up: while some call waits and none with its key runs, the first of them may enter. */
  lemma FirstWaitingMayEnter(moves: seq<Move>, forgets: bool, l: Lock, i: nat)
    requires Reaches(IDLE, moves, forgets, l)
    requires i < |l.tickets| && l.tickets[i].phase.Waiting?
    requires forall k :: 0 <= k < i && l.tickets[k].key == l.tickets[i].key ==> l.tickets[k].phase.Released?
    ensures WellLinked(l.tickets) && MayEnter(l, i)
  {
    RunIsFair(IDLE, moves, forgets, l);
    assert ChainsBehindLast(l.tickets, i);
    if l.tickets[i].previous.Some? {
      ReleasedIsSettled(l.tickets, l.tickets[i].previous.value);
    }
  }

  /** With forgetting, every tail belongs to a ticket that is not released yet. */
  ghost predicate TailsAreLive(l: Lock) {
    forall key <- l.tails :: l.tails[key] < |l.tickets| && !l.tickets[l.tails[key]].phase.Released?
  }

  lemma NextKeepsTailsLive(l: Lock, m: Move)
    requires Fair(l) && TailsAreLive(l)
    ensures TailsAreLive(Next(l, m, true))
  {
    var t := Next(l, m, true);
    forall key <- t.tails ensures t.tails[key] < |t.tickets| && !t.tickets[t.tails[key]].phase.Released? {
      if key in l.tails {
        assert TailIsLast(l, key);
        assert t.tails[key] == l.tails[key] || t.tails[key] == |l.tickets|;
      }
    }
  }

  lemma {:induction false} RunKeepsTailsLive(l: Lock, moves: seq<Move>, t: Lock)
    requires Fair(l) && TailsAreLive(l) && Reaches(l, moves, true, t)
    ensures TailsAreLive(t)
    decreases |moves|
  {
    if moves != [] {
      NextIsFair(l, moves[0], true);
      NextKeepsTailsLive(l, moves[0]);
      RunKeepsTailsLive(Next(l, moves[0], true), moves[1..], t);
    }
  }

  /** The lock map holds an entry for a key exactly while some call with that key runs or waits. */
  lemma EntryExactlyWhileInUse(moves: seq<Move>, l: Lock, key: string)
    requires Reaches(IDLE, moves, true, l)
    ensures key in l.tails <==>
            exists i :: 0 <= i < |l.tickets| && l.tickets[i].key == key && !l.tickets[i].phase.Released?
  {
    RunIsFair(IDLE, moves, true, l);
    RunKeepsTailsLive(IDLE, moves, l);
    assert TailIsLast(l, key);
    if key in l.tails {
      assert l.tickets[l.tails[key]].key == key;
    }
  }

  // --------------------------------------------------------------------------------------- as an object

  /** `#taskLocks` as the engine holds it: each method is the synchronous part of `#withTaskLock`. */
  class TaskLocks {
    var lock: Lock

    ghost predicate Valid()
      reads this
    {
      Fair(lock) && TailsAreLive(lock)
    }

    constructor ()
      ensures Valid() && lock == IDLE
    {
      lock := IDLE;
    }

    /** Chain behind the current tail of `key` and become the tail. */
    method Acquire(key: string) returns (ticket: nat)
      requires Valid()
      modifies this
      ensures Valid()
      ensures lock == Arriving(old(lock), key) && ticket == |old(lock).tickets|
    {
      NextIsFair(lock, Arrive(key), true);
      NextKeepsTailsLive(lock, Arrive(key));
      ticket := |lock.tickets|;
      var previous := if key in lock.tails then Some(lock.tails[key]) else None;
      lock := Lock(lock.tickets + [Ticket(key, previous, Waiting)], lock.tails[key := ticket]);
    }

    /** The awaited chain has settled: the action starts, and nobody else with the key is running. */
    method Start(ticket: nat)
      requires Valid() && MayEnter(lock, ticket)
      modifies this
      ensures Valid() && lock == WithPhase(old(lock), ticket, Running)
      ensures forall other | 0 <= other < |lock.tickets| && lock.tickets[other].key == lock.tickets[ticket].key ::
                lock.tickets[other].phase.Running? ==> other == ticket
    {
      NextIsFair(lock, Enter(ticket), true);
      NextKeepsTailsLive(lock, Enter(ticket));
      lock := lock.(tickets := lock.tickets[ticket := lock.tickets[ticket].(phase := Running)]);
    }

    /** The `finally` block: settle the own link and drop the map entry if it is still the tail. */
    method Release(ticket: nat)
      requires Valid() && ticket < |lock.tickets| && lock.tickets[ticket].phase.Running?
      modifies this
      ensures Valid() && lock == Leaving(old(lock), ticket, true)
      ensures var key := lock.tickets[ticket].key;
              key in lock.tails <==> exists i :: ticket < i < |lock.tickets| && lock.tickets[i].key == key
    {
      NextIsFair(lock, Leave(ticket), true);
      NextKeepsTailsLive(lock, Leave(ticket));
      ghost var before := lock;
      var key := lock.tickets[ticket].key;
      assert TailIsLast(before, key);
      lock := lock.(tickets := lock.tickets[ticket := lock.tickets[ticket].(phase := Released)]);
      if key in lock.tails && lock.tails[key] == ticket {
        lock := lock.(tails := lock.tails - {key});
      }
    }
  }
}
