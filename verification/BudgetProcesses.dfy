/**
 Any number of processes reserving from one budget document (scripts/real-device-side-effect-budget.ts:48-128), step by
 step: a lock file created with `wx`, a read, a write to a temporary file of the process, a rename, and the removal of
 the lock. A process may fail at or crash before each step; a crash leaves the lock file behind.
 */
module BudgetProcesses {
  import opened Wrappers
  import opened SideEffectBudget

  datatype Pc =
    | Outside
    | Holding(q: Request)
    | Writing(q: Request, next: Document, grant: Grant)
    | Renaming(q: Request, next: Document, grant: Grant)
    | Leaving(q: Request, result: Result<Grant, Denial>)

  datatype Step =
    | Open(q: Request)
    | Load
    | LoadFails
    | Write
    | WriteFails
    | Rename
    | RenameFails
    | Unlink
    | UnlinkFails
    | Crash

  /** `ClearStaleLock` is someone deleting the lock file of a process that is gone. */
  datatype Event = By(process: nat, step: Step) | ClearStaleLock

  /** The file, the requests granted so far and those whose callers were told, as one process sees them. */
  datatype Desk = Desk(file: File, temporary: File, pc: Pc, log: seq<Request>, told: seq<Request>)

  predicate Fresh(r: Result<Grant, Denial>) {
    r.Ok? && !r.value.alreadyReserved
  }

  function Loaded(d: Desk, q: Request): Pc {
    match Decide(d.file, q)
    case Refused(denial) => Leaving(q, Err(denial))
    case Repeated(grant) => Leaving(q, Ok(grant))
    case Fresh(next, grant) => Writing(q, next, grant)
  }

  /** What a process that holds the lock does; a call that throws leaves a trace only in its temporary file. */
  function Act(d: Desk, step: Step): Desk {
    match d.pc
    case Outside => d
    case Holding(q) =>
      if step.Load? then d.(pc := Loaded(d, q))
      else if step.LoadFails? then d.(pc := Leaving(q, Err(FileInvalid)))
      else d
    case Writing(q, next, grant) =>
      if step.Write? then d.(temporary := Holds(next), pc := Renaming(q, next, grant))
      else if step.WriteFails? then d.(temporary := Unreadable, pc := Leaving(q, Err(IoFailed)))
      else d
    case Renaming(q, _, grant) =>
      if step.Rename? then d.(file := d.temporary, temporary := Absent, log := d.log + [q], pc := Leaving(q, Ok(grant)))
      else if step.RenameFails? then d.(pc := Leaving(q, Err(IoFailed)))
      else d
    case Leaving(q, r) =>
      if step.Unlink? then d.(told := if Fresh(r) then d.told + [q] else d.told, pc := Outside)
      else if step.UnlinkFails? then d.(pc := Outside)
      else d
  }

  /**
   `owner` is the live process that created the lock file; `log` lists the requests in the order their documents were
   renamed into place, and `told` those whose callers were told so.
   */
  datatype State = State(
    file: File,
    lockFile: bool,
    owner: Option<nat>,
    temporaries: map<nat, File>,
    pcs: map<nat, Pc>,
    log: seq<Request>,
    told: seq<Request>)

  function Start(f: File): State {
    State(f, false, None, map[], map[], [], [])
  }

  function At(s: State, p: nat): Pc {
    if p in s.pcs then s.pcs[p] else Outside
  }

  function DeskOf(s: State, p: nat): Desk {
    Desk(s.file, if p in s.temporaries then s.temporaries[p] else Absent, At(s, p), s.log, s.told)
  }

  function WithDesk(s: State, p: nat, d: Desk): State {
    s.(file := d.file, temporaries := s.temporaries[p := d.temporary], pcs := s.pcs[p := d.pc], log := d.log,
       told := d.told)
  }

  /** An invalid request and an existing lock file are refused without touching anything. */
  function Opened(s: State, p: nat, q: Request): State {
    if At(s, p).Outside? && ValidRequest(q) && !s.lockFile
    then s.(pcs := s.pcs[p := Holding(q)], lockFile := true, owner := Some(p))
    else s
  }

  function Next(s: State, p: nat, step: Step): State {
    if step.Open? then Opened(s, p, step.q)
    else if step.Crash? then
      s.(pcs := s.pcs[p := Outside], temporaries := s.temporaries[p := Unreadable],
         owner := if s.owner == Some(p) then None else s.owner)
    else
      var t := WithDesk(s, p, Act(DeskOf(s, p), step));
      if At(s, p).Leaving? && step.Unlink? then t.(lockFile := false, owner := None)
      else if At(s, p).Leaving? && step.UnlinkFails? then t.(owner := None)
      else t
  }

  function After(s: State, e: Event): State {
    match e
    case By(p, step) => Next(s, p, step)
    case ClearStaleLock => if s.owner.None? then s.(lockFile := false) else s
  }

  function Run(s: State, events: seq<Event>): State
    decreases |events|
  {
    if events == [] then s else Run(After(s, events[0]), events[1..])
  }

  // ------------------------------------------------------------------------------------------ one process alone

  /** The document holds a reservation under the request's id, for its scope, resource and kind. */
  predicate IsReserved(d: Document, q: Request) {
    && q.runId in d && q.reservationId in d[q.runId].reservations
    && var r := d[q.runId].reservations[q.reservationId];
       r.reservationId == q.reservationId && r.scope == q.scope && r.resourceId == q.resourceId && r.kind == q.kind
  }

  predicate CountsMatch(f: File, q: Request, g: Grant) {
    && Known(Contents(f), q) && IsReserved(Contents(f), q)
    && g.count == WithKey(Contents(f), q) && g.globalCount == InRun(Contents(f), q.runId)
  }

  predicate PcFits(d: Desk) {
    match d.pc
    case Outside => true
    case Holding(q) => ValidRequest(q)
    case Writing(q, next, grant) => ValidRequest(q) && Decide(d.file, q) == SideEffectBudget.Fresh(next, grant)
    case Renaming(q, next, grant) =>
      ValidRequest(q) && Decide(d.file, q) == SideEffectBudget.Fresh(next, grant) && d.temporary == Holds(next)
    case Leaving(q, r) => r.Ok? ==> CountsMatch(d.file, q, r.value)
  }

  /** The file is the original document with the logged requests granted one after the other. */
  predicate FileFits(file: File, log: seq<Request>, f: File) {
    if Readable(f) then
      && Readable(file) && AllValid(log) && (log == [] ==> file == f)
      && Replay(Contents(f), log) == Some(Contents(file))
    else file == f && log == []
  }

  function Unanswered(pc: Pc): multiset<Request> {
    if pc.Leaving? && Fresh(pc.result) then multiset{pc.q} else multiset{}
  }

  predicate DeskFits(d: Desk, f: File) {
    PcFits(d) && FileFits(d.file, d.log, f) && multiset(d.told) + Unanswered(d.pc) <= multiset(d.log)
  }

  lemma RepeatMatches(f: File, q: Request)
    requires Decide(f, q).Repeated?
    ensures CountsMatch(f, q, Decide(f, q).grant) && Decide(f, q).grant.alreadyReserved
  {}

  lemma LoadKeeps(d: Desk, f: File, q: Request)
    requires DeskFits(d, f) && d.pc == Holding(q)
    ensures DeskFits(d.(pc := Loaded(d, q)), f)
  {
    if Decide(d.file, q).Repeated? {
      RepeatMatches(d.file, q);
    }
  }

  lemma DecideSeesContents(f: File, q: Request)
    requires Readable(f)
    ensures Decide(f, q) == Decide(Holds(Contents(f)), q)
  {}

  lemma ReplayOneMore(d: Document, log: seq<Request>, now: File, q: Request)
    requires Readable(now) && Replay(d, log) == Some(Contents(now)) && Decide(now, q).Fresh?
    ensures Replay(d, log + [q]) == Some(Decide(now, q).next)
  {
    DecideSeesContents(now, q);
    assert (log + [q])[..|log|] == log;
  }

  lemma FileGrows(file: File, log: seq<Request>, f: File, q: Request)
    requires FileFits(file, log, f) && ValidRequest(q) && Decide(file, q).Fresh?
    ensures FileFits(Holds(Decide(file, q).next), log + [q], f)
  {
    FreshGrantFits(file, q);
    ReplayOneMore(Contents(f), log, file, q);
  }

  lemma FreshIsNotRepeated(f: File, q: Request)
    ensures Decide(f, q).Fresh? ==> !Decide(f, q).grant.alreadyReserved
    ensures Decide(f, q).Repeated? ==> Decide(f, q).grant.alreadyReserved
  {}

  lemma FreshCountsMatch(file: File, q: Request)
    requires ValidRequest(q) && Decide(file, q).Fresh?
    ensures var Fresh(next, grant) := Decide(file, q);
            CountsMatch(Holds(next), q, grant) && !grant.alreadyReserved
  {
    FreshGrantFits(file, q);
    FreshIsKnown(file, q);
    FreshIsNotRepeated(file, q);
    assert Contents(Holds(Decide(file, q).next)) == Decide(file, q).next;
  }

  lemma RenameKeeps(d: Desk, f: File)
    requires DeskFits(d, f) && d.pc.Renaming?
    ensures DeskFits(Act(d, Rename), f)
  {
    FileGrows(d.file, d.log, f, d.pc.q);
    FreshCountsMatch(d.file, d.pc.q);
  }

  lemma UnlinkKeeps(d: Desk, f: File)
    requires DeskFits(d, f) && d.pc.Leaving?
    ensures multiset(Act(d, Unlink).told) <= multiset(d.log)
  {
    assert multiset(d.told + [d.pc.q]) == multiset(d.told) + multiset{d.pc.q};
  }

  lemma LeavingKeeps(d: Desk, f: File, step: Step)
    requires DeskFits(d, f) && d.pc.Leaving?
    ensures DeskFits(Act(d, step), f)
  {
    UnlinkKeeps(d, f);
  }

  lemma WritingKeeps(d: Desk, f: File, step: Step)
    requires DeskFits(d, f) && d.pc.Writing?
    ensures DeskFits(Act(d, step), f)
  {}

  lemma FailureKeeps(d: Desk, f: File, step: Step)
    requires DeskFits(d, f) && !step.Load? && !step.Rename? && (d.pc.Holding? || d.pc.Renaming?)
    ensures DeskFits(Act(d, step), f)
  {}

  lemma ActKeeps(d: Desk, f: File, step: Step)
    requires DeskFits(d, f)
    ensures DeskFits(Act(d, step), f)
  {
    if d.pc.Writing? {
      WritingKeeps(d, f, step);
    } else if d.pc.Leaving? {
      LeavingKeeps(d, f, step);
    } else if d.pc.Holding? && step.Load? {
      LoadKeeps(d, f, d.pc.q);
    } else if d.pc.Renaming? && step.Rename? {
      RenameKeeps(d, f);
    } else if !d.pc.Outside? && !step.Load? && !step.Rename? {
      FailureKeeps(d, f, step);
    }
  }

  lemma LogGrows(d: Desk, step: Step)
    ensures d.log <= Act(d, step).log
  {}

  // ------------------------------------------------------------------------------------------ all processes

  /** At most one process is inside, and it is the owner of the lock file. */
  ghost predicate LockFits(s: State) {
    && (s.owner.Some? ==> s.lockFile)
    && (forall p: nat :: At(s, p).Outside? <==> s.owner != Some(p))
  }

  function Inside(s: State): Desk {
    if s.owner.Some? then DeskOf(s, s.owner.value) else Desk(s.file, Absent, Outside, s.log, s.told)
  }

  ghost predicate Inv(s: State, f: File) {
    LockFits(s) && DeskFits(Inside(s), f)
  }

  lemma OpenKeepsLock(s: State, p: nat, q: Request)
    requires LockFits(s) && !s.lockFile
    ensures LockFits(s.(pcs := s.pcs[p := Holding(q)], lockFile := true, owner := Some(p)))
  {}

  lemma OpenFits(d: Desk, f: File, q: Request, x: File)
    requires DeskFits(d, f) && d.pc.Outside? && ValidRequest(q)
    ensures DeskFits(d.(pc := Holding(q), temporary := x), f)
  {}

  lemma OpenKeeps(s: State, f: File, p: nat, q: Request)
    requires Inv(s, f)
    ensures Inv(Opened(s, p, q), f)
  {
    var t := Opened(s, p, q);
    if t != s {
      OpenKeepsLock(s, p, q);
      OpenFits(Inside(s), f, q, DeskOf(s, p).temporary);
      assert Inside(t) == Inside(s).(pc := Holding(q), temporary := DeskOf(s, p).temporary);
    }
  }

  lemma CrashKeepsLock(s: State, p: nat)
    requires LockFits(s)
    ensures LockFits(Next(s, p, Crash))
  {}

  lemma CrashEmptiesDesk(d: Desk, f: File)
    requires DeskFits(d, f)
    ensures DeskFits(d.(pc := Outside, temporary := Absent), f)
  {}

  lemma CrashKeeps(s: State, f: File, p: nat)
    requires Inv(s, f)
    ensures Inv(Next(s, p, Crash), f)
  {
    CrashKeepsLock(s, p);
    CrashEmptiesDesk(Inside(s), f);
    CrashInside(s, p);
  }

  lemma CrashInside(s: State, p: nat)
    ensures var t := Next(s, p, Crash);
            Inside(t) == if s.owner == Some(p) then Inside(s).(pc := Outside, temporary := Absent) else Inside(s)
  {}

  lemma OutsideRests(s: State, f: File, p: nat, step: Step)
    requires Inv(s, f) && At(s, p).Outside? && !step.Open? && !step.Crash?
    ensures Inv(Next(s, p, step), f) && Next(s, p, step).log == s.log
  {
    var t := Next(s, p, step);
    assert s.owner.Some? ==> Inside(t) == Inside(s);
  }

  lemma OwnerKeepsLock(s: State, p: nat, step: Step)
    requires LockFits(s) && s.owner == Some(p) && !step.Open? && !step.Crash?
    ensures LockFits(Next(s, p, step))
  {
    var t, pc := Next(s, p, step), Act(DeskOf(s, p), step).pc;
    assert pc.Outside? <==> t.owner.None?;
  }

  lemma OutsideNeedsNoTemporary(d: Desk, f: File, x: File)
    requires DeskFits(d, f) && d.pc.Outside?
    ensures DeskFits(d.(temporary := x), f)
  {}

  lemma InsideAfter(s: State, p: nat, step: Step)
    requires s.owner == Some(p) && !step.Open? && !step.Crash?
    ensures var t, d := Next(s, p, step), Act(DeskOf(s, p), step);
            Inside(t) == if t.owner.Some? then d else d.(temporary := Absent, pc := Outside)
  {
    var d := Act(DeskOf(s, p), step);
    assert DeskOf(WithDesk(s, p, d), p) == d;
  }

  lemma OwnerKeeps(s: State, f: File, p: nat, step: Step)
    requires Inv(s, f) && !At(s, p).Outside? && !step.Open? && !step.Crash?
    ensures Inv(Next(s, p, step), f) && s.log <= Next(s, p, step).log
  {
    var d := Act(DeskOf(s, p), step);
    ActKeeps(DeskOf(s, p), f, step);
    LogGrows(DeskOf(s, p), step);
    OwnerKeepsLock(s, p, step);
    InsideAfter(s, p, step);
    if d.pc.Outside? {
      OutsideNeedsNoTemporary(d, f, Absent);
    }
  }

  lemma AfterKeeps(s: State, f: File, e: Event)
    requires Inv(s, f)
    ensures Inv(After(s, e), f) && s.log <= After(s, e).log
  {
    if e.By? {
      if e.step.Open? {
        OpenKeeps(s, f, e.process, e.step.q);
      } else if e.step.Crash? {
        CrashKeeps(s, f, e.process);
      } else if At(s, e.process).Outside? {
        OutsideRests(s, f, e.process, e.step);
      } else {
        OwnerKeeps(s, f, e.process, e.step);
      }
    }
  }

  lemma {:induction false} RunKeeps(s: State, f: File, events: seq<Event>)
    requires Inv(s, f)
    ensures Inv(Run(s, events), f)
    ensures s.log <= Run(s, events).log
    decreases |events|
  {
    if events != [] {
      AfterKeeps(s, f, events[0]);
      RunKeeps(After(s, events[0]), f, events[1..]);
    }
  }

  lemma ReachableFits(f: File, events: seq<Event>)
    ensures Inv(Run(Start(f), events), f)
  {
    RunKeeps(Start(f), f, events);
  }

  // ------------------------------------------------------------------------------------------ guarantees

  /**
   Whatever the processes do, the document is the original one with the granted requests recorded one after the other,
   each as the sequential decision would; nothing is lost or changed. A document `validDocument` rejects stays as it is.
   */
  lemma BudgetIsSequential(f: File, events: seq<Event>)
    ensures var s := Run(Start(f), events);
            if Readable(f) then
              && Readable(s.file) && Grantable(Contents(f), s.log)
              && Replay(Contents(f), s.log) == Some(Contents(s.file)) && Extends(Contents(s.file), Contents(f))
            else s.file == f && s.log == []
  {
    ReachableFits(f, events);
    if Readable(f) {
      ReplayKeeps(Contents(f), Run(Start(f), events).log);
    }
  }

  /** At any time at most one process is between taking the lock and removing it. */
  lemma LockExcludes(f: File, events: seq<Event>, p: nat, q: nat)
    ensures var s := Run(Start(f), events);
            && (!At(s, p).Outside? && !At(s, q).Outside? ==> p == q)
            && (!At(s, p).Outside? ==> s.lockFile)
  {
    ReachableFits(f, events);
  }

  lemma {:induction false} OfRunAdds(a: seq<Request>, b: seq<Request>, r: string)
    ensures OfRun(a + b, r) == OfRun(a, r) + OfRun(b, r)
  {
    if b == [] {
      assert a + b == a;
    } else {
      OfRunAdds(a, b[..|b| - 1], r);
      assert (a + b)[..|a + b| - 1] == a + b[..|b| - 1];
    }
  }

  lemma TakenOut(log: seq<Request>, q: Request, r: string) returns (rest: seq<Request>)
    requires q in log
    ensures multiset(rest) + multiset{q} == multiset(log)
    ensures OfRun(log, r) == OfRun(rest, r) + if q.runId == r then 1 else 0
  {
    var i :| 0 <= i < |log| && log[i] == q;
    rest := log[..i] + log[i + 1..];
    assert log == log[..i] + ([q] + log[i + 1..]);
    OfRunAdds(log[..i], [q] + log[i + 1..], r);
    OfRunAdds([q], log[i + 1..], r);
    OfRunAdds(log[..i], log[i + 1..], r);
    assert [q][..0] == [];
  }

  lemma {:induction false} OfRunOfPart(part: seq<Request>, log: seq<Request>, r: string)
    requires multiset(part) <= multiset(log)
    ensures OfRun(part, r) <= OfRun(log, r)
  {
    if part != [] {
      var front, q := part[..|part| - 1], part[|part| - 1];
      assert part == front + [q];
      assert multiset(part) == multiset(front) + multiset{q};
      assert q in multiset(log);
      var rest := TakenOut(log, q, r);
      assert multiset(front) == multiset(part) - multiset{q} && multiset(rest) == multiset(log) - multiset{q};
      OfRunOfPart(front, rest, r);
    }
  }

  /**
   The fresh successes reported to callers of a run, with what the run held at the start, never exceed the global limit
   any granted request of that run named; and every reported success was granted.
   */
  lemma ReportedWithinGlobalLimit(f: File, events: seq<Event>, q: Request)
    ensures var s := Run(Start(f), events);
            q in s.told ==> q in s.log && InRun(Contents(f), q.runId) + OfRun(s.told, q.runId) <= q.globalLimit
  {
    var s := Run(Start(f), events);
    BudgetIsSequential(f, events);
    ReachableFits(f, events);
    if q in s.told {
      assert multiset(s.told) <= multiset(s.log);
      assert q in multiset(s.told);
      assert q in multiset(s.log);
      var i :| 0 <= i < |s.log| && s.log[i] == q;
      GlobalBound(Contents(f), s.log, i);
      OfRunOfPart(s.told, s.log, q.runId);
    }
  }

  /** The i-th grant found fewer than its limit for its scope, resource and kind; no grant repeats an earlier one. */
  lemma EachGrantWithinItsLimit(f: File, events: seq<Event>, i: nat, j: nat)
    ensures var log := Run(Start(f), events).log;
            i < |log| ==>
              && WithKey(Contents(f), log[i]) + OfKey(log[..i], log[i]) < log[i].limit
              && (j < i ==> log[i].runId != log[j].runId || log[i].reservationId != log[j].reservationId)
  {
    var log := Run(Start(f), events).log;
    BudgetIsSequential(f, events);
    if i < |log| {
      GrantFoundFewer(Contents(f), log, i);
      if j < i {
        GrantsAreDistinct(Contents(f), log, j, i);
      }
    }
  }

  /**
   Whenever a call is about to return a grant, fresh or repeated, the document holds a reservation under its id with
   exactly its scope, resource and kind, and the counts returned are those of the document.
   */
  lemma AnswersMatchDocument(f: File, events: seq<Event>, p: nat)
    ensures var s := Run(Start(f), events);
            At(s, p).Leaving? && At(s, p).result.Ok? ==>
              var q, g, d := At(s, p).q, At(s, p).result.value, Contents(s.file);
              && q.runId in d && d[q.runId].globalLimit == q.globalLimit
              && q.reservationId in d[q.runId].reservations
              && d[q.runId].reservations[q.reservationId].scope == q.scope
              && d[q.runId].reservations[q.reservationId].resourceId == q.resourceId
              && d[q.runId].reservations[q.reservationId].kind == q.kind
              && g.globalCount == |d[q.runId].reservations| && g.count == WithKey(d, q)
  {
    var s := Run(Start(f), events);
    ReachableFits(f, events);
    if At(s, p).Leaving? && At(s, p).result.Ok? {
      assert s.owner == Some(p);
      assert Inside(s) == DeskOf(s, p);
    }
  }

  lemma {:induction false} RunSplits(s: State, a: seq<Event>, b: seq<Event>)
    ensures Run(s, a + b) == Run(Run(s, a), b)
    decreases |a|
  {
    if a == [] {
      assert a + b == b;
    } else {
      RunSplits(After(s, a[0]), a[1..], b);
      assert (a + b)[0] == a[0] && (a + b)[1..] == a[1..] + b;
    }
  }

  /** Once recorded, a reservation is never granted again, however often it is asked for. */
  lemma RepeatsAddNothing(f: File, events: seq<Event>, more: seq<Event>, q: Request, i: nat)
    requires Known(Contents(Run(Start(f), events).file), q)
    ensures var before, after := Run(Start(f), events).log, Run(Start(f), events + more).log;
            && before <= after
            && (|before| <= i < |after| ==> after[i].runId != q.runId || after[i].reservationId != q.reservationId)
  {
    LogGoesOn(f, events, more);
    var s, log := Run(Start(f), events), Run(Start(f), events + more).log;
    var held, n := Contents(s.file), |s.log|;
    if n <= i < |log| {
      LaterGrantIsNew(Contents(f), log, n, held, q, i);
    }
  }

  lemma LogGoesOn(f: File, events: seq<Event>, more: seq<Event>)
    ensures var s, log := Run(Start(f), events), Run(Start(f), events + more).log;
            && s.log <= log && log[..|s.log|] == s.log
            && (log != [] ==> Grantable(Contents(f), log) && Replay(Contents(f), s.log) == Some(Contents(s.file)))
  {
    RunSplits(Start(f), events, more);
    ReachableFits(f, events);
    RunKeeps(Run(Start(f), events), f, more);
    BudgetIsSequential(f, events);
    BudgetIsSequential(f, events + more);
  }

  /** What was known when the log had `n` entries, no later entry grants. */
  lemma LaterGrantIsNew(d: Document, log: seq<Request>, n: nat, held: Document, q: Request, i: nat)
    requires Grantable(d, log) && n <= i < |log| && Replay(d, log[..n]) == Some(held) && Known(held, q)
    ensures log[i].runId != q.runId || log[i].reservationId != q.reservationId
  {
    GrantAt(d, log, i);
    PrefixIsGrantable(d, log[..i], n);
    assert log[..i][..n] == log[..n];
    var before := Replay(d, log[..i]).value;
    KnownStays(held, before, q);
    FreshIsNew(Holds(before), log[i], q);
  }

  lemma KnownStays(d: Document, later: Document, q: Request)
    requires Known(d, q) && Extends(later, d)
    ensures Known(later, q)
  {
    assert RunExtends(later[q.runId], d[q.runId]);
  }

  // ------------------------------------------------------------------------------------------ as one call

  /** The file system call of one reservation that throws, if any; `WriteFault` is the write or the rename. */
  datatype Fault = NoFault | ReadFault | WriteFault | UnlinkFault

  predicate CannotRead(f: File, fault: Fault) {
    fault.ReadFault? && !f.Absent?
  }

  function Answered(f: File, q: Request, fault: Fault): Result<Grant, Denial> {
    if CannotRead(f, fault) then Err(FileInvalid)
    else
      match Decide(f, q)
      case Refused(denial) => Err(denial)
      case Repeated(grant) => Ok(grant)
      case Fresh(_, grant) => if fault.WriteFault? then Err(IoFailed) else Ok(grant)
  }

  function FileAfter(f: File, q: Request, fault: Fault): File {
    if !CannotRead(f, fault) && !fault.WriteFault? && Decide(f, q).Fresh? then Holds(Decide(f, q).next) else f
  }

  /** What a process makes of its desk between taking the lock and removing it, if nothing fails. */
  function Alone(d: Desk): Desk {
    Act(Act(Act(d, Load), Write), Rename)
  }

  lemma DeskAlone(d: Desk, q: Request)
    requires d.pc == Holding(q)
    ensures var e := Alone(d);
            && e.pc == Leaving(q, Answered(d.file, q, NoFault)) && Act(e, Unlink).pc.Outside?
            && Act(e, Unlink).file == FileAfter(d.file, q, NoFault)
            && Act(e, Unlink).log == (if Decide(d.file, q).Fresh? then d.log + [q] else d.log)
            && Act(e, Unlink).told == (if Decide(d.file, q).Fresh? then d.told + [q] else d.told)
  {
    FreshIsNotRepeated(d.file, q);
  }

  lemma RunOne(s: State, e: Event, rest: seq<Event>)
    ensures Run(s, [e] + rest) == Run(After(s, e), rest)
  {
    assert ([e] + rest)[1..] == rest;
  }

  lemma DeskReadsBack(s: State, p: nat, d: Desk)
    ensures DeskOf(WithDesk(s, p, d), p) == d
  {}

  /** The steps of a process that nothing interrupts come to the same as one call. */
  lemma StepsAreOneCall(s: State, p: nat, q: Request)
    requires At(s, p).Outside? && !s.lockFile && ValidRequest(q)
    ensures var steps := [By(p, Open(q))] + ([By(p, Load)] + ([By(p, Write)] + ([By(p, Rename)] + [By(p, Unlink)])));
            var t := Run(s, steps);
            && t.file == FileAfter(s.file, q, NoFault) && !t.lockFile && At(t, p).Outside?
            && t.log == (if Decide(s.file, q).Fresh? then s.log + [q] else s.log)
            && t.told == (if Decide(s.file, q).Fresh? then s.told + [q] else s.told)
  {
    var s1 := Next(s, p, Open(q));
    var d1 := DeskOf(s1, p);
    RunOne(s, By(p, Open(q)), [By(p, Load)] + ([By(p, Write)] + ([By(p, Rename)] + [By(p, Unlink)])));
    RunInside(s1, p);
    DeskAlone(d1, q);
    UnlinkLeaves(s1, p, Alone(d1));
  }

  /** Three steps inside and the removal of the lock. */
  lemma RunInside(s: State, p: nat)
    ensures Run(s, [By(p, Load)] + ([By(p, Write)] + ([By(p, Rename)] + [By(p, Unlink)])))
         == Next(WithDesk(s, p, Alone(DeskOf(s, p))), p, Unlink)
  {
    var d := DeskOf(s, p);
    var s2, s3 := WithDesk(s, p, Act(d, Load)), WithDesk(s, p, Act(Act(d, Load), Write));
    StepsOfDesk(s, p);
    RunOne(s, By(p, Load), [By(p, Write)] + ([By(p, Rename)] + [By(p, Unlink)]));
    RunOne(s2, By(p, Write), [By(p, Rename)] + [By(p, Unlink)]);
    RunOne(s3, By(p, Rename), [By(p, Unlink)]);
    assert [By(p, Unlink)] + [] == [By(p, Unlink)];
    RunOne(WithDesk(s, p, Alone(d)), By(p, Unlink), []);
  }

  lemma UnlinkLeaves(s: State, p: nat, d: Desk)
    requires d.pc.Leaving?
    ensures var t, e := Next(WithDesk(s, p, d), p, Unlink), Act(d, Unlink);
            t.file == e.file && t.log == e.log && t.told == e.told && !t.lockFile && At(t, p) == e.pc
  {
    DeskReadsBack(s, p, d);
  }

  /** Acting on the desk three times is three steps of the process. */
  lemma StepsOfDesk(s: State, p: nat)
    ensures var d := DeskOf(s, p);
            && Next(s, p, Load) == WithDesk(s, p, Act(d, Load))
            && Next(WithDesk(s, p, Act(d, Load)), p, Write) == WithDesk(s, p, Act(Act(d, Load), Write))
            && Next(WithDesk(s, p, Act(Act(d, Load), Write)), p, Rename) == WithDesk(s, p, Alone(d))
  {
    var d := DeskOf(s, p);
    DeskReadsBack(s, p, Act(d, Load));
    DeskReadsBack(s, p, Act(Act(d, Load), Write));
    SecondDeskWins(s, p, Act(d, Load), Act(Act(d, Load), Write));
    SecondDeskWins(s, p, Act(Act(d, Load), Write), Alone(d));
  }

  lemma SecondDeskWins(s: State, p: nat, d: Desk, e: Desk)
    ensures WithDesk(WithDesk(s, p, d), p, e) == WithDesk(s, p, e)
  {}

  /** The request's id is known in its run, for another scope, resource or kind. */
  predicate IsTakenOtherwise(f: File, q: Request) {
    && f.Holds? && ValidDocument(f.document) && q.runId in f.document
    && f.document[q.runId].globalLimit == q.globalLimit && q.reservationId in f.document[q.runId].reservations
    && var known := f.document[q.runId].reservations[q.reservationId];
       known.scope != q.scope || known.resourceId != q.resourceId || known.kind != q.kind
  }

  /** The document file and its lock file, as one caller uses them. */
  class BudgetFile {
    var file: File
    var lockFile: bool

    constructor (file: File)
      ensures this.file == file && !lockFile
    {
      this.file, lockFile := file, false;
    }

    /** `reserveSideEffectBudget`. The lock file is gone again however the call ends, unless it cannot be removed. */
    method Reserve(q: Request, fault: Fault) returns (r: Result<Grant, Denial>)
      modifies this
      ensures !ValidRequest(q) ==> r == Err(RequestInvalid)
      ensures ValidRequest(q) && old(lockFile) ==> r == Err(Locked)
      ensures !ValidRequest(q) || old(lockFile) ==> file == old(file) && lockFile == old(lockFile)
      ensures ValidRequest(q) && !old(lockFile) ==>
                && file == FileAfter(old(file), q, fault) && lockFile == fault.UnlinkFault?
                && r == if fault.UnlinkFault? then Err(IoFailed) else Answered(old(file), q, fault)
      ensures ValidRequest(q) && !old(lockFile) && fault.NoFault? && IsTakenOtherwise(old(file), q) ==>
                r == Err(ReservationConflict) && file == old(file)
    {
      if !ValidRequest(q) {
        return Err(RequestInvalid);
      }
      if lockFile {
        return Err(Locked);
      }
      lockFile := true;
      r := ReserveLocked(q, fault);
      if fault.UnlinkFault? {
        return Err(IoFailed);
      }
      lockFile := false;
    }

    method ReserveLocked(q: Request, fault: Fault) returns (r: Result<Grant, Denial>)
      requires ValidRequest(q)
      modifies this`file
      ensures r == Answered(old(file), q, fault) && file == FileAfter(old(file), q, fault)
      ensures fault.NoFault? && IsTakenOtherwise(old(file), q) ==> r == Err(ReservationConflict) && file == old(file)
    {
      if IsTakenOtherwise(file, q) {
        KnownIdDecides(file, q);
      }
      if CannotRead(file, fault) || !Readable(file) {
        return Err(FileInvalid);
      }
      var document := Contents(file);
      var run := RunOf(document, q);
      if run.globalLimit != q.globalLimit {
        return Err(GlobalConflict);
      }
      var count := |Matching(run, q)|;
      var globalCount := |run.reservations|;
      if q.reservationId in run.reservations {
        if !SameKey(run.reservations[q.reservationId], q) {
          return Err(ReservationConflict);
        }
        return Ok(Grant(count, globalCount, true));
      }
      if globalCount >= run.globalLimit {
        return Err(GlobalExceeded);
      }
      if count >= q.limit {
        return Err(Exceeded);
      }
      if q.now.None? {
        return Err(ClockInvalid);
      }
      var reservation := Reservation(q.reservationId, q.scope, q.resourceId, q.kind, q.now);
      var next := SideEffectBudget.Run(run.globalLimit, run.reservations[q.reservationId := reservation]);
      if fault.WriteFault? {
        return Err(IoFailed);
      }
      file := Holds(document[q.runId := next]);
      return Ok(Grant(count + 1, globalCount + 1, false));
    }
  }
}
