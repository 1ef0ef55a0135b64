/**
 What the fence record says about the past and the future of its fire task, over all runs of `FireFence`
 (apps/npc-tank-provider-adapter/src/runtime.ts:392-543, 1054-1250).
 */
module FireHistory {
  import opened Wrappers
  import opened FireFence

  /** The outcome of a shot, as recorded after it. */
  predicate IsOutcome(code: Code) {
    code.ConfirmationAccepted? || code.DeviceToolRejected?
  }

  predicate IsPastNotArmed(fence: Option<Code>) {
    fence.Some? && !fence.value.NotArmed?
  }

  /** Absent, NOT_ARMED, UNCERTAIN, final: a fence moves on along this order, or stays. */
  predicate IsLater(fence: Option<Code>, later: Option<Code>) {
    || fence == later
    || fence.None?
    || (fence == Some(NotArmed) && later.Some?)
    || (fence == Some(Uncertain) && later.Some? && (later.value.Aborted? || IsOutcome(later.value)))
  }

  // ---------------------------------------------------------------------------------------------------
  // One step
  // ---------------------------------------------------------------------------------------------------

  /** Program points of the armed invocation after the device call has been made. */
  predicate IsAfterCall(pc: Pc) {
    pc.Update? && (pc.u.UpdateAwaitDevice? || pc.u.UpdateStoreMission? || pc.u.UpdateAnnounce? || pc.u.UpdateSettle?
                   || pc.u.UpdatePersistRejection? || pc.u.UpdateSettleRejection?)
  }

  /** What a recovering or refreshing invocation relies on after it lost or tried its swap. */
  predicate ReadsFit(fence: Option<Code>, pc: Pc) {
    && (pc.Refresh? && pc.r.FenceSwap? ==> fence.Some?)
    && (pc.Refresh? && pc.r.FenceReadWinner? ==> IsPastNotArmed(fence))
  }

  predicate StepTells(fence: Option<Code>, pc: Pc, eff: Effect) {
    && IsLater(fence, eff.fence)
    && (IsAfterCall(eff.pc) ==> IsAfterCall(pc) || eff.note.DeviceCalled?)
    && (eff.fence.Some? && IsOutcome(eff.fence.value) ==> eff.fence == fence || IsAfterCall(pc))
    && ReadsFit(eff.fence, eff.pc)
  }

  lemma UpdateStepTells(fence: Option<Code>, exec: Exec, u: UpdatePc, c: Choice)
    ensures StepTells(fence, Update(u), UpdateStep(fence, exec, u, c))
  {}

  lemma CancelStepTells(fence: Option<Code>, exec: Exec, k: CancelPc, c: Choice)
    requires CancelFits(fence, k)
    ensures StepTells(fence, Cancel(k), CancelStep(fence, exec, k, c))
  {}

  lemma AbortStepTells(fence: Option<Code>, exec: Exec, b: AbortPc, c: Choice)
    ensures StepTells(fence, Abort(b), AbortStep(fence, exec, b, c))
  {}

  lemma RefreshStepTells(fence: Option<Code>, exec: Exec, r: RefreshPc, c: Choice)
    requires ReadsFit(fence, Refresh(r))
    ensures StepTells(fence, Refresh(r), RefreshStep(fence, exec, r, c))
  {}

  lemma LocalStepTells(fence: Option<Code>, exec: Exec, pc: Pc, c: Choice)
    requires FenceFits(fence, pc) && ReadsFit(fence, pc)
    ensures StepTells(fence, pc, LocalStep(fence, exec, pc, c))
  {
    match pc
    case Update(u) => UpdateStepTells(fence, exec, u, c);
    case Cancel(k) => CancelStepTells(fence, exec, k, c);
    case Abort(b) => AbortStepTells(fence, exec, b, c);
    case Refresh(r) => RefreshStepTells(fence, exec, r, c);
    case Done =>
  }

  // ---------------------------------------------------------------------------------------------------
  // All runs
  // ---------------------------------------------------------------------------------------------------

  ghost predicate Tells(s: State) {
    && (s.fence.Some? && IsOutcome(s.fence.value) ==> s.fires != [])
    && (forall a <- s.actors ::
          (IsAfterCall(s.actors[a]) ==> s.fires != []) && ReadsFit(s.fence, s.actors[a]))
  }

  lemma ReadsFitLater(fence: Option<Code>, later: Option<Code>, pc: Pc)
    requires ReadsFit(fence, pc) && IsLater(fence, later)
    ensures ReadsFit(later, pc)
  {}

  lemma EffectTells(s: State, a: nat, eff: Effect)
    requires Tells(s) && a in s.actors && StepTells(s.fence, s.actors[a], eff)
    ensures Tells(ApplyEffect(s, a, eff))
  {
    var t := ApplyEffect(s, a, eff);
    forall b <- t.actors
      ensures (IsAfterCall(t.actors[b]) ==> t.fires != []) && ReadsFit(t.fence, t.actors[b])
    {
      if b != a {
        assert b in s.actors;
        ReadsFitLater(s.fence, t.fence, s.actors[b]);
      }
    }
  }

  lemma NextTells(s: State, m: Move)
    requires Excludes(s) && Tells(s)
    ensures Tells(Next(s, m)) && IsLater(s.fence, Next(s, m).fence)
  {
    match m
    case Spawn(_) =>
    case Step(a, c) =>
      if a in s.actors {
        LocalStepTells(s.fence, s.exec, s.actors[a], c);
        EffectTells(s, a, LocalStep(s.fence, s.exec, s.actors[a], c));
      }
    case Crash(_) =>
  }

  lemma IsLaterTransitive(f: Option<Code>, g: Option<Code>, h: Option<Code>)
    requires IsLater(f, g) && IsLater(g, h)
    ensures IsLater(f, h)
  {}

  lemma {:induction false} RunTells(s: State, moves: seq<Move>)
    requires Excludes(s) && Tells(s)
    ensures Excludes(Run(s, moves)) && Tells(Run(s, moves)) && IsLater(s.fence, Run(s, moves).fence)
    decreases |moves|
  {
    if moves != [] {
      var t := Next(s, moves[0]);
      ExcludesNext(s, moves[0]);
      NextTells(s, moves[0]);
      RunTells(t, moves[1..]);
      IsLaterTransitive(s.fence, t.fence, Run(s, moves).fence);
    }
  }

  /**
   Between any two moments of a run the fence moves only along absent, NOT_ARMED, UNCERTAIN, final. A final fence, be it
   a stand-down or the outcome of a shot, never changes again.
   */
  lemma FenceMovesForward(before: seq<Move>, after: seq<Move>)
    ensures var s := Run(FRESH, before);
            var t := Run(s, after);
            && IsLater(s.fence, t.fence)
            && (IsPastNotArmed(s.fence) ==> IsPastNotArmed(t.fence))
            && (IsPastNotArmed(s.fence) && s.fence != Some(Uncertain) ==> t.fence == s.fence)
  {
    RunTells(FRESH, before);
    RunTells(Run(FRESH, before), after);
  }

  /**
   In every reachable state the fence tells what happened: absent, NOT_ARMED or standing down, no shot; an outcome,
   exactly one shot; and behind a fence that stands down no shot can follow.
   */
  lemma FenceTellsShots(before: seq<Move>, after: seq<Move>)
    ensures var s := Run(FRESH, before);
            && (s.fence.None? || IsReserved(s.fence.value) ==> s.fires == [])
            && (s.fence.Some? && IsOutcome(s.fence.value) ==> |s.fires| == 1)
            && (FenceStandsDown(s.fence) ==> Run(s, after).fires == [])
  {
    FiresAtMostOnce(before);
    RunTells(FRESH, before);
    RunTells(Run(FRESH, before), after);
    FenceMovesForward(before, after);
  }

  /**
   Recovery, whatever races it: an invocation that goes on with a task instead of standing it down has just read a fence
   that is absent or past NOT_ARMED and does not stand down, and one past NOT_ARMED is never NOT_ARMED again.
   */
  lemma RecoveryGoesOnOnlyPastNotArmed(before: seq<Move>, a: nat, c: Choice, after: seq<Move>)
    requires a in Run(FRESH, before).actors
    requires var pc := Run(FRESH, before).actors[a];
             pc.Refresh? && (pc.r.FenceRead? || pc.r.FenceReadWinner?)
    ensures var s := Run(FRESH, before);
            var t := Next(s, Step(a, c));
            t.actors[a].Refresh? && (t.actors[a].r.RecoverContinue? || t.actors[a].r.RefreshObserve?) ==>
              && (s.fence.Some? ==> IsPastNotArmed(s.fence) && !FenceStandsDown(s.fence))
              && (s.fence.Some? ==> IsPastNotArmed(Run(t, after).fence))
  {
    var s := Run(FRESH, before);
    var t := Next(s, Step(a, c));
    RunTells(FRESH, before);
    assert ReadsFit(s.fence, s.actors[a]);
    ExcludesNext(s, Step(a, c));
    NextTells(s, Step(a, c));
    RunTells(t, after);
  }

  // ---------------------------------------------------------------------------------------------------
  // What the caller asked for
  // ---------------------------------------------------------------------------------------------------

  /** What the caller of an update answered, at the program points where the answer is still to be looked at. */
  function AnswerAt(u: UpdatePc): Option<Confirmation> {
    match u
    case UpdateReadExec(answer) => Some(answer)
    case UpdateReadFence(_, answer) => Some(answer)
    case _ => None
  }

  /** Past its answer, an update that has not replayed a cancellation is dispatching a shot. */
  predicate IsDispatching(pc: Pc) {
    pc.Update? && AnswerAt(pc.u).None? && !pc.u.UpdateReplayCancel?
  }

  /** An invocation at `pc` acts on what its entry asked for. */
  predicate Obeys(entry: Pc, pc: Pc) {
    && (pc.Update? && AnswerAt(pc.u).Some? ==> entry == Update(UpdateReadExec(AnswerAt(pc.u).value)))
    && (IsDispatching(pc) ==> entry == Update(UpdateReadExec(Confirmed)))
    && (pc.Abort? ==> entry == Update(UpdateReadExec(Confirmed)))
    && (pc.Cancel? ==> entry == Cancel(CancelReadExec) || entry == Update(UpdateReadExec(Declined)))
    && (pc.Refresh? ==> entry.Refresh?)
  }

  /** A shot is claimed only on an execution that was read as waiting. */
  predicate ClaimsWaiting(pc: Pc) {
    pc.Update? ==> match pc.u
                   case UpdateClaim(e) => e.state == WaitingInput
                   case UpdatePrepare(e) => e.state == WaitingInput
                   case _ => true
  }

  lemma UpdateObeys(entry: Pc, fence: Option<Code>, exec: Exec, u: UpdatePc, c: Choice)
    requires Obeys(entry, Update(u)) && ClaimsWaiting(Update(u))
    ensures var eff := UpdateStep(fence, exec, u, c); Obeys(entry, eff.pc) && ClaimsWaiting(eff.pc)
    ensures UpdateStep(fence, exec, u, c).note.DeviceCalled? ==> entry == Update(UpdateReadExec(Confirmed))
  {}

  lemma OthersObey(entry: Pc, fence: Option<Code>, exec: Exec, pc: Pc, c: Choice)
    requires !pc.Update? && Obeys(entry, pc)
    ensures var eff := LocalStep(fence, exec, pc, c);
            Obeys(entry, eff.pc) && ClaimsWaiting(eff.pc) && !eff.note.DeviceCalled?
  {}

  ghost predicate AllObey(s: State) {
    && (forall a <- s.actors :: a in s.entries && Obeys(s.entries[a], s.actors[a]) && ClaimsWaiting(s.actors[a]))
    && (forall a <- s.fires :: a in s.actors && s.entries[a] == Update(UpdateReadExec(Confirmed)))
  }

  lemma StepObeys(s: State, a: nat, c: Choice)
    requires AllObey(s) && a in s.actors
    ensures AllObey(ApplyEffect(s, a, LocalStep(s.fence, s.exec, s.actors[a], c)))
  {
    var eff := LocalStep(s.fence, s.exec, s.actors[a], c);
    if s.actors[a].Update? {
      UpdateObeys(s.entries[a], s.fence, s.exec, s.actors[a].u, c);
    } else {
      OthersObey(s.entries[a], s.fence, s.exec, s.actors[a], c);
    }
  }

  lemma NextObeys(s: State, m: Move)
    requires AllObey(s)
    ensures AllObey(Next(s, m))
  {
    if m.Step? && m.actor in s.actors {
      StepObeys(s, m.actor, m.choice);
    }
  }

  lemma {:induction false} RunObeys(s: State, moves: seq<Move>)
    requires AllObey(s)
    ensures AllObey(Run(s, moves))
    decreases |moves|
  {
    if moves != [] {
      NextObeys(s, moves[0]);
      RunObeys(Next(s, moves[0]), moves[1..]);
    }
  }

  /**
   In every run, who calls the device was asked to confirm: never an update that declined or answered invalidly, never a
   cancellation, refresh or recovery. And only an execution read as WAITING_INPUT is claimed.
   */
  lemma OnlyConfirmedFires(moves: seq<Move>, a: nat)
    ensures var s := Run(FRESH, moves);
            && (a in s.fires ==> a in s.entries && s.entries[a] == Update(UpdateReadExec(Confirmed)))
            && (a in s.actors && s.actors[a].Update? && s.actors[a].u.UpdateClaim? ==>
                  s.actors[a].u.exec.state == WaitingInput)
  {
    RunObeys(FRESH, moves);
    assert a in Run(FRESH, moves).actors ==> ClaimsWaiting(Run(FRESH, moves).actors[a]);
  }

  /** The entry of an invocation is the one it was spawned with. */
  lemma {:induction false} EntriesStay(s: State, moves: seq<Move>, a: nat)
    requires a in s.actors && a in s.entries && forall b <- s.actors :: b < |s.actors|
    ensures a in Run(s, moves).entries && Run(s, moves).entries[a] == s.entries[a]
    decreases |moves|
  {
    if moves != [] {
      EntriesStayOnce(s, moves[0], a);
      EntriesStay(Next(s, moves[0]), moves[1..], a);
    }
  }

  lemma EntriesStayOnce(s: State, m: Move, a: nat)
    requires a in s.actors && a in s.entries && forall b <- s.actors :: b < |s.actors|
    ensures var t := Next(s, m);
            && a in t.actors && a in t.entries && t.entries[a] == s.entries[a]
            && forall b <- t.actors :: b < |t.actors|
  {
    match m
    case Spawn(entry) =>
      if IsEntry(entry) && |s.actors| !in s.actors {
        assert Next(s, m).actors.Keys == s.actors.Keys + {|s.actors|};
      }
    case Step(b, c) =>
      if b in s.actors {
        assert Next(s, m).actors.Keys == s.actors.Keys;
      }
    case Crash(b) =>
      if b in s.actors {
        assert Next(s, m).actors.Keys == s.actors.Keys;
      }
  }
}
