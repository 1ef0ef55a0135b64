/**
 The durable fire-dispatch fence of the NPC Tank adapter (apps/npc-tank-provider-adapter/src/runtime.ts).

 One fire task is raced over by any number of invocations: confirmations (`#updateFire`), cancellations
 (`#cancelUndispatchedFire`), refreshes and recoveries (`#recoverPreDispatchFireFence`). They may run in
 different processes, so every `await` is a separate step and steps of different invocations interleave
 freely. A store call may throw before or after it committed, and an invocation may crash at any step.
 */
module FireFence {
  import opened Wrappers

  /** Reason codes of the fence record and of executions; `Other` is any further one of an execution. */
  datatype Code =
    | NotArmed
    | Uncertain
    | Aborted
    | ConfirmationRejected
    | CancelledBeforeDispatch
    | ConfirmationAccepted
    | DeviceToolRejected
    | ConfirmationRequired
    | DispatchPrepared
    | CommandAccepted
    | Other(text: string)

  datatype ExecState =
    | WaitingInput | Accepted | Starting | Running | Paused | Resuming | Stopping
    | Succeeded | BusinessFailed | Cancelled | TechnicalFailed

  datatype Exec = Exec(state: ExecState, reason: Code, missions: seq<string>)

  predicate IsTerminal(state: ExecState) {
    state.Succeeded? || state.BusinessFailed? || state.Cancelled? || state.TechnicalFailed?
  }

  predicate IsCancellation(code: Code) {
    code.ConfirmationRejected? || code.CancelledBeforeDispatch?
  }

  /** A fence code that says: no fire call may be made for this task. */
  predicate IsStandDown(code: Code) {
    IsCancellation(code) || code.Aborted?
  }

  predicate FenceStandsDown(fence: Option<Code>) {
    fence.Some? && IsStandDown(fence.value)
  }

  /** What a client reads as "no shot was fired": a local cancellation or an aborted dispatch. */
  predicate ShowsStandDown(e: Exec) {
    (e.state.Cancelled? && IsCancellation(e.reason)) || (e.state.TechnicalFailed? && e.reason.Aborted?)
  }

  function StandDownExec(e: Exec, code: Code): Exec {
    if IsCancellation(code) then e.(state := Cancelled, reason := code)
    else e.(state := TechnicalFailed, reason := Aborted)
  }

  datatype Confirmation = Confirmed | Declined | Invalid

  /** Program points of `#updateFire`, with the local variables live there. */
  datatype UpdatePc =
    | UpdateReadExec(answer: Confirmation)
    | UpdateReadFence(exec: Exec, answer: Confirmation)
    | UpdateReplayCancel(exec: Exec, code: Code)
    | UpdateClaim(exec: Exec)
    | UpdatePrepare(exec: Exec)
    | UpdateArm(exec: Exec)
    | UpdateCallDevice(exec: Exec)
    | UpdateAwaitDevice(exec: Exec)
    | UpdateStoreMission(exec: Exec)
    | UpdateAnnounce(exec: Exec)
    | UpdateSettle(exec: Exec)
    | UpdateReadWinner(exec: Exec)
    | UpdatePersistRejection(exec: Exec)
    | UpdateSettleRejection
    | UpdatePersistUncertain(exec: Exec)

  /** Program points of `#command("cancel")` and `#cancelUndispatchedFire`. */
  datatype CancelPc =
    | CancelReadExec
    | CancelClaim(exec: Exec, code: Code)
    | CancelSwap(exec: Exec, code: Code)
    | CancelReadWinner(exec: Exec)
    | CancelReload(exec: Exec, code: Code)
    | CancelPersist(exec: Exec, code: Code)

  /** Program points of `#abortFireBeforeDispatch`, which only the claimant of the fence enters. */
  datatype AbortPc =
    | AbortSwap(exec: Exec)
    | AbortReadWinner(exec: Exec)
    | AbortSwapArmed(exec: Exec)
    | AbortReadAgain(exec: Exec)
    | AbortReadFinal(exec: Exec)
    | AbortReload(exec: Exec, winner: Option<Code>)
    | AbortPersist(exec: Exec, code: Code)

  /** Program points of `#refresh`, `#recover` and `#recoverPreDispatchFireFence`. */
  datatype RefreshPc =
    | RefreshReadExec(recovering: bool)
    | FenceRead(exec: Exec, recovering: bool)
    | FenceSwap(exec: Exec, recovering: bool)
    | FenceReadWinner(exec: Exec, recovering: bool)
    | FencePersist(exec: Exec, code: Code)
    | RecoverContinue(exec: Exec)
    | RefreshObserve(exec: Exec)

  datatype Pc =
    | Update(u: UpdatePc)
    | Cancel(k: CancelPc)
    | Abort(b: AbortPc)
    | Refresh(r: RefreshPc)
    | Done

  /** How a store call ended. */
  datatype Fault = Normal | ThrewBefore | ThrewAfter

  /** What the one call of `npcFireConfirmationCalls` came back with. Every rejection carries the same message. */
  datatype DeviceOutcome = Mission(id: string) | NoMission | Rejected | Failed

  /** Everything a step does not decide itself. */
  datatype Choice = Choice(fault: Fault, proceed: bool, device: DeviceOutcome, observed: Exec)

  /** History-relevant facts of one step. */
  datatype Note = Quiet | ClaimCommitted | ArmReturnedTrue | DeviceCalled | Wrote(e: Exec)

  datatype Effect = Effect(fence: Option<Code>, exec: Exec, pc: Pc, note: Note)

  /** The store replaces the fence only while it still carries the expected code. */
  function Swapped(fence: Option<Code>, expected: Code, code: Code, fault: Fault): Option<Code> {
    if fence == Some(expected) && !fault.ThrewBefore? then Some(code) else fence
  }

  /** The outcome of `putExecution(e)` followed by the program point for success or failure. */
  function Put(fence: Option<Code>, exec: Exec, e: Exec, fault: Fault, ok: Pc, failed: Pc): Effect {
    if fault.ThrewBefore? then Effect(fence, exec, failed, Quiet)
    else Effect(fence, e, if fault.Normal? then ok else failed, Wrote(e))
  }

  /** A step that changes nothing durable. */
  function Go(fence: Option<Code>, exec: Exec, pc: Pc): Effect {
    Effect(fence, exec, pc, Quiet)
  }

  /** `#updateFire`, runtime.ts:392-543. */
  function UpdateStep(fence: Option<Code>, exec: Exec, pc: UpdatePc, c: Choice): Effect {
    match pc
    case UpdateReadExec(answer) =>
      Go(fence, exec, if c.fault.Normal? && c.proceed then Update(UpdateReadFence(exec, answer)) else Done)
    case UpdateReadFence(e, answer) =>
      Go(fence, exec,
         if !c.fault.Normal? then Done
         else if fence.Some? && IsCancellation(fence.value) && e.state.WaitingInput?
         then Update(UpdateReplayCancel(e, fence.value))
         else if fence.Some? || !e.state.WaitingInput? || answer.Invalid? then Done
         else if answer.Declined? then Cancel(CancelClaim(e, ConfirmationRejected))
         else if c.proceed then Update(UpdateClaim(e)) else Done)
    case UpdateReplayCancel(e, code) =>
      Put(fence, exec, StandDownExec(e, code), c.fault, Done, Done)
    case UpdateClaim(e) =>
      if fence.Some? || c.fault.ThrewBefore? then Go(fence, exec, Done)
      else Effect(Some(NotArmed), exec, if c.fault.Normal? then Update(UpdatePrepare(e)) else Done, ClaimCommitted)
    case UpdatePrepare(e) =>
      var prepared := e.(state := Starting, reason := DispatchPrepared);
      Put(fence, exec, prepared, c.fault, Update(UpdateArm(prepared)), Abort(AbortSwap(prepared)))
    case UpdateArm(e) =>
      var won := fence == Some(NotArmed) && c.fault.Normal?;
      Effect(Swapped(fence, NotArmed, Uncertain, c.fault), exec,
             if won then Update(UpdateCallDevice(e)) else Abort(AbortSwap(e)),
             if won then ArmReturnedTrue else Quiet)
    case UpdateCallDevice(e) =>
      if c.proceed then Effect(fence, exec, Update(UpdateAwaitDevice(e)), DeviceCalled)
      else Go(fence, exec, Update(UpdatePersistUncertain(e)))
    case UpdateAwaitDevice(e) =>
      Go(fence, exec,
         match c.device
         case Mission(id) =>
           if id in e.missions then Update(UpdateAnnounce(e))
           else Update(UpdateStoreMission(e.(missions := e.missions + [id])))
         case NoMission => Update(UpdatePersistUncertain(e))
         case Rejected => Update(UpdatePersistRejection(e))
         case Failed => Update(UpdatePersistUncertain(e)))
    case UpdateStoreMission(e) =>
      Put(fence, exec, e, c.fault,
          if c.proceed then Update(UpdateAnnounce(e)) else Update(UpdatePersistUncertain(e)),
          Update(UpdatePersistUncertain(e)))
    case UpdateAnnounce(e) =>
      Put(fence, exec, e.(state := Starting, reason := CommandAccepted), c.fault,
          if c.proceed then Update(UpdateSettle(e)) else Update(UpdatePersistUncertain(e)),
          Update(UpdatePersistUncertain(e)))
    case UpdateSettle(e) =>
      Go(Swapped(fence, Uncertain, ConfirmationAccepted, c.fault), exec,
         if !c.fault.Normal? then Update(UpdatePersistUncertain(e))
         else if fence == Some(Uncertain) then Done else Update(UpdateReadWinner(e)))
    case UpdateReadWinner(e) =>
      Go(fence, exec, if c.fault.Normal? && fence.Some? then Done else Update(UpdatePersistUncertain(e)))
    case UpdatePersistRejection(e) =>
      Put(fence, exec, e.(state := BusinessFailed, reason := DeviceToolRejected), c.fault,
          Update(UpdateSettleRejection), Done)
    case UpdateSettleRejection =>
      Go(Swapped(fence, Uncertain, DeviceToolRejected, c.fault), exec, Done)
    case UpdatePersistUncertain(e) =>
      Put(fence, exec, e.(state := Starting, reason := Uncertain), c.fault, Done, Done)
  }

  /** `#command("cancel")` and `#cancelUndispatchedFire`, runtime.ts:337-353, 1066-1142. */
  function CancelStep(fence: Option<Code>, exec: Exec, pc: CancelPc, c: Choice): Effect {
    match pc
    case CancelReadExec =>
      Go(fence, exec,
         if c.fault.Normal? && c.proceed && exec.state.WaitingInput?
         then Cancel(CancelClaim(exec, CancelledBeforeDispatch)) else Done)
    case CancelClaim(e, code) =>
      if fence.None? then
        if c.fault.ThrewBefore? then Go(fence, exec, Done)
        else Go(Some(code), exec, if c.fault.Normal? then Cancel(CancelPersist(e, code)) else Done)
      else
        Go(fence, exec,
           if !c.fault.Normal? then Done
           else if IsCancellation(fence.value) then Cancel(CancelReload(e, fence.value))
           else if fence.value.NotArmed? then Cancel(CancelSwap(e, code))
           else Done)
    case CancelSwap(e, code) =>
      Go(Swapped(fence, NotArmed, code, c.fault), exec,
         if !c.fault.Normal? then Done
         else if fence == Some(NotArmed) then Cancel(CancelReload(e, code)) else Cancel(CancelReadWinner(e)))
    case CancelReadWinner(e) =>
      Go(fence, exec,
         if c.fault.Normal? && fence.Some? && IsCancellation(fence.value)
         then Cancel(CancelReload(e, fence.value)) else Done)
    case CancelReload(e, code) =>
      Go(fence, exec,
         if c.fault.Normal? && !IsTerminal(exec.state) then Cancel(CancelPersist(exec, code)) else Done)
    case CancelPersist(e, code) =>
      Put(fence, exec, StandDownExec(e, code), c.fault, Done, Done)
  }

  /** `#abortFireBeforeDispatch`, runtime.ts:1156-1207. */
  function AbortStep(fence: Option<Code>, exec: Exec, pc: AbortPc, c: Choice): Effect {
    match pc
    case AbortSwap(e) =>
      Go(Swapped(fence, NotArmed, Aborted, c.fault), exec,
         if !c.fault.Normal? then Abort(AbortReadFinal(e))
         else if fence == Some(NotArmed) then Abort(AbortReload(e, Some(Aborted))) else Abort(AbortReadWinner(e)))
    case AbortReadWinner(e) =>
      Go(fence, exec,
         if !c.fault.Normal? then Abort(AbortReadFinal(e))
         else if fence == Some(Uncertain) then Abort(AbortSwapArmed(e)) else Abort(AbortReadAgain(e)))
    case AbortSwapArmed(e) =>
      Go(Swapped(fence, Uncertain, Aborted, c.fault), exec,
         if !c.fault.Normal? then Abort(AbortReadFinal(e))
         else if fence == Some(Uncertain) then Abort(AbortReload(e, Some(Aborted))) else Abort(AbortReadAgain(e)))
    case AbortReadAgain(e) =>
      Go(fence, exec, if c.fault.Normal? then Abort(AbortReload(e, fence)) else Abort(AbortReadFinal(e)))
    case AbortReadFinal(e) =>
      Go(fence, exec, Abort(AbortReload(e, if c.fault.Normal? then fence else None)))
    case AbortReload(e, winner) =>
      var current := if c.fault.Normal? then exec else e;
      Go(fence, exec,
         if winner.None? || IsTerminal(current.state) then Done
         else if IsCancellation(winner.value) then Abort(AbortPersist(current, winner.value))
         else if winner.value.Aborted? || winner.value.NotArmed? || winner.value.Uncertain?
         then Abort(AbortPersist(current, Aborted))
         else Done)
    case AbortPersist(e, code) =>
      Put(fence, exec, StandDownExec(e, code), c.fault, Done, Done)
  }

  /** `#refresh`, `#recover` and `#recoverPreDispatchFireFence`, runtime.ts:598-616, 745-850, 1208-1250. */
  function RefreshStep(fence: Option<Code>, exec: Exec, pc: RefreshPc, c: Choice): Effect {
    match pc
    case RefreshReadExec(recovering) =>
      Go(fence, exec,
         if c.fault.Normal? && !IsTerminal(exec.state) then Refresh(FenceRead(exec, recovering)) else Done)
    case FenceRead(e, recovering) =>
      Go(fence, exec,
         if !c.fault.Normal? then Done
         else if FenceStandsDown(fence) then Refresh(FencePersist(e, fence.value))
         else if fence == Some(NotArmed) then Refresh(FenceSwap(e, recovering))
         else if recovering then Refresh(RecoverContinue(e)) else Refresh(RefreshObserve(e)))
    case FenceSwap(e, recovering) =>
      Go(Swapped(fence, NotArmed, Aborted, c.fault), exec,
         if !c.fault.Normal? then Done
         else if fence == Some(NotArmed) then Refresh(FencePersist(e, Aborted))
         else Refresh(FenceReadWinner(e, recovering)))
    case FenceReadWinner(e, recovering) =>
      Go(fence, exec,
         if !c.fault.Normal? then Done
         else if FenceStandsDown(fence) then Refresh(FencePersist(e, fence.value))
         else if recovering then Refresh(RecoverContinue(e)) else Refresh(RefreshObserve(e)))
    case FencePersist(e, code) =>
      Put(fence, exec, StandDownExec(e, code), c.fault, Done, Done)
    case RecoverContinue(e) =>
      // Connected: #refresh reads the fence a second time. Disconnected: only the reason code changes.
      if c.proceed then Go(fence, exec, Refresh(FenceRead(e, false)))
      else Put(fence, exec, e.(reason := Uncertain), c.fault, Done, Done)
    case RefreshObserve(e) =>
      // applyTrack yields some state with a device or reconcile reason code, and keeps the mission ids.
      if e.state.WaitingInput? || e.missions == [] then Go(fence, exec, Done)
      else Put(fence, exec,
               c.observed.(missions := e.missions,
                           reason := if c.observed.reason.Other? then c.observed.reason else Uncertain),
               c.fault, Done, Done)
  }

  function LocalStep(fence: Option<Code>, exec: Exec, pc: Pc, c: Choice): Effect {
    match pc
    case Update(u) => UpdateStep(fence, exec, u, c)
    case Cancel(k) => CancelStep(fence, exec, k, c)
    case Abort(b) => AbortStep(fence, exec, b, c)
    case Refresh(r) => RefreshStep(fence, exec, r, c)
    case Done => Go(fence, exec, Done)
  }

  /**
   The durable record pair, the running invocations, and history variables: what each invocation was asked, who
   committed a NOT_ARMED claim, whose arming swap returned true, who called the device, and whether a stand-down was
   ever persisted.
   */
  datatype State = State(
    fence: Option<Code>,
    exec: Exec,
    actors: map<nat, Pc>,
    entries: map<nat, Pc>,
    claims: seq<nat>,
    arms: seq<nat>,
    fires: seq<nat>,
    stoodDown: bool)

  datatype Move =
    | Spawn(entry: Pc)
    | Step(actor: nat, choice: Choice)
    | Crash(actor: nat)

  predicate IsEntry(pc: Pc) {
    (pc.Update? && pc.u.UpdateReadExec?) || (pc.Cancel? && pc.k.CancelReadExec?)
    || (pc.Refresh? && pc.r.RefreshReadExec?)
  }

  function ApplyEffect(s: State, a: nat, eff: Effect): State {
    s.(fence := eff.fence,
       exec := eff.exec,
       actors := s.actors[a := eff.pc],
       claims := if eff.note.ClaimCommitted? then s.claims + [a] else s.claims,
       arms := if eff.note.ArmReturnedTrue? then s.arms + [a] else s.arms,
       fires := if eff.note.DeviceCalled? then s.fires + [a] else s.fires,
       stoodDown := s.stoodDown || (eff.note.Wrote? && ShowsStandDown(eff.note.e)))
  }

  /** Invocations are numbered in order of arrival; moves of unknown invocations change nothing. */
  function Next(s: State, m: Move): State {
    match m
    case Spawn(entry) =>
      var a := |s.actors|;
      if IsEntry(entry) && a !in s.actors
      then s.(actors := s.actors[a := entry], entries := s.entries[a := entry]) else s
    case Step(a, c) =>
      if a in s.actors then ApplyEffect(s, a, LocalStep(s.fence, s.exec, s.actors[a], c)) else s
    case Crash(a) =>
      if a in s.actors then s.(actors := s.actors[a := Done]) else s
  }

  function Run(s: State, moves: seq<Move>): State
    decreases |moves|
  {
    if moves == [] then s else Run(Next(s, moves[0]), moves[1..])
  }

  /** A fire task right after `#start`: waiting for its confirmation, no fence, nobody working on it. */
  const FRESH := State(None, Exec(WaitingInput, ConfirmationRequired, []),
                       map[], map[], [], [], [], false)

  // ---------------------------------------------------------------------------------------------------
  // At most one shot
  // ---------------------------------------------------------------------------------------------------

  predicate HoldsClaim(pc: Pc) {
    pc.Abort? || (pc.Update? && (pc.u.UpdatePrepare? || pc.u.UpdateArm?))
  }

  predicate AtDeviceCall(pc: Pc) {
    pc.Update? && pc.u.UpdateCallDevice?
  }

  ghost predicate ClaimantOk(s: State, a: nat, pc: Pc) {
    && (HoldsClaim(pc) ==> s.claims == [a] && s.arms == [])
    && (AtDeviceCall(pc) ==> s.claims == [a] && s.arms == [a] && s.fires == [])
  }

  ghost predicate SingleShot(s: State) {
    && |s.claims| <= 1
    && (s.arms == [] || s.arms == s.claims)
    && (s.fires == [] || s.fires == s.arms)
    && (s.fence.None? ==> s.claims == [])
    && (forall a <- s.claims :: a in s.actors)
    && (forall a <- s.actors :: ClaimantOk(s, a, s.actors[a]))
  }

  /** How one step may take part in the claim, arm, fire sequence. */
  predicate ShotDiscipline(fence: Option<Code>, pc: Pc, eff: Effect) {
    && (eff.fence.None? ==> fence.None?)
    && (eff.note.ClaimCommitted? ==> fence.None? && eff.fence.Some? && !HoldsClaim(pc))
    && (HoldsClaim(eff.pc) ==> (HoldsClaim(pc) || eff.note.ClaimCommitted?) && !eff.note.ArmReturnedTrue?)
    && (eff.note.ArmReturnedTrue? ==> HoldsClaim(pc) && pc.Update?)
    && (AtDeviceCall(eff.pc) ==> eff.note.ArmReturnedTrue?)
    && (eff.note.DeviceCalled? ==> AtDeviceCall(pc))
  }

  lemma UpdateKeepsDiscipline(fence: Option<Code>, exec: Exec, u: UpdatePc, c: Choice)
    ensures ShotDiscipline(fence, Update(u), UpdateStep(fence, exec, u, c))
  {}

  lemma AbortKeepsDiscipline(fence: Option<Code>, exec: Exec, b: AbortPc, c: Choice)
    ensures ShotDiscipline(fence, Abort(b), AbortStep(fence, exec, b, c))
  {}

  lemma StepKeepsDiscipline(fence: Option<Code>, exec: Exec, pc: Pc, c: Choice)
    ensures ShotDiscipline(fence, pc, LocalStep(fence, exec, pc, c))
  {
    match pc
    case Update(u) => UpdateKeepsDiscipline(fence, exec, u, c);
    case Cancel(k) =>
    case Abort(b) => AbortKeepsDiscipline(fence, exec, b, c);
    case Refresh(r) =>
    case Done =>
  }

  lemma SingleShotEffect(s: State, a: nat, eff: Effect)
    requires SingleShot(s) && a in s.actors
    requires ShotDiscipline(s.fence, s.actors[a], eff)
    ensures SingleShot(ApplyEffect(s, a, eff))
  {
    var t := ApplyEffect(s, a, eff);
    assert ClaimantOk(s, a, s.actors[a]);
    forall b <- t.actors ensures ClaimantOk(t, b, t.actors[b]) {
      assert b in s.actors && ClaimantOk(s, b, s.actors[b]);
    }
  }

  lemma SingleShotNext(s: State, m: Move)
    requires SingleShot(s)
    ensures SingleShot(Next(s, m))
  {
    match m
    case Spawn(entry) =>
    case Step(a, c) =>
      if a in s.actors {
        StepKeepsDiscipline(s.fence, s.exec, s.actors[a], c);
        SingleShotEffect(s, a, LocalStep(s.fence, s.exec, s.actors[a], c));
      }
    case Crash(a) =>
      if a in s.actors {
        SingleShotEffect(s, a, Effect(s.fence, s.exec, Done, Quiet));
      }
  }

  lemma {:induction false} SingleShotRun(s: State, moves: seq<Move>)
    requires SingleShot(s)
    ensures SingleShot(Run(s, moves))
    decreases |moves|
  {
    if moves != [] {
      SingleShotNext(s, moves[0]);
      SingleShotRun(Next(s, moves[0]), moves[1..]);
    }
  }

  /**
   Whatever confirmations, cancellations, refreshes, recoveries, crashes and store failures occur, and
   whatever the device answers: the device is called at most once, and only by the invocation that
   committed the only NOT_ARMED claim and whose own NOT_ARMED to UNCERTAIN swap returned true.
   */
  lemma {:induction false} FiresAtMostOnce(moves: seq<Move>)
    ensures var s := Run(FRESH, moves);
            && |s.fires| <= 1
            && |s.claims| <= 1
            && forall a <- s.fires :: s.arms == [a] && s.claims == [a]
  {
    SingleShotRun(FRESH, moves);
  }

  // ---------------------------------------------------------------------------------------------------
  // A shot and a stand-down exclude each other
  // ---------------------------------------------------------------------------------------------------

  /** A fence code from before, or instead of, a dispatch. */
  predicate IsReserved(code: Code) {
    code.NotArmed? || IsStandDown(code)
  }

  /** Program points of the armed invocation between its arming swap and the settling of the fence. */
  predicate HoldsArmedFence(pc: Pc) {
    pc.Update? && (pc.u.UpdateCallDevice? || pc.u.UpdateAwaitDevice? || pc.u.UpdateStoreMission?
                   || pc.u.UpdateAnnounce? || pc.u.UpdateSettle? || pc.u.UpdatePersistRejection?
                   || pc.u.UpdateSettleRejection?)
  }

  predicate WasArmed(pc: Pc) {
    HoldsArmedFence(pc) || (pc.Update? && (pc.u.UpdateReadWinner? || pc.u.UpdatePersistUncertain?))
  }

  predicate UpdateFits(fence: Option<Code>, pc: UpdatePc) {
    match pc
    case UpdateReplayCancel(_, code) => IsCancellation(code) && fence == Some(code)
    case UpdatePrepare(_) => fence.Some? && IsReserved(fence.value)
    case UpdateArm(e) => fence.Some? && IsReserved(fence.value) && e.state.Starting?
    case UpdateCallDevice(e) => fence == Some(Uncertain) && e.state.Starting?
    case UpdateAwaitDevice(e) => fence == Some(Uncertain) && e.state.Starting?
    case UpdateStoreMission(e) => fence == Some(Uncertain) && e.state.Starting?
    case UpdateAnnounce(_) => fence == Some(Uncertain)
    case UpdateSettle(_) => fence == Some(Uncertain)
    case UpdatePersistRejection(_) => fence == Some(Uncertain)
    case UpdateSettleRejection => fence == Some(Uncertain)
    case _ => true
  }

  predicate CancelFits(fence: Option<Code>, pc: CancelPc) {
    match pc
    case CancelClaim(_, code) => IsCancellation(code)
    case CancelSwap(_, code) => IsCancellation(code)
    case CancelReload(_, code) => IsCancellation(code) && fence == Some(code)
    case CancelPersist(_, code) => IsCancellation(code) && fence == Some(code)
    case _ => true
  }

  predicate AbortFits(fence: Option<Code>, pc: AbortPc) {
    && fence.Some?
    && (IsReserved(fence.value) || fence.value.Uncertain?)
    && (pc.AbortReload? && pc.winner.Some? && IsCancellation(pc.winner.value) ==> fence == pc.winner)
    && (pc.AbortPersist? ==> IsStandDown(pc.code) && (IsCancellation(pc.code) ==> fence == Some(pc.code)))
  }

  /** What an invocation at `pc` may rely on about the fence. */
  predicate FenceFits(fence: Option<Code>, pc: Pc) {
    match pc
    case Update(u) => UpdateFits(fence, u)
    case Cancel(k) => CancelFits(fence, k)
    case Abort(b) => AbortFits(fence, b)
    case Refresh(r) => r.FencePersist? ==> IsStandDown(r.code) && fence == Some(r.code)
    case Done => true
  }

  /** The only ways one step may move the fence. */
  predicate FenceMoves(fence: Option<Code>, pc: Pc, eff: Effect) {
    || eff.fence == fence
    || (fence.None? && eff.fence == Some(NotArmed) && eff.note.ClaimCommitted?)
    || (fence.None? && eff.fence.Some? && IsCancellation(eff.fence.value))
    || (fence == Some(NotArmed) && FenceStandsDown(eff.fence))
    || (fence == Some(NotArmed) && eff.fence == Some(Uncertain) && HoldsClaim(pc))
    || (fence == Some(Uncertain) && eff.fence == Some(Aborted) && pc.Abort?)
    || (fence == Some(Uncertain) && eff.fence.Some? && !IsReserved(eff.fence.value) && HoldsArmedFence(pc))
  }

  /** A stand-down reaches the store only behind a stand-down fence or from the aborting claimant. */
  predicate WritesFit(eff: Effect, pc: Pc) {
    eff.note.Wrote? && ShowsStandDown(eff.note.e) ==> FenceStandsDown(eff.fence) || pc.Abort?
  }

  predicate StepFits(fence: Option<Code>, pc: Pc, eff: Effect) {
    && FenceFits(eff.fence, eff.pc)
    && FenceMoves(fence, pc, eff)
    && WritesFit(eff, pc)
    && (eff.note.ArmReturnedTrue? ==> fence == Some(NotArmed) && eff.fence == Some(Uncertain))
    && (eff.note.ClaimCommitted? ==> eff.fence == Some(NotArmed))
    && (WasArmed(eff.pc) ==> WasArmed(pc) || eff.note.ArmReturnedTrue?)
    && (pc.Abort? || pc.Done? ==> eff.pc.Abort? || eff.pc.Done?)
  }

  lemma UpdateStepFits(fence: Option<Code>, exec: Exec, u: UpdatePc, c: Choice)
    requires UpdateFits(fence, u)
    ensures StepFits(fence, Update(u), UpdateStep(fence, exec, u, c))
  {}

  lemma CancelStepFits(fence: Option<Code>, exec: Exec, k: CancelPc, c: Choice)
    requires CancelFits(fence, k)
    ensures StepFits(fence, Cancel(k), CancelStep(fence, exec, k, c))
  {}

  lemma AbortStepFits(fence: Option<Code>, exec: Exec, b: AbortPc, c: Choice)
    requires AbortFits(fence, b)
    ensures StepFits(fence, Abort(b), AbortStep(fence, exec, b, c))
  {}

  lemma RefreshStepFits(fence: Option<Code>, exec: Exec, r: RefreshPc, c: Choice)
    requires FenceFits(fence, Refresh(r))
    ensures StepFits(fence, Refresh(r), RefreshStep(fence, exec, r, c))
  {}

  lemma StepFitsFence(fence: Option<Code>, exec: Exec, pc: Pc, c: Choice)
    requires FenceFits(fence, pc)
    ensures StepFits(fence, pc, LocalStep(fence, exec, pc, c))
  {
    match pc
    case Update(u) => UpdateStepFits(fence, exec, u, c);
    case Cancel(k) => CancelStepFits(fence, exec, k, c);
    case Abort(b) => AbortStepFits(fence, exec, b, c);
    case Refresh(r) => RefreshStepFits(fence, exec, r, c);
    case Done =>
  }

  /** No shot can follow: the fence stands down, or its only claimant is aborting or gone. */
  ghost predicate Doomed(s: State) {
    || FenceStandsDown(s.fence)
    || (|s.claims| == 1 && s.claims[0] in s.actors
        && (s.actors[s.claims[0]].Abort? || s.actors[s.claims[0]].Done?))
  }

  ghost predicate Excludes(s: State) {
    && SingleShot(s)
    && (s.claims == [] && s.fence.Some? ==> IsCancellation(s.fence.value))
    && (s.arms != [] ==> s.fence.Some? && !IsReserved(s.fence.value))
    && (s.stoodDown ==> s.arms == [] && Doomed(s))
    && (forall a <- s.actors :: FenceFits(s.fence, s.actors[a]) && (WasArmed(s.actors[a]) ==> s.arms == [a]))
  }

  lemma ExcludesEffect(s: State, a: nat, c: Choice)
    requires Excludes(s) && a in s.actors
    ensures Excludes(ApplyEffect(s, a, LocalStep(s.fence, s.exec, s.actors[a], c)))
  {
    var pc := s.actors[a];
    StepKeepsDiscipline(s.fence, s.exec, pc, c);
    StepFitsFence(s.fence, s.exec, pc, c);
    ExcludesLift(s, a, LocalStep(s.fence, s.exec, pc, c));
  }

  lemma ExcludesLift(s: State, a: nat, eff: Effect)
    requires Excludes(s) && a in s.actors
    requires ShotDiscipline(s.fence, s.actors[a], eff)
    requires StepFits(s.fence, s.actors[a], eff)
    ensures Excludes(ApplyEffect(s, a, eff))
  {
    var t := ApplyEffect(s, a, eff);
    assert ClaimantOk(s, a, s.actors[a]);
    SingleShotEffect(s, a, eff);
    forall b <- t.actors
      ensures FenceFits(t.fence, t.actors[b]) && (WasArmed(t.actors[b]) ==> t.arms == [b])
    {
      assert b in s.actors && ClaimantOk(s, b, s.actors[b]) && FenceFits(s.fence, s.actors[b]);
      assert ClaimantOk(t, b, t.actors[b]);
    }
    if t.stoodDown && !s.stoodDown && !FenceStandsDown(t.fence) {
      assert s.actors[a].Abort? && s.claims == [a];
    }
  }

  lemma ExcludesNext(s: State, m: Move)
    requires Excludes(s)
    ensures Excludes(Next(s, m))
  {
    SingleShotNext(s, m);
    match m
    case Spawn(entry) =>
    case Step(a, c) =>
      if a in s.actors {
        ExcludesEffect(s, a, c);
      }
    case Crash(a) =>
      if a in s.actors {
        assert ClaimantOk(s, a, s.actors[a]);
        ExcludesLift(s, a, Effect(s.fence, s.exec, Done, Quiet));
      }
  }

  lemma {:induction false} ExcludesRun(s: State, moves: seq<Move>)
    requires Excludes(s)
    ensures Excludes(Run(s, moves))
    decreases |moves|
  {
    if moves != [] {
      ExcludesNext(s, moves[0]);
      ExcludesRun(Next(s, moves[0]), moves[1..]);
    }
  }

  /** Once a shot is fired or a stand-down is persisted, that stays part of the history. */
  lemma {:induction false} HistoryGrows(s: State, moves: seq<Move>)
    ensures s.fires <= Run(s, moves).fires && (s.stoodDown ==> Run(s, moves).stoodDown)
    decreases |moves|
  {
    if moves != [] {
      HistoryGrows(Next(s, moves[0]), moves[1..]);
    }
  }

  /**
   If a stand-down was persisted at any moment of a run, no shot was fired before it and none is fired in any
   continuation; a run in which a shot was fired never persists one.
   */
  lemma FireAndStandDownExclude(before: seq<Move>, after: seq<Move>)
    ensures Run(FRESH, before).stoodDown ==> Run(Run(FRESH, before), after).fires == []
    ensures Run(FRESH, before).fires != [] ==> !Run(Run(FRESH, before), after).stoodDown
  {
    ExcludesRun(FRESH, before);
    ExcludesRun(Run(FRESH, before), after);
    HistoryGrows(Run(FRESH, before), after);
  }
}
