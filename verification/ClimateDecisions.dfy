/**
 The decisions of the climate engine in terms of the stored fields and the reported state
 (apps/home-assistant-climate-provider/src/execution.ts:80-154, 156-232, 245-335, 407-482, store.ts:94-245).
 */
module ClimateDecisions {
  import opened Wrappers
  import opened ClimateStore
  import opened ClimateEngine

  // ------------------------------------------------------------------------------------------ observations

  /** The task's resource is configured, enabled, and still stands for the entity the task was admitted for. */
  predicate IsServed(cfg: Config, x: Execution) {
    var id := x.terms.resourceId;
    id in cfg.resources && cfg.resources[id].enabled && cfg.resources[id].entityId == x.terms.entityId
  }

  /** The report is older than the state seen at dispatch, or than the last report taken. */
  predicate IsOlder(x: Execution, s: Climate) {
    || (x.baselineAt.Some? && s.observedAt < x.baselineAt.value)
    || (x.lastObserved.Some? && s.observedAt < x.lastObserved.value.observedAt)
  }

  /** The device shows what was asked for: the power, the mode, or the temperature within a tenth of a degree. */
  predicate IsShown(desired: Desired, s: Climate) {
    match desired
    case DesiredPower(On) => s.power == PowerOn
    case DesiredPower(Off) => s.power == PowerOff
    case DesiredMode(mode) => s.hvacMode == Some(mode)
    case DesiredTemperature(t) =>
      s.targetTemperature.Some? && s.targetTemperature.value - t <= 0.1 && t - s.targetTemperature.value <= 0.1
  }

  lemma ShowsExactly(desired: Desired, s: Climate)
    ensures Shows(desired, s) <==> IsShown(desired, s)
  {}

  /** An observation leaves a record alone exactly if it does not concern a confirming task, or came before the last. */
  lemma ObservationIgnoredExactly(cfg: Config, x: Execution, s: Climate, now: int)
    ensures Observe(cfg, x, s, now) == x <==>
            || x.state != Confirming || !IsServed(cfg, x) || s.resourceId != x.terms.resourceId
            || (now < x.terms.deadlineAt && IsOlder(x, s))
  {}

  /** A taken observation is what the record remembers; it expires the task exactly at or after the deadline. */
  lemma ObservationTakenExactly(cfg: Config, x: Execution, s: Climate, now: int)
    requires x.state == Confirming && IsServed(cfg, x) && s.resourceId == x.terms.resourceId
    requires now >= x.terms.deadlineAt || !IsOlder(x, s)
    ensures var next := Observe(cfg, x, s, now);
            && next.revision == x.revision + 1 && next.updatedAt == now
            && (next.state == TechnicalFailed <==> now >= x.terms.deadlineAt)
            && (next.state == TechnicalFailed ==> next.failure == Some(ConfirmationTimeout))
            && (now < x.terms.deadlineAt ==> next.lastObserved == Some(s))
            && (now < x.terms.deadlineAt && !(s.reachable && IsShown(x.terms.desired, s)) ==>
                  next.state == Confirming && next.matchCount == Some(0) && next.candidateAt == None
                  && next.lastMatchAt == None)
            && (now < x.terms.deadlineAt && s.reachable && IsShown(x.terms.desired, s) ==>
                  next.candidateAt == (if x.candidateAt.Some? then x.candidateAt else Some(now)))
            && (next.state == Succeeded ==> next.confirmed == Some(s) && s.reachable && IsShown(x.terms.desired, s))
  {}

  /** The engine's notion of an accepted, and of a matching observation. */
  lemma AcceptsExactly(cfg: Config, x: Execution, s: Climate, now: int)
    ensures Accepts(cfg, x, s, now) <==>
            && x.state == Confirming && IsServed(cfg, x) && s.resourceId == x.terms.resourceId
            && now < x.terms.deadlineAt && !IsOlder(x, s)
    ensures Matches(x, s) <==> s.reachable && IsShown(x.terms.desired, s)
  {}

  // ------------------------------------------------------------------------------------------ what may be asked

  /** A mode must be allowed and offered, a temperature within the bounds of the resource and of the device. */
  predicate IsPossible(r: Resource, desired: Desired, s: Climate) {
    match desired
    case DesiredPower(_) => true
    case DesiredMode(mode) => mode in r.modes && mode in s.supportedModes
    case DesiredTemperature(t) =>
      && r.minimum <= t <= r.maximum
      && (s.minTemperature.Some? ==> s.minTemperature.value <= t)
      && (s.maxTemperature.Some? ==> t <= s.maxTemperature.value)
  }

  /** Asking for power, or for a mode while the device is off, needs the gate for power. */
  predicate NeedsPowerGate(desired: Desired, s: Climate) {
    desired.DesiredPower? || (desired.DesiredMode? && s.power == PowerOff)
  }

  lemma PossibleExactly(r: Resource, desired: Desired, s: Climate)
    ensures DesiredAllowed(r, desired, s) <==> IsPossible(r, desired, s)
    ensures PowerIntent(desired, s).Some? <==> NeedsPowerGate(desired, s)
    ensures desired.DesiredPower? ==> PowerIntent(desired, s) == Some(desired.power)
    ensures desired.DesiredMode? && s.power == PowerOff ==> PowerIntent(desired, s) == Some(On)
  {}

  /** The guard blocks a power intent exactly if the last one pointed the other way less than 300000 ms ago. */
  lemma BlockedExactly(x: Execution, guard: Option<Guard>, observed: Climate, intent: Option<Power>, c: Choice)
    requires AwaitsDispatch(x)
    ensures var o := MarkIntent(Some(x), guard, observed, intent, c);
            if intent.Some? && guard.Some? && guard.value.power != intent.value
               && c.t1 - guard.value.attemptedAt < 300000
            then o.record == Some(Failed(x, OppositePowerIntervalActive, c.t2)) && o.guard == guard
            else o.note == IntentWritten(intent, c.t2)
                 && o.guard == if intent.Some? then Some(Guard(intent.value, c.t2, x.terms.taskId)) else guard
  {}

  // ------------------------------------------------------------------------------------------ starting

  /** What the input of a start asks for; a mode or temperature it does not carry is none. */
  predicate AsksFor(i: StartInput, desired: Desired) {
    match i.operation
    case SetPower => desired == DesiredPower(if i.power == Some(On) then On else Off)
    case SetHvacMode => desired.DesiredMode? && (i.hvacMode == Some(desired.hvacMode)
                                                 || (i.hvacMode == None && desired.hvacMode == ""))
    case SetTemperature => desired.DesiredTemperature? && i.temperature == Some(desired.temperature)
  }

  /** A start is turned away at once for its mode, a closed gate, or a resource that is not served. */
  predicate MayStart(cfg: Config, i: StartInput) {
    && i.context.live && cfg.sideEffects && (i.operation == SetPower ==> cfg.powerEffects)
    && i.resourceId in cfg.resources && cfg.resources[i.resourceId].enabled
  }

  lemma StartLockedExactly(cfg: Config, record: Option<Execution>, guard: Option<Guard>, i: StartInput, c: Choice)
    ensures var o := StartStep(cfg, record, guard, StartLocked(i), c);
            && o.record == record && o.guard == guard
            && (record == None ==> (o.pc == Starting(StartAwaitState(i)) <==> MayStart(cfg, i)))
            && (record == None && !MayStart(cfg, i) ==> o.pc == Finished(true))
            && (record.Some? ==> o.pc == Finished(record.value.terms.context.identity != i.context.identity))
  {}

  /** The device can take what a start asks for, as far as it has reported. */
  predicate CanTake(cfg: Config, i: StartInput, desired: Desired, s: Climate)
    requires i.resourceId in cfg.resources
  {
    && AsksFor(i, desired) && s.reachable
    && IsPossible(cfg.resources[i.resourceId], desired, s)
    && (NeedsPowerGate(desired, s) ==> cfg.powerEffects)
  }

  lemma AsksForOneThing(i: StartInput, desired: Desired)
    ensures AsksFor(i, desired) <==> DesiredOf(i) == Some(desired)
  {
    match i.operation
    case SetPower =>
      assert i.power.Some? ==> i.power.value.On? || i.power.value.Off?;
    case SetHvacMode =>
      assert desired.DesiredMode? ==> desired == DesiredMode(desired.hvacMode);
    case SetTemperature =>
      assert desired.DesiredTemperature? ==> desired == DesiredTemperature(desired.temperature);
  }

  /** A record as a start of `i` admits it, having seen `s`, at `now`. */
  predicate IsAdmitted(cfg: Config, i: StartInput, s: Climate, now: int, x: Execution)
    requires i.resourceId in cfg.resources
  {
    && x.terms.taskId == i.taskId && x.terms.operation == i.operation && x.terms.resourceId == i.resourceId
    && x.terms.entityId == cfg.resources[i.resourceId].entityId && x.terms.context == i.context
    && AsksFor(i, x.terms.desired)
    && x.terms.createdAt == now && x.updatedAt == now && x.terms.deadlineAt == now + cfg.policy.timeoutMs
    && x.terms.policy == Some(cfg.policy)
    && x.state == PendingSideEffect && !x.dispatched && x.dispatchState == Some(NotStarted) && x.revision == 1
    && x.baselineAt == Some(s.observedAt) && x.lastObserved == Some(s)
    && x.failure == None && x.candidateAt == None && x.matchCount == Some(0) && x.lastMatchAt == None
    && x.confirmed == None
  }

  /** A start admits a record exactly if the device can take what it asks for, and then just that. */
  lemma StartAdmitsExactly(cfg: Config, guard: Option<Guard>, i: StartInput, c: Choice)
    requires i.resourceId in cfg.resources
    ensures var o := StartStep(cfg, None, guard, StartAwaitState(i), c);
            var s := c.observed.(resourceId := i.resourceId);
            && (o.record.Some? <==> c.resolved && exists desired :: CanTake(cfg, i, desired, s))
            && (o.record.Some? ==> IsAdmitted(cfg, i, s, c.t0, o.record.value)
                                   && o.pc == Dispatching(Enter(o.record.value)))
            && (o.record == None ==> o.pc == Finished(true))
  {
    var s := c.observed.(resourceId := i.resourceId);
    forall desired ensures AsksFor(i, desired) <==> DesiredOf(i) == Some(desired) {
      AsksForOneThing(i, desired);
    }
    if DesiredOf(i).Some? {
      PossibleExactly(cfg.resources[i.resourceId], DesiredOf(i).value, s);
      assert CanTake(cfg, i, DesiredOf(i).value, s) <==>
             s.reachable && IsPossible(cfg.resources[i.resourceId], DesiredOf(i).value, s)
             && (NeedsPowerGate(DesiredOf(i).value, s) ==> cfg.powerEffects);
    }
  }

  // ------------------------------------------------------------------------------------------ dispatching

  /** `advance` changes state, revision and time of a record that goes on, and nothing of one that is over. */
  lemma AdvanceExactly(x: Execution, state: TaskState, now: int)
    ensures Advance(x, state, now)
         == if x.state == Succeeded || x.state == TechnicalFailed then x
            else x.(state := state, revision := x.revision + 1, updatedAt := now)
  {}

  /** A call that throws may have had its effect: the task confirms, and the record goes on saying just the intent. */
  lemma FailedCallConfirms(cfg: Config, x: Execution, guard: Option<Guard>, c: Choice)
    requires HasIntent(x) && c.storeOk && !c.resolved
    ensures var o := TaskStep(cfg, Some(x), guard, Dispatching(AwaitCall(x)), c);
            && o.record == Some(x.(state := Confirming, revision := x.revision + 1, updatedAt := c.t0))
            && o.note == Nothing && o.pc.Finished?
  {}

  /** A device that already shows the desired state is not called, but observed. */
  lemma ShownIsNotCalled(cfg: Config, x: Execution, guard: Option<Guard>, c: Choice, d: Choice)
    requires AwaitsDispatch(x) && c.storeOk && d.storeOk && c.resolved && d.resolved && c.t0 < x.terms.deadlineAt
    requires x.terms.resourceId in cfg.resources
    requires var s := c.observed.(resourceId := x.terms.resourceId);
             && s.reachable && IsShown(x.terms.desired, s)
             && IsPossible(cfg.resources[x.terms.resourceId], x.terms.desired, s)
             && (NeedsPowerGate(x.terms.desired, s) ==> cfg.powerEffects)
    ensures var s := c.observed.(resourceId := x.terms.resourceId);
            var confirming := x.(state := Confirming, revision := x.revision + 1, updatedAt := c.t1,
                                 baselineAt := Some(s.observedAt), lastObserved := Some(s));
            var o := TaskStep(cfg, Some(x), guard, Dispatching(AwaitState(x)), c);
            && o.record == Some(confirming) && o.guard == guard && o.note == Nothing
            && var o' := TaskStep(cfg, o.record, o.guard, o.pc, d);
               o'.record == Some(Observe(cfg, confirming, s, d.t0)) && o'.pc.Finished?
  {
    ShowsExactly(x.terms.desired, c.observed.(resourceId := x.terms.resourceId));
    PossibleExactly(cfg.resources[x.terms.resourceId], x.terms.desired,
                    c.observed.(resourceId := x.terms.resourceId));
  }

  // ------------------------------------------------------------------------------------------ polling

  /** A poll fails a confirming task whose resource is no longer served, before the deadline for that reason. */
  lemma PollFailsUnserved(cfg: Config, x: Execution, guard: Option<Guard>, c: Choice)
    requires x.state == Confirming && !IsServed(cfg, x) && c.storeOk
    ensures TaskStep(cfg, Some(x), guard, Polling(PollLocked), c).record
         == Some(x.(state := TechnicalFailed, revision := x.revision + 1, updatedAt := c.t1,
                    failure := Some(if c.t0 >= x.terms.deadlineAt then ConfirmationTimeout
                                    else ResourceNotAllowlisted)))
  {}

  /** A poll that nothing disturbs takes what the device reports as an observation of its task. */
  lemma PollObserves(cfg: Config, x: Execution, guard: Option<Guard>, c0: Choice, c1: Choice, c2: Choice)
    requires x.state == Confirming && IsServed(cfg, x) && c0.t0 < x.terms.deadlineAt
    requires c0.storeOk && c1.storeOk && c2.storeOk && c1.resolved && c2.resolved
    ensures var s := c1.observed.(resourceId := x.terms.resourceId);
            var o0 := TaskStep(cfg, Some(x), guard, Polling(PollLocked), c0);
            var o1 := TaskStep(cfg, o0.record, o0.guard, o0.pc, c1);
            var o2 := TaskStep(cfg, o1.record, o1.guard, o1.pc, c2);
            && o1.record == Some(x) && o1.pc == Polling(PollAwaitTelemetry(s))
            && o2.record == Some(Observe(cfg, x, s, c2.t0)) && o2.pc == Polling(PollCheckDeadline)
  {}

  /** A store that throws ends an operation without a trace; only a poll goes on, to look at the deadline. */
  lemma StoreFailureEnds(cfg: Config, record: Option<Execution>, guard: Option<Guard>, pc: Pc, c: Choice)
    requires !c.storeOk && !pc.Finished?
    ensures TaskStep(cfg, record, guard, pc, c)
         == Out(record, guard,
                if pc.Polling? && pc.poll.PollAwaitTelemetry? then Polling(PollCheckDeadline) else Finished(true),
                Nothing)
  {}

  /** An observation under the lock of its task is taken at once. */
  lemma LockedObservationObserves(cfg: Config, x: Execution, guard: Option<Guard>, s: Climate, c: Choice)
    requires c.storeOk
    ensures TaskStep(cfg, Some(x), guard, Polling(ObserveLocked(s)), c).record == Some(Observe(cfg, x, s, c.t0))
  {}

  // ------------------------------------------------------------------------------------------ recovery

  /** What recovery does with a stored record, by its fields. */
  lemma RecoveryDecides(cfg: Config, x: Execution, guard: Option<Guard>, c: Choice)
    requires ValidExecution(x)
    ensures var o := RecoverStep(cfg, Some(x), guard, RecoverLocked(x), c);
            var open := x.state == PendingSideEffect || x.state == Confirming;
            var dispatchable := x.state == PendingSideEffect && x.dispatchState == Some(NotStarted);
            var gated := !cfg.sideEffects || (x.terms.desired.DesiredPower? && !cfg.powerEffects);
            var unknown := x.state == PendingSideEffect && x.dispatchState == None && !x.dispatched;
            var hopeless := c.t0 >= x.terms.deadlineAt || !IsServed(cfg, x) || !x.terms.context.live || unknown
                            || (dispatchable && gated);
            && (!open ==> o.record == Some(x) && o.pc == Finished(false))
            && (open && hopeless ==> o.record.value.state == TechnicalFailed && o.pc.Finished?)
            && (open && !hopeless && dispatchable ==> o.record == Some(x) && o.pc == Dispatching(Enter(x)))
            && (open && !hopeless && x.state == Confirming ==> o.record == Some(x) && o.pc == Polling(PollLocked))
            && (open && !hopeless && x.state == PendingSideEffect && !dispatchable ==>
                  o.record.value.state == Confirming && o.pc == Recovering(RecoverAwaitTelemetry))
  {}

  /** The reason a hopeless record fails for, the first that applies. */
  lemma RecoveryFailsFor(cfg: Config, x: Execution, guard: Option<Guard>, c: Choice)
    requires x.state == PendingSideEffect || x.state == Confirming
    ensures var o := RecoverStep(cfg, Some(x), guard, RecoverLocked(x), c);
            o.record.Some? && o.record.value.state == TechnicalFailed ==>
              o.record.value.failure == Some(
                if c.t0 >= x.terms.deadlineAt then ConfirmationTimeout
                else if !IsServed(cfg, x) then ResourceNotAllowlisted
                else if !x.terms.context.live then ExecutionModeNotLive
                else if x.dispatchState == None then SideEffectStateUncertain
                else if !cfg.sideEffects then SideEffectsGateClosed
                else PowerSideEffectsGateClosed)
  {}

  /** Recovery of a task that may have had its effect goes on with a poll. */
  lemma RecoveryPolls(cfg: Config, record: Option<Execution>, guard: Option<Guard>, c: Choice)
    requires c.storeOk && c.resolved
    ensures TaskStep(cfg, record, guard, Recovering(RecoverAwaitTelemetry), c).pc == Polling(PollLocked)
  {}

  // ------------------------------------------------------------------------------------------ the validator

  predicate IsSound(p: Policy) {
    0 < p.stableMs < p.timeoutMs && p.matches >= 2
  }

  /** What `validExecution` accepts, field by field. */
  lemma ValidExactly(x: Execution)
    ensures ValidExecution(x) <==>
            && x.terms.taskId != "" && ValidEntity(x.terms.entityId)
            && (x.terms.operation == SetPower <==> x.terms.desired.DesiredPower?)
            && (x.terms.operation == SetHvacMode <==> x.terms.desired.DesiredMode?)
            && (x.terms.policy.Some? ==> IsSound(x.terms.policy.value))
            && (x.dispatchState == Some(NotStarted) ==> !x.dispatched)
            && (x.dispatchState == Some(IntentPersisted) || x.dispatchState == Some(CallReturned) ==> x.dispatched)
            && (x.matchCount.Some? ==> x.matchCount.value >= 0)
            && (x.candidateAt.Some? <==> x.matchCount.Some? && x.matchCount.value > 0)
            && (x.lastMatchAt.Some? <==> x.matchCount.Some? && x.matchCount.value > 0)
            && (x.candidateAt.Some? && x.lastMatchAt.Some? ==>
                  && x.state != PendingSideEffect
                  && x.terms.createdAt <= x.candidateAt.value && x.candidateAt.value <= x.lastMatchAt.value
                  && x.lastMatchAt.value <= x.updatedAt && x.lastMatchAt.value < x.terms.deadlineAt)
            && (x.confirmed.Some? <==> x.state == Succeeded)
            && (x.confirmed.Some? ==>
                  && x.confirmed.value.resourceId == x.terms.resourceId && x.confirmed.value.reachable
                  && IsShown(x.terms.desired, x.confirmed.value))
  {}
}
