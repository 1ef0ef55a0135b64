/**
 The climate execution engine (apps/home-assistant-climate-provider/src/execution.ts), one task at a time: what
 each stretch of code between two awaits does to the task's record and to the shared power guard.
 */
module ClimateEngine {
  import opened Wrappers
  import opened ClimateStore

  const OPPOSITE_POWER_INTERVAL_MS := 300000

  datatype Resource = Resource(entityId: string, enabled: bool, minimum: real, maximum: real, modes: seq<string>)

  datatype Config = Config(sideEffects: bool, powerEffects: bool, resources: map<string, Resource>, policy: Policy)

  /** What the constructor and the resource loader accept. */
  predicate ValidConfig(cfg: Config) {
    && ValidPolicy(cfg.policy)
    && forall id <- cfg.resources :: ValidEntity(cfg.resources[id].entityId)
  }

  /** The policy the constructor derives from a bare timeout. */
  function DefaultPolicy(timeoutMs: int): Policy {
    var third := if timeoutMs >= 0 then timeoutMs / 3 else 0;
    var atLeastOne := if third < 1 then 1 else third;
    Policy(timeoutMs, if atLeastOne < 5000 then atLeastOne else 5000, 3)
  }

  lemma DefaultPolicyAccepted(timeoutMs: int)
    ensures ValidPolicy(DefaultPolicy(timeoutMs)) <==> timeoutMs >= 2
  {}

  // ------------------------------------------------------------------------------------------ pure parts

  function PowerIntent(desired: Desired, observed: Climate): Option<Power> {
    if desired.DesiredPower? then Some(desired.power)
    else if desired.DesiredMode? && observed.power.PowerOff? then Some(On)
    else None
  }

  function Advance(x: Execution, state: TaskState, now: int): Execution {
    if IsTerminal(x.state) then x else x.(state := state, revision := x.revision + 1, updatedAt := now)
  }

  function Failed(x: Execution, reason: FailureReason, now: int): Execution {
    Advance(x.(failure := Some(reason)), TechnicalFailed, now)
  }

  /** `#fail`: the stored record, if any, is what fails; a terminal one is left alone. */
  function Fail(stored: Option<Execution>, x: Execution, reason: FailureReason, now: int): Option<Execution> {
    var current := if stored.Some? then stored.value else x;
    if IsTerminal(current.state) then stored else Some(Failed(current, reason, now))
  }

  predicate IsActiveResource(cfg: Config, x: Execution) {
    && x.terms.resourceId in cfg.resources
    && cfg.resources[x.terms.resourceId].enabled
    && cfg.resources[x.terms.resourceId].entityId == x.terms.entityId
  }

  predicate InRange(r: Resource, observed: Climate, t: real) {
    && r.minimum <= t <= r.maximum
    && (observed.minTemperature.Some? ==> observed.minTemperature.value <= t)
    && (observed.maxTemperature.Some? ==> t <= observed.maxTemperature.value)
  }

  /** `#validateDesiredState`, and the same checks in `#start`. */
  predicate DesiredAllowed(r: Resource, desired: Desired, observed: Climate) {
    match desired
    case DesiredPower(_) => true
    case DesiredMode(mode) => mode in r.modes && mode in observed.supportedModes
    case DesiredTemperature(t) => InRange(r, observed, t)
  }

  /** An observation counts unless it is older than the dispatch baseline or the last one taken. */
  predicate IsStale(x: Execution, s: Climate) {
    || (x.baselineAt.Some? && s.observedAt < x.baselineAt.value)
    || (x.lastObserved.Some? && s.observedAt < x.lastObserved.value.observedAt)
  }

  /** The observations that take part in the confirmation of `x`. */
  predicate Accepts(cfg: Config, x: Execution, s: Climate, now: int) {
    && x.state.Confirming? && IsActiveResource(cfg, x) && x.terms.resourceId == s.resourceId
    && now < x.terms.deadlineAt && !IsStale(x, s)
  }

  predicate Matches(x: Execution, s: Climate) {
    s.reachable && Shows(x.terms.desired, s)
  }

  /** The matching window after one more matching observation, execution.ts:449-467. */
  function Candidate(x: Execution, s: Climate, now: int): Execution {
    var known := if x.matchCount.Some? then x.matchCount.value else 1;
    var later := x.lastMatchAt.Some? && now > x.lastMatchAt.value;
    x.(candidateAt := if x.candidateAt.Some? then x.candidateAt else Some(now),
       matchCount := Some(if x.candidateAt.None? then 1 else if later then known + 1 else known),
       lastMatchAt := if later || x.lastMatchAt.None? then Some(now) else x.lastMatchAt,
       lastObserved := Some(s))
  }

  /** `#applyObservation`, execution.ts:407-482. */
  function Observe(cfg: Config, x: Execution, s: Climate, now: int): Execution {
    if !x.state.Confirming? || !IsActiveResource(cfg, x) || x.terms.resourceId != s.resourceId then x
    else if now >= x.terms.deadlineAt then Failed(x, ConfirmationTimeout, now)
    else if IsStale(x, s) then x
    else if !Matches(x, s) then
      Advance(x.(matchCount := Some(0), candidateAt := None, lastMatchAt := None, lastObserved := Some(s)),
              Confirming, now)
    else
      var candidate := Candidate(x, s, now);
      var policy := if x.terms.policy.Some? then x.terms.policy.value else cfg.policy;
      if candidate.matchCount.value >= policy.matches && now - candidate.candidateAt.value >= policy.stableMs
      then Advance(candidate.(confirmed := Some(s)), Succeeded, now)
      else Advance(candidate, Confirming, now)
  }

  // ------------------------------------------------------------------------------------------ steps

  datatype StartInput = StartInput(
    taskId: string, operation: Operation, resourceId: string, power: Option<Power>, hvacMode: Option<string>,
    temperature: Option<real>, context: Context)

  /** The Home Assistant service that carries out what a task asks for. */
  datatype Service = TurnOn | TurnOff | SetMode(mode: string) | SetTarget(temperature: real)

  function ServiceFor(desired: Desired): Service {
    match desired
    case DesiredPower(power) => if power.On? then TurnOn else TurnOff
    case DesiredMode(mode) => SetMode(mode)
    case DesiredTemperature(t) => SetTarget(t)
  }

  datatype StartPc =
    | StartLocked(input: StartInput)
    | StartAwaitState(input: StartInput)

  /** At `Enter` nothing is awaited: it is the point between two writes of the same stretch, where a crash may fall. */
  datatype DispatchPc =
    | Enter(x: Execution)
    | AwaitState(x: Execution)
    | AwaitTelemetry(s: Climate)
    | AwaitHook(x: Execution)
    | AwaitCall(x: Execution)
    | AwaitReturnHook(x: Execution)

  datatype PollPc =
    | PollLocked
    | PollAwaitState
    | PollAwaitTelemetry(s: Climate)
    | PollCheckDeadline
    | ObserveLocked(s: Climate)

  datatype RecoverPc =
    | RecoverLocked(x: Execution)
    | RecoverAwaitTelemetry

  /** Where the one operation that holds a task's lock is waiting, with its live local variables. */
  datatype Pc =
    | Starting(start: StartPc)
    | Dispatching(dispatch: DispatchPc)
    | Polling(poll: PollPc)
    | Recovering(recovery: RecoverPc)
    | Finished(threw: bool)

  /**
   The outcome of the awaited promise, the state Home Assistant reported, whether the store calls and the last
   telemetry call of the step return or throw, and the clock readings of the step in order.
   */
  datatype Choice = Choice(
    resolved: bool, observed: Climate, storeOk: bool, telemetryOk: bool, t0: int, t1: int, t2: int, t3: int)

  datatype Note =
    | Nothing
    | IntentWritten(power: Option<Power>, attemptedAt: int)
    | ServiceCalled(entityId: string, service: Service)
    | ObservationTaken(at: int, matches: bool)

  datatype Out = Out(record: Option<Execution>, guard: Option<Guard>, pc: Pc, note: Note)

  function Stay(record: Option<Execution>, guard: Option<Guard>, pc: Pc): Out {
    Out(record, guard, pc, Nothing)
  }

  /** The checks at the top of `#dispatch`, execution.ts:246-259. */
  function DispatchEntry(cfg: Config, record: Option<Execution>, guard: Option<Guard>, x: Execution, c: Choice): Out {
    if x.dispatchState != Some(NotStarted) || x.dispatched then Stay(record, guard, Finished(false))
    else if c.t0 >= x.terms.deadlineAt then
      Stay(Fail(record, x, ConfirmationTimeout, c.t1), guard, Finished(!c.telemetryOk))
    else if !x.terms.context.live || !cfg.sideEffects
            || (x.terms.desired.DesiredPower? && !cfg.powerEffects) || !IsActiveResource(cfg, x)
    then Stay(record, guard, Finished(true))
    else Stay(record, guard, Dispatching(AwaitState(x)))
  }

  function DesiredOf(i: StartInput): Option<Desired> {
    match i.operation
    case SetPower => Some(DesiredPower(if i.power.Some? then i.power.value else Off))
    case SetHvacMode => Some(DesiredMode(if i.hvacMode.Some? then i.hvacMode.value else ""))
    case SetTemperature => if i.temperature.Some? then Some(DesiredTemperature(i.temperature.value)) else None
  }

  function NewExecution(cfg: Config, i: StartInput, desired: Desired, observed: Climate, now: int): Execution
    requires i.resourceId in cfg.resources
  {
    Execution(Terms(i.taskId, i.operation, i.resourceId, cfg.resources[i.resourceId].entityId, i.context, desired,
                    now, now + cfg.policy.timeoutMs, Some(cfg.policy)),
              PendingSideEffect, false, Some(NotStarted), None, 1, now,
              Some(observed.observedAt), None, Some(0), None, Some(observed), None)
  }

  /** `#start`, execution.ts:80-154. */
  function StartStep(cfg: Config, record: Option<Execution>, guard: Option<Guard>, pc: StartPc, c: Choice): Out
  {
    var i := pc.input;
    if pc.StartLocked? then
      // An existing record is returned or the call is refused for a different identity; nothing changes.
      if record.Some? then Stay(record, guard, Finished(record.value.terms.context.identity != i.context.identity))
      else if !i.context.live || !cfg.sideEffects || (i.operation.SetPower? && !cfg.powerEffects)
              || i.resourceId !in cfg.resources || !cfg.resources[i.resourceId].enabled
      then Stay(record, guard, Finished(true))
      else Stay(record, guard, Starting(StartAwaitState(i)))
    else if !c.resolved || i.resourceId !in cfg.resources then Stay(record, guard, Finished(true))
    else
      var observed := c.observed.(resourceId := i.resourceId);
      var desired := DesiredOf(i);
      if !observed.reachable || desired.None?
         || !DesiredAllowed(cfg.resources[i.resourceId], desired.value, observed)
         || (PowerIntent(desired.value, observed).Some? && !cfg.powerEffects)
      then Stay(record, guard, Finished(true))
      else
        var x := NewExecution(cfg, i, desired.value, observed, c.t0);
        Stay(Some(x), guard, Dispatching(Enter(x)))
  }

  predicate GuardBlocks(guard: Option<Guard>, intent: Option<Power>, now: int) {
    intent.Some? && guard.Some? && guard.value.power != intent.value
    && now - guard.value.attemptedAt < OPPOSITE_POWER_INTERVAL_MS
  }

  /** The atomic `store.update` of `#dispatch`, execution.ts:292-335. */
  function MarkIntent(record: Option<Execution>, guard: Option<Guard>, observed: Climate, intent: Option<Power>,
                      c: Choice): Out
  {
    if record.None? || !record.value.state.PendingSideEffect? || record.value.dispatchState != Some(NotStarted)
       || record.value.dispatched
    then Stay(record, guard, Finished(false))
    else
      var latest := record.value;
      if GuardBlocks(guard, intent, c.t1) then
        Stay(Some(Failed(latest, OppositePowerIntervalActive, c.t2)), guard, Finished(!c.telemetryOk))
      else
        var marked := Advance(latest.(dispatched := true, dispatchState := Some(IntentPersisted),
                                      baselineAt := Some(observed.observedAt), matchCount := Some(0),
                                      lastObserved := Some(observed)),
                              PendingSideEffect, c.t3);
        Out(Some(marked),
            if intent.Some? then Some(Guard(intent.value, c.t2, latest.terms.taskId)) else guard,
            Dispatching(AwaitHook(marked)),
            IntentWritten(intent, c.t2))
  }

  /** `#dispatch`, execution.ts:245-374. */
  function DispatchStep(cfg: Config, record: Option<Execution>, guard: Option<Guard>, pc: DispatchPc, c: Choice): Out {
    match pc
    case Enter(x) => DispatchEntry(cfg, record, guard, x, c)
    case AwaitState(x) =>
      if !c.resolved then Stay(record, guard, Finished(true))
      else if c.t0 >= x.terms.deadlineAt then
        Stay(Fail(record, x, ConfirmationTimeout, c.t1), guard, Finished(!c.telemetryOk))
      else
        var observed := c.observed.(resourceId := x.terms.resourceId);
        var intent := PowerIntent(x.terms.desired, observed);
        if !observed.reachable || x.terms.resourceId !in cfg.resources
           || !DesiredAllowed(cfg.resources[x.terms.resourceId], x.terms.desired, observed)
           || (intent.Some? && !cfg.powerEffects)
        then Stay(record, guard, Finished(true))
        else if Shows(x.terms.desired, observed) then
          Stay(Some(Advance(x.(baselineAt := Some(observed.observedAt), lastObserved := Some(observed)),
                            Confirming, c.t1)),
               guard, Dispatching(AwaitTelemetry(observed)))
        else MarkIntent(record, guard, observed, intent, c)
    case AwaitTelemetry(s) =>
      if !c.resolved || record.None? then Stay(record, guard, Finished(true))
      else ObserveStep(cfg, record.value, guard, s, c, Finished(!c.telemetryOk))
    case AwaitHook(x) =>
      if !c.resolved then Stay(record, guard, Finished(true))
      else if c.t0 >= x.terms.deadlineAt then
        Stay(Fail(record, x, ConfirmationTimeout, c.t1), guard, Finished(!c.telemetryOk))
      else Out(record, guard, Dispatching(AwaitCall(x)), ServiceCalled(x.terms.entityId, ServiceFor(x.terms.desired)))
    case AwaitCall(x) =>
      if c.resolved then Stay(record, guard, Dispatching(AwaitReturnHook(x)))
      else Stay(Some(Advance(x, Confirming, c.t0)), guard, Finished(!c.telemetryOk))
    case AwaitReturnHook(x) =>
      if !c.resolved then Stay(record, guard, Finished(true))
      else Stay(Some(Advance(x.(dispatchState := Some(CallReturned)), Confirming, c.t0)), guard,
                Finished(!c.telemetryOk))
  }

  function ObserveStep(cfg: Config, x: Execution, guard: Option<Guard>, s: Climate, c: Choice, pc: Pc): Out {
    Out(Some(Observe(cfg, x, s, c.t0)), guard, pc,
        if Accepts(cfg, x, s, c.t0) then ObservationTaken(c.t0, Matches(x, s)) else Nothing)
  }

  /** `#poll` and the per-task part of `observe`, execution.ts:206-243. */
  function PollStep(cfg: Config, record: Option<Execution>, guard: Option<Guard>, pc: PollPc, c: Choice): Out {
    match pc
    case PollLocked =>
      if record.None? || !record.value.state.Confirming? then Stay(record, guard, Finished(false))
      else if c.t0 >= record.value.terms.deadlineAt || !IsActiveResource(cfg, record.value) then
        Stay(Fail(record, record.value,
                  if c.t0 >= record.value.terms.deadlineAt then ConfirmationTimeout else ResourceNotAllowlisted, c.t1),
             guard, Finished(!c.telemetryOk))
      else Stay(record, guard, Polling(PollAwaitState))
    case PollAwaitState =>
      if c.resolved && record.Some?
      then Stay(record, guard, Polling(PollAwaitTelemetry(c.observed.(resourceId := record.value.terms.resourceId))))
      else Stay(record, guard, Polling(PollCheckDeadline))
    case PollAwaitTelemetry(s) =>
      if c.resolved && record.Some? then ObserveStep(cfg, record.value, guard, s, c, Polling(PollCheckDeadline))
      else Stay(record, guard, Polling(PollCheckDeadline))
    case PollCheckDeadline =>
      if record.Some? && record.value.state.Confirming? && c.t0 >= record.value.terms.deadlineAt then
        Stay(Fail(record, record.value, ConfirmationTimeout, c.t1), guard,
             Finished(!c.telemetryOk))
      else Stay(record, guard, Finished(false))
    case ObserveLocked(s) =>
      if record.None? then Stay(record, guard, Finished(false))
      else ObserveStep(cfg, record.value, guard, s, c, Finished(!c.telemetryOk))
  }

  /** Why `recover` gives up on a task, if it does. */
  function RecoveryRefusal(cfg: Config, x: Execution, now: int): Option<FailureReason> {
    if now >= x.terms.deadlineAt then Some(ConfirmationTimeout)
    else if !IsActiveResource(cfg, x) then Some(ResourceNotAllowlisted)
    else if !x.terms.context.live then Some(ExecutionModeNotLive)
    else if x.state.Confirming? then None
    else if x.dispatchState.None? && !x.dispatched then Some(SideEffectStateUncertain)
    else if x.dispatchState != Some(NotStarted) then None
    else if !cfg.sideEffects then Some(SideEffectsGateClosed)
    else if x.terms.desired.DesiredPower? && !cfg.powerEffects then Some(PowerSideEffectsGateClosed)
    else None
  }

  /** One iteration of `recover`, execution.ts:157-199. */
  function RecoverStep(cfg: Config, record: Option<Execution>, guard: Option<Guard>, pc: RecoverPc, c: Choice): Out {
    match pc
    case RecoverLocked(x) =>
      if IsTerminal(x.state) then Stay(record, guard, Finished(false))
      else
        var refusal := RecoveryRefusal(cfg, x, c.t0);
        if refusal.Some? then Stay(Fail(record, x, refusal.value, c.t1), guard, Finished(!c.telemetryOk))
        else if x.state.Confirming? then Stay(record, guard, Polling(PollLocked))
        else if x.dispatchState != Some(NotStarted) then
          Stay(Some(Advance(x, Confirming, c.t1)), guard, Recovering(RecoverAwaitTelemetry))
        else Stay(record, guard, Dispatching(Enter(x)))
    case RecoverAwaitTelemetry =>
      Stay(record, guard, if c.resolved then Polling(PollLocked) else Finished(true))
  }

  /** A store call throws before it wrote anything; only `#poll` catches that, around its observation. */
  function StoreThrew(record: Option<Execution>, guard: Option<Guard>, pc: Pc): Out {
    Stay(record, guard,
         if pc.Polling? && pc.poll.PollAwaitTelemetry? then Polling(PollCheckDeadline)
         else if pc.Finished? then pc else Finished(true))
  }

  function TaskStep(cfg: Config, record: Option<Execution>, guard: Option<Guard>, pc: Pc, c: Choice): Out {
    if c.storeOk then StoredStep(cfg, record, guard, pc, c) else StoreThrew(record, guard, pc)
  }

  function StoredStep(cfg: Config, record: Option<Execution>, guard: Option<Guard>, pc: Pc, c: Choice): Out {
    match pc
    case Starting(p) => StartStep(cfg, record, guard, p, c)
    case Dispatching(p) => DispatchStep(cfg, record, guard, p, c)
    case Polling(p) => PollStep(cfg, record, guard, p, c)
    case Recovering(p) => RecoverStep(cfg, record, guard, p, c)
    case Finished(threw) => Stay(record, guard, Finished(threw))
  }

  // ------------------------------------------------------------------------------------------ per-task facts

  /** A stored record is valid and none of its stamps lies in the future. */
  predicate RecordOk(id: string, record: Option<Execution>, clock: int) {
    record.Some? ==>
      && ValidExecution(record.value)
      && record.value.terms.taskId == id
      && record.value.terms.createdAt <= clock && record.value.updatedAt <= clock
  }

  predicate AwaitsDispatch(x: Execution) {
    x.state.PendingSideEffect? && x.dispatchState == Some(NotStarted) && !x.dispatched
  }

  predicate HasIntent(x: Execution) {
    x.state.PendingSideEffect? && x.dispatchState == Some(IntentPersisted) && x.dispatched
  }

  /** Once a service call was issued, the record says so. */
  predicate RecordsCall(record: Option<Execution>) {
    record.Some? && record.value.dispatched && record.value.dispatchState.Some?
    && !record.value.dispatchState.value.NotStarted?
  }

  predicate CallsOk(record: Option<Execution>, calls: nat) {
    calls <= 1 && (calls == 1 ==> RecordsCall(record))
  }

  predicate DispatchPcOk(record: Option<Execution>, pc: DispatchPc, calls: nat) {
    match pc
    case Enter(x) => record == Some(x) && AwaitsDispatch(x)
    case AwaitState(x) => record == Some(x) && AwaitsDispatch(x)
    case AwaitTelemetry(_) => true
    case AwaitHook(x) => record == Some(x) && HasIntent(x) && calls == 0
    case AwaitCall(x) => record == Some(x) && HasIntent(x)
    case AwaitReturnHook(x) => record == Some(x) && HasIntent(x)
  }

  /** What the holder of the lock of task `id` may rely on, thanks to the lock. */
  predicate PcOk(id: string, record: Option<Execution>, pc: Pc, calls: nat) {
    match pc
    case Starting(p) => p.input.taskId == id && (p.StartAwaitState? ==> record.None?)
    case Dispatching(p) => DispatchPcOk(record, p, calls)
    case Polling(_) => true
    case Recovering(p) => p.RecoverLocked? ==> record == Some(p.x)
    case Finished(_) => true
  }

  predicate TimesOk(c: Choice, clock: int) {
    clock <= c.t0 <= c.t1 <= c.t2 <= c.t3
  }

  /** The last observed state is not replaced by an older report. */
  predicate NoOlder(seen: Option<Climate>, later: Option<Climate>) {
    seen.Some? ==> later.Some? && seen.value.observedAt <= later.value.observedAt
  }

  predicate KeepsRecord(before: Option<Execution>, after: Option<Execution>) {
    before.Some? ==>
      && after.Some?
      && before.value.revision <= after.value.revision
      && (before.value.dispatched ==> after.value.dispatched)
      && after.value.terms == before.value.terms
      && (before.value.state.Confirming? ==> NoOlder(before.value.lastObserved, after.value.lastObserved))
      && (IsTerminal(before.value.state) ==> after == before)
      && (!before.value.state.PendingSideEffect? ==> !after.value.state.PendingSideEffect?)
  }

  predicate StepOk(id: string, record: Option<Execution>, calls: nat, c: Choice, o: Out) {
    && RecordOk(id, o.record, c.t3)
    && KeepsRecord(record, o.record)
    && var calls' := if o.note.ServiceCalled? then calls + 1 else calls;
       CallsOk(o.record, calls') && PcOk(id, o.record, o.pc, calls')
  }

  /** What an observation may make of a record: a valid one, at most one revision later, with the dispatch as it was. */
  predicate ObservedOk(id: string, x: Execution, next: Execution, clock: int) {
    && RecordOk(id, Some(next), clock) && KeepsRecord(Some(x), Some(next))
    && next.dispatched == x.dispatched && next.dispatchState == x.dispatchState
    && (next == x || next.revision == x.revision + 1)
    && (next.state == x.state || (x.state.Confirming? && IsTerminal(next.state)))
  }

  lemma ResetOk(id: string, x: Execution, s: Climate, now: int, clock: int)
    requires RecordOk(id, Some(x), clock) && clock <= now && x.state.Confirming? && NoOlder(x.lastObserved, Some(s))
    ensures ObservedOk(id, x, Advance(x.(matchCount := Some(0), candidateAt := None, lastMatchAt := None,
                                         lastObserved := Some(s)), Confirming, now), now)
  {}

  lemma CandidateOk(id: string, x: Execution, s: Climate, now: int, clock: int)
    requires RecordOk(id, Some(x), clock) && clock <= now < x.terms.deadlineAt && x.state.Confirming?
    requires NoOlder(x.lastObserved, Some(s))
    ensures ObservedOk(id, x, Advance(Candidate(x, s, now), Confirming, now), now)
  {}

  lemma SuccessOk(id: string, x: Execution, s: Climate, now: int, clock: int)
    requires RecordOk(id, Some(x), clock) && clock <= now < x.terms.deadlineAt && x.state.Confirming?
    requires NoOlder(x.lastObserved, Some(s)) && Matches(x, s) && s.resourceId == x.terms.resourceId
    ensures ObservedOk(id, x, Advance(Candidate(x, s, now).(confirmed := Some(s)), Succeeded, now), now)
  {
    CandidateOk(id, x, s, now, clock);
  }

  /** An observation yields a valid record with present stamps, at most one revision later. */
  lemma ObserveOk(cfg: Config, id: string, x: Execution, s: Climate, now: int, clock: int)
    requires RecordOk(id, Some(x), clock) && clock <= now
    ensures ObservedOk(id, x, Observe(cfg, x, s, now), now)
  {
    if x.state.Confirming? && now < x.terms.deadlineAt && x.terms.resourceId == s.resourceId && !IsStale(x, s) {
      ResetOk(id, x, s, now, clock);
      CandidateOk(id, x, s, now, clock);
      if Matches(x, s) {
        SuccessOk(id, x, s, now, clock);
      }
    }
  }

  lemma RecordOkLater(id: string, record: Option<Execution>, clock: int, later: int)
    requires RecordOk(id, record, clock) && clock <= later
    ensures RecordOk(id, record, later)
  {}

  lemma FailOk(id: string, x: Execution, reason: FailureReason, now: int, clock: int)
    requires RecordOk(id, Some(x), clock) && clock <= now
    ensures var next := Fail(Some(x), x, reason, now);
            && RecordOk(id, next, now) && KeepsRecord(Some(x), next)
            && next.Some? && IsTerminal(next.value.state)
            && next.value.dispatched == x.dispatched && next.value.dispatchState == x.dispatchState
  {}

  lemma StayStepOk(id: string, x: Execution, guard: Option<Guard>, pc: Pc, calls: nat, c: Choice, clock: int)
    requires RecordOk(id, Some(x), clock) && TimesOk(c, clock) && CallsOk(Some(x), calls)
    requires pc.Polling? || pc.Finished?
    ensures StepOk(id, Some(x), calls, c, Stay(Some(x), guard, pc))
  {
    RecordOkLater(id, Some(x), clock, c.t3);
  }

  lemma FailStepOk(id: string, x: Execution, guard: Option<Guard>, reason: FailureReason, threw: bool, calls: nat,
                   c: Choice, clock: int)
    requires RecordOk(id, Some(x), clock) && TimesOk(c, clock) && CallsOk(Some(x), calls)
    ensures StepOk(id, Some(x), calls, c, Stay(Fail(Some(x), x, reason, c.t1), guard, Finished(threw)))
  {
    FailOk(id, x, reason, c.t1, clock);
  }

  lemma DispatchEntryOk(cfg: Config, id: string, x: Execution, guard: Option<Guard>, calls: nat, c: Choice, clock: int)
    requires RecordOk(id, Some(x), clock) && TimesOk(c, clock) && CallsOk(Some(x), calls) && AwaitsDispatch(x)
    ensures StepOk(id, Some(x), calls, c, DispatchEntry(cfg, Some(x), guard, x, c))
    ensures var o := DispatchEntry(cfg, Some(x), guard, x, c);
            o.pc.Dispatching? || o.pc == Finished(true) || IsTerminal(o.record.value.state)
  {
    FailOk(id, x, ConfirmationTimeout, c.t1, clock);
  }

  lemma NewExecutionOk(cfg: Config, i: StartInput, desired: Desired, observed: Climate, now: int)
    requires ValidConfig(cfg) && i.taskId != "" && i.resourceId in cfg.resources && DesiredOf(i) == Some(desired)
    ensures var x := NewExecution(cfg, i, desired, observed, now);
            RecordOk(i.taskId, Some(x), now) && AwaitsDispatch(x)
  {}

  lemma StartStepOk(cfg: Config, id: string, record: Option<Execution>, guard: Option<Guard>, pc: StartPc, calls: nat,
                    c: Choice, clock: int)
    requires ValidConfig(cfg) && id != "" && RecordOk(id, record, clock) && TimesOk(c, clock)
    requires CallsOk(record, calls) && PcOk(id, record, Starting(pc), calls)
    ensures StepOk(id, record, calls, c, StartStep(cfg, record, guard, pc, c))
  {
    if pc.StartAwaitState? && pc.input.resourceId in cfg.resources && DesiredOf(pc.input).Some? {
      var observed := c.observed.(resourceId := pc.input.resourceId);
      NewExecutionOk(cfg, pc.input, DesiredOf(pc.input).value, observed, c.t0);
    }
  }

  lemma MarkIntentOk(id: string, x: Execution, guard: Option<Guard>, observed: Climate, intent: Option<Power>,
                     calls: nat, c: Choice, clock: int)
    requires RecordOk(id, Some(x), clock) && TimesOk(c, clock)
    requires CallsOk(Some(x), calls) && AwaitsDispatch(x)
    ensures StepOk(id, Some(x), calls, c, MarkIntent(Some(x), guard, observed, intent, c))
  {}

  /** Pending records become confirming ones, whatever a dispatch noted on them meanwhile. */
  lemma ConfirmingOk(id: string, x: Execution, y: Execution, now: int, clock: int)
    requires RecordOk(id, Some(x), clock) && clock <= now && x.state.PendingSideEffect? && DispatchFlagValid(y)
    requires y == x.(dispatchState := y.dispatchState, baselineAt := y.baselineAt, lastObserved := y.lastObserved)
    ensures RecordOk(id, Some(Advance(y, Confirming, now)), now)
    ensures KeepsRecord(Some(x), Some(Advance(y, Confirming, now)))
  {}

  lemma StateStepOk(cfg: Config, id: string, x: Execution, guard: Option<Guard>, calls: nat, c: Choice, clock: int)
    requires RecordOk(id, Some(x), clock) && TimesOk(c, clock) && CallsOk(Some(x), calls) && AwaitsDispatch(x)
    ensures StepOk(id, Some(x), calls, c, DispatchStep(cfg, Some(x), guard, AwaitState(x), c))
  {
    var observed := c.observed.(resourceId := x.terms.resourceId);
    RecordOkLater(id, Some(x), clock, c.t3);
    var seen := x.(baselineAt := Some(observed.observedAt), lastObserved := Some(observed));
    FailStepOk(id, x, guard, ConfirmationTimeout, !c.telemetryOk, calls, c, clock);
    ConfirmingOk(id, x, seen, c.t1, clock);
    MarkIntentOk(id, x, guard, observed, PowerIntent(x.terms.desired, observed), calls, c, clock);
  }

  lemma HookStepOk(cfg: Config, id: string, x: Execution, guard: Option<Guard>, calls: nat, c: Choice, clock: int)
    requires RecordOk(id, Some(x), clock) && TimesOk(c, clock) && HasIntent(x) && calls == 0
    ensures StepOk(id, Some(x), calls, c, DispatchStep(cfg, Some(x), guard, AwaitHook(x), c))
  {
    FailOk(id, x, ConfirmationTimeout, c.t1, clock);
  }

  lemma CallStepOk(cfg: Config, id: string, x: Execution, guard: Option<Guard>, pc: DispatchPc, calls: nat, c: Choice,
                   clock: int)
    requires RecordOk(id, Some(x), clock) && TimesOk(c, clock) && HasIntent(x) && CallsOk(Some(x), calls)
    requires pc == AwaitCall(x) || pc == AwaitReturnHook(x)
    ensures StepOk(id, Some(x), calls, c, DispatchStep(cfg, Some(x), guard, pc, c))
  {
    ConfirmingOk(id, x, x, c.t0, clock);
    ConfirmingOk(id, x, x.(dispatchState := Some(CallReturned)), c.t0, clock);
  }

  lemma DispatchStepOk(cfg: Config, id: string, record: Option<Execution>, guard: Option<Guard>, pc: DispatchPc,
                       calls: nat, c: Choice, clock: int)
    requires RecordOk(id, record, clock) && TimesOk(c, clock)
    requires CallsOk(record, calls) && DispatchPcOk(record, pc, calls)
    ensures StepOk(id, record, calls, c, DispatchStep(cfg, record, guard, pc, c))
  {
    match pc
    case Enter(x) => DispatchEntryOk(cfg, id, x, guard, calls, c, clock);
    case AwaitState(x) => StateStepOk(cfg, id, x, guard, calls, c, clock);
    case AwaitTelemetry(s) =>
      if record.Some? {
        ObserveOk(cfg, id, record.value, s, c.t0, clock);
      }
    case AwaitHook(x) => HookStepOk(cfg, id, x, guard, calls, c, clock);
    case AwaitCall(x) => CallStepOk(cfg, id, x, guard, pc, calls, c, clock);
    case AwaitReturnHook(x) => CallStepOk(cfg, id, x, guard, pc, calls, c, clock);
  }

  lemma PollBeginsOk(cfg: Config, id: string, x: Execution, guard: Option<Guard>, calls: nat, c: Choice, clock: int)
    requires RecordOk(id, Some(x), clock) && TimesOk(c, clock) && CallsOk(Some(x), calls)
    ensures StepOk(id, Some(x), calls, c, PollStep(cfg, Some(x), guard, PollLocked, c))
  {
    StayStepOk(id, x, guard, Finished(false), calls, c, clock);
    StayStepOk(id, x, guard, Polling(PollAwaitState), calls, c, clock);
    FailStepOk(id, x, guard, if c.t0 >= x.terms.deadlineAt then ConfirmationTimeout else ResourceNotAllowlisted,
               !c.telemetryOk, calls, c, clock);
  }

  lemma PollEndsOk(cfg: Config, id: string, x: Execution, guard: Option<Guard>, pc: PollPc, calls: nat, c: Choice,
                   clock: int)
    requires RecordOk(id, Some(x), clock) && TimesOk(c, clock) && CallsOk(Some(x), calls)
    requires pc.PollAwaitState? || pc.PollCheckDeadline?
    ensures StepOk(id, Some(x), calls, c, PollStep(cfg, Some(x), guard, pc, c))
  {
    RecordOkLater(id, Some(x), clock, c.t3);
    FailStepOk(id, x, guard, ConfirmationTimeout, !c.telemetryOk, calls, c, clock);
  }

  lemma PollObservesOk(cfg: Config, id: string, x: Execution, guard: Option<Guard>, pc: PollPc, calls: nat, c: Choice,
                       clock: int)
    requires RecordOk(id, Some(x), clock) && TimesOk(c, clock) && CallsOk(Some(x), calls)
    requires pc.PollAwaitTelemetry? || pc.ObserveLocked?
    ensures StepOk(id, Some(x), calls, c, PollStep(cfg, Some(x), guard, pc, c))
  {
    ObserveOk(cfg, id, x, pc.s, c.t0, clock);
  }

  lemma PollStepOk(cfg: Config, id: string, record: Option<Execution>, guard: Option<Guard>, pc: PollPc, calls: nat,
                   c: Choice, clock: int)
    requires RecordOk(id, record, clock) && TimesOk(c, clock)
    requires CallsOk(record, calls)
    ensures StepOk(id, record, calls, c, PollStep(cfg, record, guard, pc, c))
  {
    if record.Some? {
      if pc.PollAwaitTelemetry? || pc.ObserveLocked? {
        PollObservesOk(cfg, id, record.value, guard, pc, calls, c, clock);
      } else if pc.PollLocked? {
        PollBeginsOk(cfg, id, record.value, guard, calls, c, clock);
      } else {
        PollEndsOk(cfg, id, record.value, guard, pc, calls, c, clock);
      }
    }
  }

  lemma RecoverStepOk(cfg: Config, id: string, record: Option<Execution>, guard: Option<Guard>, pc: RecoverPc,
                      calls: nat, c: Choice, clock: int)
    requires RecordOk(id, record, clock) && TimesOk(c, clock)
    requires CallsOk(record, calls) && PcOk(id, record, Recovering(pc), calls)
    ensures StepOk(id, record, calls, c, RecoverStep(cfg, record, guard, pc, c))
  {
    if pc.RecoverLocked? && !IsTerminal(pc.x.state) {
      var refusal := RecoveryRefusal(cfg, pc.x, c.t0);
      if refusal.Some? {
        FailOk(id, pc.x, refusal.value, c.t1, clock);
      } else if pc.x.state.PendingSideEffect? {
        ConfirmingOk(id, pc.x, pc.x, c.t1, clock);
      }
    }
  }

  /**
   Every step of the holder of a task's lock writes a valid, never regressing record, issues at most one service
   call for the task, and does so only behind a persisted intent.
   */
  lemma TaskStepOk(cfg: Config, id: string, record: Option<Execution>, guard: Option<Guard>, pc: Pc, calls: nat,
                   c: Choice, clock: int)
    requires ValidConfig(cfg) && id != "" && RecordOk(id, record, clock) && TimesOk(c, clock)
    requires CallsOk(record, calls) && PcOk(id, record, pc, calls)
    ensures StepOk(id, record, calls, c, TaskStep(cfg, record, guard, pc, c))
  {
    if c.storeOk {
      StoredStepOk(cfg, id, record, guard, pc, calls, c, clock);
    }
  }

  lemma StoredStepOk(cfg: Config, id: string, record: Option<Execution>, guard: Option<Guard>, pc: Pc, calls: nat,
                     c: Choice, clock: int)
    requires ValidConfig(cfg) && id != "" && RecordOk(id, record, clock) && TimesOk(c, clock)
    requires CallsOk(record, calls) && PcOk(id, record, pc, calls)
    ensures StepOk(id, record, calls, c, StoredStep(cfg, record, guard, pc, c))
  {
    match pc
    case Starting(p) => StartStepOk(cfg, id, record, guard, p, calls, c, clock);
    case Dispatching(p) => DispatchStepOk(cfg, id, record, guard, p, calls, c, clock);
    case Polling(p) => PollStepOk(cfg, id, record, guard, p, calls, c, clock);
    case Recovering(p) => RecoverStepOk(cfg, id, record, guard, p, calls, c, clock);
    case Finished(_) =>
  }

  // ------------------------------------------------------------------------------------------ one dispatch, alone

  /** The device is reachable, does not show the desired state yet, and nothing forbids the side effect. */
  predicate MayDispatch(cfg: Config, x: Execution, guard: Option<Guard>, observed: Climate, now: int) {
    var intent := PowerIntent(x.terms.desired, observed);
    && AwaitsDispatch(x) && now < x.terms.deadlineAt
    && x.terms.resourceId in cfg.resources && observed.resourceId == x.terms.resourceId && observed.reachable
    && DesiredAllowed(cfg.resources[x.terms.resourceId], x.terms.desired, observed)
    && !Shows(x.terms.desired, observed)
    && (intent.Some? ==> cfg.powerEffects)
  }

  /** First the intent is persisted, then the service is called, then the task confirms, in this order. */
  lemma UndisturbedDispatch(cfg: Config, x: Execution, guard: Option<Guard>, c: Choice, later: Choice)
    requires c.resolved && later.resolved && later.t0 < x.terms.deadlineAt
    requires MayDispatch(cfg, x, guard, c.observed, c.t0)
    requires !GuardBlocks(guard, PowerIntent(x.terms.desired, c.observed), c.t1)
    ensures var o1 := DispatchStep(cfg, Some(x), guard, AwaitState(x), c);
            && o1.note == IntentWritten(PowerIntent(x.terms.desired, c.observed), c.t2)
            && o1.record.Some? && o1.record.value.dispatchState == Some(IntentPersisted) && o1.record.value.dispatched
            && o1.pc == Dispatching(AwaitHook(o1.record.value))
            && var o2 := DispatchStep(cfg, o1.record, o1.guard, o1.pc.dispatch, later);
               && o2.note == ServiceCalled(x.terms.entityId, ServiceFor(x.terms.desired)) && o2.record == o1.record
               && o2.pc == Dispatching(AwaitCall(o1.record.value))
               && var o3 := DispatchStep(cfg, o2.record, o2.guard, o2.pc.dispatch, later);
                  && o3.pc == Dispatching(AwaitReturnHook(o1.record.value))
                  && var o4 := DispatchStep(cfg, o3.record, o3.guard, o3.pc.dispatch, later);
                     && o4.pc.Finished? && o4.record.Some? && o4.record.value.state.Confirming?
                     && o4.record.value.dispatchState == Some(CallReturned)
                     && o4.record.value.revision == x.revision + 2
  {}

  /** An opposite power request inside the interval fails without an intent and without a call. */
  lemma BlockedDispatch(cfg: Config, x: Execution, guard: Option<Guard>, c: Choice)
    requires c.resolved && MayDispatch(cfg, x, guard, c.observed, c.t0)
    requires GuardBlocks(guard, PowerIntent(x.terms.desired, c.observed), c.t1)
    ensures var o := DispatchStep(cfg, Some(x), guard, AwaitState(x), c);
            && o.note == Nothing && o.guard == guard && o.pc.Finished?
            && o.record == Some(Failed(x, OppositePowerIntervalActive, c.t2)) && !o.record.value.dispatched
  {}
}
