/**
 The persisted documents of the Home Assistant climate provider and the validator that guards every read
 (apps/home-assistant-climate-provider/src/types.ts and store.ts). Instants are integer milliseconds.
 */
module ClimateStore {
  import opened Wrappers

  datatype Power = On | Off

  datatype ObservedPower = PowerOn | PowerOff | PowerUnknown | PowerUnavailable

  datatype Desired =
    | DesiredPower(power: Power)
    | DesiredMode(hvacMode: string)
    | DesiredTemperature(temperature: real)

  datatype Operation = SetPower | SetHvacMode | SetTemperature

  datatype TaskState = PendingSideEffect | Confirming | Succeeded | TechnicalFailed

  datatype DispatchState = NotStarted | IntentPersisted | CallReturned

  datatype Policy = Policy(timeoutMs: int, stableMs: int, matches: int)

  datatype Climate = Climate(
    resourceId: string,
    power: ObservedPower,
    reachable: bool,
    hvacMode: Option<string>,
    targetTemperature: Option<real>,
    minTemperature: Option<real>,
    maxTemperature: Option<real>,
    supportedModes: seq<string>,
    observedAt: int)

  /** The engine only asks whether the execution mode is LIVE; `identity` stands for the compared hashes. */
  datatype Context = Context(identity: string, live: bool)

  datatype FailureReason =
    | ConfirmationTimeout
    | ResourceNotAllowlisted
    | ExecutionModeNotLive
    | SideEffectStateUncertain
    | SideEffectsGateClosed
    | PowerSideEffectsGateClosed
    | OppositePowerIntervalActive

  /** What a task was admitted with; no later write changes any of it. */
  datatype Terms = Terms(
    taskId: string,
    operation: Operation,
    resourceId: string,
    entityId: string,
    context: Context,
    desired: Desired,
    createdAt: int,
    deadlineAt: int,
    policy: Option<Policy>)

  datatype Execution = Execution(
    terms: Terms,
    state: TaskState,
    dispatched: bool,
    dispatchState: Option<DispatchState>,
    failure: Option<FailureReason>,
    revision: int,
    updatedAt: int,
    baselineAt: Option<int>,
    candidateAt: Option<int>,
    matchCount: Option<int>,
    lastMatchAt: Option<int>,
    lastObserved: Option<Climate>,
    confirmed: Option<Climate>)

  datatype Guard = Guard(power: Power, attemptedAt: int, taskId: string)

  datatype Document = Document(executions: map<string, Execution>, guard: Option<Guard>)

  predicate IsTerminal(state: TaskState) {
    state.Succeeded? || state.TechnicalFailed?
  }

  // ------------------------------------------------------------------------------------------ store.ts

  predicate IsEntityChar(c: char) {
    'a' <= c <= 'z' || '0' <= c <= '9' || c == '_'
  }

  /** Which character may stand at position `k` of an entity id. */
  predicate EntityAllows(k: nat, c: char) {
    match k
    case 0 => c == 'c'
    case 1 => c == 'l'
    case 2 => c == 'i'
    case 3 => c == 'm'
    case 4 => c == 'a'
    case 5 => c == 't'
    case 6 => c == 'e'
    case 7 => c == '.'
    case _ => IsEntityChar(c)
  }

  predicate EntityAllowsFrom(id: string, k: nat)
    requires k <= |id|
    decreases |id| - k
  {
    k == |id| || (EntityAllows(k, id[k]) && EntityAllowsFrom(id, k + 1))
  }

  /** `/^climate\.[a-z0-9_]+$/`, read from left to right. */
  predicate ValidEntity(id: string) {
    |id| > 8 && EntityAllowsFrom(id, 0)
  }

  lemma {:induction false} EntityAllowsEach(id: string, k: nat)
    requires k <= |id|
    ensures EntityAllowsFrom(id, k) <==> forall i :: k <= i < |id| ==> EntityAllows(i, id[i])
    decreases |id| - k
  {
    if k < |id| {
      EntityAllowsEach(id, k + 1);
    }
  }

  /** The reading agrees with the regular expression taken as a whole. */
  lemma ValidEntityIsThePattern(id: string)
    ensures ValidEntity(id) <==>
            |id| > 8 && id[..8] == ['c', 'l', 'i', 'm', 'a', 't', 'e', '.']
            && forall i :: 8 <= i < |id| ==> IsEntityChar(id[i])
  {
    EntityAllowsEach(id, 0);
    if |id| > 8 && forall i :: 0 <= i < |id| ==> EntityAllows(i, id[i]) {
      assert EntityAllows(0, id[0]) && EntityAllows(1, id[1]) && EntityAllows(2, id[2]) && EntityAllows(3, id[3]);
      assert EntityAllows(4, id[4]) && EntityAllows(5, id[5]) && EntityAllows(6, id[6]) && EntityAllows(7, id[7]);
      assert id[..8] == ['c', 'l', 'i', 'm', 'a', 't', 'e', '.'];
    }
    if |id| > 8 && id[..8] == ['c', 'l', 'i', 'm', 'a', 't', 'e', '.']
       && forall i :: 8 <= i < |id| ==> IsEntityChar(id[i])
    {
      forall i | 0 <= i < |id| ensures EntityAllows(i, id[i]) {
        if i < 8 {
          assert id[i] == id[..8][i];
        }
      }
    }
  }

  predicate OperationMatches(op: Operation, desired: Desired) {
    match op
    case SetPower => desired.DesiredPower?
    case SetHvacMode => desired.DesiredMode?
    case SetTemperature => desired.DesiredTemperature?
  }

  predicate ValidPolicy(p: Policy) {
    p.timeoutMs > 0 && p.stableMs > 0 && p.stableMs < p.timeoutMs && p.matches >= 2
  }

  predicate CandidateChronology(x: Execution) {
    && x.candidateAt.Some? && x.lastMatchAt.Some?
    && x.terms.createdAt <= x.candidateAt.value <= x.lastMatchAt.value <= x.updatedAt
    && x.lastMatchAt.value < x.terms.deadlineAt
  }

  /** A matching window is recorded either completely or not at all. */
  predicate StableCandidateValid(x: Execution) {
    if x.matchCount.None? || x.matchCount.value == 0 then x.candidateAt.None? && x.lastMatchAt.None?
    else x.matchCount.value > 0 && !x.state.PendingSideEffect? && CandidateChronology(x)
  }

  predicate DispatchFlagValid(x: Execution) {
    x.dispatchState.Some? ==> x.dispatched == !x.dispatchState.value.NotStarted?
  }

  predicate Near(a: real, b: real) {
    -0.1 <= a - b <= 0.1
  }

  /** Does the observed state show what was asked for? (`confirmed`, execution.ts:645-652.) */
  predicate Shows(desired: Desired, s: Climate) {
    match desired
    case DesiredPower(power) => if power.On? then s.power.PowerOn? else s.power.PowerOff?
    case DesiredMode(mode) => s.hvacMode == Some(mode)
    case DesiredTemperature(t) => s.targetTemperature.Some? && Near(s.targetTemperature.value, t)
  }

  predicate ConfirmedStateValid(x: Execution) {
    if x.state.Succeeded? then
      && x.confirmed.Some?
      && x.confirmed.value.resourceId == x.terms.resourceId && x.confirmed.value.reachable
      && Shows(x.terms.desired, x.confirmed.value)
    else x.confirmed.None?
  }

  predicate ValidTerms(t: Terms) {
    && t.taskId != ""
    && ValidEntity(t.entityId)
    && OperationMatches(t.operation, t.desired)
    && (t.policy.Some? ==> ValidPolicy(t.policy.value))
  }

  predicate ValidExecution(x: Execution) {
    && ValidTerms(x.terms)
    && DispatchFlagValid(x)
    && StableCandidateValid(x)
    && ConfirmedStateValid(x)
  }

  predicate Valid(d: Document) {
    && (forall id <- d.executions :: ValidExecution(d.executions[id]) && d.executions[id].terms.taskId == id)
    && (d.guard.Some? ==> d.guard.value.taskId != "")
  }

  datatype StoreError = InvalidStateFile

  /**
   `JsonClimateStore`: every operation re-reads and re-validates the file, and `update` replaces the whole file
   with one rename, so a crash leaves the old or the new document, never a mixture.
   */
  class JsonClimateStore {
    var file: Document

    constructor ()
      ensures Valid(file) && file == Document(map[], None)
    {
      file := Document(map[], None);
    }

    method Get(id: string) returns (r: Result<Option<Execution>, StoreError>)
      ensures r.Ok? <==> Valid(file)
      ensures r.Ok? ==> r.value == if id in file.executions then Some(file.executions[id]) else None
    {
      if !Valid(file) {
        return Err(InvalidStateFile);
      }
      r := Ok(if id in file.executions then Some(file.executions[id]) else None);
    }

    /** `update(fn)`; `crash` is a process that dies before the rename. */
    method Update(fn: Document -> Document, crash: bool) returns (r: Result<(), StoreError>)
      modifies this
      ensures r.Ok? ==> Valid(old(file)) && file == fn(old(file))
      ensures r.Err? ==> file == old(file)
      ensures Valid(old(file)) && Valid(fn(old(file))) ==> Valid(file)
    {
      if !Valid(file) || crash {
        return Err(InvalidStateFile);
      }
      file := fn(file);
      r := Ok(());
    }

    method Set(x: Execution, crash: bool) returns (r: Result<(), StoreError>)
      modifies this
      ensures r.Ok? ==> file == old(file).(executions := old(file).executions[x.terms.taskId := x])
      ensures r.Err? ==> file == old(file)
      ensures Valid(old(file)) && ValidExecution(x) ==> Valid(file)
    {
      r := Update((d: Document) => d.(executions := d.executions[x.terms.taskId := x]), crash);
    }
  }
}
