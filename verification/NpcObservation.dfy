/**
 How device observations drive an NPC Tank execution (apps/npc-tank-provider-adapter/src/runtime.ts:745-850,
 1395-1685, with the state tables of packages/vehicle-provider-core/src/task-state-mapper.ts).
 */
module NpcObservation {
  import opened Wrappers

  datatype Operation = Navigate | AreaRecon | ControlGimbal | FireWeapon | TrackTarget | EmergencyStop

  datatype State =
    | WaitingInput | Accepted | Starting | Running | Paused | Resuming | Stopping
    | Succeeded | BusinessFailed | Cancelled | TechnicalFailed

  datatype Reason =
    | UncertainExecutionState | MissionIdMismatch | TaskTerminalUnconfirmed | ReconTerminalUnconfirmed
    | ReconCameraFault | TargetLockConfirmed | TargetLost | LocalStopConfirmed
    | DeviceTask(code: int) | ReconMotion(status: int) | Command(text: string)

  /** The state a device code maps to; RECONCILE keeps the state and only explains the doubt. */
  datatype Mapped = Mapped(state: Option<State>, reason: Reason)

  datatype Topic = MissionState | ReconStatus | LegacyStatus | Status

  /** The newest cursor of each topic an operation listens to, in topic order. */
  type Cursor = seq<(Topic, int)>

  datatype Cursors = Cursors(
    track: Option<Cursor>,
    reconnaissance: Option<int>,
    trackActive: Option<Cursor>,
    reconnaissanceActive: Option<int>)

  datatype Execution = Execution(
    operation: Operation,
    state: State,
    reason: Reason,
    revision: nat,
    missions: seq<string>,
    cursors: Cursors,
    progress: Option<real>,
    targetId: string)

  /** A mission id as the device reports it: canonical after parsing, or malformed. */
  datatype ObservedId = Canonical(id: string) | Malformed

  /** `state` is None when the device reports "unknown". */
  datatype Track = Track(id: Option<ObservedId>, state: Option<int>, progress: Option<real>)

  datatype Recon = Recon(
    id: Option<ObservedId>,
    motionStatus: Option<int>,
    progress: Option<real>,
    progressAuthoritative: bool,
    cameraFault: bool,
    lockStage: Option<int>,
    lockTarget: Option<string>)

  datatype Snapshot = Snapshot(
    topics: map<Topic, int>,
    reconObservedAt: Option<int>,
    mission: Track,
    eoTask: Track,
    weapon: Track,
    recon: Recon,
    lockedTarget: Option<string>,
    speed: Option<real>)

  predicate IsTerminal(s: State) {
    s.Succeeded? || s.BusinessFailed? || s.Cancelled? || s.TechnicalFailed?
  }

  // ------------------------------------------------------------------------------------------ tables

  /** `mapVehicleTaskState(state, true, "NPC_TANK")`. */
  function MapTask(state: Option<int>): Mapped {
    match state
    case Some(0) => Mapped(Some(Starting), DeviceTask(0))
    case Some(1) => Mapped(Some(Running), DeviceTask(1))
    case Some(2) => Mapped(Some(Paused), DeviceTask(2))
    case Some(3) => Mapped(Some(Cancelled), DeviceTask(3))
    case Some(4) => Mapped(Some(Succeeded), DeviceTask(4))
    case Some(5) => Mapped(Some(BusinessFailed), DeviceTask(5))
    case _ => Mapped(None, UncertainExecutionState)
  }

  /** `mapReconMotionStatus(status, true, "NPC_TANK")`. */
  function MapRecon(status: Option<int>): Mapped {
    match status
    case Some(1) => Mapped(None, ReconMotion(1))
    case Some(2) => Mapped(Some(Starting), ReconMotion(2))
    case Some(3) => Mapped(Some(Starting), ReconMotion(3))
    case Some(4) => Mapped(Some(Starting), ReconMotion(4))
    case Some(5) => Mapped(Some(Running), ReconMotion(5))
    case Some(6) => Mapped(Some(Resuming), ReconMotion(6))
    case Some(7) => Mapped(Some(Running), ReconMotion(7))
    case Some(8) => Mapped(Some(Paused), ReconMotion(8))
    case Some(9) => Mapped(Some(Cancelled), ReconMotion(9))
    case Some(10) => Mapped(Some(BusinessFailed), ReconMotion(10))
    case Some(11) => Mapped(Some(Succeeded), ReconMotion(11))
    case Some(12) => Mapped(Some(Stopping), ReconMotion(12))
    case Some(13) => Mapped(None, ReconMotion(13))
    case _ => Mapped(None, UncertainExecutionState)
  }

  /** `projectReconMotionStatus`: the task state a reconnaissance status is shown as; None for "unknown". */
  function Project(status: Option<int>): Option<int> {
    match status
    case Some(1) => Some(-1)
    case Some(2) => Some(0)
    case Some(3) => Some(0)
    case Some(4) => Some(0)
    case Some(5) => Some(1)
    case Some(6) => Some(1)
    case Some(7) => Some(1)
    case Some(12) => Some(1)
    case Some(8) => Some(2)
    case Some(9) => Some(3)
    case Some(10) => Some(5)
    case Some(11) => Some(4)
    case _ => None
  }

  /** The two tables agree on every reconnaissance status, except that recovering and stopping show as running. */
  lemma TablesAgree(status: Option<int>)
    ensures MapTask(Project(status)).state == MapRecon(status).state <==> status != Some(6) && status != Some(12)
    ensures status == Some(6) || status == Some(12) ==>
              MapTask(Project(status)).state == Some(Running) && IsObservedActive(MapRecon(status))
  {}

  function MonotonicProgress(previous: Option<real>, next: Option<real>): Option<real> {
    if next.None? || next.value < 0.0 || next.value > 100.0 then previous
    else if previous.None? || previous.value < next.value then next
    else previous
  }

  predicate IsMappedTerminal(m: Mapped) {
    m.state.Some? && IsTerminal(m.state.value)
  }

  predicate IsObservedActive(m: Mapped) {
    && m.state.Some?
    && (m.state.value.Running? || m.state.value.Paused? || m.state.value.Resuming? || m.state.value.Stopping?)
  }

  predicate IsReconActive(m: Mapped) {
    IsObservedActive(m) || (m.state.Some? && m.state.value.Starting?)
  }

  // ------------------------------------------------------------------------------------------ cursors

  function TopicsOf(op: Operation): seq<Topic> {
    match op
    case Navigate => [MissionState, LegacyStatus, Status]
    case AreaRecon => [ReconStatus]
    case TrackTarget => [ReconStatus, LegacyStatus, Status]
    case ControlGimbal => [LegacyStatus, Status]
    case FireWeapon => [LegacyStatus, Status]
    case EmergencyStop => [MissionState, ReconStatus, LegacyStatus, Status]
  }

  function Observations(topics: seq<Topic>, seen: map<Topic, int>): Cursor {
    if topics == [] then []
    else (if topics[0] in seen then [(topics[0], seen[topics[0]])] else []) + Observations(topics[1..], seen)
  }

  /** `operationObservationCursor`: undefined until one of the operation's topics has been observed. */
  function OperationCursor(op: Operation, s: Snapshot): Option<Cursor> {
    var observations := Observations(TopicsOf(op), s.topics);
    if observations == [] then None else Some(observations)
  }

  function ReconCursor(s: Snapshot): Option<int> {
    if ReconStatus in s.topics then Some(s.topics[ReconStatus]) else None
  }

  predicate IsNewObservation(e: Execution, cursor: Option<Cursor>) {
    cursor.Some? && cursor != e.cursors.track
  }

  predicate IsNewReconObservation(e: Execution, cursor: Option<int>) {
    cursor.Some? && cursor != e.cursors.reconnaissance
  }

  predicate BelongsTo(e: Execution, id: Option<ObservedId>, allowMissing: bool) {
    if e.missions == [] then true
    else if id.None? then allowMissing
    else id.value.Canonical? && id.value.id in e.missions
  }

  // ------------------------------------------------------------------------------------------ updates

  function Transition(e: Execution, state: State, reason: Reason): Execution {
    e.(state := state, reason := reason, revision := e.revision + 1)
  }

  function Terminal(e: Execution, state: State, reason: Reason): Execution {
    var next := Transition(e, state, reason);
    if state.Succeeded? then next.(progress := Some(100.0)) else next
  }

  /** Everything after the activity check: reconcile, verdict, or a move along the device state. */
  function Follow(current: Execution, m: Mapped, reported: Option<real>, keepsResuming: bool): Execution {
    var progress := MonotonicProgress(current.progress, reported);
    if m.state.None? then
      if current.reason == m.reason then current else Transition(current, current.state, m.reason)
    else if m.state.value.Succeeded? || m.state.value.BusinessFailed? || m.state.value.Cancelled? then
      Terminal(current, m.state.value, m.reason)
    else if current.state.Stopping? && (m.state.value.Starting? || m.state.value.Running? || m.state.value.Paused?)
    then current
    else if keepsResuming && current.state.Resuming? && m.state.value.Paused? then current
    else if m.state.value == current.state && progress == current.progress then current
    else
      var next := Transition(current, m.state.value, m.reason);
      if progress.Some? then next.(progress := progress) else next
  }

  /**
   The shared core of `applyTrack` and `applyReconTrack`: a terminal device state counts only once the task was
   seen active, and the first active state is remembered as `marked`.
   */
  function Decide(e: Execution, m: Mapped, active: bool, armed: bool, marked: Cursors, unconfirmed: Reason,
                  reported: Option<real>, keepsResuming: bool): Execution
  {
    if !armed && IsMappedTerminal(m) then
      if e.reason == unconfirmed then e else Transition(e, e.state, unconfirmed)
    else
      var current := if armed || !active then e else e.(cursors := marked, revision := e.revision + 1);
      Follow(current, m, reported, keepsResuming)
  }

  function ApplyTrack(e: Execution, track: Track, cursor: Option<Cursor>): Execution {
    if !IsNewObservation(e, cursor) then e
    else if !BelongsTo(e, track.id, false) then
      if e.reason.MissionIdMismatch? then e else Transition(e, e.state, MissionIdMismatch)
    else
      var m := MapTask(track.state);
      Decide(e, m, IsObservedActive(m), e.cursors.trackActive.Some?, e.cursors.(trackActive := cursor),
             TaskTerminalUnconfirmed, track.progress, true)
  }

  function ApplyRecon(e: Execution, r: Recon, cursor: Option<int>, observedAt: Option<int>): Execution {
    if e.state.Accepted? || !IsNewReconObservation(e, cursor) || observedAt.None? then e
    else if !BelongsTo(e, r.id, true) then
      if e.reason.MissionIdMismatch? then e else Transition(e, e.state, MissionIdMismatch)
    else if r.cameraFault then
      if e.reason.ReconCameraFault? then e else Transition(e, e.state, ReconCameraFault)
    else
      var m := MapRecon(r.motionStatus);
      Decide(e, m, IsReconActive(m), e.cursors.reconnaissanceActive.Some?,
             e.cursors.(reconnaissanceActive := cursor), ReconTerminalUnconfirmed,
             if r.progressAuthoritative then r.progress else None, false)
  }

  function ApplyLock(e: Execution, s: Snapshot): Execution {
    if !IsNewObservation(e, OperationCursor(e.operation, s)) then e
    else
      var locked := if s.recon.lockStage == Some(3) then s.recon.lockTarget else s.lockedTarget;
      if locked == Some(e.targetId) then
        if e.state.Running? then e else Transition(e, Running, TargetLockConfirmed)
      else if e.state.Running? then Terminal(e, BusinessFailed, TargetLost)
      else e
  }

  predicate MotionActive(status: Option<int>) {
    status.Some? && status.value in {2, 4, 5, 6, 7, 8, 12}
  }

  predicate StandsStill(s: Snapshot) {
    && (s.speed.None? || s.speed.value <= 0.1)
    && s.mission.state != Some(1)
    && !MotionActive(s.recon.motionStatus)
    && s.eoTask.state != Some(1)
    && s.weapon.state != Some(1)
    && (s.recon.lockStage.None? || s.recon.lockStage.value == 1)
  }

  /** `#refresh` after the fire fence has been checked (the fence itself is modelled by `FireFence`). */
  function Refresh(e: Execution, s: Snapshot): Execution {
    if IsTerminal(e.state) || e.state.WaitingInput? then e
    else
      match e.operation
      case Navigate => ApplyTrack(e, s.mission, OperationCursor(e.operation, s))
      case AreaRecon => ApplyRecon(e, s.recon, ReconCursor(s), s.reconObservedAt)
      case ControlGimbal => ApplyTrack(e, s.eoTask, OperationCursor(e.operation, s))
      case FireWeapon =>
        if e.missions == [] then e else ApplyTrack(e, s.weapon, OperationCursor(e.operation, s))
      case TrackTarget => ApplyLock(e, s)
      case EmergencyStop =>
        if IsNewObservation(e, OperationCursor(e.operation, s)) && StandsStill(s)
        then Terminal(e, Succeeded, LocalStopConfirmed) else e
  }

  // ------------------------------------------------------------------------------------------ quiescence

  /** Refreshing again from an unchanged snapshot changes nothing, so a silent device causes no further writes. */
  lemma RefreshIsQuiescent(e: Execution, s: Snapshot)
    ensures Refresh(Refresh(e, s), s) == Refresh(e, s)
  {
    if !IsTerminal(e.state) && !e.state.WaitingInput? {
      match e.operation
      case Navigate => TrackIsQuiescent(e, s.mission, OperationCursor(e.operation, s));
      case ControlGimbal => TrackIsQuiescent(e, s.eoTask, OperationCursor(e.operation, s));
      case FireWeapon => TrackIsQuiescent(e, s.weapon, OperationCursor(e.operation, s));
      case AreaRecon => ReconIsQuiescent(e, s.recon, ReconCursor(s), s.reconObservedAt);
      case TrackTarget =>
      case EmergencyStop =>
    }
  }

  /** A device never maps to a state only the adapter assigns. */
  predicate IsDeviceState(m: Mapped) {
    m.state.Some? ==> !m.state.value.WaitingInput? && !m.state.value.Accepted? && !m.state.value.TechnicalFailed?
  }

  lemma MapsAreDeviceStates(code: Option<int>)
    ensures IsDeviceState(MapTask(code)) && IsDeviceState(MapRecon(code))
  {}

  lemma FollowIsQuiescent(current: Execution, m: Mapped, reported: Option<real>, keepsResuming: bool)
    requires IsDeviceState(m)
    ensures var next := Follow(current, m, reported, keepsResuming);
            && next.operation == current.operation && next.missions == current.missions
            && next.cursors == current.cursors
            && (IsTerminal(next.state) || Follow(next, m, reported, keepsResuming) == next)
            && (next.state == current.state || Some(next.state) == m.state)
            && (m.state.Some? && !IsTerminal(m.state.value) && IsTerminal(next.state) ==> next == current)
  {}

  lemma DecideIsQuiescent(e: Execution, m: Mapped, active: bool, armed: bool, marked: Cursors, again: Cursors,
                          unconfirmed: Reason, reported: Option<real>, keepsResuming: bool)
    requires IsDeviceState(m) && (active ==> m.state.Some? && !IsTerminal(m.state.value))
    ensures var next := Decide(e, m, active, armed, marked, unconfirmed, reported, keepsResuming);
            && next.operation == e.operation && next.missions == e.missions
            && next.cursors == (if armed || !active then e.cursors else marked)
            && (IsTerminal(next.state)
                || Decide(next, m, active, armed || active, again, unconfirmed, reported, keepsResuming) == next)
            && (next.state == e.state || Some(next.state) == m.state)
  {
    var current := if armed || !active then e else e.(cursors := marked, revision := e.revision + 1);
    FollowIsQuiescent(current, m, reported, keepsResuming);
  }

  lemma TrackIsQuiescent(e: Execution, track: Track, cursor: Option<Cursor>)
    ensures var next := ApplyTrack(e, track, cursor);
            && next.operation == e.operation && next.missions == e.missions
            && (IsTerminal(next.state) || ApplyTrack(next, track, cursor) == next)
            && (next.state.WaitingInput? ==> e.state.WaitingInput?)
  {
    if IsNewObservation(e, cursor) && BelongsTo(e, track.id, false) {
      var m := MapTask(track.state);
      var next := ApplyTrack(e, track, cursor);
      DecideIsQuiescent(e, m, IsObservedActive(m), e.cursors.trackActive.Some?, e.cursors.(trackActive := cursor),
                        next.cursors.(trackActive := cursor), TaskTerminalUnconfirmed, track.progress, true);
    }
  }

  lemma ReconIsQuiescent(e: Execution, r: Recon, cursor: Option<int>, observedAt: Option<int>)
    ensures var next := ApplyRecon(e, r, cursor, observedAt);
            && next.operation == e.operation && next.missions == e.missions
            && (IsTerminal(next.state) || ApplyRecon(next, r, cursor, observedAt) == next)
            && (next.state.WaitingInput? ==> e.state.WaitingInput?)
  {
    if !e.state.Accepted? && IsNewReconObservation(e, cursor) && observedAt.Some? && BelongsTo(e, r.id, true)
       && !r.cameraFault
    {
      var m := MapRecon(r.motionStatus);
      var next := ApplyRecon(e, r, cursor, observedAt);
      MapsAreDeviceStates(r.motionStatus);
      DecideIsQuiescent(e, m, IsReconActive(m), e.cursors.reconnaissanceActive.Some?,
                        e.cursors.(reconnaissanceActive := cursor), next.cursors.(reconnaissanceActive := cursor),
                        ReconTerminalUnconfirmed, if r.progressAuthoritative then r.progress else None, false);
    }
  }

  predicate ProgressInRange(e: Execution) {
    e.progress.Some? ==> 0.0 <= e.progress.value <= 100.0
  }

  /** Progress, once reported, stays reported and never moves backwards. */
  predicate ProgressKept(e: Execution, next: Execution) {
    e.progress.Some? ==> next.progress.Some? && e.progress.value <= next.progress.value
  }

  predicate MovesForward(e: Execution, next: Execution) {
    && (next == e || next.revision > e.revision)
    && next.missions == e.missions && next.operation == e.operation
    && ProgressKept(e, next) && ProgressInRange(next)
  }

  lemma FollowMovesForward(current: Execution, m: Mapped, reported: Option<real>, keepsResuming: bool)
    requires ProgressInRange(current)
    ensures MovesForward(current, Follow(current, m, reported, keepsResuming))
  {}

  lemma DecideMovesForward(e: Execution, m: Mapped, active: bool, armed: bool, marked: Cursors,
                           unconfirmed: Reason, reported: Option<real>, keepsResuming: bool)
    requires ProgressInRange(e)
    ensures MovesForward(e, Decide(e, m, active, armed, marked, unconfirmed, reported, keepsResuming))
  {
    var current := if armed || !active then e else e.(cursors := marked, revision := e.revision + 1);
    var next := Follow(current, m, reported, keepsResuming);
    FollowMovesForward(current, m, reported, keepsResuming);
    MovesForwardTransitive(e, current, next);
    TransitionMovesForward(e, unconfirmed);
  }

  lemma MovesForwardTransitive(e: Execution, current: Execution, next: Execution)
    requires MovesForward(e, current) && MovesForward(current, next)
    ensures MovesForward(e, next)
  {}

  lemma TransitionMovesForward(e: Execution, reason: Reason)
    requires ProgressInRange(e)
    ensures MovesForward(e, Transition(e, e.state, reason)) && MovesForward(e, e)
  {}

  /**
   A refresh either leaves the execution alone or raises its revision, which is what makes the caller persist
   it; it never forgets a mission id, never loses progress, and never leaves a terminal state.
   */
  lemma RefreshMovesForward(e: Execution, s: Snapshot)
    requires ProgressInRange(e)
    ensures MovesForward(e, Refresh(e, s))
    ensures IsTerminal(e.state) ==> Refresh(e, s) == e
  {
    forall m: Mapped, active: bool, armed: bool, marked: Cursors, unconfirmed: Reason, reported: Option<real>,
           keeps: bool
      ensures MovesForward(e, Decide(e, m, active, armed, marked, unconfirmed, reported, keeps))
    {
      DecideMovesForward(e, m, active, armed, marked, unconfirmed, reported, keeps);
    }
  }

  // ------------------------------------------------------------------------------------------ verdicts

  /** What happens to a stored execution between its start and a verdict. */
  datatype Event =
    | Observed(s: Snapshot)
    | MissionStored(id: string)
    | Baselined(track: Option<Cursor>, reconnaissance: Option<int>)
    | Commanded(state: State, reason: Reason)

  function Apply(e: Execution, ev: Event): Execution {
    match ev
    case Observed(s) => Refresh(e, s)
    case MissionStored(id) =>
      if id in e.missions then e else e.(missions := e.missions + [id], revision := e.revision + 1)
    case Baselined(track, reconnaissance) =>
      var cursors := Cursors(track, reconnaissance, None, None);
      if cursors == e.cursors then e else e.(cursors := cursors, revision := e.revision + 1)
    case Commanded(state, reason) => Transition(e, state, reason)
  }

  function Run(e: Execution, events: seq<Event>): Execution {
    if events == [] then e else Apply(Run(e, events[..|events| - 1]), events[|events| - 1])
  }

  predicate HasTrackVerdicts(op: Operation) {
    op.Navigate? || op.ControlGimbal? || op.FireWeapon? || op.AreaRecon?
  }

  predicate IsArmed(e: Execution) {
    if e.operation.AreaRecon? then e.cursors.reconnaissanceActive.Some? else e.cursors.trackActive.Some?
  }

  function TrackOf(op: Operation, s: Snapshot): Track
    requires HasTrackVerdicts(op)
  {
    match op
    case Navigate => s.mission
    case ControlGimbal => s.eoTask
    case FireWeapon => s.weapon
    case _ => Track(s.recon.id, s.recon.motionStatus, s.recon.progress)
  }

  function MappedOf(op: Operation, s: Snapshot): Mapped
    requires HasTrackVerdicts(op)
  {
    if op.AreaRecon? then MapRecon(s.recon.motionStatus) else MapTask(TrackOf(op, s).state)
  }

  /** The snapshot is newer than the dispatch baseline and carries the execution's own mission. */
  predicate Speaks(e: Execution, s: Snapshot)
    requires HasTrackVerdicts(e.operation)
  {
    && (if e.operation.AreaRecon?
        then IsNewReconObservation(e, ReconCursor(s)) && BelongsTo(e, s.recon.id, true)
        else IsNewObservation(e, OperationCursor(e.operation, s)) && BelongsTo(e, TrackOf(e.operation, s).id, false))
    && (e.operation.FireWeapon? ==> e.missions != [])
  }

  predicate ReportsActivity(e: Execution, s: Snapshot)
    requires HasTrackVerdicts(e.operation)
  {
    && Speaks(e, s)
    && if e.operation.AreaRecon? then IsReconActive(MappedOf(e.operation, s))
       else IsObservedActive(MappedOf(e.operation, s))
  }

  /** Event `k` is an observation of activity, and no later event of the run resets the baseline. */
  ghost predicate ActiveSince(e: Execution, events: seq<Event>, k: nat)
    requires HasTrackVerdicts(e.operation)
  {
    && k < |events|
    && WasActive(e, events[..k], events[k])
    && forall j :: k < j < |events| ==> !events[j].Baselined?
  }

  /** After `before`, the event is an observation of activity. */
  predicate WasActive(e: Execution, before: seq<Event>, event: Event)
    requires HasTrackVerdicts(e.operation)
  {
    && event.Observed?
    && Run(e, before).operation == e.operation
    && ReportsActivity(Run(e, before), event.s)
  }

  lemma RefreshKeepsTask(e: Execution, s: Snapshot)
    ensures Refresh(e, s).operation == e.operation && Refresh(e, s).missions == e.missions
  {
    TrackIsQuiescent(e, s.mission, OperationCursor(e.operation, s));
    TrackIsQuiescent(e, s.eoTask, OperationCursor(e.operation, s));
    TrackIsQuiescent(e, s.weapon, OperationCursor(e.operation, s));
    ReconIsQuiescent(e, s.recon, ReconCursor(s), s.reconObservedAt);
  }

  lemma {:induction false} RunKeepsOperation(e: Execution, events: seq<Event>)
    ensures Run(e, events).operation == e.operation
  {
    if events != [] {
      var before := Run(e, events[..|events| - 1]);
      RunKeepsOperation(e, events[..|events| - 1]);
      if events[|events| - 1].Observed? {
        RefreshKeepsTask(before, events[|events| - 1].s);
      }
    }
  }

  /** Only an observation of activity sets the mark that verdicts require. */
  lemma RefreshArmsOnActivity(e: Execution, s: Snapshot)
    requires HasTrackVerdicts(e.operation) && !IsArmed(e) && IsArmed(Refresh(e, s))
    ensures ReportsActivity(e, s)
  {}

  lemma DecideVerdictNeedsMark(e: Execution, m: Mapped, active: bool, armed: bool, marked: Cursors,
                               unconfirmed: Reason, reported: Option<real>, keepsResuming: bool)
    requires !IsTerminal(e.state)
    ensures var next := Decide(e, m, active, armed, marked, unconfirmed, reported, keepsResuming);
            IsTerminal(next.state) ==> armed && IsMappedTerminal(m) && Some(next.state) == m.state
  {}

  lemma TrackVerdictNeedsMark(e: Execution, track: Track, cursor: Option<Cursor>)
    requires !IsTerminal(e.state) && IsTerminal(ApplyTrack(e, track, cursor).state)
    ensures e.cursors.trackActive.Some? && IsNewObservation(e, cursor) && BelongsTo(e, track.id, false)
    ensures IsMappedTerminal(MapTask(track.state))
    ensures Some(ApplyTrack(e, track, cursor).state) == MapTask(track.state).state
  {
    var m := MapTask(track.state);
    DecideVerdictNeedsMark(e, m, IsObservedActive(m), e.cursors.trackActive.Some?, e.cursors.(trackActive := cursor),
                           TaskTerminalUnconfirmed, track.progress, true);
  }

  lemma ReconVerdictNeedsMark(e: Execution, r: Recon, cursor: Option<int>, observedAt: Option<int>)
    requires !IsTerminal(e.state) && IsTerminal(ApplyRecon(e, r, cursor, observedAt).state)
    ensures e.cursors.reconnaissanceActive.Some? && IsNewReconObservation(e, cursor) && BelongsTo(e, r.id, true)
    ensures IsMappedTerminal(MapRecon(r.motionStatus))
    ensures Some(ApplyRecon(e, r, cursor, observedAt).state) == MapRecon(r.motionStatus).state
  {
    var m := MapRecon(r.motionStatus);
    DecideVerdictNeedsMark(e, m, IsReconActive(m), e.cursors.reconnaissanceActive.Some?,
                           e.cursors.(reconnaissanceActive := cursor), ReconTerminalUnconfirmed,
                           if r.progressAuthoritative then r.progress else None, false);
  }

  /** A verdict from the device needs the mark, a speaking observation and a terminal device state. */
  lemma RefreshVerdictNeedsMark(e: Execution, s: Snapshot)
    requires HasTrackVerdicts(e.operation) && !IsTerminal(e.state) && IsTerminal(Refresh(e, s).state)
    ensures IsArmed(e) && Speaks(e, s) && IsMappedTerminal(MappedOf(e.operation, s))
    ensures Some(Refresh(e, s).state) == MappedOf(e.operation, s).state
  {
    match e.operation
    case Navigate => TrackVerdictNeedsMark(e, s.mission, OperationCursor(e.operation, s));
    case ControlGimbal => TrackVerdictNeedsMark(e, s.eoTask, OperationCursor(e.operation, s));
    case FireWeapon => TrackVerdictNeedsMark(e, s.weapon, OperationCursor(e.operation, s));
    case AreaRecon => ReconVerdictNeedsMark(e, s.recon, ReconCursor(s), s.reconObservedAt);
  }

  lemma ApplyArms(e: Execution, ev: Event)
    requires HasTrackVerdicts(e.operation) && IsArmed(Apply(e, ev)) && Apply(e, ev).operation == e.operation
    ensures !ev.Baselined?
    ensures !IsArmed(e) ==> ev.Observed? && ReportsActivity(e, ev.s)
  {
    if ev.Observed? && !IsArmed(e) {
      RefreshArmsOnActivity(e, ev.s);
    }
  }

  lemma LastEventArms(e: Execution, events: seq<Event>)
    requires HasTrackVerdicts(e.operation) && events != [] && IsArmed(Run(e, events))
    ensures var before := Run(e, events[..|events| - 1]);
            var last := events[|events| - 1];
            && before.operation == e.operation && !last.Baselined?
            && (!IsArmed(before) ==> last.Observed? && ReportsActivity(before, last.s))
  {
    RunKeepsOperation(e, events[..|events| - 1]);
    RunKeepsOperation(e, events);
    ApplyArms(Run(e, events[..|events| - 1]), events[|events| - 1]);
  }

  lemma PrefixOfFront(events: seq<Event>, k: nat)
    requires k < |events| - 1
    ensures events[..|events| - 1][..k] == events[..k] && events[..|events| - 1][k] == events[k]
  {}

  lemma SameWitness(e: Execution, before: seq<Event>, event: Event, before': seq<Event>, event': Event)
    requires HasTrackVerdicts(e.operation) && WasActive(e, before, event) && before == before' && event == event'
    ensures WasActive(e, before', event')
  {}

  lemma WitnessExtends(e: Execution, events: seq<Event>, k: nat)
    requires HasTrackVerdicts(e.operation) && events != []
    requires ActiveSince(e, events[..|events| - 1], k) && !events[|events| - 1].Baselined?
    ensures ActiveSince(e, events, k)
  {
    var front := events[..|events| - 1];
    PrefixOfFront(events, k);
    SameWitness(e, front[..k], front[k], events[..k], events[k]);
    assert forall j :: k < j < |front| ==> front[j] == events[j];
  }

  lemma {:induction false} MarkHasWitness(e: Execution, events: seq<Event>) returns (k: nat)
    requires HasTrackVerdicts(e.operation) && !IsArmed(e)
    requires IsArmed(Run(e, events))
    ensures ActiveSince(e, events, k)
    decreases |events|
  {
    LastEventArms(e, events);
    if IsArmed(Run(e, events[..|events| - 1])) {
      k := MarkHasWitness(e, events[..|events| - 1]);
      WitnessExtends(e, events, k);
    } else {
      k := |events| - 1;
    }
  }

  /**
   Over any history of observations, mission ids, commands and new baselines: a navigate, gimbal, fire or recon
   task reaches a terminal state from a device status only if an earlier observation, newer than the baseline in
   force and passing the mission-id test, mapped to an active state; no baseline was set in between; and the
   deciding observation passes the same tests. A fire task additionally had a persisted mission id by then.
   */
  lemma NoVerdictWithoutActivity(e: Execution, events: seq<Event>, s: Snapshot) returns (k: nat)
    requires HasTrackVerdicts(e.operation) && !IsArmed(e)
    requires !IsTerminal(Run(e, events).state) && IsTerminal(Refresh(Run(e, events), s).state)
    ensures ActiveSince(e, events, k)
    ensures Run(e, events).operation == e.operation && Speaks(Run(e, events), s)
    ensures Some(Refresh(Run(e, events), s).state) == MappedOf(e.operation, s).state
    ensures e.operation.FireWeapon? ==> Run(e, events[..k]).missions != []
  {
    RunKeepsOperation(e, events);
    RefreshVerdictNeedsMark(Run(e, events), s);
    k := MarkHasWitness(e, events);
  }

  /** What an observation of activity makes of the execution: marked, undecided, baseline and missions kept. */
  predicate IsMarkedBy(e: Execution, next: Execution) {
    && IsArmed(next) && !IsTerminal(next.state) && !next.state.WaitingInput?
    && (next.state.Accepted? ==> e.state.Accepted?)
    && next.operation == e.operation && next.missions == e.missions
    && next.cursors.track == e.cursors.track && next.cursors.reconnaissance == e.cursors.reconnaissance
  }

  lemma TrackActivityMarks(e: Execution, track: Track, cursor: Option<Cursor>)
    requires !e.operation.AreaRecon? && !IsTerminal(e.state) && !e.state.WaitingInput?
    requires IsNewObservation(e, cursor) && BelongsTo(e, track.id, false) && IsObservedActive(MapTask(track.state))
    ensures IsMarkedBy(e, ApplyTrack(e, track, cursor))
  {
    var m := MapTask(track.state);
    MapsAreDeviceStates(track.state);
    DecideIsQuiescent(e, m, true, e.cursors.trackActive.Some?, e.cursors.(trackActive := cursor),
                      e.cursors, TaskTerminalUnconfirmed, track.progress, true);
  }

  lemma ReconActivityMarks(e: Execution, r: Recon, cursor: Option<int>, observedAt: Option<int>)
    requires e.operation.AreaRecon? && !IsTerminal(e.state) && !e.state.WaitingInput? && !e.state.Accepted?
    requires IsNewReconObservation(e, cursor) && BelongsTo(e, r.id, true) && observedAt.Some? && !r.cameraFault
    requires IsReconActive(MapRecon(r.motionStatus))
    ensures IsMarkedBy(e, ApplyRecon(e, r, cursor, observedAt))
  {
    var m := MapRecon(r.motionStatus);
    MapsAreDeviceStates(r.motionStatus);
    DecideIsQuiescent(e, m, true, e.cursors.reconnaissanceActive.Some?, e.cursors.(reconnaissanceActive := cursor),
                      e.cursors, ReconTerminalUnconfirmed, if r.progressAuthoritative then r.progress else None, false);
  }

  lemma ActivityMarks(e: Execution, s: Snapshot)
    requires HasTrackVerdicts(e.operation) && !IsTerminal(e.state) && !e.state.WaitingInput?
    requires ReportsActivity(e, s) && ReconReadable(e, s)
    ensures IsMarkedBy(e, Refresh(e, s))
  {
    match e.operation
    case AreaRecon => ReconActivityMarks(e, s.recon, ReconCursor(s), s.reconObservedAt);
    case Navigate => TrackActivityMarks(e, s.mission, OperationCursor(e.operation, s));
    case ControlGimbal => TrackActivityMarks(e, s.eoTask, OperationCursor(e.operation, s));
    case FireWeapon => TrackActivityMarks(e, s.weapon, OperationCursor(e.operation, s));
  }

  /** A marked execution takes a speaking terminal status as its verdict. */
  lemma MarkedTakesVerdict(e: Execution, s: Snapshot)
    requires HasTrackVerdicts(e.operation) && !IsTerminal(e.state) && !e.state.WaitingInput?
    requires IsArmed(e) && Speaks(e, s) && ReconReadable(e, s) && IsMappedTerminal(MappedOf(e.operation, s))
    ensures Some(Refresh(e, s).state) == MappedOf(e.operation, s).state
  {}

  /** Reconnaissance reads a status only after dispatch, with a parseable time and no camera fault. */
  predicate ReconReadable(e: Execution, s: Snapshot) {
    e.operation.AreaRecon? ==> !e.state.Accepted? && s.reconObservedAt.Some? && !s.recon.cameraFault
  }

  /** The converse: after an observation of activity, the next speaking terminal status is the verdict. */
  lemma ActivityThenTerminalIsVerdict(e: Execution, active: Snapshot, last: Snapshot)
    requires HasTrackVerdicts(e.operation) && !IsTerminal(e.state) && !e.state.WaitingInput?
    requires ReportsActivity(e, active) && ReconReadable(e, active)
    requires Speaks(e, last) && ReconReadable(e, last) && IsMappedTerminal(MappedOf(e.operation, last))
    ensures Some(Refresh(Refresh(e, active), last).state) == MappedOf(e.operation, last).state
  {
    ActivityMarks(e, active);
    MarkedTakesVerdict(Refresh(e, active), last);
  }
}
