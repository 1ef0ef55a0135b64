/**
 What device observations do to an NPC Tank task, in terms of what the device reported: whose mission it named, on which
 topics, and in which state (apps/npc-tank-provider-adapter/src/runtime.ts:745-850, 1395-1625).
 */
module NpcVerdicts {
  import opened Wrappers
  import opened NpcObservation

  // ------------------------------------------------------------------------------------------ whose mission

  /** The device names a mission of the task. */
  predicate NamesOwn(e: Execution, id: Option<ObservedId>) {
    exists own <- e.missions :: id == Some(Canonical(own))
  }

  /** The device names something, and it is no mission of the task. */
  predicate NamesForeign(e: Execution, id: Option<ObservedId>) {
    id.Some? && forall own <- e.missions :: id.value != Canonical(own)
  }

  /** The mission id in the part of the snapshot that a task of this kind goes by. */
  function ReportedId(op: Operation, s: Snapshot): Option<ObservedId> {
    match op
    case Navigate => s.mission.id
    case ControlGimbal => s.eoTask.id
    case FireWeapon => s.weapon.id
    case AreaRecon => s.recon.id
    case _ => None
  }

  lemma BelongsExactly(e: Execution, id: Option<ObservedId>, allowMissing: bool)
    ensures BelongsTo(e, id, allowMissing) <==> e.missions == [] || NamesOwn(e, id) || (id.None? && allowMissing)
    ensures id.Some? ==> NamesOwn(e, id) || NamesForeign(e, id)
    ensures NamesForeign(e, id) ==> !NamesOwn(e, id)
  {
    if id.Some? && id.value.Canonical? && id.value.id in e.missions {
      assert id == Some(Canonical(id.value.id));
    }
  }

  /** What speaks about a task with missions names one of them, or, for reconnaissance alone, names none at all. */
  lemma SpeaksNamesOwn(e: Execution, s: Snapshot)
    requires HasTrackVerdicts(e.operation) && Speaks(e, s) && e.missions != []
    ensures NamesOwn(e, ReportedId(e.operation, s)) || (e.operation == AreaRecon && ReportedId(e.operation, s) == None)
  {
    BelongsExactly(e, ReportedId(e.operation, s), e.operation == AreaRecon);
  }

  /**
   Over every history: when a device status ends a task with missions, the deciding observation names one of them, and
   so did the earlier observation of activity name one of those the task had then; reconnaissance may name none.
   */
  lemma VerdictNamesOwnMission(e: Execution, events: seq<Event>, s: Snapshot) returns (k: nat)
    requires HasTrackVerdicts(e.operation) && !IsArmed(e)
    requires !IsTerminal(Run(e, events).state) && IsTerminal(Refresh(Run(e, events), s).state)
    ensures ActiveSince(e, events, k)
    ensures Run(e, events).missions != [] ==>
              NamesOwn(Run(e, events), ReportedId(e.operation, s))
              || (e.operation == AreaRecon && ReportedId(e.operation, s) == None)
    ensures Run(e, events[..k]).missions != [] ==>
              NamesOwn(Run(e, events[..k]), ReportedId(e.operation, events[k].s))
              || (e.operation == AreaRecon && ReportedId(e.operation, events[k].s) == None)
  {
    k := NoVerdictWithoutActivity(e, events, s);
    var last, then' := Run(e, events), Run(e, events[..k]);
    if last.missions != [] {
      SpeaksNamesOwn(last, s);
    }
    if then'.missions != [] {
      SpeaksNamesOwn(then', events[k].s);
    }
  }

  lemma ForeignTrackKeepsState(e: Execution, track: Track, cursor: Option<Cursor>)
    requires e.missions != [] && (track.id == None || NamesForeign(e, track.id))
    ensures ApplyTrack(e, track, cursor).state == e.state && ApplyTrack(e, track, cursor).progress == e.progress
    ensures cursor.Some? && cursor != e.cursors.track ==> ApplyTrack(e, track, cursor).reason == MissionIdMismatch
  {
    BelongsExactly(e, track.id, false);
  }

  lemma ForeignReconKeepsState(e: Execution, r: Recon, cursor: Option<int>, observedAt: Option<int>)
    requires e.missions != [] && NamesForeign(e, r.id)
    ensures ApplyRecon(e, r, cursor, observedAt).state == e.state
    ensures ApplyRecon(e, r, cursor, observedAt).progress == e.progress
  {
    BelongsExactly(e, r.id, true);
  }

  /** A report about another mission, or a malformed one, moves neither state nor progress; nor does a missing id. */
  lemma ForeignReportKeepsState(e: Execution, s: Snapshot)
    requires HasTrackVerdicts(e.operation) && e.missions != []
    requires NamesForeign(e, ReportedId(e.operation, s))
             || (e.operation != AreaRecon && ReportedId(e.operation, s) == None)
    ensures Refresh(e, s).state == e.state && Refresh(e, s).progress == e.progress
  {
    match e.operation
    case Navigate => ForeignTrackKeepsState(e, s.mission, OperationCursor(e.operation, s));
    case ControlGimbal => ForeignTrackKeepsState(e, s.eoTask, OperationCursor(e.operation, s));
    case FireWeapon => ForeignTrackKeepsState(e, s.weapon, OperationCursor(e.operation, s));
    case AreaRecon => ForeignReconKeepsState(e, s.recon, ReconCursor(s), s.reconObservedAt);
  }

  /** An own report of an unknown state leaves the task as it is, in doubt; a camera fault does so on its own. */
  lemma UnknownTrackIsUncertain(e: Execution, track: Track, cursor: Option<Cursor>)
    requires cursor.Some? && cursor != e.cursors.track && NamesOwn(e, track.id)
    requires track.state == None || track.state.value < 0 || track.state.value > 5
    ensures ApplyTrack(e, track, cursor).state == e.state && ApplyTrack(e, track, cursor).progress == e.progress
    ensures ApplyTrack(e, track, cursor).reason == UncertainExecutionState
  {
    BelongsExactly(e, track.id, false);
  }

  lemma CameraFaultKeepsState(e: Execution, r: Recon, cursor: Option<int>, observedAt: Option<int>)
    requires e.state != Accepted && cursor.Some? && cursor != e.cursors.reconnaissance && observedAt.Some?
    requires e.missions == [] || NamesOwn(e, r.id) || r.id == None
    requires r.cameraFault
    ensures ApplyRecon(e, r, cursor, observedAt).state == e.state
    ensures ApplyRecon(e, r, cursor, observedAt).reason == ReconCameraFault
  {
    BelongsExactly(e, r.id, true);
  }

  // ------------------------------------------------------------------------------------------ which state

  /** Device codes 3, 4, 5 and reconnaissance statuses 9, 11, 10 end a task cancelled, succeeded and failed. */
  function Ending(op: Operation, s: Snapshot): Option<State> {
    match op
    case Navigate => TrackEnding(s.mission.state)
    case ControlGimbal => TrackEnding(s.eoTask.state)
    case FireWeapon => TrackEnding(s.weapon.state)
    case AreaRecon => ReconEnding(s.recon.motionStatus)
    case _ => None
  }

  function ReconEnding(status: Option<int>): Option<State> {
    if status == Some(9) then Some(Cancelled)
    else if status == Some(10) then Some(BusinessFailed)
    else if status == Some(11) then Some(Succeeded)
    else None
  }

  function TrackEnding(code: Option<int>): Option<State> {
    if code == Some(3) then Some(Cancelled)
    else if code == Some(4) then Some(Succeeded)
    else if code == Some(5) then Some(BusinessFailed)
    else None
  }

  /** The observation is newer than the dispatch baseline. */
  predicate IsNewer(e: Execution, s: Snapshot) {
    if e.operation == AreaRecon then
      ReconStatus in s.topics && e.cursors.reconnaissance != Some(s.topics[ReconStatus])
    else OperationCursor(e.operation, s).Some? && OperationCursor(e.operation, s) != e.cursors.track
  }

  /** The report can be taken: for reconnaissance only after the start, with a time, and without a camera fault. */
  predicate IsReadable(e: Execution, s: Snapshot) {
    e.operation == AreaRecon ==> e.state != Accepted && s.reconObservedAt.Some? && !s.recon.cameraFault
  }

  predicate IsOpen(e: Execution) {
    e.state != WaitingInput && e.state != Succeeded && e.state != BusinessFailed && e.state != Cancelled
    && e.state != TechnicalFailed
  }

  predicate IsMarked(e: Execution) {
    if e.operation == AreaRecon then e.cursors.reconnaissanceActive.Some? else e.cursors.trackActive.Some?
  }

  /** A task that is over, or waits for its confirmation, is not touched. */
  lemma ClosedStays(e: Execution, s: Snapshot)
    requires !IsOpen(e)
    ensures Refresh(e, s) == e
  {}

  /** A marked task whose own mission is reported in an ending state ends in that state; a success is complete. */
  lemma OwnEndingEndsTask(e: Execution, s: Snapshot)
    requires HasTrackVerdicts(e.operation) && IsOpen(e) && IsMarked(e) && IsNewer(e, s) && IsReadable(e, s)
    requires NamesOwn(e, ReportedId(e.operation, s)) && Ending(e.operation, s).Some?
    ensures Some(Refresh(e, s).state) == Ending(e.operation, s)
    ensures Refresh(e, s).state == Succeeded ==> Refresh(e, s).progress == Some(100.0)
  {
    match e.operation
    case Navigate => OwnTrackEndingEnds(e, s.mission, OperationCursor(e.operation, s));
    case ControlGimbal => OwnTrackEndingEnds(e, s.eoTask, OperationCursor(e.operation, s));
    case FireWeapon => OwnTrackEndingEnds(e, s.weapon, OperationCursor(e.operation, s));
    case AreaRecon => OwnReconEndingEnds(e, s.recon, ReconCursor(s), s.reconObservedAt);
  }

  lemma OwnTrackEndingEnds(e: Execution, track: Track, cursor: Option<Cursor>)
    requires e.cursors.trackActive.Some? && cursor.Some? && cursor != e.cursors.track
    requires NamesOwn(e, track.id) && TrackEnding(track.state).Some?
    ensures var next := ApplyTrack(e, track, cursor);
            Some(next.state) == TrackEnding(track.state) && (next.state == Succeeded ==> next.progress == Some(100.0))
  {
    BelongsExactly(e, track.id, false);
  }

  lemma OwnReconEndingEnds(e: Execution, r: Recon, cursor: Option<int>, observedAt: Option<int>)
    requires e.cursors.reconnaissanceActive.Some? && cursor.Some? && cursor != e.cursors.reconnaissance
    requires e.state != Accepted && observedAt.Some? && !r.cameraFault && NamesOwn(e, r.id)
    requires ReconEnding(r.motionStatus).Some?
    ensures var next := ApplyRecon(e, r, cursor, observedAt);
            && Some(next.state) == ReconEnding(r.motionStatus)
            && (next.state == Succeeded ==> next.progress == Some(100.0))
  {
    BelongsExactly(e, r.id, true);
  }

  /** A task that is not marked does not end, and one that ends does so in the ending state reported. */
  lemma EndsOnlyWhenMarked(e: Execution, s: Snapshot)
    requires HasTrackVerdicts(e.operation) && IsOpen(e) && !IsOpen(Refresh(e, s))
    ensures IsMarked(e) && IsNewer(e, s) && IsReadable(e, s) && Some(Refresh(e, s).state) == Ending(e.operation, s)
    ensures e.operation == FireWeapon ==> e.missions != []
  {
    RefreshKeepsOpen(e, s);
    RefreshVerdictNeedsMark(e, s);
  }

  lemma RefreshKeepsOpen(e: Execution, s: Snapshot)
    requires IsOpen(e)
    ensures Refresh(e, s).state != WaitingInput
  {
    TrackIsQuiescent(e, s.mission, OperationCursor(e.operation, s));
    TrackIsQuiescent(e, s.eoTask, OperationCursor(e.operation, s));
    TrackIsQuiescent(e, s.weapon, OperationCursor(e.operation, s));
    ReconIsQuiescent(e, s.recon, ReconCursor(s), s.reconObservedAt);
  }

  /** What a device code, or a reconnaissance status, shows a task that goes on to be doing. */
  function TrackShows(code: Option<int>): Option<State> {
    if code == Some(0) then Some(Starting)
    else if code == Some(1) then Some(Running)
    else if code == Some(2) then Some(Paused)
    else None
  }

  function ReconShows(status: Option<int>): Option<State> {
    if status == Some(2) || status == Some(3) || status == Some(4) then Some(Starting)
    else if status == Some(5) || status == Some(7) then Some(Running)
    else if status == Some(6) then Some(Resuming)
    else if status == Some(8) then Some(Paused)
    else if status == Some(12) then Some(Stopping)
    else None
  }

  /** A valid report of progress counts if it is more than what is known. */
  function Advanced(known: Option<real>, reported: Option<real>): Option<real> {
    match (known, reported)
    case (_, None) => known
    case (None, Some(r)) => if 0.0 <= r <= 100.0 then Some(r) else None
    case (Some(p), Some(r)) => if 0.0 <= r <= 100.0 && r > p then Some(r) else Some(p)
  }

  /** A stopping task is not moved back, and a track does not move a resuming task back to paused. */
  predicate Holds(from: State, shown: State, isTrack: bool) {
    || (from == Stopping && (shown == Starting || shown == Running || shown == Paused))
    || (isTrack && from == Resuming && shown == Paused)
  }

  lemma TrackTables(code: Option<int>)
    ensures MapTask(code).state == if TrackEnding(code).Some? then TrackEnding(code) else TrackShows(code)
    ensures IsObservedActive(MapTask(code)) <==> code == Some(1) || code == Some(2)
    ensures IsMappedTerminal(MapTask(code)) <==> TrackEnding(code).Some?
  {}

  lemma ReconTables(status: Option<int>)
    ensures ReconShows(status).Some? ==> MapRecon(status).state == ReconShows(status)
    ensures IsReconActive(MapRecon(status)) <==> ReconShows(status).Some?
  {}

  lemma ProgressAdvances(known: Option<real>, reported: Option<real>)
    ensures MonotonicProgress(known, reported) == Advanced(known, reported)
  {}

  lemma FollowTakes(current: Execution, m: Mapped, shown: State, reported: Option<real>, isTrack: bool)
    requires m.state == Some(shown)
    requires shown == Starting || shown == Running || shown == Paused || shown == Resuming || shown == Stopping
    ensures var next := Follow(current, m, reported, isTrack);
            && next.cursors == current.cursors
            && next.state == (if Holds(current.state, shown, isTrack) then current.state else shown)
            && (!Holds(current.state, shown, isTrack) ==> next.progress == Advanced(current.progress, reported))
  {
    ProgressAdvances(current.progress, reported);
  }

  lemma DecideTakes(e: Execution, m: Mapped, shown: State, active: bool, armed: bool, marked: Cursors,
                    unconfirmed: Reason, reported: Option<real>, isTrack: bool)
    requires m.state == Some(shown)
    requires shown == Starting || shown == Running || shown == Paused || shown == Resuming || shown == Stopping
    ensures var next := Decide(e, m, active, armed, marked, unconfirmed, reported, isTrack);
            && next.cursors == (if armed || !active then e.cursors else marked)
            && next.state == (if Holds(e.state, shown, isTrack) then e.state else shown)
            && (!Holds(e.state, shown, isTrack) ==> next.progress == Advanced(e.progress, reported))
  {
    FollowTakes(if armed || !active then e else e.(cursors := marked, revision := e.revision + 1), m, shown, reported,
                isTrack);
  }

  /** An own newer report of a state that goes on is taken over, with its progress, unless the task holds. */
  lemma TrackIsFollowed(e: Execution, track: Track, cursor: Option<Cursor>)
    requires cursor.Some? && cursor != e.cursors.track && NamesOwn(e, track.id) && TrackShows(track.state).Some?
    ensures var shown, next := TrackShows(track.state).value, ApplyTrack(e, track, cursor);
            && next.state == (if Holds(e.state, shown, true) then e.state else shown)
            && (!Holds(e.state, shown, true) ==> next.progress == Advanced(e.progress, track.progress))
            && (track.state == Some(1) || track.state == Some(2) ==> next.cursors.trackActive.Some?)
            && (track.state == Some(0) ==> next.cursors == e.cursors)
  {
    var m := MapTask(track.state);
    BelongsExactly(e, track.id, false);
    TrackTables(track.state);
    DecideTakes(e, m, TrackShows(track.state).value, IsObservedActive(m), e.cursors.trackActive.Some?,
                e.cursors.(trackActive := cursor), TaskTerminalUnconfirmed, track.progress, true);
  }

  /** The same for reconnaissance, which may name no mission, and whose progress counts only if authoritative. */
  lemma ReconIsFollowed(e: Execution, r: Recon, cursor: Option<int>, observedAt: Option<int>)
    requires e.state != Accepted && cursor.Some? && cursor != e.cursors.reconnaissance && observedAt.Some?
    requires e.missions == [] || NamesOwn(e, r.id) || r.id == None
    requires !r.cameraFault && ReconShows(r.motionStatus).Some?
    ensures var shown, next := ReconShows(r.motionStatus).value, ApplyRecon(e, r, cursor, observedAt);
            && next.state == (if Holds(e.state, shown, false) then e.state else shown)
            && (!Holds(e.state, shown, false) ==>
                  next.progress == Advanced(e.progress, if r.progressAuthoritative then r.progress else None))
            && next.cursors.reconnaissanceActive.Some?
  {
    var m := MapRecon(r.motionStatus);
    BelongsExactly(e, r.id, true);
    ReconTables(r.motionStatus);
    DecideTakes(e, m, ReconShows(r.motionStatus).value, IsReconActive(m), e.cursors.reconnaissanceActive.Some?,
                e.cursors.(reconnaissanceActive := cursor), ReconTerminalUnconfirmed,
                if r.progressAuthoritative then r.progress else None, false);
  }

  // ------------------------------------------------------------------------------------------ which topics

  /** Which kinds of task a topic is news for. */
  predicate ListensTo(op: Operation, t: Topic) {
    match t
    case MissionState => op == Navigate || op == EmergencyStop
    case ReconStatus => op == AreaRecon || op == TrackTarget || op == EmergencyStop
    case LegacyStatus => op != AreaRecon
    case Status => op != AreaRecon
  }

  function News(t: Topic, seen: map<Topic, int>): Option<int> {
    if t in seen then Some(seen[t]) else None
  }

  function Prefixed(t: Topic, n: Option<int>, x: Cursor): Cursor {
    if n.Some? then [(t, n.value)] + x else x
  }

  lemma {:induction false} ObservationsName(topics: seq<Topic>, seen: map<Topic, int>)
    ensures forall p <- Observations(topics, seen) :: p.0 in topics
    ensures Observations(topics, seen) == [] <==> forall t <- topics :: t !in seen
  {
    if topics != [] {
      ObservationsName(topics[1..], seen);
      assert topics == [topics[0]] + topics[1..];
    }
  }

  lemma {:induction false} ObservationsTell(topics: seq<Topic>, a: map<Topic, int>, b: map<Topic, int>)
    requires forall i, j :: 0 <= i < j < |topics| ==> topics[i] != topics[j]
    ensures Observations(topics, a) == Observations(topics, b) <==> forall t <- topics :: News(t, a) == News(t, b)
  {
    if topics != [] {
      var t, rest := topics[0], topics[1..];
      ObservationsTell(rest, a, b);
      ObservationsName(rest, a);
      ObservationsName(rest, b);
      var x, y := Observations(rest, a), Observations(rest, b);
      assert Observations(topics, a) == Prefixed(t, News(t, a), x) by { assert [] + x == x; }
      assert Observations(topics, b) == Prefixed(t, News(t, b), y) by { assert [] + y == y; }
      FirstPairsTell(t, x, y, News(t, a), News(t, b));
      assert topics == [t] + rest;
    }
  }

  lemma FirstPairsTell(t: Topic, x: Cursor, y: Cursor, m: Option<int>, n: Option<int>)
    requires (forall p <- x :: p.0 != t) && (forall p <- y :: p.0 != t)
    ensures Prefixed(t, m, x) == Prefixed(t, n, y) <==> m == n && x == y
  {
    var p, q := Prefixed(t, m, x), Prefixed(t, n, y);
    assert m.Some? ==> p[0] == (t, m.value) && p[1..] == x && p[0] in p;
    assert n.Some? ==> q[0] == (t, n.value) && q[1..] == y && q[0] in q;
  }

  lemma TopicsAreThoseListenedTo(op: Operation, t: Topic)
    ensures t in TopicsOf(op) <==> ListensTo(op, t)
    ensures forall i, j :: 0 <= i < j < |TopicsOf(op)| ==> TopicsOf(op)[i] != TopicsOf(op)[j]
  {}

  /** The cursor of a kind of task changes exactly with the news of the topics it listens to. */
  lemma CursorChangesExactly(op: Operation, a: Snapshot, b: Snapshot)
    ensures OperationCursor(op, a) == OperationCursor(op, b)
            <==> forall t: Topic :: ListensTo(op, t) ==> News(t, a.topics) == News(t, b.topics)
    ensures OperationCursor(op, a) == None <==> forall t: Topic :: ListensTo(op, t) ==> t !in a.topics
  {
    forall t: Topic ensures t in TopicsOf(op) <==> ListensTo(op, t) {
      TopicsAreThoseListenedTo(op, t);
    }
    TopicsAreThoseListenedTo(op, MissionState);
    ObservationsTell(TopicsOf(op), a.topics, b.topics);
    ObservationsName(TopicsOf(op), a.topics);
    ObservationsName(TopicsOf(op), b.topics);
  }

  // ------------------------------------------------------------------------------------------ the other two operations

  /** A newer observation decides a target task: locked on its target it runs, and a running one without it fails. */
  lemma LockDecides(e: Execution, s: Snapshot)
    requires e.operation == TrackTarget && IsOpen(e) && IsNewer(e, s)
    ensures var onTarget := if s.recon.lockStage == Some(3) then s.recon.lockTarget == Some(e.targetId)
                            else s.lockedTarget == Some(e.targetId);
            Refresh(e, s).state == if onTarget then Running else if e.state == Running then BusinessFailed else e.state
  {}

  /** The reconnaissance statuses in which the vehicle moves are those that show a task active, except READY. */
  lemma MotionIsActivity(status: Option<int>)
    ensures MotionActive(status) <==> ReconShows(status).Some? && status != Some(3)
    ensures IsReconActive(MapRecon(status)) <==> ReconShows(status).Some?
  {}

  /** An emergency stop succeeds exactly on a newer observation of a vehicle at rest with every subsystem at rest. */
  lemma StopSucceedsExactly(e: Execution, s: Snapshot)
    requires e.operation == EmergencyStop && IsOpen(e)
    ensures Refresh(e, s).state == Succeeded <==>
            && IsNewer(e, s)
            && (s.speed == None || s.speed.value <= 0.1)
            && s.mission.state != Some(1) && s.eoTask.state != Some(1) && s.weapon.state != Some(1)
            && (ReconShows(s.recon.motionStatus) == None || s.recon.motionStatus == Some(3))
            && (s.recon.lockStage == None || s.recon.lockStage == Some(1))
    ensures Refresh(e, s).state != Succeeded ==> Refresh(e, s) == e
  {
    MotionIsActivity(s.recon.motionStatus);
  }

  /** Without news since the baseline nothing changes. */
  lemma NothingNewNothingChanges(e: Execution, s: Snapshot)
    requires !IsNewer(e, s)
    ensures Refresh(e, s) == e
  {}
}
