/** What the fire operations achieve when nothing interferes. */
module FireOutcomes {
  import opened Wrappers
  import opened FireFence

  datatype Outcome = Outcome(fence: Option<Code>, exec: Exec, fires: nat, done: bool)

  /** An invocation that runs alone, with the same answer to every question its steps ask. */
  function Alone(fence: Option<Code>, exec: Exec, pc: Pc, c: Choice, fires: nat, steps: nat): Outcome
    decreases steps
  {
    if steps == 0 || pc.Done? then Outcome(fence, exec, fires, pc.Done?)
    else
      var eff := LocalStep(fence, exec, pc, c);
      Alone(eff.fence, eff.exec, eff.pc, c, if eff.note.DeviceCalled? then fires + 1 else fires, steps - 1)
  }

  lemma OneStep(fence: Option<Code>, exec: Exec, pc: Pc, c: Choice, fires: nat, steps: nat) returns (eff: Effect)
    requires steps > 0 && !pc.Done?
    ensures eff == LocalStep(fence, exec, pc, c)
    ensures Alone(fence, exec, pc, c, fires, steps)
         == Alone(eff.fence, eff.exec, eff.pc, c, if eff.note.DeviceCalled? then fires + 1 else fires, steps - 1)
  {
    eff := LocalStep(fence, exec, pc, c);
  }

  /** What the fence and the execution must show after an undisturbed confirmation. */
  function ConfirmedOutcome(missions: seq<string>, device: DeviceOutcome): Outcome {
    match device
    case Mission(id) =>
      Outcome(Some(ConfirmationAccepted),
              Exec(Starting, CommandAccepted,
                   if id in missions then missions else missions + [id]), 1, true)
    case Rejected =>
      Outcome(Some(DeviceToolRejected), Exec(BusinessFailed, DeviceToolRejected, missions), 1, true)
    case _ =>
      Outcome(Some(Uncertain), Exec(Starting, Uncertain, missions), 1, true)
  }

  function Prepared(missions: seq<string>): Exec {
    Exec(Starting, DispatchPrepared, missions)
  }

  lemma ConfirmationDispatches(missions: seq<string>, reason: Code, c: Choice)
    requires c.fault.Normal? && c.proceed
    ensures Alone(None, Exec(WaitingInput, reason, missions), Update(UpdateReadExec(Confirmed)), c, 0, 12)
         == Alone(Some(Uncertain), Prepared(missions), Update(UpdateAwaitDevice(Prepared(missions))), c, 1, 6)
  {
    var w := Exec(WaitingInput, reason, missions);
    var e0 := OneStep(None, w, Update(UpdateReadExec(Confirmed)), c, 0, 12);
    assert e0 == Effect(None, w, Update(UpdateReadFence(w, Confirmed)), Quiet);
    var e1 := OneStep(None, w, e0.pc, c, 0, 11);
    assert e1 == Effect(None, w, Update(UpdateClaim(w)), Quiet);
    var e2 := OneStep(None, w, e1.pc, c, 0, 10);
    assert e2 == Effect(Some(NotArmed), w, Update(UpdatePrepare(w)), ClaimCommitted);
    var e3 := OneStep(e2.fence, w, e2.pc, c, 0, 9);
    var e4 := OneStep(e3.fence, e3.exec, e3.pc, c, 0, 8);
    var p := Prepared(missions);
    assert e4 == Effect(Some(Uncertain), p, Update(UpdateCallDevice(p)), ArmReturnedTrue);
    var e5 := OneStep(e4.fence, e4.exec, e4.pc, c, 0, 7);
  }

  lemma MissionSettles(missions: seq<string>, id: string, c: Choice)
    requires c.fault.Normal? && c.proceed && c.device == Mission(id)
    ensures Alone(Some(Uncertain), Prepared(missions), Update(UpdateAwaitDevice(Prepared(missions))), c, 1, 6)
         == ConfirmedOutcome(missions, c.device)
  {
    var p := Prepared(missions);
    var e0 := OneStep(Some(Uncertain), p, Update(UpdateAwaitDevice(p)), c, 1, 6);
    if id in missions {
      AnnouncementSettles(p, p, c, 5);
    } else {
      var known := Prepared(missions + [id]);
      var e1 := OneStep(Some(Uncertain), p, Update(UpdateStoreMission(known)), c, 1, 5);
      AnnouncementSettles(known, known, c, 4);
    }
  }

  lemma RejectionSettles(missions: seq<string>, c: Choice)
    requires c.fault.Normal? && c.device.Rejected?
    ensures Alone(Some(Uncertain), Prepared(missions), Update(UpdateAwaitDevice(Prepared(missions))), c, 1, 6)
         == ConfirmedOutcome(missions, c.device)
  {
    var p, failed := Prepared(missions), Exec(BusinessFailed, DeviceToolRejected, missions);
    var e0 := OneStep(Some(Uncertain), p, Update(UpdateAwaitDevice(p)), c, 1, 6);
    RejectionIsStored(p, failed, c);
  }

  lemma RejectionIsStored(p: Exec, failed: Exec, c: Choice)
    requires c.fault.Normal? && failed == p.(state := BusinessFailed, reason := DeviceToolRejected)
    ensures Alone(Some(Uncertain), p, Update(UpdatePersistRejection(p)), c, 1, 5)
         == Outcome(Some(DeviceToolRejected), failed, 1, true)
  {
    var e1 := OneStep(Some(Uncertain), p, Update(UpdatePersistRejection(p)), c, 1, 5);
    assert e1 == Effect(Some(Uncertain), failed, Update(UpdateSettleRejection), Wrote(failed));
    RejectionReachesFence(failed, c);
  }

  lemma RejectionReachesFence(failed: Exec, c: Choice)
    requires c.fault.Normal?
    ensures Alone(Some(Uncertain), failed, Update(UpdateSettleRejection), c, 1, 4)
         == Outcome(Some(DeviceToolRejected), failed, 1, true)
  {
    var e2 := OneStep(Some(Uncertain), failed, Update(UpdateSettleRejection), c, 1, 4);
  }

  lemma DispatchSettles(missions: seq<string>, c: Choice)
    requires c.fault.Normal? && c.proceed
    ensures Alone(Some(Uncertain), Prepared(missions), Update(UpdateAwaitDevice(Prepared(missions))), c, 1, 6)
         == ConfirmedOutcome(missions, c.device)
  {
    match c.device
    case Mission(id) =>
      MissionSettles(missions, id, c);
    case Rejected =>
      RejectionSettles(missions, c);
    case _ =>
      UncertaintySettles(missions, c);
  }

  lemma UncertaintySettles(missions: seq<string>, c: Choice)
    requires c.fault.Normal? && (c.device.NoMission? || c.device.Failed?)
    ensures Alone(Some(Uncertain), Prepared(missions), Update(UpdateAwaitDevice(Prepared(missions))), c, 1, 6)
         == ConfirmedOutcome(missions, c.device)
  {
    var p := Prepared(missions);
    var e0 := OneStep(Some(Uncertain), p, Update(UpdateAwaitDevice(p)), c, 1, 6);
    var e1 := OneStep(Some(Uncertain), p, Update(UpdatePersistUncertain(p)), c, 1, 5);
  }

  lemma AnnouncementSettles(e: Exec, stored: Exec, c: Choice, steps: nat)
    requires c.fault.Normal? && c.proceed && steps >= 3
    ensures Alone(Some(Uncertain), stored, Update(UpdateAnnounce(e)), c, 1, steps)
         == Outcome(Some(ConfirmationAccepted), Exec(Starting, CommandAccepted, e.missions), 1, true)
  {
    var e0 := OneStep(Some(Uncertain), stored, Update(UpdateAnnounce(e)), c, 1, steps);
    var e1 := OneStep(Some(Uncertain), e0.exec, Update(UpdateSettle(e)), c, 1, steps - 1);
  }

  /**
   A confirmed update of a waiting task without a fence calls the device exactly once; the fence then says
   how the call ended, and stays UNCERTAIN when that is unknown.
   */
  lemma ConfirmationFiresOnce(missions: seq<string>, reason: Code, c: Choice)
    requires c.fault.Normal? && c.proceed
    ensures Alone(None, Exec(WaitingInput, reason, missions), Update(UpdateReadExec(Confirmed)), c, 0, 12)
         == ConfirmedOutcome(missions, c.device)
  {
    ConfirmationDispatches(missions, reason, c);
    DispatchSettles(missions, c);
  }

  /** A cancellation of a waiting task stands down whether or not a confirmation has claimed the fence. */
  lemma CancellationStandsDown(fence: Option<Code>, missions: seq<string>, reason: Code, c: Choice)
    requires c.fault.Normal? && c.proceed
    requires fence.None? || fence == Some(NotArmed)
    ensures Alone(fence, Exec(WaitingInput, reason, missions), Cancel(CancelReadExec), c, 0, 5)
         == Outcome(Some(CancelledBeforeDispatch), Exec(Cancelled, CancelledBeforeDispatch, missions), 0, true)
  {
    var e0 := OneStep(fence, Exec(WaitingInput, reason, missions), Cancel(CancelReadExec), c, 0, 5);
    var e1 := OneStep(e0.fence, e0.exec, e0.pc, c, 0, 4);
    var e2 := OneStep(e1.fence, e1.exec, e1.pc, c, 0, 3);
    if !e2.pc.Done? {
      var e3 := OneStep(e2.fence, e2.exec, e2.pc, c, 0, 2);
      if !e3.pc.Done? {
        var e4 := OneStep(e3.fence, e3.exec, e3.pc, c, 0, 1);
      }
    }
  }

  /** After an armed cancellation request nothing changes: the fence and the execution keep what the shot left. */
  lemma CancellationLeavesArmedFence(code: Code, exec: Exec, c: Choice)
    requires !IsReserved(code)
    ensures Alone(Some(code), exec, Cancel(CancelReadExec), c, 0, 5) == Outcome(Some(code), exec, 0, true)
  {
    var e0 := OneStep(Some(code), exec, Cancel(CancelReadExec), c, 0, 5);
    if !e0.pc.Done? {
      var e1 := OneStep(e0.fence, e0.exec, e0.pc, c, 0, 4);
    }
  }

  /**
   Aborting after a failed arming leaves the fence ABORTED and the task TECHNICAL_FAILED, also when the arming
   swap committed before it threw.
   */
  lemma AbortStandsDown(fence: Code, exec: Exec, stale: Exec, c: Choice)
    requires fence.NotArmed? || fence.Uncertain?
    requires c.fault.Normal? && !IsTerminal(exec.state)
    ensures Alone(Some(fence), exec, Abort(AbortSwap(stale)), c, 0, 5)
         == Outcome(Some(Aborted), Exec(TechnicalFailed, Aborted, exec.missions), 0, true)
  {
    if fence.NotArmed? {
      var e0 := OneStep(Some(fence), exec, Abort(AbortSwap(stale)), c, 0, 5);
      AbortReloads(exec, stale, c, 4);
    } else {
      ArmedAbortSwaps(exec, stale, c);
      AbortReloads(exec, stale, c, 2);
    }
  }

  lemma ArmedAbortSwaps(exec: Exec, stale: Exec, c: Choice)
    requires c.fault.Normal?
    ensures Alone(Some(Uncertain), exec, Abort(AbortSwap(stale)), c, 0, 5)
         == Alone(Some(Aborted), exec, Abort(AbortReload(stale, Some(Aborted))), c, 0, 2)
  {
    var e0 := OneStep(Some(Uncertain), exec, Abort(AbortSwap(stale)), c, 0, 5);
    var e1 := OneStep(Some(Uncertain), exec, Abort(AbortReadWinner(stale)), c, 0, 4);
    var e2 := OneStep(Some(Uncertain), exec, Abort(AbortSwapArmed(stale)), c, 0, 3);
  }

  lemma AbortReloads(exec: Exec, stale: Exec, c: Choice, steps: nat)
    requires c.fault.Normal? && !IsTerminal(exec.state) && steps >= 2
    ensures Alone(Some(Aborted), exec, Abort(AbortReload(stale, Some(Aborted))), c, 0, steps)
         == Outcome(Some(Aborted), Exec(TechnicalFailed, Aborted, exec.missions), 0, true)
  {
    var e0 := OneStep(Some(Aborted), exec, Abort(AbortReload(stale, Some(Aborted))), c, 0, steps);
    var e1 := OneStep(Some(Aborted), exec, Abort(AbortPersist(exec, Aborted)), c, 0, steps - 1);
  }

  // ------------------------------------------------------------------------------------------ whole operations

  /** Nothing happened. */
  function Unchanged(fence: Option<Code>, exec: Exec): Outcome {
    Outcome(fence, exec, 0, true)
  }

  function CancelledWith(code: Code, exec: Exec): Outcome {
    Outcome(Some(code), Exec(Cancelled, code, exec.missions), 0, true)
  }

  predicate Cancels(fence: Option<Code>) {
    fence == Some(ConfirmationRejected) || fence == Some(CancelledBeforeDispatch)
  }

  lemma UpdateReads(fence: Option<Code>, exec: Exec, answer: Confirmation, c: Choice)
    requires c.fault.Normal? && c.proceed
    ensures Alone(fence, exec, Update(UpdateReadExec(answer)), c, 0, 12)
         == Alone(fence, exec, Update(UpdateReadFence(exec, answer)), c, 0, 11)
  {
    var e0 := OneStep(fence, exec, Update(UpdateReadExec(answer)), c, 0, 12);
  }

  /** A declined confirmation of a waiting task without a fence cancels it, and calls nothing. */
  lemma DeclineCancels(exec: Exec, c: Choice)
    requires c.fault.Normal? && c.proceed && exec.state == WaitingInput
    ensures Alone(None, exec, Update(UpdateReadExec(Declined)), c, 0, 12) == CancelledWith(ConfirmationRejected, exec)
  {
    UpdateReads(None, exec, Declined, c);
    var e1 := OneStep(None, exec, Update(UpdateReadFence(exec, Declined)), c, 0, 11);
    var e2 := OneStep(None, exec, Cancel(CancelClaim(exec, ConfirmationRejected)), c, 0, 10);
    var e3 := OneStep(Some(ConfirmationRejected), exec, Cancel(CancelPersist(exec, ConfirmationRejected)), c, 0, 9);
  }

  /** An update repeats a cancellation on a task that still waits, whatever it answers. */
  lemma UpdateRepeatsCancellation(fence: Option<Code>, exec: Exec, answer: Confirmation, c: Choice)
    requires c.fault.Normal? && c.proceed && exec.state == WaitingInput && Cancels(fence)
    ensures Alone(fence, exec, Update(UpdateReadExec(answer)), c, 0, 12) == CancelledWith(fence.value, exec)
  {
    UpdateReads(fence, exec, answer, c);
    var e1 := OneStep(fence, exec, Update(UpdateReadFence(exec, answer)), c, 0, 11);
    var e2 := OneStep(fence, exec, Update(UpdateReplayCancel(exec, fence.value)), c, 0, 10);
  }

  /** Behind any other fence, on a task that no longer waits, and with an invalid answer an update does nothing. */
  lemma UpdateDoesNothing(fence: Option<Code>, exec: Exec, answer: Confirmation, c: Choice)
    requires c.fault.Normal? && c.proceed
    requires fence.Some? || exec.state != WaitingInput || answer == Invalid
    requires !(Cancels(fence) && exec.state == WaitingInput)
    ensures Alone(fence, exec, Update(UpdateReadExec(answer)), c, 0, 12) == Unchanged(fence, exec)
  {
    UpdateReads(fence, exec, answer, c);
    var e1 := OneStep(fence, exec, Update(UpdateReadFence(exec, answer)), c, 0, 11);
  }

  /** What an undisturbed update comes to, for every fence, execution and answer. */
  lemma UpdateEnds(fence: Option<Code>, exec: Exec, answer: Confirmation, c: Choice)
    requires c.fault.Normal? && c.proceed
    ensures Alone(fence, exec, Update(UpdateReadExec(answer)), c, 0, 12)
         == if exec.state == WaitingInput && Cancels(fence) then CancelledWith(fence.value, exec)
            else if exec.state == WaitingInput && fence == None && answer == Declined
            then CancelledWith(ConfirmationRejected, exec)
            else if exec.state == WaitingInput && fence == None && answer == Confirmed
            then ConfirmedOutcome(exec.missions, c.device)
            else Unchanged(fence, exec)
  {
    if exec.state == WaitingInput && Cancels(fence) {
      UpdateRepeatsCancellation(fence, exec, answer, c);
    } else if exec.state != WaitingInput || fence.Some? || answer == Invalid {
      UpdateDoesNothing(fence, exec, answer, c);
    } else if answer == Declined {
      DeclineCancels(exec, c);
    } else {
      ConfirmationFiresOnce(exec.missions, exec.reason, c);
      assert exec == Exec(WaitingInput, exec.reason, exec.missions);
    }
  }

  lemma CancellationRepeats(fence: Option<Code>, exec: Exec, c: Choice)
    requires c.fault.Normal? && c.proceed && exec.state == WaitingInput && Cancels(fence)
    ensures Alone(fence, exec, Cancel(CancelReadExec), c, 0, 5) == CancelledWith(fence.value, exec)
  {
    var e0 := OneStep(fence, exec, Cancel(CancelReadExec), c, 0, 5);
    var e1 := OneStep(fence, exec, Cancel(CancelClaim(exec, CancelledBeforeDispatch)), c, 0, 4);
    var e2 := OneStep(fence, exec, Cancel(CancelReload(exec, fence.value)), c, 0, 3);
    var e3 := OneStep(fence, exec, Cancel(CancelPersist(exec, fence.value)), c, 0, 2);
  }

  lemma CancellationDoesNothing(fence: Option<Code>, exec: Exec, c: Choice)
    requires c.fault.Normal? && c.proceed
    requires exec.state != WaitingInput || (fence.Some? && fence != Some(NotArmed) && !Cancels(fence))
    ensures Alone(fence, exec, Cancel(CancelReadExec), c, 0, 5) == Unchanged(fence, exec)
  {
    var e0 := OneStep(fence, exec, Cancel(CancelReadExec), c, 0, 5);
    if !e0.pc.Done? {
      var e1 := OneStep(fence, exec, e0.pc, c, 0, 4);
    }
  }

  /** What an undisturbed cancellation comes to, for every fence and execution. */
  lemma CancellationEnds(fence: Option<Code>, exec: Exec, c: Choice)
    requires c.fault.Normal? && c.proceed
    ensures Alone(fence, exec, Cancel(CancelReadExec), c, 0, 5)
         == if exec.state != WaitingInput then Unchanged(fence, exec)
            else if fence == None || fence == Some(NotArmed) then CancelledWith(CancelledBeforeDispatch, exec)
            else if Cancels(fence) then CancelledWith(fence.value, exec)
            else Unchanged(fence, exec)
  {
    if exec.state == WaitingInput && (fence == None || fence == Some(NotArmed)) {
      CancellationStandsDown(fence, exec.missions, exec.reason, c);
      assert exec == Exec(WaitingInput, exec.reason, exec.missions);
    } else if exec.state == WaitingInput && Cancels(fence) {
      CancellationRepeats(fence, exec, c);
    } else {
      CancellationDoesNothing(fence, exec, c);
    }
  }

  predicate IsOver(exec: Exec) {
    exec.state == Succeeded || exec.state == BusinessFailed || exec.state == Cancelled || exec.state == TechnicalFailed
  }

  /** An abort closes the fence, but leaves an execution alone that is over. */
  lemma AbortLeavesFinished(exec: Exec, stale: Exec, c: Choice)
    requires c.fault.Normal? && IsOver(exec)
    ensures Alone(Some(NotArmed), exec, Abort(AbortSwap(stale)), c, 0, 5) == Unchanged(Some(Aborted), exec)
  {
    var e0 := OneStep(Some(NotArmed), exec, Abort(AbortSwap(stale)), c, 0, 5);
    var e1 := OneStep(Some(Aborted), exec, Abort(AbortReload(stale, Some(Aborted))), c, 0, 4);
  }

  /** A cancellation that finds the task over when it reloads it leaves the task alone. */
  lemma CancellationLeavesFinished(fence: Option<Code>, exec: Exec, stale: Exec, code: Code, c: Choice)
    requires c.fault.Normal? && IsOver(exec)
    ensures Alone(fence, exec, Cancel(CancelReload(stale, code)), c, 0, 3) == Unchanged(fence, exec)
  {
    var e0 := OneStep(fence, exec, Cancel(CancelReload(stale, code)), c, 0, 3);
  }

  /** Behind an outcome or an armed fence a refresh takes what the device shows, if there is a mission to go by. */
  lemma RefreshEnds(fence: Option<Code>, exec: Exec, c: Choice)
    requires c.fault.Normal?
    requires fence == None || fence == Some(Uncertain) || fence == Some(ConfirmationAccepted)
             || fence == Some(DeviceToolRejected)
    ensures var o := Alone(fence, exec, Refresh(RefreshReadExec(false)), c, 0, 6);
            && o.fence == fence && o.fires == 0 && o.done && o.exec.missions == exec.missions
            && (IsOver(exec) || exec.state == WaitingInput || exec.missions == [] ==> o.exec == exec)
            && (!IsOver(exec) && exec.state != WaitingInput && exec.missions != [] ==>
                  o.exec.state == c.observed.state)
  {
    var e0 := OneStep(fence, exec, Refresh(RefreshReadExec(false)), c, 0, 6);
    if !IsOver(exec) {
      var e1 := OneStep(fence, exec, Refresh(FenceRead(exec, false)), c, 0, 5);
      var e2 := OneStep(fence, exec, Refresh(RefreshObserve(exec)), c, 0, 4);
    }
  }

  /** A cancellation that has to reload its task cancels it as it is now. */
  lemma CancellationTakesCurrent(fence: Option<Code>, exec: Exec, stale: Exec, code: Code, c: Choice)
    requires c.fault.Normal? && !IsOver(exec) && Cancels(Some(code))
    ensures Alone(fence, exec, Cancel(CancelReload(stale, code)), c, 0, 3)
         == Outcome(fence, Exec(Cancelled, code, exec.missions), 0, true)
  {
    var e0 := OneStep(fence, exec, Cancel(CancelReload(stale, code)), c, 0, 3);
    var e1 := OneStep(fence, exec, Cancel(CancelPersist(exec, code)), c, 0, 2);
  }

  /**
   What an abort makes of a task that is not over, by the fence that won: a cancellation cancels it, an outcome leaves
   it alone, and anything else fails it.
   */
  lemma AbortFollowsWinner(fence: Option<Code>, exec: Exec, stale: Exec, winner: Option<Code>, c: Choice)
    requires c.fault.Normal? && !IsOver(exec)
    ensures Alone(fence, exec, Abort(AbortReload(stale, winner)), c, 0, 2)
         == if Cancels(winner) then Outcome(fence, Exec(Cancelled, winner.value, exec.missions), 0, true)
            else if winner == Some(Aborted) || winner == Some(NotArmed) || winner == Some(Uncertain)
            then Outcome(fence, Exec(TechnicalFailed, Aborted, exec.missions), 0, true)
            else Unchanged(fence, exec)
  {
    var e0 := OneStep(fence, exec, Abort(AbortReload(stale, winner)), c, 0, 2);
    if Cancels(winner) {
      var e1 := OneStep(fence, exec, Abort(AbortPersist(exec, winner.value)), c, 0, 1);
    } else if winner == Some(Aborted) || winner == Some(NotArmed) || winner == Some(Uncertain) {
      var e1 := OneStep(fence, exec, Abort(AbortPersist(exec, Aborted)), c, 0, 1);
    }
  }

  /** An abort that finds the fence gone on reads it again, and follows it. */
  lemma AbortReadsWinner(fence: Option<Code>, exec: Exec, stale: Exec, c: Choice)
    requires c.fault.Normal? && fence != Some(NotArmed) && fence != Some(Uncertain)
    ensures Alone(fence, exec, Abort(AbortSwap(stale)), c, 0, 5)
         == Alone(fence, exec, Abort(AbortReload(stale, fence)), c, 0, 2)
  {
    var e0 := OneStep(fence, exec, Abort(AbortSwap(stale)), c, 0, 5);
    var e1 := OneStep(fence, exec, Abort(AbortReadWinner(stale)), c, 0, 4);
    var e2 := OneStep(fence, exec, Abort(AbortReadAgain(stale)), c, 0, 3);
  }

  /** So does one that loses its swap on an armed fence. */
  lemma ArmedAbortReadsWinner(fence: Option<Code>, exec: Exec, stale: Exec, c: Choice)
    requires c.fault.Normal? && fence != Some(Uncertain)
    ensures Alone(fence, exec, Abort(AbortSwapArmed(stale)), c, 0, 4)
         == Alone(fence, exec, Abort(AbortReload(stale, fence)), c, 0, 2)
  {
    var e0 := OneStep(fence, exec, Abort(AbortSwapArmed(stale)), c, 0, 4);
    var e1 := OneStep(fence, exec, Abort(AbortReadAgain(stale)), c, 0, 3);
  }

  /** Recovery without a connection marks a task that goes on as uncertain, and nothing else. */
  lemma DisconnectedRecoveryMarks(fence: Option<Code>, exec: Exec, c: Choice)
    requires c.fault.Normal? && !c.proceed && !IsOver(exec)
    requires fence == None || fence == Some(Uncertain) || fence == Some(ConfirmationAccepted)
             || fence == Some(DeviceToolRejected)
    ensures Alone(fence, exec, Refresh(RefreshReadExec(true)), c, 0, 6)
         == Outcome(fence, exec.(reason := Uncertain), 0, true)
  {
    var e0 := OneStep(fence, exec, Refresh(RefreshReadExec(true)), c, 0, 6);
    var e1 := OneStep(fence, exec, Refresh(FenceRead(exec, true)), c, 0, 5);
    var e2 := OneStep(fence, exec, Refresh(RecoverContinue(exec)), c, 0, 4);
  }
}
