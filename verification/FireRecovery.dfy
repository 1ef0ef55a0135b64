/**
 The start-up recovery loop of the NPC Tank adapter over all stored fire tasks
 (apps/npc-tank-provider-adapter/src/runtime.ts:598-616, 1208-1250), run while nothing else touches the store.
 */
module FireRecovery {
  import opened Wrappers
  import opened FireFence
  import FireOutcomes

  datatype StoreError = StoreError

  function Lookup(fences: map<string, Code>, id: string): Option<Code> {
    if id in fences then Some(fences[id]) else None
  }

  /** Is the pair settled for a task that stays active: no fence yet, or one that is past NOT_ARMED and live? */
  predicate Settled(fence: Option<Code>) {
    fence.Some? ==> !IsReserved(fence.value)
  }

  /** The fence that recovery leaves behind for an active task. */
  function RecoveredFence(fence: Option<Code>): Option<Code> {
    if fence == Some(NotArmed) then Some(Aborted) else fence
  }

  function RecoveredFences(fences: map<string, Code>, ids: seq<string>): map<string, Code> {
    map id | id in fences :: if id in ids && fences[id].NotArmed? then Aborted else fences[id]
  }

  /** Recovering again, over tasks that were recovered before, changes no fence. */
  lemma RecoveringAgainChangesNothing(fences: map<string, Code>, ids: seq<string>, again: seq<string>)
    requires forall id <- again :: id in ids
    ensures RecoveredFences(RecoveredFences(fences, ids), again) == RecoveredFences(fences, ids)
  {}

  /**
   The code with which `#recoverPreDispatchFireFence` stands a task down, if it does: `dispatch` is the fence its caller
   read, and `current` the fence that its own swap meets, which another process may have moved on.
   */
  function StandDownCode(dispatch: Option<Code>, current: Option<Code>): Option<Code> {
    if FenceStandsDown(dispatch) then dispatch
    else if dispatch == Some(NotArmed) then
      if current == Some(NotArmed) then Some(Aborted) else if FenceStandsDown(current) then current else None
    else None
  }

  predicate SwapWins(dispatch: Option<Code>, current: Option<Code>) {
    dispatch == Some(NotArmed) && current == Some(NotArmed)
  }

  // ------------------------------------------------------------------------------------------ one pass

  /** What one iteration of the recovery makes of the store. */
  predicate TaskDone(execs: map<string, Exec>, fences: map<string, Code>, execs': map<string, Exec>,
                     fences': map<string, Code>, id: string)
  {
    && id in execs && execs'.Keys == execs.Keys
    && (forall other <- execs :: other != id ==> execs'[other] == execs[other])
    && fences' == (if Lookup(fences, id) == Some(NotArmed) then fences[id := Aborted] else fences)
    && (!Settled(Lookup(fences, id)) ==>
          execs'[id] == StandDownExec(execs[id], RecoveredFence(Lookup(fences, id)).value))
  }

  /** What the iterations over `done` make of it. */
  predicate PassDone(execs: map<string, Exec>, fences: map<string, Code>, execs': map<string, Exec>,
                     fences': map<string, Code>, done: seq<string>)
  {
    && execs'.Keys == execs.Keys
    && fences' == RecoveredFences(fences, done)
    && (forall id <- execs :: id !in done ==> execs'[id] == execs[id])
    && (forall id <- done :: id in execs)
    && (forall id <- done :: !Settled(Lookup(fences, id)) ==>
          execs'[id] == StandDownExec(execs[id], RecoveredFence(Lookup(fences, id)).value))
  }

  lemma PassGoesOn(execs0: map<string, Exec>, fences0: map<string, Code>, execs: map<string, Exec>,
                   fences: map<string, Code>, execs': map<string, Exec>, fences': map<string, Code>,
                   done: seq<string>, id: string)
    requires PassDone(execs0, fences0, execs, fences, done) && id !in done
    requires TaskDone(execs, fences, execs', fences', id)
    ensures PassDone(execs0, fences0, execs', fences', done + [id])
  {
    assert Lookup(fences, id) == Lookup(fences0, id);
    FencesGoOn(fences0, fences', done, id);
    forall other | other in done + [id] ensures other in done || other == id {}
  }

  lemma FencesGoOn(fences0: map<string, Code>, fences': map<string, Code>, done: seq<string>, id: string)
    requires var fences := RecoveredFences(fences0, done);
             fences' == if Lookup(fences, id) == Some(NotArmed) then fences[id := Aborted] else fences
    ensures fences' == RecoveredFences(fences0, done + [id])
  {}

  lemma StandDownIsShown(e: Exec, code: Code)
    requires IsStandDown(code)
    ensures ShowsStandDown(StandDownExec(e, code)) && IsTerminal(StandDownExec(e, code).state)
  {}

  /** After a whole pass over the active tasks, what is still active has a settled fence. */
  lemma PassSettles(execs: map<string, Exec>, fences: map<string, Code>, execs': map<string, Exec>,
                    fences': map<string, Code>, ids: seq<string>, id: string)
    requires PassDone(execs, fences, execs', fences', ids)
    requires forall other :: other in ids <==> other in execs && !IsTerminal(execs[other].state)
    ensures id in execs' && !IsTerminal(execs'[id].state) ==> Settled(Lookup(fences', id))
  {
    if id in ids && !Settled(Lookup(fences, id)) {
      StandDownIsShown(execs[id], RecoveredFence(Lookup(fences, id)).value);
    }
  }

  /**
   The provider store as one process sees it. A store call may throw: `healthy` counts the calls that still
   succeed before one does, and `commitsLast` says whether the throwing call took effect.
   */
  class Store {
    var execs: map<string, Exec>
    var fences: map<string, Code>
    var healthy: nat
    var commitsLast: bool

    constructor (execs: map<string, Exec>, fences: map<string, Code>, healthy: nat, commitsLast: bool)
      ensures this.execs == execs && this.fences == fences
      ensures this.healthy == healthy && this.commitsLast == commitsLast
    {
      this.execs, this.fences, this.healthy, this.commitsLast := execs, fences, healthy, commitsLast;
    }

    method GetFence(id: string) returns (r: Result<Option<Code>, StoreError>)
      modifies this`healthy
      ensures r.Ok? <==> old(healthy) > 0
      ensures r.Ok? ==> r.value == Lookup(fences, id)
    {
      if healthy == 0 {
        return Err(StoreError);
      }
      healthy := healthy - 1;
      r := Ok(Lookup(fences, id));
    }

    method PutExecution(id: string, e: Exec) returns (r: Result<(), StoreError>)
      modifies this`execs, this`healthy
      ensures r.Ok? <==> old(healthy) > 0
      ensures execs == old(execs) || execs == old(execs)[id := e]
      ensures r.Ok? ==> execs == old(execs)[id := e]
    {
      if healthy == 0 {
        if commitsLast {
          execs := execs[id := e];
        }
        return Err(StoreError);
      }
      healthy := healthy - 1;
      execs := execs[id := e];
      r := Ok(());
    }

    /** `completeCommandAck(record, expected)`: replaces the fence only while it carries `expected`. */
    method SwapFence(id: string, expected: Code, code: Code) returns (r: Result<bool, StoreError>)
      modifies this`fences, this`healthy
      ensures r.Ok? <==> old(healthy) > 0
      ensures fences == old(fences)
              || (Lookup(old(fences), id) == Some(expected) && fences == old(fences)[id := code])
      ensures r.Ok? ==> r.value == (Lookup(old(fences), id) == Some(expected))
      ensures r.Ok? && r.value ==> fences == old(fences)[id := code]
    {
      var matches := Lookup(fences, id) == Some(expected);
      if healthy == 0 {
        if matches && commitsLast {
          fences := fences[id := code];
        }
        return Err(StoreError);
      }
      healthy := healthy - 1;
      if matches {
        fences := fences[id := code];
      }
      r := Ok(matches);
    }

    /**
     `#recoverPreDispatchFireFence`: `dispatch` may be older than the fence. True exactly when it stands the task down;
     only a fence that is still NOT_ARMED changes.
     */
    method RecoverPreDispatchFence(id: string, e: Exec, dispatch: Option<Code>) returns (r: Result<bool, StoreError>)
      modifies this`execs, this`fences, this`healthy
      ensures r.Ok? ==> r.value == StandDownCode(dispatch, Lookup(old(fences), id)).Some?
      ensures r.Ok? ==>
                fences == if SwapWins(dispatch, Lookup(old(fences), id)) then old(fences)[id := Aborted]
                          else old(fences)
      ensures r.Ok? && r.value ==>
                execs == old(execs)[id := StandDownExec(e, StandDownCode(dispatch, Lookup(old(fences), id)).value)]
      ensures StandDownCode(dispatch, Lookup(old(fences), id)).None? ==> execs == old(execs)
      ensures dispatch != Some(NotArmed) ==> fences == old(fences)
      ensures forall other :: other != id && other in old(execs) ==> other in execs && execs[other] == old(execs)[other]
      ensures forall other :: other != id ==> Lookup(fences, other) == Lookup(old(fences), other)
    {
      if dispatch.Some? && IsStandDown(dispatch.value) {
        r := StandDown(id, e, dispatch.value);
        return;
      }
      if dispatch != Some(NotArmed) {
        return Ok(false);
      }
      var swapped := SwapFence(id, NotArmed, Aborted);
      if swapped.Err? {
        return Err(swapped.error);
      }
      if swapped.value {
        r := StandDown(id, e, Aborted);
        return;
      }
      var winner := GetFence(id);
      if winner.Err? {
        return Err(winner.error);
      }
      if winner.value.Some? && IsStandDown(winner.value.value) {
        r := StandDown(id, e, winner.value.value);
        return;
      }
      r := Ok(false);
    }

    /** `#persistLocalFireCancellation` and `#persistFireTechnicalFailure`, followed by `return true`. */
    method StandDown(id: string, e: Exec, code: Code) returns (r: Result<bool, StoreError>)
      modifies this`execs, this`healthy
      ensures r.Ok? ==> r.value && execs == old(execs)[id := StandDownExec(e, code)]
      ensures execs == old(execs) || execs == old(execs)[id := StandDownExec(e, code)]
    {
      var put := PutExecution(id, StandDownExec(e, code));
      if put.Err? {
        return Err(put.error);
      }
      r := Ok(true);
    }

    /**
     One iteration of `#recover` for a fire task. `observed` is what the device observation makes of the task
     when the device and its message stream are reachable.
     */
    method RecoverTask(id: string, e: Exec, connected: bool, observed: Exec) returns (r: Result<(), StoreError>)
      requires id in execs && execs[id] == e
      modifies this`execs, this`fences, this`healthy
      ensures r.Ok? ==> TaskDone(old(execs), old(fences), execs, fences, id)
      ensures forall other :: other != id && other in old(execs) ==> other in execs && execs[other] == old(execs)[other]
      ensures forall other :: other != id ==> Lookup(fences, other) == Lookup(old(fences), other)
    {
      var first := GetFence(id);
      if first.Err? {
        return Err(first.error);
      }
      var recovered := RecoverPreDispatchFence(id, e, first.value);
      if recovered.Err? {
        return Err(recovered.error);
      }
      if recovered.value {
        return Ok(());
      }
      if !connected {
        var put := PutExecution(id, e.(reason := Uncertain));
        return put;
      }
      r := RefreshTask(id, e, observed);
    }

    /** `#refresh` of a fire task that recovery did not stand down: it reads the fence a second time. */
    method RefreshTask(id: string, e: Exec, observed: Exec) returns (r: Result<(), StoreError>)
      requires id in execs && execs[id] == e && Settled(Lookup(fences, id))
      modifies this`execs, this`fences, this`healthy
      ensures fences == old(fences)
      ensures r.Ok? ==> execs.Keys == old(execs).Keys
      ensures forall other :: other != id && other in old(execs) ==> other in execs && execs[other] == old(execs)[other]
    {
      var second := GetFence(id);
      if second.Err? {
        return Err(second.error);
      }
      var recovered := RecoverPreDispatchFence(id, e, second.value);
      if recovered.Err? {
        return Err(recovered.error);
      }
      if e.state.WaitingInput? || e.missions == [] {
        return Ok(());
      }
      var put := PutExecution(id, observed.(missions := e.missions));
      return put;
    }

    /**
     `#recover` over the active fire tasks `ids`, as `listActiveExecutions` returned them. When it returns
     normally, a task that is still active has no fence or one past NOT_ARMED, every other active task has
     been stood down in step with its fence, and no other fence changed.
     */
    method Recover(ids: seq<string>, connected: bool, observed: map<string, Exec>) returns (r: Result<(), StoreError>)
      requires forall id :: id in ids <==> id in execs && !IsTerminal(execs[id].state)
      requires forall i, j :: 0 <= i < j < |ids| ==> ids[i] != ids[j]
      requires forall id <- ids :: id in observed
      modifies this`execs, this`fences, this`healthy
      ensures r.Ok? ==> PassDone(old(execs), old(fences), execs, fences, ids)
      ensures r.Ok? ==> forall id <- execs :: !IsTerminal(execs[id].state) ==> Settled(Lookup(fences, id))
    {
      var i := 0;
      assert ids[..0] == [];
      while i < |ids|
        invariant 0 <= i <= |ids|
        invariant PassDone(old(execs), old(fences), execs, fences, ids[..i])
      {
        ghost var execs0, fences0 := execs, fences;
        assert ids[i] !in ids[..i];
        var task := RecoverTask(ids[i], execs[ids[i]], connected, observed[ids[i]]);
        if task.Err? {
          return Err(task.error);
        }
        PassGoesOn(old(execs), old(fences), execs0, fences0, execs, fences, ids[..i], ids[i]);
        assert ids[..i + 1] == ids[..i] + [ids[i]];
        i := i + 1;
      }
      assert ids[..i] == ids;
      forall id <- execs ensures !IsTerminal(execs[id].state) ==> Settled(Lookup(fences, id)) {
        PassSettles(old(execs), old(fences), execs, fences, ids, id);
      }
      r := Ok(());
    }
  }

  /**
   The sequential recovery of one task agrees with the refresh steps of the interleaved model when those run
   undisturbed: the same fence, and the same stand-down.
   */
  lemma RecoveryAgreesWithSteps(fence: Option<Code>, e: Exec, c: Choice)
    requires c.fault.Normal? && !IsTerminal(e.state)
    ensures var o := FireOutcomes.Alone(fence, e, Refresh(RefreshReadExec(true)), c, 0, 6);
            && o.done && o.fires == 0
            && o.fence == RecoveredFence(fence)
            && (!Settled(fence) ==> o.exec == StandDownExec(e, RecoveredFence(fence).value))
  {
    var e0 := FireOutcomes.OneStep(fence, e, Refresh(RefreshReadExec(true)), c, 0, 6);
    FenceReadEnds(fence, e, c);
  }

  /** Reading the fence in recovery ends with a stand-down, or goes on to an end without one. */
  lemma FenceReadEnds(fence: Option<Code>, e: Exec, c: Choice)
    requires c.fault.Normal? && !IsTerminal(e.state)
    ensures var o := FireOutcomes.Alone(fence, e, Refresh(FenceRead(e, true)), c, 0, 5);
            && o.done && o.fires == 0
            && o.fence == RecoveredFence(fence)
            && (!Settled(fence) ==> o.exec == StandDownExec(e, RecoveredFence(fence).value))
  {
    var e0 := FireOutcomes.OneStep(fence, e, Refresh(FenceRead(e, true)), c, 0, 5);
    if FenceStandsDown(fence) {
      var e1 := FireOutcomes.OneStep(fence, e, Refresh(FencePersist(e, fence.value)), c, 0, 4);
    } else if fence == Some(NotArmed) {
      var e1 := FireOutcomes.OneStep(fence, e, Refresh(FenceSwap(e, true)), c, 0, 4);
      var e2 := FireOutcomes.OneStep(Some(Aborted), e, Refresh(FencePersist(e, Aborted)), c, 0, 3);
    } else {
      SettledFenceEnds(fence, e, c);
    }
  }

  lemma SettledFenceEnds(fence: Option<Code>, e: Exec, c: Choice)
    requires c.fault.Normal? && Settled(fence)
    ensures var o := FireOutcomes.Alone(fence, e, Refresh(RecoverContinue(e)), c, 0, 4);
            o.done && o.fires == 0 && o.fence == fence
  {
    var e0 := FireOutcomes.OneStep(fence, e, Refresh(RecoverContinue(e)), c, 0, 4);
    if c.proceed {
      var e1 := FireOutcomes.OneStep(fence, e, Refresh(FenceRead(e, false)), c, 0, 3);
      var e2 := FireOutcomes.OneStep(fence, e, Refresh(RefreshObserve(e)), c, 0, 2);
    }
  }
}
