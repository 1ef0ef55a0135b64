/**
 From the request of a caller to the call of a service, over the whole runs of `ClimateRuns`: what is called is what was
 asked for, behind open gates, and possible as far as the device had reported
 (apps/home-assistant-climate-provider/src/execution.ts:80-154, 245-359).
 */
module ClimateRequests {
  import opened Wrappers
  import opened ClimateStore
  import opened ClimateEngine
  import opened ClimateDecisions
  import opened ClimateRuns

  // ------------------------------------------------------------------------------------------ what was asked for

  /** A stored record is still what its start asked for. */
  predicate IsAsAsked(a: Admission, x: Execution) {
    && x.terms.operation == a.input.operation && x.terms.resourceId == a.input.resourceId
    && x.terms.context == a.input.context && x.terms.entityId == a.entityId
    && AsksFor(a.input, x.terms.desired)
  }

  ghost predicate AdmittedOk(s: State) {
    forall id <- s.admitted :: id in s.doc.executions && IsAsAsked(s.admitted[id], s.doc.executions[id])
  }

  lemma StartIsAsAsked(cfg: Config, guard: Option<Guard>, pc: StartPc, c: Choice)
    requires pc.input.resourceId in cfg.resources
    ensures var o := TaskStep(cfg, None, guard, Starting(pc), c);
            o.record.Some? ==>
              IsAsAsked(Admission(pc.input, cfg.resources[pc.input.resourceId].entityId), o.record.value)
  {
    if pc.StartAwaitState? && c.storeOk {
      StartAdmitsExactly(cfg, guard, pc.input, c);
    }
  }

  lemma ContinueAdmits(s: State, id: string, c: Choice)
    requires Sound(s) && AdmittedOk(s) && id in s.active && TimesOk(c, s.clock)
    ensures AdmittedOk(Continued(s, id, c))
  {
    var t := Continued(s, id, c);
    ContinueTaskOk(s, id, c);
    forall other <- t.admitted
      ensures other in t.doc.executions && IsAsAsked(t.admitted[other], t.doc.executions[other])
    {
      if other != id {
        ContinueFrames(s, id, c, other);
        assert RecordOf(t, other) == RecordOf(s, other);
      } else if id in s.doc.executions {
        assert t.admitted == s.admitted;
        assert KeepsRecord(RecordOf(s, id), RecordOf(t, id));
      } else {
        StartIsAsAsked(s.cfg, s.doc.guard, s.active[id].start, c);
      }
    }
  }

  lemma {:induction false} RunAdmits(s: State, moves: seq<Move>)
    requires Sound(s) && AdmittedOk(s)
    ensures Sound(Run(s, moves)) && AdmittedOk(Run(s, moves))
    decreases |moves|
  {
    if moves != [] {
      var m := moves[0];
      NextIsSound(s, m);
      if m.Continue? && m.id in s.active && TimesOk(m.choice, s.clock) {
        ContinueAdmits(s, m.id, m.choice);
      } else {
        OtherMovesAdmit(s, m);
      }
      RunAdmits(Next(s, m), moves[1..]);
    }
  }

  /** Every record that was not there at the start of the run has its admission. */
  ghost predicate AllAdmitted(known: set<string>, s: State) {
    forall id <- s.doc.executions :: id in known || id in s.admitted
  }

  lemma OnlyStartsCreate(cfg: Config, id: string, guard: Option<Guard>, pc: Pc, calls: nat, c: Choice)
    requires PcOk(id, None, pc, calls) && TaskStep(cfg, None, guard, pc, c).record.Some?
    ensures pc.Starting? && pc.start.input.resourceId in cfg.resources
  {}

  lemma NextAllAdmitted(known: set<string>, s: State, m: Move)
    requires Sound(s) && AllAdmitted(known, s)
    ensures AllAdmitted(known, Next(s, m))
  {
    if m.Continue? && m.id in s.active && TimesOk(m.choice, s.clock) {
      assert TaskOk(s, m.id);
      var o := TaskStep(s.cfg, RecordOf(s, m.id), s.doc.guard, s.active[m.id], m.choice);
      if m.id !in s.doc.executions && o.record.Some? {
        OnlyStartsCreate(s.cfg, m.id, s.doc.guard, s.active[m.id], CallsOf(s, m.id), m.choice);
      }
    } else {
      OtherMovesAdmit(s, m);
    }
  }

  lemma OtherMovesAdmit(s: State, m: Move)
    requires !(m.Continue? && m.id in s.active && TimesOk(m.choice, s.clock))
    ensures Next(s, m).doc == s.doc && Next(s, m).admitted == s.admitted
  {}

  lemma {:induction false} RunAllAdmitted(known: set<string>, s: State, moves: seq<Move>)
    requires Sound(s) && AllAdmitted(known, s)
    ensures AllAdmitted(known, Run(s, moves))
    decreases |moves|
  {
    if moves != [] {
      NextIsSound(s, moves[0]);
      NextAllAdmitted(known, s, moves[0]);
      RunAllAdmitted(known, Next(s, moves[0]), moves[1..]);
    }
  }

  /** A record created in the run is one a start of the run asked for. */
  lemma NewTasksWereAskedFor(s: State, moves: seq<Move>, id: string)
    requires Initial(s)
    ensures var t := Run(s, moves);
            id in t.doc.executions && id !in s.doc.executions ==>
              id in t.admitted && IsAsAsked(t.admitted[id], t.doc.executions[id])
  {
    InitialIsSound(s);
    RunAllAdmitted(s.doc.executions.Keys, s, moves);
    RunAdmits(s, moves);
  }

  /** The service that carries out what a start asks for. */
  predicate IsAskedFor(i: StartInput, service: Service) {
    match service
    case TurnOn => i.operation == SetPower && i.power == Some(On)
    case TurnOff => i.operation == SetPower && i.power != Some(On)
    case SetMode(mode) => i.operation == SetHvacMode && (i.hvacMode == Some(mode) || (i.hvacMode == None && mode == ""))
    case SetTarget(t) => i.operation == SetTemperature && i.temperature == Some(t)
  }

  lemma AskedServiceIsOne(i: StartInput, desired: Desired)
    requires AsksFor(i, desired)
    ensures IsAskedFor(i, ServiceFor(desired))
    ensures forall service :: IsAskedFor(i, service) ==> service == ServiceFor(desired)
  {}

  /**
   In every run, a service called for a task admitted in it is the one its start asked for, on the entity its resource
   stood for: `turn_on` exactly when power on was asked for, and likewise for the others.
   */
  lemma CalledAsAsked(s: State, moves: seq<Move>, id: string, c: Choice, service: Service)
    requires Initial(s)
    ensures var t := Run(s, moves);
            id in t.active && id in t.admitted ==>
              var o := TaskStep(t.cfg, RecordOf(t, id), t.doc.guard, t.active[id], c);
              o.note.ServiceCalled? ==>
                && o.note.entityId == t.admitted[id].entityId
                && (o.note.service == service <==> IsAskedFor(t.admitted[id].input, service))
  {
    InitialIsSound(s);
    RunAdmits(s, moves);
    var t := Run(s, moves);
    assert TaskOk(t, id);
    if id in t.active && id in t.admitted {
      StepCallFits(t.cfg, id, RecordOf(t, id), t.doc.guard, t.active[id], CallsOf(t, id), c);
      AskedServiceIsOne(t.admitted[id].input, t.doc.executions[id].terms.desired);
    }
  }

  // ------------------------------------------------------------------------------------------ gates and bounds

  /** The process may have side effects on what the task is for, and the task is live. */
  predicate GatesOpen(cfg: Config, x: Execution) {
    && x.terms.context.live && cfg.sideEffects && (x.terms.desired.DesiredPower? ==> cfg.powerEffects)
    && IsServed(cfg, x)
  }

  /** The device was reachable and able to take what the task is for, and did not show it yet. */
  predicate SeenPossible(cfg: Config, x: Execution) {
    && x.lastObserved.Some? && x.terms.resourceId in cfg.resources
    && var s := x.lastObserved.value;
       && s.reachable && !IsShown(x.terms.desired, s)
       && IsPossible(cfg.resources[x.terms.resourceId], x.terms.desired, s)
       && (NeedsPowerGate(x.terms.desired, s) ==> cfg.powerEffects)
  }

  /** How far a dispatch has got, its gates were open. */
  predicate PcIsGated(cfg: Config, pc: Pc) {
    pc.Dispatching? ==>
      match pc.dispatch
      case AwaitState(x) => GatesOpen(cfg, x)
      case AwaitHook(x) => GatesOpen(cfg, x) && SeenPossible(cfg, x)
      case _ => true
  }

  lemma StateStepIsGated(cfg: Config, record: Option<Execution>, guard: Option<Guard>, x: Execution, c: Choice)
    requires record == Some(x) && GatesOpen(cfg, x)
    ensures PcIsGated(cfg, DispatchStep(cfg, record, guard, AwaitState(x), c).pc)
  {
    var observed := c.observed.(resourceId := x.terms.resourceId);
    ShowsExactly(x.terms.desired, observed);
    if x.terms.resourceId in cfg.resources {
      PossibleExactly(cfg.resources[x.terms.resourceId], x.terms.desired, observed);
    }
  }

  lemma StepIsGated(cfg: Config, id: string, record: Option<Execution>, guard: Option<Guard>, pc: Pc, calls: nat,
                    c: Choice)
    requires PcOk(id, record, pc, calls) && PcIsGated(cfg, pc)
    ensures PcIsGated(cfg, TaskStep(cfg, record, guard, pc, c).pc)
  {
    if pc.Dispatching? && c.storeOk {
      if pc.dispatch.AwaitState? {
        StateStepIsGated(cfg, record, guard, pc.dispatch.x, c);
      } else {
        OtherDispatchIsGated(cfg, record, guard, pc.dispatch, c);
      }
    } else {
      OtherStepIsGated(cfg, record, guard, pc, c);
    }
  }

  lemma OtherDispatchIsGated(cfg: Config, record: Option<Execution>, guard: Option<Guard>, pc: DispatchPc, c: Choice)
    requires !pc.AwaitState?
    ensures PcIsGated(cfg, DispatchStep(cfg, record, guard, pc, c).pc)
  {}

  lemma OtherStepIsGated(cfg: Config, record: Option<Execution>, guard: Option<Guard>, pc: Pc, c: Choice)
    requires !pc.Dispatching? || !c.storeOk
    ensures PcIsGated(cfg, TaskStep(cfg, record, guard, pc, c).pc)
  {}

  ghost predicate AllGated(s: State) {
    forall id <- s.active :: PcIsGated(s.cfg, s.active[id])
  }

  lemma NextIsGated(s: State, m: Move)
    requires Sound(s) && AllGated(s)
    ensures AllGated(Next(s, m))
  {
    if m.Continue? && m.id in s.active && TimesOk(m.choice, s.clock) {
      assert TaskOk(s, m.id);
      StepIsGated(s.cfg, m.id, RecordOf(s, m.id), s.doc.guard, s.active[m.id], CallsOf(s, m.id), m.choice);
    }
  }

  lemma {:induction false} RunIsGated(s: State, moves: seq<Move>)
    requires Sound(s) && AllGated(s)
    ensures Sound(Run(s, moves)) && AllGated(Run(s, moves))
    decreases |moves|
  {
    if moves != [] {
      NextIsSound(s, moves[0]);
      NextIsGated(s, moves[0]);
      RunIsGated(Next(s, moves[0]), moves[1..]);
    }
  }

  lemma CallIsGated(cfg: Config, id: string, record: Option<Execution>, guard: Option<Guard>, pc: Pc, calls: nat,
                    c: Choice)
    requires PcOk(id, record, pc, calls) && PcIsGated(cfg, pc)
    requires TaskStep(cfg, record, guard, pc, c).note.ServiceCalled?
    ensures record.Some? && GatesOpen(cfg, record.value) && SeenPossible(cfg, record.value)
  {
    if !(pc.Dispatching? && c.storeOk) {
      OtherStepsAreQuiet(cfg, record, guard, pc, c);
    }
  }

  /**
   In every run, a service is called only by a process whose gates are open for it, for a live task on a resource it
   serves, and only after the device reported itself reachable and not yet as desired.
   */
  lemma CallsOnlyBehindOpenGates(s: State, moves: seq<Move>, id: string, c: Choice)
    requires Initial(s)
    ensures var t := Run(s, moves);
            id in t.active ==>
              var o := TaskStep(t.cfg, RecordOf(t, id), t.doc.guard, t.active[id], c);
              o.note.ServiceCalled? ==>
                && id in t.doc.executions && t.doc.executions[id].lastObserved.Some?
                && var x := t.doc.executions[id];
                   && t.cfg.sideEffects && x.terms.context.live
                   && (x.terms.desired.DesiredPower? || (x.terms.desired.DesiredMode?
                                                         && x.lastObserved.value.power == PowerOff)
                       ==> t.cfg.powerEffects)
                   && x.terms.resourceId in t.cfg.resources && t.cfg.resources[x.terms.resourceId].enabled
                   && t.cfg.resources[x.terms.resourceId].entityId == x.terms.entityId
                   && x.lastObserved.value.reachable && !IsShown(x.terms.desired, x.lastObserved.value)
  {
    InitialIsSound(s);
    RunIsGated(s, moves);
    var t := Run(s, moves);
    assert TaskOk(t, id);
    if id in t.active && TaskStep(t.cfg, RecordOf(t, id), t.doc.guard, t.active[id], c).note.ServiceCalled? {
      CallIsGated(t.cfg, id, RecordOf(t, id), t.doc.guard, t.active[id], CallsOf(t, id), c);
    }
  }

  /**
   In every run, a temperature that is set lies within the bounds of the resource and those the device reported, and a
   mode that is set is allowed for the resource and offered by the device.
   */
  lemma CallsAreWithinBounds(s: State, moves: seq<Move>, id: string, c: Choice)
    requires Initial(s)
    ensures var t := Run(s, moves);
            id in t.active ==>
              var o := TaskStep(t.cfg, RecordOf(t, id), t.doc.guard, t.active[id], c);
              o.note.ServiceCalled? ==>
                && id in t.doc.executions && t.doc.executions[id].lastObserved.Some?
                && t.doc.executions[id].terms.resourceId in t.cfg.resources
                && var seen := t.doc.executions[id].lastObserved.value;
                   var r := t.cfg.resources[t.doc.executions[id].terms.resourceId];
                   && (o.note.service.SetTarget? ==>
                         && r.minimum <= o.note.service.temperature <= r.maximum
                         && (seen.minTemperature.Some? ==> seen.minTemperature.value <= o.note.service.temperature)
                         && (seen.maxTemperature.Some? ==> o.note.service.temperature <= seen.maxTemperature.value))
                   && (o.note.service.SetMode? ==>
                         o.note.service.mode in r.modes && o.note.service.mode in seen.supportedModes)
  {
    InitialIsSound(s);
    RunIsGated(s, moves);
    var t := Run(s, moves);
    assert TaskOk(t, id);
    if id in t.active && TaskStep(t.cfg, RecordOf(t, id), t.doc.guard, t.active[id], c).note.ServiceCalled? {
      CallIsGated(t.cfg, id, RecordOf(t, id), t.doc.guard, t.active[id], CallsOf(t, id), c);
      StepCallFits(t.cfg, id, RecordOf(t, id), t.doc.guard, t.active[id], CallsOf(t, id), c);
    }
  }

  // ------------------------------------------------------------------------------------------ what is confirmed

  /** While a task confirms, and when it has ended, no older report has replaced the last one taken. */
  lemma LastReportNeverFalls(s: State, before: seq<Move>, after: seq<Move>, id: string)
    requires Initial(s)
    ensures var t := Run(s, before);
            var u := Run(t, after);
            id in t.doc.executions && t.doc.executions[id].state == Confirming
            && t.doc.executions[id].lastObserved.Some? ==>
              && id in u.doc.executions && u.doc.executions[id].lastObserved.Some?
              && t.doc.executions[id].lastObserved.value.observedAt
                 <= u.doc.executions[id].lastObserved.value.observedAt
  {
    RecordsNeverRegress(s, before, after, id);
  }

  /** In every run, a task has succeeded only with a confirmed state of its own resource that shows the desired one. */
  lemma SuccessShowsDesired(s: State, moves: seq<Move>, id: string)
    requires Initial(s)
    ensures var t := Run(s, moves);
            id in t.doc.executions && t.doc.executions[id].state == Succeeded ==>
              && t.doc.executions[id].confirmed.Some?
              && var x, shown := t.doc.executions[id], t.doc.executions[id].confirmed.value;
                 shown.reachable && shown.resourceId == x.terms.resourceId && IsShown(x.terms.desired, shown)
  {
    StoreStaysValid(s, moves);
    var t := Run(s, moves);
    if id in t.doc.executions {
      ValidExactly(t.doc.executions[id]);
    }
  }
}
