/**
 Whole runs of the climate provider: process starts with `recover`, concurrent starts, polls and observations of
 many tasks, crashes at any await, restarts with another configuration
 (apps/home-assistant-climate-provider/src/execution.ts, main.ts:95-99).

 Operations on one task exclude each other by the task lock (see `PromiseLock`); operations on different tasks
 interleave at every await. Recovery runs alone, before anything else is started.
 */
module ClimateRuns {
  import opened Wrappers
  import opened ClimateStore
  import opened ClimateEngine
  import opened ClimateConfirmation

  /** Down, recovering the listed records one after the other, or serving. */
  datatype Mode = Down | Recovery(queue: seq<Execution>) | Serving

  /** A power intent as persisted with its guard: the instant from which opposite intents keep their distance. */
  datatype Intent = Intent(power: Power, attemptedAt: int)

  /** What a task admitted in the run was started with, and the entity its resource stood for at that time. */
  datatype Admission = Admission(input: StartInput, entityId: string)

  /**
   The durable document, the clock, the running process, and history variables: service calls per task, all
   persisted power intents, and what every task admitted during the run was started with and has accepted as
   observations.
   */
  datatype State = State(
    doc: Document,
    clock: int,
    mode: Mode,
    cfg: Config,
    active: map<string, Pc>,
    calls: map<string, nat>,
    intents: seq<Intent>,
    taken: map<string, seq<Obs>>,
    admitted: map<string, Admission>)

  datatype Move =
    | Boot(cfg: Config, order: seq<string>)
    | RecoverNext
    | BeginStart(input: StartInput)
    | BeginPoll(id: string)
    | BeginObserve(id: string, s: Climate)
    | Continue(id: string, choice: Choice)
    | Crash

  function RecordOf(s: State, id: string): Option<Execution> {
    if id in s.doc.executions then Some(s.doc.executions[id]) else None
  }

  function CallsOf(s: State, id: string): nat {
    if id in s.calls then s.calls[id] else 0
  }

  /** `store.list()`: every stored record once. */
  predicate Lists(d: Document, order: seq<string>) {
    && (forall id <- order :: id in d.executions)
    && (forall id <- d.executions :: id in order)
    && (forall i, j :: 0 <= i < j < |order| ==> order[i] != order[j])
  }

  function Listed(d: Document, order: seq<string>): seq<Execution>
    requires forall id <- order :: id in d.executions
  {
    seq(|order|, i requires 0 <= i < |order| => d.executions[order[i]])
  }

  function WithRecord(d: Document, id: string, record: Option<Execution>, guard: Option<Guard>): Document {
    Document(if record.Some? then d.executions[id := record.value] else d.executions, guard)
  }

  /** The observations taken of a task after one step: a new task starts with none. */
  function TakenAfter(s: State, id: string, o: Out): map<string, seq<Obs>> {
    if id !in s.doc.executions && o.record.Some? then s.taken[id := []]
    else if o.note.ObservationTaken? && id in s.taken
    then s.taken[id := s.taken[id] + [Obs(o.note.at, o.note.matches)]]
    else s.taken
  }

  function AdmittedAfter(s: State, id: string, o: Out): map<string, Admission>
    requires id in s.active
  {
    if id !in s.doc.executions && o.record.Some? && s.active[id].Starting?
       && s.active[id].start.input.resourceId in s.cfg.resources
    then
      var input := s.active[id].start.input;
      s.admitted[id := Admission(input, s.cfg.resources[input.resourceId].entityId)]
    else s.admitted
  }

  function IntentsAfter(s: State, o: Out): seq<Intent> {
    if o.note.IntentWritten? && o.note.power.Some?
    then s.intents + [Intent(o.note.power.value, o.note.attemptedAt)] else s.intents
  }

  /** One step of the operation that holds the lock of `id`; a recovery that throws ends the process. */
  function Continued(s: State, id: string, c: Choice): State
    requires id in s.active
  {
    var o := TaskStep(s.cfg, RecordOf(s, id), s.doc.guard, s.active[id], c);
    var died := s.mode.Recovery? && o.pc == Finished(true);
    s.(doc := WithRecord(s.doc, id, o.record, o.guard),
       clock := c.t3,
       mode := if died then Down else s.mode,
       active := if o.pc.Finished? then s.active - {id} else s.active[id := o.pc],
       calls := if o.note.ServiceCalled? then s.calls[id := CallsOf(s, id) + 1] else s.calls,
       intents := IntentsAfter(s, o),
       taken := TakenAfter(s, id, o),
       admitted := AdmittedAfter(s, id, o))
  }

  function Next(s: State, m: Move): State {
    match m
    case Boot(cfg, order) =>
      if s.mode.Down? && ValidConfig(cfg) && Lists(s.doc, order) then
        s.(mode := Recovery(Listed(s.doc, order)), cfg := cfg, active := map[])
      else s
    case RecoverNext =>
      if s.mode.Recovery? && s.active == map[] then
        if s.mode.queue == [] then s.(mode := Serving)
        else
          var x := s.mode.queue[0];
          s.(mode := Recovery(s.mode.queue[1..]), active := map[x.terms.taskId := Recovering(RecoverLocked(x))])
      else s
    case BeginStart(input) =>
      if s.mode.Serving? && input.taskId != "" && input.taskId !in s.active
      then s.(active := s.active[input.taskId := Starting(StartLocked(input))]) else s
    case BeginPoll(id) =>
      if s.mode.Serving? && id != "" && id !in s.active then s.(active := s.active[id := Polling(PollLocked)]) else s
    case BeginObserve(id, state) =>
      if s.mode.Serving? && id != "" && id !in s.active
      then s.(active := s.active[id := Polling(ObserveLocked(state))]) else s
    case Continue(id, c) =>
      if id in s.active && TimesOk(c, s.clock) then Continued(s, id, c) else s
    case Crash => s.(mode := Down, active := map[])
  }

  function Run(s: State, moves: seq<Move>): State
    decreases |moves|
  {
    if moves == [] then s else Run(Next(s, moves[0]), moves[1..])
  }

  /** A process about to start over a document that `valid` accepts and that bears no stamp from the future. */
  ghost predicate Initial(s: State) {
    && Valid(s.doc)
    && (forall id <- s.doc.executions ::
          s.doc.executions[id].terms.createdAt <= s.clock && s.doc.executions[id].updatedAt <= s.clock)
    && (s.doc.guard.Some? ==> s.doc.guard.value.attemptedAt <= s.clock)
    && s.mode.Down? && ValidConfig(s.cfg) && s.active == map[] && s.calls == map[] && s.taken == map[]
    && s.admitted == map[]
    && s.intents == (if s.doc.guard.Some? then [Intent(s.doc.guard.value.power, s.doc.guard.value.attemptedAt)] else [])
  }

  // --------------------------------------------------------------------------------------- records and calls

  ghost predicate TaskOk(s: State, id: string) {
    && RecordOk(id, RecordOf(s, id), s.clock)
    && CallsOk(RecordOf(s, id), CallsOf(s, id))
    && (id in s.active ==> id != "" && PcOk(id, RecordOf(s, id), s.active[id], CallsOf(s, id)))
  }

  ghost predicate GuardOk(d: Document, clock: int) {
    d.guard.Some? ==> d.guard.value.taskId != "" && d.guard.value.attemptedAt <= clock
  }

  /** While recovery runs, the records still queued are the stored ones. */
  ghost predicate QueueOk(s: State) {
    s.mode.Recovery? ==>
      && (forall i :: 0 <= i < |s.mode.queue| ==>
            RecordOf(s, s.mode.queue[i].terms.taskId) == Some(s.mode.queue[i])
            && s.mode.queue[i].terms.taskId !in s.active)
      && (forall i, j :: 0 <= i < j < |s.mode.queue| ==> s.mode.queue[i].terms.taskId != s.mode.queue[j].terms.taskId)
  }

  ghost predicate Sound(s: State) {
    && ValidConfig(s.cfg)
    && (forall id :: TaskOk(s, id))
    && GuardOk(s.doc, s.clock)
    && QueueOk(s)
  }

  predicate AtHook(pc: Pc) {
    pc.Dispatching? && pc.dispatch.AwaitHook?
  }

  /** Intents, calls and changes of the guard come from dispatch steps alone. */
  lemma OtherStepsAreQuiet(cfg: Config, record: Option<Execution>, guard: Option<Guard>, pc: Pc, c: Choice)
    requires !pc.Dispatching? || !c.storeOk
    ensures IsQuiet(guard, TaskStep(cfg, record, guard, pc, c))
  {
    if c.storeOk && pc.Polling? {
      PollIsQuiet(cfg, record, guard, pc.poll, c);
    }
  }

  predicate IsQuiet(guard: Option<Guard>, o: Out) {
    o.guard == guard && !o.note.IntentWritten? && !o.note.ServiceCalled? && !AtHook(o.pc)
  }

  lemma PollIsQuiet(cfg: Config, record: Option<Execution>, guard: Option<Guard>, pc: PollPc, c: Choice)
    ensures IsQuiet(guard, PollStep(cfg, record, guard, pc, c))
  {}

  lemma GuardAfterDispatch(cfg: Config, id: string, record: Option<Execution>, guard: Option<Guard>, pc: DispatchPc,
                           c: Choice)
    requires record.Some? ==> record.value.terms.taskId == id
    ensures var o := DispatchStep(cfg, record, guard, pc, c);
            && (o.note.IntentWritten? && o.note.power.Some? ==>
                  && o.guard == Some(Guard(o.note.power.value, o.note.attemptedAt, id))
                  && o.note.attemptedAt == c.t2
                  && !GuardBlocks(guard, o.note.power, c.t1))
            && (!(o.note.IntentWritten? && o.note.power.Some?) ==> o.guard == guard)
  {}

  /** The guard changes only with a persisted power intent, which it records and was not blocking. */
  lemma GuardAfterStep(cfg: Config, id: string, record: Option<Execution>, guard: Option<Guard>, pc: Pc, c: Choice)
    requires record.Some? ==> record.value.terms.taskId == id
    ensures var o := TaskStep(cfg, record, guard, pc, c);
            && (o.note.IntentWritten? && o.note.power.Some? ==>
                  && o.guard == Some(Guard(o.note.power.value, o.note.attemptedAt, id))
                  && o.note.attemptedAt == c.t2
                  && !GuardBlocks(guard, o.note.power, c.t1))
            && (!(o.note.IntentWritten? && o.note.power.Some?) ==> o.guard == guard)
  {
    if pc.Dispatching? && c.storeOk {
      GuardAfterDispatch(cfg, id, record, guard, pc.dispatch, c);
    } else {
      OtherStepsAreQuiet(cfg, record, guard, pc, c);
    }
  }

  /** A step of one task leaves the records, calls and operations of all others alone. */
  lemma ContinueFrames(s: State, id: string, c: Choice, other: string)
    requires id in s.active && other != id
    ensures var t := Continued(s, id, c);
            && RecordOf(t, other) == RecordOf(s, other) && CallsOf(t, other) == CallsOf(s, other)
            && (other in t.active <==> other in s.active)
            && (other in s.active ==> t.active[other] == s.active[other])
  {}

  lemma ContinueTaskOk(s: State, id: string, c: Choice)
    requires Sound(s) && id in s.active && TimesOk(c, s.clock)
    ensures TaskOk(Continued(s, id, c), id)
    ensures KeepsRecord(RecordOf(s, id), RecordOf(Continued(s, id, c), id))
  {
    assert TaskOk(s, id);
    TaskStepOk(s.cfg, id, RecordOf(s, id), s.doc.guard, s.active[id], CallsOf(s, id), c, s.clock);
    var o := TaskStep(s.cfg, RecordOf(s, id), s.doc.guard, s.active[id], c);
    assert RecordOf(Continued(s, id, c), id) == o.record;
  }

  lemma ContinueKeepsGuard(s: State, id: string, c: Choice)
    requires Sound(s) && id in s.active && TimesOk(c, s.clock)
    ensures GuardOk(Continued(s, id, c).doc, Continued(s, id, c).clock)
  {
    assert TaskOk(s, id);
    GuardAfterStep(s.cfg, id, RecordOf(s, id), s.doc.guard, s.active[id], c);
  }

  lemma ContinueKeepsQueue(s: State, id: string, c: Choice)
    requires Sound(s) && id in s.active && TimesOk(c, s.clock)
    ensures QueueOk(Continued(s, id, c))
  {
    var t := Continued(s, id, c);
    if t.mode.Recovery? {
      forall i | 0 <= i < |t.mode.queue|
        ensures RecordOf(t, t.mode.queue[i].terms.taskId) == Some(t.mode.queue[i])
        ensures t.mode.queue[i].terms.taskId !in t.active
      {
        ContinueFrames(s, id, c, s.mode.queue[i].terms.taskId);
      }
    }
  }

  lemma ContinueIsSound(s: State, id: string, c: Choice)
    requires Sound(s) && id in s.active && TimesOk(c, s.clock)
    ensures Sound(Continued(s, id, c))
    ensures forall other :: KeepsRecord(RecordOf(s, other), RecordOf(Continued(s, id, c), other))
  {
    var t := Continued(s, id, c);
    ContinueKeepsGuard(s, id, c);
    ContinueKeepsQueue(s, id, c);
    ContinueTaskOk(s, id, c);
    forall other ensures TaskOk(t, other) && KeepsRecord(RecordOf(s, other), RecordOf(t, other)) {
      assert TaskOk(s, other);
      if other != id {
        ContinueFrames(s, id, c, other);
        RecordOkLater(other, RecordOf(s, other), s.clock, t.clock);
      }
    }
  }

  lemma BootIsSound(s: State, cfg: Config, order: seq<string>)
    requires Sound(s)
    ensures Sound(Next(s, Boot(cfg, order)))
  {
    var t := Next(s, Boot(cfg, order));
    forall id ensures TaskOk(t, id) {
      assert TaskOk(s, id);
    }
    if s.mode.Down? && ValidConfig(cfg) && Lists(s.doc, order) {
      forall i | 0 <= i < |t.mode.queue| ensures t.mode.queue[i].terms.taskId == order[i] {
        assert TaskOk(s, order[i]);
      }
    }
  }

  lemma RecoverNextKeepsTasks(s: State, id: string)
    requires Sound(s)
    ensures TaskOk(Next(s, RecoverNext), id)
  {
    assert TaskOk(s, id);
    if s.mode.Recovery? && s.mode.queue != [] {
      assert TaskOk(s, s.mode.queue[0].terms.taskId);
    }
  }

  lemma RecoverNextIsSound(s: State)
    requires Sound(s)
    ensures Sound(Next(s, RecoverNext))
  {
    var t := Next(s, RecoverNext);
    forall id ensures TaskOk(t, id) {
      RecoverNextKeepsTasks(s, id);
    }
    if t.mode.Recovery? && t != s {
      assert forall i :: 0 <= i < |t.mode.queue| ==> t.mode.queue[i] == s.mode.queue[i + 1];
    }
  }

  /** Every move keeps the records valid, the calls behind their records, and records never regress. */
  lemma NextIsSound(s: State, m: Move)
    requires Sound(s)
    ensures Sound(Next(s, m))
    ensures forall id :: KeepsRecord(RecordOf(s, id), RecordOf(Next(s, m), id))
  {
    match m
    case Boot(cfg, order) => BootIsSound(s, cfg, order);
    case RecoverNext => RecoverNextIsSound(s);
    case Continue(id, c) =>
      if id in s.active && TimesOk(c, s.clock) {
        ContinueIsSound(s, id, c);
      }
    case _ => BeginIsSound(s, m);
  }

  lemma BeginIsSound(s: State, m: Move)
    requires Sound(s) && (m.BeginStart? || m.BeginPoll? || m.BeginObserve? || m.Crash?)
    ensures Sound(Next(s, m)) && Next(s, m).doc == s.doc
  {
    var t := Next(s, m);
    forall id ensures TaskOk(t, id) {
      assert TaskOk(s, id);
    }
  }

  lemma {:induction false} RunIsSound(s: State, moves: seq<Move>)
    requires Sound(s)
    ensures Sound(Run(s, moves))
    ensures forall id :: KeepsRecord(RecordOf(s, id), RecordOf(Run(s, moves), id))
    decreases |moves|
  {
    if moves != [] {
      NextIsSound(s, moves[0]);
      RunIsSound(Next(s, moves[0]), moves[1..]);
      forall id ensures KeepsRecord(RecordOf(s, id), RecordOf(Run(s, moves), id)) {
        assert KeepsRecord(RecordOf(s, id), RecordOf(Next(s, moves[0]), id));
        assert KeepsRecord(RecordOf(Next(s, moves[0]), id), RecordOf(Run(s, moves), id));
      }
    }
  }

  lemma InitialIsSound(s: State)
    requires Initial(s)
    ensures Sound(s)
  {
    forall id ensures TaskOk(s, id) {}
  }

  /** Every document written in a run that started from a valid one is valid. */
  lemma StoreStaysValid(s: State, moves: seq<Move>)
    requires Initial(s)
    ensures Valid(Run(s, moves).doc)
  {
    InitialIsSound(s);
    RunIsSound(s, moves);
    var t := Run(s, moves);
    forall id <- t.doc.executions
      ensures ValidExecution(t.doc.executions[id]) && t.doc.executions[id].terms.taskId == id
    {
      assert TaskOk(t, id);
    }
  }

  /**
   In every interleaving of starts, polls, observations, crashes and recoveries, a task's service is called at
   most once, and once it was called the durable record says that the side effect was dispatched.
   */
  lemma CalledAtMostOnceAndRecorded(s: State, moves: seq<Move>, id: string)
    requires Initial(s)
    ensures var t := Run(s, moves);
            && CallsOf(t, id) <= 1
            && (CallsOf(t, id) == 1 ==> RecordsCall(RecordOf(t, id)))
  {
    InitialIsSound(s);
    RunIsSound(s, moves);
    assert TaskOk(Run(s, moves), id);
  }

  /** Between any two points of a run, revisions never fall and a terminal record never changes again. */
  lemma RecordsNeverRegress(s: State, before: seq<Move>, after: seq<Move>, id: string)
    requires Initial(s)
    ensures KeepsRecord(RecordOf(Run(s, before), id), RecordOf(Run(Run(s, before), after), id))
  {
    InitialIsSound(s);
    RunIsSound(s, before);
    RunIsSound(Run(s, before), after);
  }

  /** The side effect of a task may have happened, and no operation in progress can still call the service. */
  predicate PastCalling(s: State, id: string) {
    && id in s.doc.executions && s.doc.executions[id].dispatched
    && (id in s.active ==> !AtHook(s.active[id]))
  }

  lemma ContinuePastCalling(s: State, id: string, c: Choice, other: string)
    requires Sound(s) && id in s.active && TimesOk(c, s.clock) && PastCalling(s, other)
    ensures PastCalling(Continued(s, id, c), other)
    ensures CallsOf(Continued(s, id, c), other) == CallsOf(s, other)
  {
    assert TaskOk(s, id);
    if id == other {
      StepPastCalling(s.cfg, id, s.doc.executions[id], s.doc.guard, s.active[id], CallsOf(s, id), c);
      ContinueIsSound(s, id, c);
    } else {
      ContinueFrames(s, id, c, other);
    }
  }

  lemma DispatchPastCalling(cfg: Config, x: Execution, guard: Option<Guard>, pc: DispatchPc, calls: nat, c: Choice)
    requires x.dispatched && DispatchPcOk(Some(x), pc, calls) && !pc.AwaitHook?
    ensures var o := DispatchStep(cfg, Some(x), guard, pc, c);
            !o.note.ServiceCalled? && !AtHook(o.pc)
  {}

  lemma StepPastCalling(cfg: Config, id: string, x: Execution, guard: Option<Guard>, pc: Pc, calls: nat, c: Choice)
    requires x.dispatched && PcOk(id, Some(x), pc, calls) && !AtHook(pc)
    ensures var o := TaskStep(cfg, Some(x), guard, pc, c);
            !o.note.ServiceCalled? && !AtHook(o.pc)
  {
    if pc.Dispatching? && c.storeOk {
      DispatchPastCalling(cfg, x, guard, pc.dispatch, calls, c);
    } else {
      OtherStepsAreQuiet(cfg, Some(x), guard, pc, c);
    }
  }

  lemma OtherPastCalling(s: State, m: Move, id: string)
    requires PastCalling(s, id) && !m.Continue?
    ensures PastCalling(Next(s, m), id) && CallsOf(Next(s, m), id) == CallsOf(s, id)
  {
    OtherMovesLeaveRecords(s, m);
    OtherMovesCallNothing(s, m, id);
  }

  lemma OtherMovesCallNothing(s: State, m: Move, id: string)
    requires !m.Continue?
    ensures Next(s, m).calls == s.calls
    ensures id in Next(s, m).active ==> (id in s.active && Next(s, m).active[id] == s.active[id])
                                        || !AtHook(Next(s, m).active[id])
  {}

  lemma NextPastCalling(s: State, m: Move, id: string)
    requires Sound(s) && PastCalling(s, id)
    ensures PastCalling(Next(s, m), id) && CallsOf(Next(s, m), id) == CallsOf(s, id)
  {
    if !m.Continue? {
      OtherPastCalling(s, m, id);
    } else if m.id in s.active && TimesOk(m.choice, s.clock) {
      ContinuePastCalling(s, m.id, m.choice, id);
    }
  }

  lemma {:induction false} RunPastCalling(s: State, moves: seq<Move>, id: string)
    requires Sound(s) && PastCalling(s, id)
    ensures CallsOf(Run(s, moves), id) == CallsOf(s, id)
    decreases |moves|
  {
    if moves != [] {
      NextIsSound(s, moves[0]);
      NextPastCalling(s, moves[0], id);
      RunPastCalling(Next(s, moves[0]), moves[1..], id);
    }
  }

  /**
   When the record says the side effect may have happened and nothing works on the task, as after any crash, no start
   of the same task, poll, observation or recovery in any continuation calls the service for it.
   */
  lemma NoCallIsRepeated(s: State, before: seq<Move>, after: seq<Move>, id: string)
    requires Initial(s)
    ensures var t := Run(s, before);
            id in t.doc.executions && t.doc.executions[id].dispatched && id !in t.active ==>
              CallsOf(Run(t, after), id) == CallsOf(t, id)
  {
    InitialIsSound(s);
    RunIsSound(s, before);
    var t := Run(s, before);
    if id in t.doc.executions && t.doc.executions[id].dispatched && id !in t.active {
      RunPastCalling(t, after, id);
    }
  }

  /** Whether a step that calls a service does so in time, for the entity and the desired state of the record. */
  predicate CallFits(record: Option<Execution>, o: Out, now: int) {
    o.note.ServiceCalled? ==>
      && record.Some? && now < record.value.terms.deadlineAt
      && o.note.entityId == record.value.terms.entityId
      && o.note.service == ServiceFor(record.value.terms.desired)
  }

  lemma StepCallFits(cfg: Config, id: string, record: Option<Execution>, guard: Option<Guard>, pc: Pc, calls: nat,
                     c: Choice)
    requires PcOk(id, record, pc, calls)
    ensures CallFits(record, TaskStep(cfg, record, guard, pc, c), c.t0)
  {
    if pc.Dispatching? && c.storeOk {
      DispatchCallFits(cfg, record, guard, pc.dispatch, calls, c);
    } else {
      OtherStepsAreQuiet(cfg, record, guard, pc, c);
    }
  }

  lemma DispatchCallFits(cfg: Config, record: Option<Execution>, guard: Option<Guard>, pc: DispatchPc, calls: nat,
                         c: Choice)
    requires DispatchPcOk(record, pc, calls)
    ensures CallFits(record, DispatchStep(cfg, record, guard, pc, c), c.t0)
  {}

  /** In every run a service is called before the deadline, for the entity and the desired state as stored. */
  lemma CallIsTimelyAndFaithful(s: State, moves: seq<Move>, id: string, c: Choice)
    requires Initial(s)
    ensures var t := Run(s, moves);
            id in t.active ==>
              CallFits(RecordOf(t, id), TaskStep(t.cfg, RecordOf(t, id), t.doc.guard, t.active[id], c), c.t0)
  {
    InitialIsSound(s);
    RunIsSound(s, moves);
    var t := Run(s, moves);
    assert TaskOk(t, id);
    if id in t.active {
      StepCallFits(t.cfg, id, RecordOf(t, id), t.doc.guard, t.active[id], CallsOf(t, id), c);
    }
  }

  // --------------------------------------------------------------------------------------- opposite power

  /** Opposite intents, adjacent or not, are at least five minutes apart. */
  ghost predicate Spaced(intents: seq<Intent>) {
    forall i, j :: 0 <= i < j < |intents| && intents[i].power != intents[j].power ==>
      intents[j].attemptedAt - intents[i].attemptedAt >= OPPOSITE_POWER_INTERVAL_MS
  }

  /** The guard remembers enough: it is no older than any intent and keeps its distance from opposite ones. */
  ghost predicate GuardCovers(intents: seq<Intent>, guard: Option<Guard>) {
    forall i :: 0 <= i < |intents| ==>
      && guard.Some? && intents[i].attemptedAt <= guard.value.attemptedAt
      && (intents[i].power != guard.value.power ==>
            guard.value.attemptedAt - intents[i].attemptedAt >= OPPOSITE_POWER_INTERVAL_MS)
  }

  lemma ContinueKeepsSpacing(s: State, id: string, c: Choice)
    requires Sound(s) && id in s.active && TimesOk(c, s.clock)
    requires Spaced(s.intents) && GuardCovers(s.intents, s.doc.guard)
    ensures var t := Continued(s, id, c); Spaced(t.intents) && GuardCovers(t.intents, t.doc.guard)
  {
    assert TaskOk(s, id);
    GuardAfterStep(s.cfg, id, RecordOf(s, id), s.doc.guard, s.active[id], c);
  }

  lemma NextKeepsSpacing(s: State, m: Move)
    requires Sound(s) && Spaced(s.intents) && GuardCovers(s.intents, s.doc.guard)
    ensures var t := Next(s, m); Spaced(t.intents) && GuardCovers(t.intents, t.doc.guard)
  {
    if m.Continue? && m.id in s.active && TimesOk(m.choice, s.clock) {
      ContinueKeepsSpacing(s, m.id, m.choice);
    }
  }

  lemma {:induction false} RunKeepsSpacing(s: State, moves: seq<Move>)
    requires Sound(s) && Spaced(s.intents) && GuardCovers(s.intents, s.doc.guard)
    ensures Spaced(Run(s, moves).intents)
    decreases |moves|
  {
    if moves != [] {
      NextIsSound(s, moves[0]);
      NextKeepsSpacing(s, moves[0]);
      RunKeepsSpacing(Next(s, moves[0]), moves[1..]);
    }
  }

  /**
   Any two power intents persisted during a run, across tasks, resources, crashes and restarts, and including the
   one the initial guard records, are at least 300000 ms apart when they point in opposite directions.
   */
  lemma OppositePowerIsSpaced(s: State, moves: seq<Move>)
    requires Initial(s)
    ensures Spaced(Run(s, moves).intents)
  {
    InitialIsSound(s);
    RunKeepsSpacing(s, moves);
  }

  // --------------------------------------------------------------------------------------- confirmation

  ghost predicate TakenOk(s: State) {
    forall id <- s.taken :: id in s.doc.executions && Refines(s.doc.executions[id], s.taken[id], s.clock)
  }

  /** A new record has an empty window and no verdict. */
  predicate StartsEmpty(x: Execution) {
    x.terms.policy.Some? && x.candidateAt.None? && x.matchCount == Some(0) && x.lastMatchAt.None? && !x.state.Succeeded?
  }

  /** A step that takes no observation leaves the window and the verdict alone. */
  predicate WindowKept(x: Execution, next: Execution) {
    KeepsWindow(x, next) && (next.state.PendingSideEffect? ==> x.state.PendingSideEffect?)
  }

  /** How one step of a task relates to its accepted observations. */
  ghost predicate StepTakes(cfg: Config, record: Option<Execution>, o: Out, c: Choice) {
    if record.None? then !o.note.ObservationTaken? && (o.record.Some? ==> StartsEmpty(o.record.value))
    else if o.note.ObservationTaken? then
      exists s :: && Accepts(cfg, record.value, s, c.t0)
                  && o.record == Some(Observe(cfg, record.value, s, c.t0))
                  && o.note == ObservationTaken(c.t0, Matches(record.value, s))
    else o.record.Some? && WindowKept(record.value, o.record.value)
  }

  lemma ObserveStepTakes(cfg: Config, x: Execution, guard: Option<Guard>, s: Climate, c: Choice, pc: Pc)
    ensures StepTakes(cfg, Some(x), ObserveStep(cfg, x, guard, s, c, pc), c)
  {
    if !Accepts(cfg, x, s, c.t0) {
      UnacceptedChangesNothing(cfg, x, s, c.t0);
      ObserveKeepsTerms(cfg, x, s, c.t0);
    }
  }

  /** Pending records of tasks admitted in the run carry an explicit zero count. */
  predicate CountsFromZero(record: Option<Execution>) {
    record.Some? && record.value.state.PendingSideEffect? ==> record.value.matchCount == Some(0)
  }

  lemma DispatchStepTakes(cfg: Config, record: Option<Execution>, guard: Option<Guard>, pc: DispatchPc, calls: nat,
                          c: Choice)
    requires DispatchPcOk(record, pc, calls) && CountsFromZero(record)
    ensures StepTakes(cfg, record, DispatchStep(cfg, record, guard, pc, c), c)
  {
    if pc.AwaitTelemetry? && record.Some? {
      ObserveStepTakes(cfg, record.value, guard, pc.s, c, Finished(!c.telemetryOk));
    }
  }

  lemma PollStepTakes(cfg: Config, record: Option<Execution>, guard: Option<Guard>, pc: PollPc, c: Choice)
    ensures StepTakes(cfg, record, PollStep(cfg, record, guard, pc, c), c)
  {
    if record.Some? {
      if pc.PollAwaitTelemetry? {
        ObserveStepTakes(cfg, record.value, guard, pc.s, c, Polling(PollCheckDeadline));
      }
      if pc.ObserveLocked? {
        ObserveStepTakes(cfg, record.value, guard, pc.s, c, Finished(!c.telemetryOk));
      }
    }
  }

  lemma StartStepTakes(cfg: Config, id: string, record: Option<Execution>, guard: Option<Guard>, pc: StartPc,
                       calls: nat, c: Choice)
    requires PcOk(id, record, Starting(pc), calls)
    ensures StepTakes(cfg, record, StartStep(cfg, record, guard, pc, c), c)
  {}

  lemma RecoverStepTakes(cfg: Config, id: string, record: Option<Execution>, guard: Option<Guard>, pc: RecoverPc,
                         calls: nat, c: Choice)
    requires PcOk(id, record, Recovering(pc), calls)
    ensures StepTakes(cfg, record, RecoverStep(cfg, record, guard, pc, c), c)
  {}

  lemma TaskStepTakes(cfg: Config, id: string, record: Option<Execution>, guard: Option<Guard>, pc: Pc, calls: nat,
                      c: Choice)
    requires PcOk(id, record, pc, calls) && CountsFromZero(record)
    ensures StepTakes(cfg, record, TaskStep(cfg, record, guard, pc, c), c)
  {
    if c.storeOk {
      StoredStepTakes(cfg, id, record, guard, pc, calls, c);
    }
  }

  lemma StoredStepTakes(cfg: Config, id: string, record: Option<Execution>, guard: Option<Guard>, pc: Pc, calls: nat,
                        c: Choice)
    requires PcOk(id, record, pc, calls) && CountsFromZero(record)
    ensures StepTakes(cfg, record, StoredStep(cfg, record, guard, pc, c), c)
  {
    match pc
    case Starting(p) => StartStepTakes(cfg, id, record, guard, p, calls, c);
    case Dispatching(p) => DispatchStepTakes(cfg, record, guard, p, calls, c);
    case Polling(p) => PollStepTakes(cfg, record, guard, p, c);
    case Recovering(p) => RecoverStepTakes(cfg, id, record, guard, p, calls, c);
    case Finished(_) =>
  }

  /** One step of a task keeps its window equal to the reference on the observations taken so far. */
  lemma StepRefines(cfg: Config, x: Execution, h: seq<Obs>, o: Out, c: Choice, clock: int)
    requires Refines(x, h, clock) && TimesOk(c, clock) && StepTakes(cfg, Some(x), o, c)
    ensures o.record.Some?
    ensures Refines(o.record.value,
                    if o.note.ObservationTaken? then h + [Obs(o.note.at, o.note.matches)] else h, c.t3)
  {
    if o.note.ObservationTaken? {
      var s :| && Accepts(cfg, x, s, c.t0) && o.record == Some(Observe(cfg, x, s, c.t0))
               && o.note == ObservationTaken(c.t0, Matches(x, s));
      RefinesExtends(cfg, x, s, c.t0, h, clock);
      RefinesLater(o.record.value, h + [Obs(o.note.at, o.note.matches)], c.t0, c.t3);
    } else {
      KeepsWindowRefines(x, o.record.value, h, clock);
      RefinesLater(o.record.value, h, clock, c.t3);
    }
  }

  lemma ContinueTakes(s: State, id: string, c: Choice)
    requires Sound(s) && TakenOk(s) && id in s.active && TimesOk(c, s.clock)
    ensures var t := Continued(s, id, c);
            id in t.taken ==> id in t.doc.executions && Refines(t.doc.executions[id], t.taken[id], t.clock)
  {
    var t := Continued(s, id, c);
    var record := RecordOf(s, id);
    var o := TaskStep(s.cfg, record, s.doc.guard, s.active[id], c);
    assert TaskOk(s, id);
    if record.None? {
      TaskStepTakes(s.cfg, id, record, s.doc.guard, s.active[id], CallsOf(s, id), c);
      if o.record.Some? {
        NewTaskRefines(o.record.value, c.t3);
      }
    } else if id in s.taken {
      PendingCountsFromZero(record.value, s.taken[id], s.clock);
      TaskStepTakes(s.cfg, id, record, s.doc.guard, s.active[id], CallsOf(s, id), c);
      StepRefines(s.cfg, record.value, s.taken[id], o, c, s.clock);
    }
  }

  lemma ContinueKeepsTaken(s: State, id: string, c: Choice)
    requires Sound(s) && TakenOk(s) && id in s.active && TimesOk(c, s.clock)
    ensures TakenOk(Continued(s, id, c))
  {
    var t := Continued(s, id, c);
    forall other <- t.taken
      ensures other in t.doc.executions && Refines(t.doc.executions[other], t.taken[other], t.clock)
    {
      if other == id {
        ContinueTakes(s, id, c);
      } else {
        ContinueFrames(s, id, c, other);
        RefinesLater(s.doc.executions[other], s.taken[other], s.clock, c.t3);
      }
    }
  }

  lemma PendingCountsFromZero(x: Execution, h: seq<Obs>, clock: int)
    requires Refines(x, h, clock)
    ensures CountsFromZero(Some(x))
  {
    assert Instants([]) == {};
  }

  lemma NextKeepsTaken(s: State, m: Move)
    requires Sound(s) && TakenOk(s)
    ensures TakenOk(Next(s, m))
  {
    if m.Continue? {
      if m.id in s.active && TimesOk(m.choice, s.clock) {
        ContinueKeepsTaken(s, m.id, m.choice);
      }
    } else {
      OtherMovesLeaveRecords(s, m);
    }
  }

  lemma OtherMovesLeaveRecords(s: State, m: Move)
    requires !m.Continue?
    ensures Next(s, m).doc == s.doc && Next(s, m).taken == s.taken && Next(s, m).clock == s.clock
  {}

  lemma {:induction false} RunKeepsTaken(s: State, moves: seq<Move>)
    requires Sound(s) && TakenOk(s)
    ensures TakenOk(Run(s, moves))
    decreases |moves|
  {
    if moves != [] {
      NextIsSound(s, moves[0]);
      NextKeepsTaken(s, moves[0]);
      RunKeepsTaken(Next(s, moves[0]), moves[1..]);
    }
  }

  /**
   For every task admitted in the run, at every moment and across restarts: the stored window is the longest
   matching suffix of the observations accepted for it, and the task has succeeded exactly when that suffix meets
   its frozen policy, before its deadline, and for the first time.
   */
  lemma ConfirmedExactlyByTheWindow(s: State, moves: seq<Move>, id: string)
    requires Initial(s) && id in Run(s, moves).taken
    ensures var t := Run(s, moves);
            && id in t.doc.executions && t.doc.executions[id].terms.policy.Some?
            && var x, h, p := t.doc.executions[id], t.taken[id], t.doc.executions[id].terms.policy.value;
               && Tracks(x, h)
               && (x.state.Succeeded? <==> Meets(p, h))
               && (forall n :: 0 <= n < |h| ==> !Meets(p, h[..n]))
               && (forall o <- h :: o.at < x.terms.deadlineAt)
  {
    InitialIsSound(s);
    RunKeepsTaken(s, moves);
  }

  // --------------------------------------------------------------------------------------- recovery

  /** A recovering task either is being dispatched, or no longer waits for its side effect. */
  predicate RecoveryPcOk(record: Option<Execution>, pc: Pc) {
    || (pc.Recovering? && pc.recovery.RecoverLocked?)
    || (pc.Dispatching? && (pc.dispatch.AwaitTelemetry? ==> NotPending(record)))
    || ((pc.Polling? || pc.Recovering?) && record.Some? && !record.value.state.PendingSideEffect?)
  }

  predicate NotPending(record: Option<Execution>) {
    record.Some? ==> !record.value.state.PendingSideEffect?
  }

  /** A pending record is in the hands of the running iteration, or still queued. */
  ghost predicate AccountedFor(s: State, id: string)
    requires s.mode.Recovery?
  {
    id in s.doc.executions && s.doc.executions[id].state.PendingSideEffect? ==>
      id in s.active || exists i :: 0 <= i < |s.mode.queue| && s.mode.queue[i].terms.taskId == id
  }

  /** While recovery runs, every pending record is still queued or in the hands of the running iteration. */
  ghost predicate PendingAccountedFor(s: State) {
    s.mode.Recovery? ==>
      && (forall id <- s.active :: RecoveryPcOk(RecordOf(s, id), s.active[id]))
      && (forall id <- s.doc.executions :: AccountedFor(s, id))
  }

  predicate RecoveryStepOk(o: Out) {
    o.pc == Finished(true) || (o.pc.Finished? && NotPending(o.record)) || RecoveryPcOk(o.record, o.pc)
  }

  lemma RecoverIterationProgresses(cfg: Config, id: string, record: Option<Execution>, guard: Option<Guard>,
                                   pc: RecoverPc, calls: nat, c: Choice, clock: int)
    requires RecordOk(id, record, clock) && CallsOk(record, calls) && TimesOk(c, clock)
    requires PcOk(id, record, Recovering(pc), calls) && RecoveryPcOk(record, Recovering(pc))
    ensures RecoveryStepOk(RecoverStep(cfg, record, guard, pc, c))
  {
    RecoverStepOk(cfg, id, record, guard, pc, calls, c, clock);
  }

  lemma RecoverDispatchProgresses(cfg: Config, id: string, record: Option<Execution>, guard: Option<Guard>,
                                  pc: DispatchPc, calls: nat, c: Choice, clock: int)
    requires RecordOk(id, record, clock) && TimesOk(c, clock) && CallsOk(record, calls)
    requires DispatchPcOk(record, pc, calls) && RecoveryPcOk(record, Dispatching(pc))
    ensures RecoveryStepOk(DispatchStep(cfg, record, guard, pc, c))
  {
    if pc.AwaitTelemetry? && record.Some? {
      ObserveOk(cfg, id, record.value, pc.s, c.t0, clock);
    } else if pc.Enter? {
      DispatchEntryOk(cfg, id, pc.x, guard, calls, c, clock);
    }
  }

  lemma RecoverPollProgresses(cfg: Config, id: string, record: Option<Execution>, guard: Option<Guard>, pc: PollPc,
                              calls: nat, c: Choice, clock: int)
    requires RecordOk(id, record, clock) && CallsOk(record, calls) && TimesOk(c, clock)
    requires RecoveryPcOk(record, Polling(pc))
    ensures RecoveryStepOk(PollStep(cfg, record, guard, pc, c))
  {
    PollStepOk(cfg, id, record, guard, pc, calls, c, clock);
  }

  lemma RecoveryStepProgresses(cfg: Config, id: string, record: Option<Execution>, guard: Option<Guard>, pc: Pc,
                               calls: nat, c: Choice, clock: int)
    requires RecordOk(id, record, clock) && CallsOk(record, calls) && TimesOk(c, clock)
    requires PcOk(id, record, pc, calls) && RecoveryPcOk(record, pc)
    ensures RecoveryStepOk(TaskStep(cfg, record, guard, pc, c))
  {
    if c.storeOk {
      StoredStepProgresses(cfg, id, record, guard, pc, calls, c, clock);
    }
  }

  lemma StoredStepProgresses(cfg: Config, id: string, record: Option<Execution>, guard: Option<Guard>, pc: Pc,
                             calls: nat, c: Choice, clock: int)
    requires RecordOk(id, record, clock) && CallsOk(record, calls) && TimesOk(c, clock)
    requires PcOk(id, record, pc, calls) && RecoveryPcOk(record, pc)
    ensures RecoveryStepOk(StoredStep(cfg, record, guard, pc, c))
  {
    match pc
    case Dispatching(p) => RecoverDispatchProgresses(cfg, id, record, guard, p, calls, c, clock);
    case Polling(p) => RecoverPollProgresses(cfg, id, record, guard, p, calls, c, clock);
    case Recovering(p) => RecoverIterationProgresses(cfg, id, record, guard, p, calls, c, clock);
  }

  lemma ContinueProgresses(s: State, id: string, c: Choice)
    requires Sound(s) && id in s.active && TimesOk(c, s.clock) && RecoveryPcOk(RecordOf(s, id), s.active[id])
    ensures var t := Continued(s, id, c);
            && (id in t.active ==> RecoveryPcOk(RecordOf(t, id), t.active[id]))
            && (id !in t.active && s.mode.Recovery? && t.mode.Recovery? ==> NotPending(RecordOf(t, id)))
  {
    var o := TaskStep(s.cfg, RecordOf(s, id), s.doc.guard, s.active[id], c);
    assert TaskOk(s, id);
    RecoveryStepProgresses(s.cfg, id, RecordOf(s, id), s.doc.guard, s.active[id], CallsOf(s, id), c, s.clock);
    TaskStepOk(s.cfg, id, RecordOf(s, id), s.doc.guard, s.active[id], CallsOf(s, id), c, s.clock);
    assert RecordOf(Continued(s, id, c), id) == o.record;
  }

  lemma ContinueAccountsForPending(s: State, id: string, c: Choice)
    requires Sound(s) && PendingAccountedFor(s) && id in s.active && TimesOk(c, s.clock)
    ensures PendingAccountedFor(Continued(s, id, c))
  {
    var t := Continued(s, id, c);
    if t.mode.Recovery? {
      ContinueProgresses(s, id, c);
      forall other <- t.active ensures RecoveryPcOk(RecordOf(t, other), t.active[other]) {
        if other != id {
          ContinueFrames(s, id, c, other);
        }
      }
      forall other <- t.doc.executions ensures AccountedFor(t, other) {
        if other != id {
          ContinueFrames(s, id, c, other);
          assert AccountedFor(s, other);
        }
      }
    }
  }

  lemma BootAccountsForPending(s: State, cfg: Config, order: seq<string>)
    requires Sound(s) && PendingAccountedFor(s)
    ensures PendingAccountedFor(Next(s, Boot(cfg, order)))
  {
    if s.mode.Down? && ValidConfig(cfg) && Lists(s.doc, order) {
      var t := Next(s, Boot(cfg, order));
      forall id <- t.doc.executions ensures AccountedFor(t, id) {
        var i :| 0 <= i < |order| && order[i] == id;
        assert TaskOk(s, id);
        assert t.mode.queue[i] == s.doc.executions[id];
      }
    }
  }

  lemma NextFromQueue(s: State, id: string)
    requires s.mode.Recovery? && s.active == map[] && s.mode.queue != [] && AccountedFor(s, id)
    ensures AccountedFor(Next(s, RecoverNext), id)
  {
    var t := Next(s, RecoverNext);
    if id in s.doc.executions && s.doc.executions[id].state.PendingSideEffect? {
      var i :| 0 <= i < |s.mode.queue| && s.mode.queue[i].terms.taskId == id;
      if i > 0 {
        assert t.mode.queue[i - 1] == s.mode.queue[i];
      }
    }
  }

  lemma RecoverNextAccountsForPending(s: State)
    requires Sound(s) && PendingAccountedFor(s)
    ensures PendingAccountedFor(Next(s, RecoverNext))
  {
    if s.mode.Recovery? && s.active == map[] && s.mode.queue != [] {
      var t := Next(s, RecoverNext);
      forall id <- t.doc.executions ensures AccountedFor(t, id) {
        NextFromQueue(s, id);
      }
    }
  }

  lemma ServingHasNothingPending(s: State, id: string)
    requires PendingAccountedFor(s) && s.mode.Recovery? && Next(s, RecoverNext).mode.Serving? && id in s.doc.executions
    ensures !s.doc.executions[id].state.PendingSideEffect?
  {
    assert AccountedFor(s, id);
  }

  lemma {:induction false} RunAccountsForPending(s: State, moves: seq<Move>)
    requires Sound(s) && PendingAccountedFor(s)
    ensures Sound(Run(s, moves)) && PendingAccountedFor(Run(s, moves))
    decreases |moves|
  {
    if moves != [] {
      NextIsSound(s, moves[0]);
      match moves[0] {
        case Boot(cfg, order) => BootAccountsForPending(s, cfg, order);
        case RecoverNext => RecoverNextAccountsForPending(s);
        case Continue(id, c) =>
          if id in s.active && TimesOk(c, s.clock) {
            ContinueAccountsForPending(s, id, c);
          }
        case _ =>
      }
      RunAccountsForPending(Next(s, moves[0]), moves[1..]);
    }
  }

  /**
   When recovery returns normally and the process starts serving, no execution is left waiting for its side
   effect, whatever crashes and earlier recoveries came before.
   */
  lemma RecoveryLeavesNothingPending(s: State, moves: seq<Move>, id: string)
    requires Initial(s)
    ensures var t := Run(s, moves);
            t.mode.Recovery? && Next(t, RecoverNext).mode.Serving? && id in t.doc.executions ==>
              !t.doc.executions[id].state.PendingSideEffect?
  {
    InitialIsSound(s);
    RunAccountsForPending(s, moves);
    var t := Run(s, moves);
    if t.mode.Recovery? && Next(t, RecoverNext).mode.Serving? && id in t.doc.executions {
      ServingHasNothingPending(t, id);
    }
  }

  // --------------------------------------------------------------------------------------- deadlines

  /** A step of a poll that looks at the clock at or after the deadline ends a confirming task with a time-out. */
  lemma ExpiredPollIsTerminal(cfg: Config, x: Execution, guard: Option<Guard>, pc: PollPc, c: Choice)
    requires pc.PollLocked? || pc.PollCheckDeadline?
    requires x.state.Confirming? && c.t0 >= x.terms.deadlineAt && c.storeOk
    ensures var o := TaskStep(cfg, Some(x), guard, Polling(pc), c);
            o.pc.Finished? && o.record == Some(Failed(x, ConfirmationTimeout, c.t1)) && IsTerminal(o.record.value.state)
  {}

  /** The poll of a task that was confirming and past its deadline has not begun yet, or the task is terminal. */
  predicate ExpiringOrOver(s: State, id: string) {
    && id in s.doc.executions
    && (IsTerminal(s.doc.executions[id].state)
        || (s.doc.executions[id].state.Confirming? && s.doc.executions[id].terms.deadlineAt <= s.clock
            && id in s.active && s.active[id] == Polling(PollLocked)))
  }

  /** The process lives on through the move, and no store call of the task throws. */
  predicate Undisturbed(m: Move, id: string) {
    !m.Crash? && (m.Continue? && m.id == id ==> m.choice.storeOk)
  }

  lemma ContinueExpiring(s: State, id: string, c: Choice)
    requires Sound(s) && s.mode.Serving? && ExpiringOrOver(s, id) && id in s.active && TimesOk(c, s.clock)
    requires c.storeOk
    ensures ExpiringOrOver(Continued(s, id, c), id)
  {
    assert TaskOk(s, id);
    var x := s.doc.executions[id];
    if IsTerminal(x.state) {
      TaskStepOk(s.cfg, id, Some(x), s.doc.guard, s.active[id], CallsOf(s, id), c, s.clock);
    } else {
      ExpiredPollIsTerminal(s.cfg, x, s.doc.guard, PollLocked, c);
    }
  }

  lemma NextExpiring(s: State, m: Move, id: string)
    requires Sound(s) && s.mode.Serving? && ExpiringOrOver(s, id) && Undisturbed(m, id)
    ensures Next(s, m).mode.Serving? && ExpiringOrOver(Next(s, m), id)
  {
    if m.Continue? && m.id in s.active && TimesOk(m.choice, s.clock) && m.id == id {
      ContinueExpiring(s, id, m.choice);
    }
  }

  lemma {:induction false} RunExpiring(s: State, moves: seq<Move>, id: string)
    requires Sound(s) && s.mode.Serving? && ExpiringOrOver(s, id)
    requires forall m <- moves :: Undisturbed(m, id)
    ensures ExpiringOrOver(Run(s, moves), id)
    decreases |moves|
  {
    if moves != [] {
      NextIsSound(s, moves[0]);
      NextExpiring(s, moves[0], id);
      RunExpiring(Next(s, moves[0]), moves[1..], id);
    }
  }

  /**
   A poll of a confirming task begun at or after the deadline leaves the task terminal from its first step on, whatever
   other tasks, polls, starts and observations interleave.
   */
  lemma LatePollEndsTask(s: State, before: seq<Move>, id: string, after: seq<Move>)
    requires Initial(s)
    requires var t := Run(s, before);
             && t.mode.Serving? && id != "" && id !in t.active && id in t.doc.executions
             && t.doc.executions[id].state.Confirming? && t.doc.executions[id].terms.deadlineAt <= t.clock
    requires forall m <- after :: Undisturbed(m, id)
    ensures var u := Run(Next(Run(s, before), BeginPoll(id)), after);
            && id in u.doc.executions
            && (id !in u.active || u.active[id] != Polling(PollLocked) ==> IsTerminal(u.doc.executions[id].state))
  {
    InitialIsSound(s);
    RunIsSound(s, before);
    NextIsSound(Run(s, before), BeginPoll(id));
    RunExpiring(Next(Run(s, before), BeginPoll(id)), after, id);
  }

  lemma PollEndsInTime(cfg: Config, record: Option<Execution>, guard: Option<Guard>, pc: PollPc, c: Choice)
    requires !pc.ObserveLocked? && c.storeOk && TaskStep(cfg, record, guard, Polling(pc), c).pc.Finished?
    ensures var o := TaskStep(cfg, record, guard, Polling(pc), c);
            o.record.Some? && o.record.value.state.Confirming? ==> c.t0 < o.record.value.terms.deadlineAt
  {}

  /** Every poll of a run that ends leaves its task confirming only if its last look at the clock was in time. */
  lemma FinishedPollChecksDeadline(s: State, moves: seq<Move>, id: string, c: Choice)
    requires Initial(s)
    requires var t := Run(s, moves);
             id in t.active && t.active[id].Polling? && !t.active[id].poll.ObserveLocked? && c.storeOk
    ensures var u := Next(Run(s, moves), Continue(id, c));
            id !in u.active && id in u.doc.executions && u.doc.executions[id].state.Confirming? ==>
              c.t0 < u.doc.executions[id].terms.deadlineAt
  {
    InitialIsSound(s);
    RunIsSound(s, moves);
    FinishedPollLooked(Run(s, moves), id, c);
  }

  lemma FinishedPollLooked(t: State, id: string, c: Choice)
    requires Sound(t) && id in t.active && t.active[id].Polling? && !t.active[id].poll.ObserveLocked? && c.storeOk
    ensures var u := Next(t, Continue(id, c));
            id !in u.active && id in u.doc.executions && u.doc.executions[id].state.Confirming? ==>
              c.t0 < u.doc.executions[id].terms.deadlineAt
  {
    var o := TaskStep(t.cfg, RecordOf(t, id), t.doc.guard, t.active[id], c);
    assert TaskOk(t, id);
    if TimesOk(c, t.clock) && o.pc.Finished? {
      TaskStepOk(t.cfg, id, RecordOf(t, id), t.doc.guard, t.active[id], CallsOf(t, id), c, t.clock);
      PollEndsInTime(t.cfg, RecordOf(t, id), t.doc.guard, t.active[id].poll, c);
      assert RecordOf(Continued(t, id, c), id) == o.record;
    }
  }
}
