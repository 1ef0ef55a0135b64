/**
 The climate engine as the object the provider builds: one document and one configuration, with the stretches of
 code that run without an await as methods (apps/home-assistant-climate-provider/src/execution.ts).
 */
module ClimateProvider {
  import opened Wrappers
  import opened ClimateStore
  import opened ClimateEngine
  import opened ClimateDecisions

  function Stored(d: Document, id: string): Option<Execution> {
    if id in d.executions then Some(d.executions[id]) else None
  }

  /** The first `n` of the tasks have taken the observation, and nothing else has changed. */
  ghost predicate Reached(cfg: Config, before: Document, after: Document, s: Climate, ids: seq<string>,
                          times: seq<int>, n: nat)
    requires n <= |ids| == |times|
  {
    && after.guard == before.guard && after.executions.Keys == before.executions.Keys
    && (forall k :: 0 <= k < |ids| ==> ids[k] in before.executions && ids[k] in after.executions)
    && (forall k :: 0 <= k < n ==> after.executions[ids[k]] == Observe(cfg, before.executions[ids[k]], s, times[k]))
    && (forall k :: n <= k < |ids| ==> after.executions[ids[k]] == before.executions[ids[k]])
    && (forall id <- before.executions :: id !in ids ==> after.executions[id] == before.executions[id])
  }

  /** What `ApplyObservation` does to the document. */
  predicate Observed(cfg: Config, before: Document, after: Document, s: Climate, id: string, now: int) {
    && after.guard == before.guard && after.executions.Keys == before.executions.Keys
    && forall other <- before.executions ::
         after.executions[other]
         == if other == id then Observe(cfg, before.executions[id], s, now) else before.executions[other]
  }

  lemma ReachedGoesOn(cfg: Config, start: Document, before: Document, after: Document, s: Climate, ids: seq<string>,
                      times: seq<int>, n: nat)
    requires n < |ids| == |times| && forall i, j :: 0 <= i < j < |ids| ==> ids[i] != ids[j]
    requires Reached(cfg, start, before, s, ids, times, n) && Observed(cfg, before, after, s, ids[n], times[n])
    ensures Reached(cfg, start, after, s, ids, times, n + 1)
  {}

  class ClimateExecutionEngine {
    var document: Document
    const cfg: Config

    constructor (cfg: Config, document: Document)
      ensures this.cfg == cfg && this.document == document
    {
      this.cfg, this.document := cfg, document;
    }

    /** `#fail`: a terminal record is left alone; any other, or `x` itself if none is stored, is stored as failed. */
    method Fail(x: Execution, reason: FailureReason, now: int)
      modifies this
      ensures document.guard == old(document).guard
      ensures Stored(document, x.terms.taskId)
           == ClimateEngine.Fail(Stored(old(document), x.terms.taskId), x, reason, now)
      ensures forall id :: id != x.terms.taskId ==> Stored(document, id) == Stored(old(document), id)
    {
      var current := if x.terms.taskId in document.executions then document.executions[x.terms.taskId] else x;
      if IsTerminal(current.state) {
        return;
      }
      document := document.(executions := document.executions[x.terms.taskId := Failed(current, reason, now)]);
    }

    /** `#applyObservation` for one task, with its early returns. */
    method ApplyObservation(id: string, s: Climate, now: int)
      modifies this
      ensures Observed(cfg, old(document), document, s, id, now)
      ensures id in old(document).executions ==>
                var x := old(document).executions[id];
                document.executions[id] == x <==>
                  || x.state != Confirming || !IsServed(cfg, x) || s.resourceId != x.terms.resourceId
                  || (now < x.terms.deadlineAt && IsOlder(x, s))
    {
      if id !in document.executions {
        return;
      }
      var x := document.executions[id];
      ObservationIgnoredExactly(cfg, x, s, now);
      if !x.state.Confirming? || !IsActiveResource(cfg, x) || x.terms.resourceId != s.resourceId {
        return;
      }
      if now >= x.terms.deadlineAt {
        document := document.(executions := document.executions[id := Failed(x, ConfirmationTimeout, now)]);
        return;
      }
      if IsStale(x, s) {
        return;
      }
      var next;
      if !Matches(x, s) {
        next := Advance(x.(matchCount := Some(0), candidateAt := None, lastMatchAt := None, lastObserved := Some(s)),
                        Confirming, now);
      } else {
        var candidate := Candidate(x, s, now);
        var policy := if x.terms.policy.Some? then x.terms.policy.value else cfg.policy;
        if candidate.matchCount.value >= policy.matches && now - candidate.candidateAt.value >= policy.stableMs {
          next := Advance(candidate.(confirmed := Some(s)), Succeeded, now);
        } else {
          next := Advance(candidate, Confirming, now);
        }
      }
      document := document.(executions := document.executions[id := next]);
    }

    /**
     `observe`: one reported state reaches every task on its resource, and no other task; `times` are the
     clock readings of the iterations. Nothing else runs in between here; `ClimateRuns` drops that restriction.
     */
    method ObserveAll(s: Climate, ids: seq<string>, times: seq<int>)
      requires forall id <- ids :: id in document.executions && document.executions[id].terms.resourceId == s.resourceId
      requires forall id <- document.executions ::
                 document.executions[id].terms.resourceId == s.resourceId ==> id in ids
      requires forall i, j :: 0 <= i < j < |ids| ==> ids[i] != ids[j]
      requires |times| == |ids|
      modifies this
      ensures Reached(cfg, old(document), document, s, ids, times, |ids|)
      ensures forall id <- document.executions :: old(document).executions[id].terms.resourceId != s.resourceId ==>
                document.executions[id] == old(document).executions[id]
    {
      for i := 0 to |ids|
        invariant Reached(cfg, old(document), document, s, ids, times, i)
      {
        ghost var before := document;
        ApplyObservation(ids[i], s, times[i]);
        ReachedGoesOn(cfg, old(document), before, document, s, ids, times, i);
      }
    }

    /** The atomic document update of `#dispatch`: intent and guard are written together or not at all. */
    method WriteIntent(id: string, observed: Climate, intent: Option<Power>, c: Choice) returns (o: Out)
      modifies this
      ensures o == MarkIntent(Stored(old(document), id), old(document).guard, observed, intent, c)
      ensures Stored(document, id) == o.record && document.guard == o.guard
      ensures forall other :: other != id ==> Stored(document, other) == Stored(old(document), other)
    {
      if id !in document.executions {
        return Stay(None, document.guard, Finished(false));
      }
      var latest := document.executions[id];
      if !latest.state.PendingSideEffect? || latest.dispatchState != Some(NotStarted) || latest.dispatched {
        return Stay(Some(latest), document.guard, Finished(false));
      }
      if intent.Some? {
        if document.guard.Some? && document.guard.value.power != intent.value
           && c.t1 - document.guard.value.attemptedAt < OPPOSITE_POWER_INTERVAL_MS
        {
          var blocked := Failed(latest, OppositePowerIntervalActive, c.t2);
          document := document.(executions := document.executions[id := blocked]);
          return Stay(Some(blocked), document.guard, Finished(!c.telemetryOk));
        }
        document := document.(guard := Some(Guard(intent.value, c.t2, latest.terms.taskId)));
      }
      var marked := Advance(latest.(dispatched := true, dispatchState := Some(IntentPersisted),
                                    baselineAt := Some(observed.observedAt), matchCount := Some(0),
                                    lastObserved := Some(observed)),
                            PendingSideEffect, c.t3);
      document := document.(executions := document.executions[id := marked]);
      return Out(Some(marked), document.guard, Dispatching(AwaitHook(marked)), IntentWritten(intent, c.t2));
    }
  }

  /** What `ObserveAll` does to a document without stamps from the future, `valid` still accepts. */
  lemma ObservedDocumentIsValid(cfg: Config, before: Document, after: Document, s: Climate, ids: seq<string>,
                                times: seq<int>, clock: int)
    requires ClimateStore.Valid(before) && |times| == |ids|
    requires forall id <- before.executions :: RecordOk(id, Stored(before, id), clock)
    requires forall i :: 0 <= i < |times| ==> clock <= times[i]
    requires Reached(cfg, before, after, s, ids, times, |ids|)
    ensures ClimateStore.Valid(after)
  {
    forall id <- after.executions
      ensures ValidExecution(after.executions[id]) && after.executions[id].terms.taskId == id
    {
      if id in ids {
        var i :| 0 <= i < |ids| && ids[i] == id;
        assert RecordOk(id, Stored(before, id), clock);
        ObserveOk(cfg, id, before.executions[id], s, times[i], clock);
      }
    }
  }
}
