/**
 The stable-window confirmation automaton (apps/home-assistant-climate-provider/src/execution.ts:407-482)
 against a reference that looks at the whole history of accepted observations at once.
 */
module ClimateConfirmation {
  import opened Wrappers
  import opened ClimateStore
  import opened ClimateEngine
  import opened ClimateDecisions

  /** An accepted observation: when the provider took it, and whether it shows the desired state. */
  datatype Obs = Obs(at: int, matches: bool)

  // ------------------------------------------------------------------------------------------ reference

  /** The uninterrupted run of matching observations at the end of the history. */
  function MatchingSuffix(h: seq<Obs>): seq<Obs> {
    if h == [] || !h[|h| - 1].matches then [] else MatchingSuffix(h[..|h| - 1]) + [h[|h| - 1]]
  }

  function Instants(s: seq<Obs>): set<int> {
    set o | o in s :: o.at
  }

  /** The matching run holds enough distinct instants and spans enough time. */
  predicate Meets(p: Policy, h: seq<Obs>) {
    var s := MatchingSuffix(h);
    s != [] && |Instants(s)| >= p.matches && s[|s| - 1].at - s[0].at >= p.stableMs
  }

  predicate Ordered(h: seq<Obs>) {
    forall i, j :: 0 <= i < j < |h| ==> h[i].at <= h[j].at
  }

  /** The run is a suffix of the history, all of it matches, and it cannot be extended to the left. */
  lemma {:induction false} MatchingSuffixIsLongest(h: seq<Obs>)
    ensures var s := MatchingSuffix(h);
            && |s| <= |h| && s == h[|h| - |s|..]
            && (forall o <- s :: o.matches)
            && (|s| < |h| ==> !h[|h| - |s| - 1].matches)
  {
    if h != [] && h[|h| - 1].matches {
      var front, last := h[..|h| - 1], h[|h| - 1];
      MatchingSuffixIsLongest(front);
      var s := MatchingSuffix(front);
      var k := |front| - |s|;
      assert MatchingSuffix(h) == s + [last];
      assert h[k..] == front[k..] + [last];
      if k > 0 {
        assert h[k - 1] == front[k - 1];
      }
    }
  }

  // ------------------------------------------------------------------------------------------ refinement

  predicate TracksRun(x: Execution, run: seq<Obs>) {
    && x.candidateAt == (if run == [] then None else Some(run[0].at))
    && x.matchCount == Some(|Instants(run)|)
    && x.lastMatchAt == (if run == [] then None else Some(run[|run| - 1].at))
  }

  /** The three stored fields are the first instant, the number of instants and the last instant of the run. */
  predicate Tracks(x: Execution, h: seq<Obs>) {
    TracksRun(x, MatchingSuffix(h))
  }

  lemma SuffixGrows(h: seq<Obs>, o: Obs)
    ensures MatchingSuffix(h + [o]) == if o.matches then MatchingSuffix(h) + [o] else []
  {
    assert (h + [o])[..|h|] == h;
  }

  lemma {:induction false} SuffixOrdered(h: seq<Obs>)
    requires Ordered(h)
    ensures Ordered(MatchingSuffix(h))
    ensures var s := MatchingSuffix(h); s != [] ==> s[|s| - 1] == h[|h| - 1]
  {
    MatchingSuffixIsLongest(h);
  }

  lemma NoInstantAfterLast(s: seq<Obs>)
    requires Ordered(s) && s != []
    ensures forall a <- Instants(s) :: a <= s[|s| - 1].at
  {
    forall a <- Instants(s) ensures a <= s[|s| - 1].at {
      var i :| 0 <= i < |s| && s[i].at == a;
    }
  }

  lemma InstantsOfOneMore(s: seq<Obs>, o: Obs)
    ensures Instants(s + [o]) == Instants(s) + {o.at}
  {
    forall a ensures a in Instants(s + [o]) <==> a in Instants(s) + {o.at} {
      if a == o.at {
        assert o in s + [o];
      } else if a in Instants(s) {
        var p :| p in s && p.at == a;
        assert p in s + [o];
      }
    }
  }

  /** A new instant raises the count by one; a repeated one does not. */
  lemma InstantsGrow(s: seq<Obs>, o: Obs)
    requires Ordered(s) && (s != [] ==> s[|s| - 1].at <= o.at)
    ensures |Instants(s + [o])| == |Instants(s)| + (if s != [] && o.at == s[|s| - 1].at then 0 else 1)
  {
    InstantsOfOneMore(s, o);
    if s == [] {
      assert Instants(s) == {};
    } else {
      NoInstantAfterLast(s);
      if o.at == s[|s| - 1].at {
        assert s[|s| - 1] in s;
        assert Instants(s) + {o.at} == Instants(s);
      }
    }
  }

  lemma PrefixOrdered(h: seq<Obs>, o: Obs)
    requires Ordered(h + [o])
    ensures Ordered(h) && (h != [] ==> h[|h| - 1].at <= o.at)
  {
    forall i, j | 0 <= i < j < |h| ensures h[i].at <= h[j].at {
      assert (h + [o])[i].at <= (h + [o])[j].at;
    }
    if h != [] {
      assert (h + [o])[|h| - 1].at <= (h + [o])[|h|].at;
    }
  }

  lemma CandidateTracks(x: Execution, s: Climate, now: int, run: seq<Obs>)
    requires TracksRun(x, run) && Ordered(run) && (run != [] ==> run[|run| - 1].at <= now)
    ensures TracksRun(Candidate(x, s, now), run + [Obs(now, true)])
  {
    InstantsGrow(run, Obs(now, true));
    if run == [] {
      assert Instants(run) == {};
    }
  }

  lemma ObserveKeepsTerms(cfg: Config, x: Execution, s: Climate, now: int)
    ensures Observe(cfg, x, s, now).terms == x.terms
  {}

  /** What an accepted observation does to the window and the state, without the other fields. */
  lemma AcceptedObservation(cfg: Config, x: Execution, s: Climate, now: int)
    requires Accepts(cfg, x, s, now) && x.terms.policy.Some?
    ensures var next := Observe(cfg, x, s, now);
            var p := x.terms.policy.value;
            var c := Candidate(x, s, now);
            && (next.state.Succeeded? || next.state.Confirming?)
            && (if Matches(x, s) then
                  && next.candidateAt == c.candidateAt && next.matchCount == c.matchCount
                  && next.lastMatchAt == c.lastMatchAt
                  && (next.state.Succeeded? <==>
                        c.matchCount.value >= p.matches && now - c.candidateAt.value >= p.stableMs)
                else TracksRun(next, []) && next.state.Confirming?)
  {
    assert Instants([]) == {};
  }

  lemma MatchRefines(x: Execution, s: Climate, now: int, h: seq<Obs>, p: Policy)
    requires Tracks(x, h) && Ordered(h + [Obs(now, true)])
    ensures var c := Candidate(x, s, now);
            && Tracks(c, h + [Obs(now, true)])
            && (c.matchCount.value >= p.matches && now - c.candidateAt.value >= p.stableMs
                <==> Meets(p, h + [Obs(now, true)]))
  {
    SuffixGrows(h, Obs(now, true));
    PrefixOrdered(h, Obs(now, true));
    SuffixOrdered(h);
    CandidateTracks(x, s, now, MatchingSuffix(h));
  }

  /**
   One accepted observation: the fields go on describing the matching run, and the task succeeds exactly when the
   run now meets the policy frozen into the record; nothing else changes its state.
   */
  lemma ObserveRefines(cfg: Config, x: Execution, s: Climate, now: int, h: seq<Obs>, p: Policy)
    requires Accepts(cfg, x, s, now) && x.terms.policy == Some(p)
    requires Tracks(x, h) && Ordered(h + [Obs(now, Matches(x, s))])
    ensures var h' := h + [Obs(now, Matches(x, s))];
            var next := Observe(cfg, x, s, now);
            && Tracks(next, h')
            && (next.state.Succeeded? <==> Meets(p, h'))
            && (!next.state.Succeeded? ==> next.state.Confirming?)
  {
    AcceptedObservation(cfg, x, s, now);
    if Matches(x, s) {
      MatchRefines(x, s, now, h, p);
    } else {
      SuffixGrows(h, Obs(now, false));
    }
  }

  /** Observations that are not accepted leave the record alone, except that a passed deadline fails it. */
  lemma UnacceptedChangesNothing(cfg: Config, x: Execution, s: Climate, now: int)
    requires !Accepts(cfg, x, s, now)
    ensures var next := Observe(cfg, x, s, now);
            next == x || (x.state.Confirming? && now >= x.terms.deadlineAt && next.state.TechnicalFailed?
                          && next.candidateAt == x.candidateAt && next.matchCount == x.matchCount
                          && next.lastMatchAt == x.lastMatchAt)
    ensures x.state == Confirming && IsServed(cfg, x) && s.resourceId == x.terms.resourceId ==>
              now >= x.terms.deadlineAt || IsOlder(x, s)
  {
    AcceptsExactly(cfg, x, s, now);
  }

  /** Nothing but an accepted observation touches the three fields, and nothing else makes a task succeed. */
  predicate KeepsWindow(x: Execution, next: Execution) {
    && next.terms == x.terms
    && next.candidateAt == x.candidateAt && next.matchCount == x.matchCount && next.lastMatchAt == x.lastMatchAt
    && (next.state.Succeeded? <==> x.state.Succeeded?)
  }

  /** Every history of accepted observations up to, but not including, the whole was short of the policy. */
  predicate NeverMetBefore(p: Policy, h: seq<Obs>) {
    forall n :: 0 <= n < |h| ==> !Meets(p, h[..n])
  }

  /** A history of observations taken in order, before the deadline, and not enough until its last one. */
  predicate HistoryOk(p: Policy, deadlineAt: int, h: seq<Obs>, clock: int) {
    && Ordered(h) && (h != [] ==> h[|h| - 1].at <= clock)
    && (forall o <- h :: o.at < deadlineAt)
    && NeverMetBefore(p, h)
  }

  /** What the run of the whole system keeps true of a task admitted in it and its accepted observations. */
  predicate Refines(x: Execution, h: seq<Obs>, clock: int) {
    && x.terms.policy.Some?
    && HistoryOk(x.terms.policy.value, x.terms.deadlineAt, h, clock)
    && Tracks(x, h)
    && (x.state.PendingSideEffect? ==> h == [])
    && (x.state.Succeeded? <==> Meets(x.terms.policy.value, h))
  }

  lemma NewTaskRefines(x: Execution, clock: int)
    requires x.terms.policy.Some?
    requires x.candidateAt.None? && x.matchCount == Some(0) && x.lastMatchAt.None? && !x.state.Succeeded?
    ensures Refines(x, [], clock)
  {
    assert Instants([]) == {};
  }

  lemma HistoryExtends(p: Policy, deadlineAt: int, h: seq<Obs>, clock: int, o: Obs)
    requires HistoryOk(p, deadlineAt, h, clock) && clock <= o.at < deadlineAt && !Meets(p, h)
    ensures HistoryOk(p, deadlineAt, h + [o], o.at)
  {
    forall n | 0 <= n < |h + [o]| ensures !Meets(p, (h + [o])[..n]) {
      assert (h + [o])[..n] == if n < |h| then h[..n] else h;
    }
  }

  lemma RefinesExtends(cfg: Config, x: Execution, s: Climate, now: int, h: seq<Obs>, clock: int)
    requires Refines(x, h, clock) && clock <= now && Accepts(cfg, x, s, now)
    ensures Refines(Observe(cfg, x, s, now), h + [Obs(now, Matches(x, s))], now)
  {
    HistoryExtends(x.terms.policy.value, x.terms.deadlineAt, h, clock, Obs(now, Matches(x, s)));
    ObserveRefines(cfg, x, s, now, h, x.terms.policy.value);
    ObserveKeepsTerms(cfg, x, s, now);
  }

  lemma RefinesLater(x: Execution, h: seq<Obs>, clock: int, later: int)
    requires Refines(x, h, clock) && clock <= later
    ensures Refines(x, h, later)
  {}

  /** A write that keeps the window keeps the refinement. */
  lemma KeepsWindowRefines(x: Execution, next: Execution, h: seq<Obs>, clock: int)
    requires Refines(x, h, clock) && KeepsWindow(x, next)
    requires next.state.PendingSideEffect? ==> x.state.PendingSideEffect?
    ensures Refines(next, h, clock)
  {}

  // ------------------------------------------------------------------------------------------ histories

  /** What a task was told, in order: the observed state and when it was taken. */
  datatype Reading = Reading(s: Climate, at: int)

  /** `xs[i + 1]` is what accepted reading `i` makes of `xs[i]`. */
  ghost predicate Chain(cfg: Config, xs: seq<Execution>, readings: seq<Reading>) {
    && |xs| == |readings| + 1
    && (forall i :: 0 <= i < |readings| ==> Accepts(cfg, xs[i], readings[i].s, readings[i].at))
    && (forall i :: 0 <= i < |readings| ==> xs[i + 1] == Observe(cfg, xs[i], readings[i].s, readings[i].at))
    && (forall i, j :: 0 <= i < j < |readings| ==> readings[i].at <= readings[j].at)
  }

  function HistoryOf(x: Execution, readings: seq<Reading>): seq<Obs> {
    seq(|readings|, i requires 0 <= i < |readings| => Obs(readings[i].at, Matches(x, readings[i].s)))
  }

  lemma {:induction false} ChainRefines(cfg: Config, xs: seq<Execution>, readings: seq<Reading>, n: nat)
      returns (clock: int)
    requires Chain(cfg, xs, readings) && n <= |readings|
    requires Refines(xs[0], [], if readings == [] then 0 else readings[0].at)
    ensures Refines(xs[n], HistoryOf(xs[0], readings[..n]), clock)
    ensures n < |readings| ==> clock <= readings[n].at
    ensures xs[n].terms == xs[0].terms
  {
    if n == 0 {
      clock := if readings == [] then 0 else readings[0].at;
      assert HistoryOf(xs[0], readings[..0]) == [];
    } else {
      var before := ChainRefines(cfg, xs, readings, n - 1);
      var r := readings[n - 1];
      clock := r.at;
      assert xs[n - 1 + 1] == Observe(cfg, xs[n - 1], r.s, r.at);
      RefinesExtends(cfg, xs[n - 1], r.s, r.at, HistoryOf(xs[0], readings[..n - 1]), before);
      ObserveKeepsTerms(cfg, xs[n - 1], r.s, r.at);
      assert HistoryOf(xs[0], readings[..n])
          == HistoryOf(xs[0], readings[..n - 1]) + [Obs(r.at, Matches(xs[n - 1], r.s))];
    }
  }

  /**
   Over any history of accepted observations of a freshly dispatched task: the stored window is the longest
   matching suffix of the history, and the task has succeeded exactly when that suffix meets the frozen policy,
   which it never did before the last observation.
   */
  lemma ConfirmationIsTheWindow(cfg: Config, xs: seq<Execution>, readings: seq<Reading>)
    requires Chain(cfg, xs, readings)
    requires xs[0].candidateAt.None? && xs[0].matchCount == Some(0) && xs[0].lastMatchAt.None?
    requires xs[0].terms.policy.Some? && xs[0].state.Confirming?
    ensures var h := HistoryOf(xs[0], readings);
            var end := xs[|readings|];
            && Tracks(end, h)
            && NeverMetBefore(xs[0].terms.policy.value, h)
            && (end.state.Succeeded? <==> Meets(xs[0].terms.policy.value, h))
  {
    NewTaskRefines(xs[0], if readings == [] then 0 else readings[0].at);
    var clock := ChainRefines(cfg, xs, readings, |readings|);
    assert readings[..|readings|] == readings;
  }
}
