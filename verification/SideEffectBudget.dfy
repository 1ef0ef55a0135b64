/**
 The budget of real-device side effects (scripts/real-device-side-effect-budget.ts): what one reservation decides, and
 what any number of processes sharing the document and its lock file can bring about.
 */
module SideEffectBudget {
  import opened Wrappers

  /** `reservedAt` is None for a text that is no date. */
  datatype Reservation = Reservation(
    reservationId: string, scope: string, resourceId: string, kind: string, reservedAt: Option<int>)

  datatype Run = Run(globalLimit: int, reservations: map<string, Reservation>)

  type Document = map<string, Run>

  /** Unreadable covers text that is not JSON or has not the shape of a document. */
  datatype File = Absent | Unreadable | Holds(document: Document)

  /** `now` is None when the clock gives no valid date. */
  datatype Request = Request(
    runId: string, reservationId: string, scope: string, resourceId: string, kind: string,
    limit: int, globalLimit: int, now: Option<int>)

  datatype Grant = Grant(count: nat, globalCount: nat, alreadyReserved: bool)

  datatype Denial =
    | RequestInvalid
    | Locked
    | FileInvalid
    | GlobalConflict
    | ReservationConflict
    | GlobalExceeded
    | Exceeded
    | ClockInvalid
    | IoFailed

  // ------------------------------------------------------------------------------------------ one reservation

  predicate ValidRequest(q: Request) {
    && q.runId != [] && q.reservationId != [] && q.scope != [] && q.resourceId != [] && q.kind != []
    && 1 <= q.limit <= q.globalLimit
  }

  predicate ValidReservation(id: string, r: Reservation) {
    && id != [] && r.reservationId == id
    && r.scope != [] && r.resourceId != [] && r.kind != [] && r.reservedAt.Some?
  }

  predicate ValidRun(run: Run) {
    && 0 < run.globalLimit && |run.reservations| <= run.globalLimit
    && forall id <- run.reservations :: ValidReservation(id, run.reservations[id])
  }

  predicate ValidDocument(d: Document) {
    forall r <- d :: r != [] && ValidRun(d[r])
  }

  predicate Readable(f: File) {
    f.Absent? || (f.Holds? && ValidDocument(f.document))
  }

  function Contents(f: File): Document {
    if f.Holds? then f.document else map[]
  }

  function RunOf(d: Document, q: Request): Run {
    if q.runId in d then d[q.runId] else Run(q.globalLimit, map[])
  }

  predicate SameKey(r: Reservation, q: Request) {
    r.scope == q.scope && r.resourceId == q.resourceId && r.kind == q.kind
  }

  function Matching(run: Run, q: Request): set<string> {
    set id | id in run.reservations && SameKey(run.reservations[id], q)
  }

  datatype Decision = Refused(denial: Denial) | Repeated(grant: Grant) | Fresh(next: Document, grant: Grant)

  function WithReservation(run: Run, q: Request): Run
    requires q.now.Some?
  {
    var reservation := Reservation(q.reservationId, q.scope, q.resourceId, q.kind, q.now);
    run.(reservations := run.reservations[q.reservationId := reservation])
  }

  function Recorded(d: Document, q: Request): Document
    requires q.now.Some?
  {
    d[q.runId := WithReservation(RunOf(d, q), q)]
  }

  /** Everything between taking the lock and writing the document. */
  function Decide(f: File, q: Request): Decision {
    if !Readable(f) then Refused(FileInvalid) else
    var run := RunOf(Contents(f), q);
    var count, globalCount := |Matching(run, q)|, |run.reservations|;
    if run.globalLimit != q.globalLimit then Refused(GlobalConflict)
    else if q.reservationId in run.reservations then
      if !SameKey(run.reservations[q.reservationId], q) then Refused(ReservationConflict)
      else Repeated(Grant(count, globalCount, true))
    else if globalCount >= run.globalLimit then Refused(GlobalExceeded)
    else if count >= q.limit then Refused(Exceeded)
    else if q.now.None? then Refused(ClockInvalid)
    else Fresh(Recorded(Contents(f), q), Grant(count + 1, globalCount + 1, false))
  }

  function InRun(d: Document, r: string): nat {
    if r in d then |d[r].reservations| else 0
  }

  function WithKey(d: Document, q: Request): nat {
    |Matching(RunOf(d, q), q)|
  }

  /** The same run, and the same scope, resource and kind. */
  predicate Alike(a: Request, b: Request) {
    a.runId == b.runId && a.scope == b.scope && a.resourceId == b.resourceId && a.kind == b.kind
  }

  /** A fresh grant stays within both limits, and its counts are those of the document it writes. */
  lemma FreshGrantFits(f: File, q: Request)
    requires ValidRequest(q) && Decide(f, q).Fresh?
    ensures var Fresh(next, grant) := Decide(f, q);
            && ValidDocument(next)
            && grant.globalCount == InRun(next, q.runId) <= q.globalLimit
            && grant.count == WithKey(next, q) <= q.limit
            && q.reservationId in next[q.runId].reservations && next[q.runId].globalLimit == q.globalLimit
  {
    var d, next := Contents(f), Decide(f, q).next;
    RecordedCounts(d, q, q);
    forall r <- next ensures r != [] && ValidRun(next[r]) {
      if r == q.runId {
        forall id <- next[r].reservations ensures ValidReservation(id, next[r].reservations[id]) {
          if id != q.reservationId {
            assert id in d[r].reservations;
          }
        }
      }
    }
  }

  lemma RecordedCounts(d: Document, q: Request, k: Request)
    requires q.now.Some? && q.reservationId !in RunOf(d, q).reservations
    ensures forall r :: InRun(Recorded(d, q), r) == InRun(d, r) + if r == q.runId then 1 else 0
    ensures WithKey(Recorded(d, q), k) == WithKey(d, k) + if Alike(q, k) then 1 else 0
  {
    var before := RunOf(d, q);
    assert WithReservation(before, q).reservations.Keys == before.reservations.Keys + {q.reservationId};
    if q.runId == k.runId {
      MatchingGrows(before, q, k);
      assert Matching(RunOf(d, k), k) == Matching(before, k);
    }
  }

  lemma MatchingGrows(run: Run, q: Request, k: Request)
    requires q.now.Some? && q.reservationId !in run.reservations
    ensures |Matching(WithReservation(run, q), k)|
         == |Matching(run, k)| + if q.scope == k.scope && q.resourceId == k.resourceId && q.kind == k.kind then 1 else 0
  {
    var after := WithReservation(run, q);
    var added: set<string> := if SameKey(after.reservations[q.reservationId], k) then {q.reservationId} else {};
    assert Matching(after, k) == Matching(run, k) + added;
  }

  /** Asking again, with whatever limit and clock, finds the reservation and changes nothing. */
  lemma RetryIsRepeat(f: File, q: Request, limit: int, now: Option<int>)
    requires ValidRequest(q) && Decide(f, q).Fresh?
    ensures var Fresh(next, grant) := Decide(f, q);
            Decide(Holds(next), q.(limit := limit, now := now)) == Repeated(grant.(alreadyReserved := true))
  {
    FreshGrantFits(f, q);
    var again := q.(limit := limit, now := now);
    assert SameKeyFor(q, again);
    SameMatching(Decide(f, q).next[q.runId], q, again);
  }

  predicate SameKeyFor(a: Request, b: Request) {
    a.scope == b.scope && a.resourceId == b.resourceId && a.kind == b.kind
  }

  lemma SameMatching(run: Run, a: Request, b: Request)
    requires SameKeyFor(a, b)
    ensures Matching(run, a) == Matching(run, b)
  {}

  // ------------------------------------------------------------------------------------------ by the fields

  /** A request names everything, and asks for at least one and no more than the run may have. */
  lemma ValidRequestExactly(q: Request)
    ensures ValidRequest(q) <==>
            && |q.runId| > 0 && |q.reservationId| > 0 && |q.scope| > 0 && |q.resourceId| > 0 && |q.kind| > 0
            && q.limit >= 1 && q.globalLimit >= q.limit
  {}

  /** What `validDocument` accepts: named runs within their limits, of complete reservations under their own ids. */
  lemma ValidDocumentExactly(d: Document)
    ensures ValidDocument(d) <==>
            forall r <- d ::
              && |r| > 0 && d[r].globalLimit >= 1 && |d[r].reservations| <= d[r].globalLimit
              && forall id <- d[r].reservations ::
                   var v := d[r].reservations[id];
                   |id| > 0 && v.reservationId == id && |v.scope| > 0 && |v.resourceId| > 0 && |v.kind| > 0
                   && v.reservedAt.Some?
  {
    if ValidDocument(d) {
      forall r <- d, id <- d[r].reservations ensures ValidReservation(id, d[r].reservations[id]) {
        assert ValidRun(d[r]);
      }
    }
  }

  /** A document is refused exactly if it cannot be read as one, a run exactly if it was begun with another limit. */
  lemma UnfitIsRefusedExactly(f: File, q: Request)
    ensures Decide(f, q) == Refused(FileInvalid) <==> f == Unreadable || (f.Holds? && !ValidDocument(f.document))
    ensures Readable(f) ==>
              (Decide(f, q) == Refused(GlobalConflict) <==>
                 f.Holds? && q.runId in f.document && f.document[q.runId].globalLimit != q.globalLimit)
  {}

  /**
   A known id is repeated exactly for the scope, resource and kind it was recorded with, and refused for any other. A
   repeat returns the counts of the document.
   */
  lemma KnownIdDecides(f: File, q: Request)
    requires f.Holds? && ValidDocument(f.document) && q.runId in f.document
    requires f.document[q.runId].globalLimit == q.globalLimit && q.reservationId in f.document[q.runId].reservations
    ensures var known := f.document[q.runId].reservations[q.reservationId];
            if known.scope == q.scope && known.resourceId == q.resourceId && known.kind == q.kind
            then Decide(f, q) == Repeated(Grant(WithKey(f.document, q), InRun(f.document, q.runId), true))
            else Decide(f, q) == Refused(ReservationConflict)
  {}

  /** A new id is refused for the limit of the run, then for its own, then for a clock without a date; else granted. */
  lemma NewIdDecides(f: File, q: Request)
    requires Readable(f) && RunOf(Contents(f), q).globalLimit == q.globalLimit
    requires q.runId !in Contents(f) || q.reservationId !in Contents(f)[q.runId].reservations
    ensures var d := Contents(f);
            Decide(f, q) ==
              if InRun(d, q.runId) >= q.globalLimit then Refused(GlobalExceeded)
              else if WithKey(d, q) >= q.limit then Refused(Exceeded)
              else if q.now == None then Refused(ClockInvalid)
              else Fresh(Recorded(d, q), Grant(WithKey(d, q) + 1, InRun(d, q.runId) + 1, false))
  {}

  /** The number of reservations of a run with the request's scope, resource and kind. */
  lemma WithKeyCounts(d: Document, q: Request)
    ensures WithKey(d, q) == if q.runId !in d then 0 else
              |set id | id in d[q.runId].reservations
                     && d[q.runId].reservations[id].scope == q.scope
                     && d[q.runId].reservations[id].resourceId == q.resourceId
                     && d[q.runId].reservations[id].kind == q.kind|
  {
    if q.runId in d {
      var m := d[q.runId].reservations;
      assert Matching(d[q.runId], q)
          == set id | id in m && m[id].scope == q.scope && m[id].resourceId == q.resourceId && m[id].kind == q.kind;
    } else {
      assert Matching(RunOf(d, q), q) == {};
    }
  }

  lemma RecordedExactly(d: Document, q: Request)
    requires q.now.Some?
    ensures var next := Recorded(d, q);
            && next.Keys == d.Keys + {q.runId}
            && (forall r <- d :: r != q.runId ==> next[r] == d[r])
            && next[q.runId]
               == Run(if q.runId in d then d[q.runId].globalLimit else q.globalLimit,
                      (if q.runId in d then d[q.runId].reservations else map[])[
                        q.reservationId := Reservation(q.reservationId, q.scope, q.resourceId, q.kind, q.now)])
  {}

  /** A grant records exactly the request, under its own id and run. */
  lemma GrantRecordsRequest(f: File, q: Request)
    requires Decide(f, q).Fresh?
    ensures var next, d := Decide(f, q).next, Contents(f);
            && q.now.Some? && next.Keys == d.Keys + {q.runId}
            && (forall r <- d :: r != q.runId ==> next[r] == d[r])
            && next[q.runId]
               == Run(if q.runId in d then d[q.runId].globalLimit else q.globalLimit,
                      (if q.runId in d then d[q.runId].reservations else map[])[
                        q.reservationId := Reservation(q.reservationId, q.scope, q.resourceId, q.kind, q.now)])
  {
    FreshIsRecorded(f, q);
    RecordedExactly(Contents(f), q);
  }

  // ------------------------------------------------------------------------------------------ a history of grants

  /** The document after granting these requests one after the other, if each is granted afresh. */
  function Replay(d: Document, log: seq<Request>): Option<Document> {
    if log == [] then Some(d)
    else
      var before := Replay(d, log[..|log| - 1]);
      if before.None? then None
      else
        var decision := Decide(Holds(before.value), log[|log| - 1]);
        if decision.Fresh? then Some(decision.next) else None
  }

  function OfRun(log: seq<Request>, r: string): nat {
    if log == [] then 0 else OfRun(log[..|log| - 1], r) + if log[|log| - 1].runId == r then 1 else 0
  }

  function OfKey(log: seq<Request>, k: Request): nat {
    if log == [] then 0 else OfKey(log[..|log| - 1], k) + if Alike(log[|log| - 1], k) then 1 else 0
  }

  predicate AllValid(log: seq<Request>) {
    forall i :: 0 <= i < |log| ==> ValidRequest(log[i])
  }

  predicate Grantable(d: Document, log: seq<Request>) {
    ValidDocument(d) && AllValid(log) && Replay(d, log).Some?
  }

  predicate RunExtends(later: Run, run: Run) {
    && later.globalLimit == run.globalLimit
    && forall id <- run.reservations :: id in later.reservations && later.reservations[id] == run.reservations[id]
  }

  /** Nothing recorded is lost or changed. */
  predicate Extends(later: Document, d: Document) {
    forall r <- d :: r in later && RunExtends(later[r], d[r])
  }

  predicate Known(d: Document, q: Request) {
    q.runId in d && d[q.runId].globalLimit == q.globalLimit && q.reservationId in d[q.runId].reservations
  }

  lemma FreshIsKnown(f: File, q: Request)
    requires Decide(f, q).Fresh?
    ensures Known(Decide(f, q).next, q) && !Known(Contents(f), q)
  {}

  lemma RecordedExtends(d: Document, q: Request)
    requires q.now.Some? && q.reservationId !in RunOf(d, q).reservations
    ensures Extends(Recorded(d, q), d)
  {
    forall r <- d ensures RunExtends(Recorded(d, q)[r], d[r]) {
      if r != q.runId {
        assert Recorded(d, q)[r] == d[r];
      }
    }
  }

  lemma FreshIsRecorded(f: File, q: Request)
    requires Decide(f, q).Fresh?
    ensures q.now.Some? && q.reservationId !in RunOf(Contents(f), q).reservations
    ensures Decide(f, q).next == Recorded(Contents(f), q)
  {}

  lemma FreshExtends(f: File, q: Request)
    requires Decide(f, q).Fresh?
    ensures Extends(Decide(f, q).next, Contents(f))
  {
    FreshIsRecorded(f, q);
    RecordedExtends(Contents(f), q);
  }

  lemma ExtendsTransitive(a: Document, b: Document, c: Document)
    requires Extends(b, a) && Extends(c, b)
    ensures Extends(c, a)
  {
    forall r <- a ensures r in c && RunExtends(c[r], a[r]) {
      assert r in b && RunExtends(b[r], a[r]) && RunExtends(c[r], b[r]);
    }
  }

  lemma {:induction false} ReplayExtends(d: Document, log: seq<Request>)
    requires Grantable(d, log)
    ensures ValidDocument(Replay(d, log).value) && Extends(Replay(d, log).value, d)
  {
    if log != [] {
      var front, q := log[..|log| - 1], log[|log| - 1];
      ReplayExtends(d, front);
      var before := Holds(Replay(d, front).value);
      FreshGrantFits(before, q);
      FreshExtends(before, q);
      ExtendsTransitive(d, before.document, Decide(before, q).next);
    }
  }

  lemma {:induction false} ReplayCountsRun(d: Document, log: seq<Request>, r: string)
    requires Grantable(d, log)
    ensures InRun(Replay(d, log).value, r) == InRun(d, r) + OfRun(log, r)
  {
    if log != [] {
      var front, q := log[..|log| - 1], log[|log| - 1];
      ReplayCountsRun(d, front, r);
      RecordedCounts(Replay(d, front).value, q, q);
    }
  }

  /** After a history of grants the document is valid, has lost nothing, and each run has grown by its grants. */
  lemma ReplayKeeps(d: Document, log: seq<Request>)
    requires Grantable(d, log)
    ensures var now := Replay(d, log).value;
            && ValidDocument(now) && Extends(now, d)
            && forall r :: InRun(now, r) == InRun(d, r) + OfRun(log, r)
  {
    ReplayExtends(d, log);
    forall r ensures InRun(Replay(d, log).value, r) == InRun(d, r) + OfRun(log, r) {
      ReplayCountsRun(d, log, r);
    }
  }

  lemma {:induction false} ReplayCountsKey(d: Document, log: seq<Request>, k: Request)
    requires Grantable(d, log)
    ensures WithKey(Replay(d, log).value, k) == WithKey(d, k) + OfKey(log, k)
  {
    if log != [] {
      var front, q := log[..|log| - 1], log[|log| - 1];
      ReplayCountsKey(d, front, k);
      RecordedCounts(Replay(d, front).value, q, k);
    }
  }

  lemma {:induction false} PrefixIsGrantable(d: Document, log: seq<Request>, i: nat)
    requires Grantable(d, log) && i <= |log|
    ensures Grantable(d, log[..i])
    ensures Extends(Replay(d, log).value, Replay(d, log[..i]).value)
  {
    if i < |log| {
      var front := log[..|log| - 1];
      PrefixIsGrantable(d, front, i);
      assert front[..i] == log[..i];
      FreshExtends(Holds(Replay(d, front).value), log[|log| - 1]);
      ExtendsTransitive(Replay(d, log[..i]).value, Replay(d, front).value, Replay(d, log).value);
    } else {
      assert log[..i] == log;
    }
  }

  /** What the document held when the i-th request was granted, and that it holds the reservation ever since. */
  lemma GrantAt(d: Document, log: seq<Request>, i: nat)
    requires Grantable(d, log) && i < |log|
    ensures Grantable(d, log[..i])
    ensures Decide(Holds(Replay(d, log[..i]).value), log[i]).Fresh?
    ensures !Known(Replay(d, log[..i]).value, log[i]) && Known(Replay(d, log).value, log[i])
  {
    PrefixIsGrantable(d, log, i);
    PrefixIsGrantable(d, log, i + 1);
    assert log[..i + 1][..i] == log[..i];
    FreshIsKnown(Holds(Replay(d, log[..i]).value), log[i]);
    assert RunExtends(Replay(d, log).value[log[i].runId], Replay(d, log[..i + 1]).value[log[i].runId]);
  }

  /** Each grant found fewer reservations of its scope, resource and kind than its own limit. */
  lemma GrantFoundFewer(d: Document, log: seq<Request>, i: nat)
    requires Grantable(d, log) && i < |log|
    ensures WithKey(d, log[i]) + OfKey(log[..i], log[i]) < log[i].limit
  {
    GrantAt(d, log, i);
    ReplayCountsKey(d, log[..i], log[i]);
  }

  lemma {:induction false} LastAlike(log: seq<Request>, k: Request) returns (i: nat)
    requires OfKey(log, k) > 0
    ensures i < |log| && Alike(log[i], k) && OfKey(log[..i], k) == OfKey(log, k) - 1
  {
    var last := |log| - 1;
    if Alike(log[last], k) {
      i := last;
    } else {
      i := LastAlike(log[..last], k);
      assert log[..last][..i] == log[..i];
    }
  }

  /** When every request for a key carries at most the limit L, no more than L are granted. */
  lemma KeyBound(d: Document, log: seq<Request>, k: Request, L: nat)
    requires Grantable(d, log)
    requires forall i :: 0 <= i < |log| && Alike(log[i], k) ==> log[i].limit <= L
    ensures OfKey(log, k) <= L
  {
    if OfKey(log, k) > 0 {
      var i := LastAlike(log, k);
      GrantFoundFewer(d, log, i);
      AlikeCounts(log[..i], log[i], k);
    }
  }

  lemma {:induction false} AlikeCounts(log: seq<Request>, a: Request, b: Request)
    requires Alike(a, b)
    ensures OfKey(log, a) == OfKey(log, b)
  {
    if log != [] {
      AlikeCounts(log[..|log| - 1], a, b);
    }
  }

  /** What a run grants, with what it held before, never exceeds the global limit each of its requests named. */
  lemma GlobalBound(d: Document, log: seq<Request>, i: nat)
    requires Grantable(d, log) && i < |log|
    ensures InRun(d, log[i].runId) + OfRun(log, log[i].runId) <= log[i].globalLimit
  {
    GrantAt(d, log, i);
    ReplayKeeps(d, log);
    assert ValidRun(Replay(d, log).value[log[i].runId]);
  }

  /** No reservation is granted twice. */
  lemma GrantsAreDistinct(d: Document, log: seq<Request>, i: nat, j: nat)
    requires Grantable(d, log) && i < j < |log|
    ensures log[i].runId != log[j].runId || log[i].reservationId != log[j].reservationId
  {
    GrantAt(d, log, j);
    var before := log[..j];
    assert before[i] == log[i];
    GrantAt(d, before, i);
    FreshIsNew(Holds(Replay(d, before).value), log[j], log[i]);
  }

  lemma FreshIsNew(f: File, q: Request, k: Request)
    requires Decide(f, q).Fresh? && Known(Contents(f), k)
    ensures k.runId != q.runId || k.reservationId != q.reservationId
  {}
}
