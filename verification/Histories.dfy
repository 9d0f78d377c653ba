/**
 What a row says about the calls that led to it: who holds it, how often it was handed out, and
 which job it carries.
 */
module Histories {
  import opened Common
  import opened Jobs
  import opened Table
  import opened Runs
  import opened RowLife

  /** Between calls `m` and `n`, both excluded, nobody claimed the job and no reap found its lease expired. */
  predicate Undisturbed(es: seq<Event>, ts: seq<Table>, m: int, n: int, id: string)
    requires |ts| == |es| + 1 && 0 <= m <= n <= |es|
  {
    forall i :: m < i < n ==> !Takes(es[i], id) && !Loses(es[i], ts[i], id)
  }

  predicate ResultOf(e: Event, id: string) { e.ResultReported? && e.ok && e.id == id }

  predicate StartOf(e: Event, id: string) { e.StartReported? && e.ok && e.id == id }

  /** Call `m` handed the job to the runner, and before call `n` nothing took it back or finished it. */
  predicate HeldSince(es: seq<Event>, ts: seq<Table>, m: int, n: int, id: string, runner: string)
    requires |ts| == |es| + 1 && n <= |es|
  {
    && 0 <= m < n && Takes(es[m], id) && es[m].runner == runner
    && Undisturbed(es, ts, m, n, id)
    && forall i :: m < i < n ==> !ResultOf(es[i], id)
  }

  lemma {:induction false} HolderClaimedIt(
    c: Config, es: seq<Event>, ts: seq<Table>, n: nat, id: string, runner: string)
    returns (m: nat)
    requires IsRun(c, es, ts) && n <= |es|
    requires id in ts[n] && HeldBy(ts[n][id], runner)
    ensures HeldSince(es, ts, m, n, id, runner)
    decreases n
  {
    RowStep(c, es, ts, n - 1, id);
    var e := es[n - 1];
    assert id in ts[n - 1];
    if Takes(e, id) {
      m := n - 1;
    } else {
      assert HeldBy(ts[n - 1][id], runner) && !Loses(e, ts[n - 1], id);
      m := HolderClaimedIt(c, es, ts, n - 1, id, runner);
    }
  }

  /** While a claim stands the claimer holds the row: claimed until the first accepted start, then running. */
  lemma {:induction false} ClaimerHoldsIt(
    c: Config, es: seq<Event>, ts: seq<Table>, m: nat, n: nat, id: string, runner: string)
    requires IsRun(c, es, ts) && n <= |es| && HeldSince(es, ts, m, n, id, runner)
    ensures id in ts[n] && HeldBy(ts[n][id], runner)
    ensures ts[n][id].state.Claimed? <==> forall i :: m < i < n ==> !StartOf(es[i], id)
    decreases n
  {
    RowStep(c, es, ts, n - 1, id);
    if n > m + 1 {
      ClaimerHoldsIt(c, es, ts, m, n - 1, id, runner);
      assert StepAt(c, es, ts, n - 1);
    }
  }

  /**
   The fence. A result is accepted from a runner exactly when the latest claim of the job was that
   runner's, with no requeue, abandonment or earlier result since.
   */
  lemma ResultsAreFenced(c: Config, es: seq<Event>, ts: seq<Table>, n: nat)
    requires IsRun(c, es, ts) && n < |es| && es[n].ResultReported?
    ensures es[n].ok <==> exists m :: HeldSince(es, ts, m, n, es[n].id, es[n].runner)
  {
    var id, runner := es[n].id, es[n].runner;
    assert StepAt(c, es, ts, n);
    if es[n].ok {
      var m := HolderClaimedIt(c, es, ts, n, id, runner);
    }
    if m :| HeldSince(es, ts, m, n, id, runner) {
      ClaimerHoldsIt(c, es, ts, m, n, id, runner);
    }
  }

  /**
   The same fence for "started": taken exactly from the present holder, and exactly once for each time
   the job is handed out.
   */
  lemma StartsAreFenced(c: Config, es: seq<Event>, ts: seq<Table>, n: nat)
    requires IsRun(c, es, ts) && n < |es| && es[n].StartReported?
    ensures es[n].ok <==> exists m :: HeldSince(es, ts, m, n, es[n].id, es[n].runner)
                                      && forall i :: m < i < n ==> !StartOf(es[i], es[n].id)
  {
    var id, runner := es[n].id, es[n].runner;
    assert StepAt(c, es, ts, n);
    if es[n].ok {
      var m := HolderClaimedIt(c, es, ts, n, id, runner);
      ClaimerHoldsIt(c, es, ts, m, n, id, runner);
    }
    if m :| HeldSince(es, ts, m, n, id, runner) && forall i :: m < i < n ==> !StartOf(es[i], id) {
      ClaimerHoldsIt(c, es, ts, m, n, id, runner);
    }
  }

  /**
   A heartbeat gives a full lease to exactly the jobs whose latest claim is this runner's and stands,
   counts them, and touches nothing else.
   */
  lemma HeartbeatsRenewWhatIsHeld(c: Config, es: seq<Event>, ts: seq<Table>, n: nat) returns (held: set<string>)
    requires IsRun(c, es, ts) && n < |es| && es[n].Heartbeat?
    ensures forall id :: id in held <==> exists m :: HeldSince(es, ts, m, n, id, es[n].runner)
    ensures es[n].renewed == |held| && held <= ts[n].Keys && ts[n + 1].Keys == ts[n].Keys
    ensures forall id :: id in ts[n] ==>
              ts[n + 1][id] == if id in held then ts[n][id].(lease := Some(es[n].now + c.leaseSeconds)) else ts[n][id]
  {
    var runner := es[n].runner;
    assert StepAt(c, es, ts, n);
    held := RowsHeldBy(ts[n], runner);
    forall id | id in held ensures exists m :: HeldSince(es, ts, m, n, id, runner) {
      var m := HolderClaimedIt(c, es, ts, n, id, runner);
    }
    forall id | exists m :: HeldSince(es, ts, m, n, id, runner) ensures id in held {
      var m :| HeldSince(es, ts, m, n, id, runner);
      ClaimerHoldsIt(c, es, ts, m, n, id, runner);
    }
  }

  // ---------------------------------------------------------------- failure marks

  /** An insert with this job's identifier has been accepted before. */
  predicate SeenBefore(es: seq<Event>, n: nat, id: string)
    requires n <= |es|
  {
    exists m :: 0 <= m < n && Accepts(es[m], id)
  }

  lemma SeenIsStored(c: Config, es: seq<Event>, ts: seq<Table>, n: nat, id: string)
    requires IsRun(c, es, ts) && n <= |es|
    ensures SeenBefore(es, n, id) <==> id in ts[n]
  {
    if m :| 0 <= m < n && Accepts(es[m], id) {
      RowStep(c, es, ts, m, id);
      RowsAreNeverDeleted(c, es, ts, m + 1, n);
    }
    if id in ts[n] {
      var m := RowsCarryTheirJob(c, es, ts, n, id);
    }
  }

  predicate MarkOf(e: Event, id: string) { e.DispatchFailed? && e.ok && e.id == id }

  predicate MarkedBefore(es: seq<Event>, n: nat, id: string)
    requires n <= |es|
  {
    exists i :: 0 <= i < n && MarkOf(es[i], id)
  }

  /** Call `m` handed the job out and by call `n` it had not been put back. */
  predicate OutSince(c: Config, es: seq<Event>, ts: seq<Table>, m: int, n: nat, id: string)
    requires |ts| == |es| + 1 && n <= |es|
  {
    0 <= m < n && Takes(es[m], id) && forall i :: m < i < n ==> !Requeues(c, es[i], ts[i], id)
  }

  ghost predicate IsOut(c: Config, es: seq<Event>, ts: seq<Table>, n: nat, id: string)
    requires |ts| == |es| + 1 && n <= |es|
  {
    exists m :: OutSince(c, es, ts, m, n, id)
  }

  lemma OutOneStepOn(c: Config, es: seq<Event>, ts: seq<Table>, n: nat, id: string)
    requires |ts| == |es| + 1 && n < |es|
    ensures IsOut(c, es, ts, n + 1, id) <==>
              Takes(es[n], id) || (IsOut(c, es, ts, n, id) && !Requeues(c, es[n], ts[n], id))
  {
    var next := n + 1;
    if m :| OutSince(c, es, ts, m, next, id) {
      if m < n { assert OutSince(c, es, ts, m, n, id); }
    }
    if Takes(es[n], id) {
      assert OutSince(c, es, ts, n, n + 1, id);
    } else if !Requeues(c, es[n], ts[n], id) {
      if m :| OutSince(c, es, ts, m, n, id) { assert OutSince(c, es, ts, m, n + 1, id); }
    }
  }

  lemma MarkedOneStepOn(es: seq<Event>, n: nat, id: string)
    requires n < |es|
    ensures MarkedBefore(es, n + 1, id) <==> MarkedBefore(es, n, id) || MarkOf(es[n], id)
  {
  }

  lemma ChangeToOwner(c: Config, e: Event, t: Table, id: string, r': Row)
    requires id in t && RowChange(c, e, id, t[id], r') && Shaped(t[id], c.maxAttempts)
    ensures r'.runner.Some? <==> Takes(e, id) || (t[id].runner.Some? && !Requeues(c, e, t, id))
    ensures r'.state.NotDispatched? <==> t[id].state.NotDispatched? || MarkOf(e, id)
  {
  }

  /** A row has an owner exactly while its job is out, and says not dispatched exactly once it was marked so. */
  lemma {:induction false} RowsSayWhoHasThem(c: Config, es: seq<Event>, ts: seq<Table>, n: nat, id: string)
    requires IsRun(c, es, ts) && n <= |es|
    ensures (id in ts[n] && ts[n][id].runner.Some?) <==> IsOut(c, es, ts, n, id)
    ensures (id in ts[n] && ts[n][id].state.NotDispatched?) <==> MarkedBefore(es, n, id)
    decreases n
  {
    if n > 0 {
      RowsSayWhoHasThem(c, es, ts, n - 1, id);
      RowStep(c, es, ts, n - 1, id);
      assert StepAt(c, es, ts, n - 1);
      OutOneStepOn(c, es, ts, n - 1, id);
      MarkedOneStepOn(es, n - 1, id);
      if id in ts[n - 1] {
        EveryRowIsShaped(c, es, ts, n - 1, id);
        ChangeToOwner(c, es[n - 1], ts[n - 1], id, ts[n][id]);
      }
    }
  }

  /**
   A failure mark is taken exactly when the job was accepted before, has not been marked before, and is
   not with a runner: every time it was handed out it has since been put back.
   */
  lemma MarksApplyExactly(c: Config, es: seq<Event>, ts: seq<Table>, n: nat)
    requires IsRun(c, es, ts) && n < |es| && es[n].DispatchFailed?
    ensures var id := es[n].id;
            es[n].ok <==> SeenBefore(es, n, id) && !MarkedBefore(es, n, id) && !IsOut(c, es, ts, n, id)
    ensures !es[n].ok ==> ts[n + 1] == ts[n]
  {
    var id := es[n].id;
    assert StepAt(c, es, ts, n);
    SeenIsStored(c, es, ts, n, id);
    RowsSayWhoHasThem(c, es, ts, n, id);
    if id in ts[n] {
      EveryRowIsShaped(c, es, ts, n, id);
    }
  }

  // ---------------------------------------------------------------- one claim at a time

  lemma {:induction false} TakenRowsStayOffTheQueue(
    c: Config, es: seq<Event>, ts: seq<Table>, m: nat, n: nat, id: string)
    requires IsRun(c, es, ts) && m < n <= |es| && Takes(es[m], id) && Undisturbed(es, ts, m, n, id)
    ensures id in ts[n] && !ts[n][id].state.Queued?
    decreases n
  {
    RowStep(c, es, ts, n - 1, id);
    if n > m + 1 {
      TakenRowsStayOffTheQueue(c, es, ts, m, n - 1, id);
    }
  }

  /** Between any two claims of a job lies a reap that found its lease expired and put it back. */
  lemma ClaimsAreSeparatedByExpiry(c: Config, es: seq<Event>, ts: seq<Table>, m: nat, n: nat, id: string)
    requires IsRun(c, es, ts) && m < n < |es| && Takes(es[m], id) && Takes(es[n], id)
    ensures exists i :: m < i <= n && Requeues(c, es[i], ts[i], id)
    decreases n - m
  {
    if k :| m < k < n && Takes(es[k], id) {
      ClaimsAreSeparatedByExpiry(c, es, ts, m, k, id);
    } else if forall i :: m < i < n ==> !Loses(es[i], ts[i], id) {
      TakenRowsStayOffTheQueue(c, es, ts, m, n, id);
      RowStep(c, es, ts, n, id);
      assert Requeues(c, es[n], ts[n], id);
    } else {
      var i := FirstLoss(es, ts, m, n, id);
      if !Requeues(c, es[i], ts[i], id) {
        RowStep(c, es, ts, i, id);
        FinishedRowsAreFrozen(c, es, ts, i + 1, n, id);
        RowStep(c, es, ts, n, id);
      }
    }
  }

  lemma FirstLoss(es: seq<Event>, ts: seq<Table>, m: nat, n: nat, id: string) returns (i: nat)
    requires |ts| == |es| + 1 && m < n <= |es|
    requires exists i :: m < i < n && Loses(es[i], ts[i], id)
    ensures m < i < n && Loses(es[i], ts[i], id)
  {
    i :| m < i < n && Loses(es[i], ts[i], id);
  }

  // ---------------------------------------------------------------- bounded attempts

  function ClaimsOf(es: seq<Event>, n: nat, id: string): nat
    requires n <= |es|
  {
    if n == 0 then 0 else ClaimsOf(es, n - 1, id) + if Takes(es[n - 1], id) then 1 else 0
  }

  function RequeuesOf(c: Config, es: seq<Event>, ts: seq<Table>, n: nat, id: string): nat
    requires n <= |es| && |ts| == |es| + 1
  {
    if n == 0 then 0 else RequeuesOf(c, es, ts, n - 1, id) + if Requeues(c, es[n - 1], ts[n - 1], id) then 1 else 0
  }

  /** How many of a row's attempts have already been sent back to the queue. */
  function Returned(r: Row): int {
    if r.state.Queued? || r.state.NotDispatched? || r.attempts == 0 then r.attempts else r.attempts - 1
  }

  lemma ChangeCountsAttempts(c: Config, e: Event, t: Table, id: string, r': Row)
    requires id in t && RowChange(c, e, id, t[id], r') && Shaped(t[id], c.maxAttempts)
    ensures r'.attempts == t[id].attempts + if Takes(e, id) then 1 else 0
    ensures Returned(r') == Returned(t[id]) + if Requeues(c, e, t, id) then 1 else 0
  {
  }

  /** The attempts column is the number of times the job was handed out, and the requeues are accounted for too. */
  lemma {:induction false} AttemptsCountClaims(c: Config, es: seq<Event>, ts: seq<Table>, n: nat, id: string)
    requires IsRun(c, es, ts) && n <= |es|
    ensures ClaimsOf(es, n, id) == if id in ts[n] then ts[n][id].attempts else 0
    ensures RequeuesOf(c, es, ts, n, id) == if id in ts[n] then Returned(ts[n][id]) else 0
    decreases n
  {
    if n > 0 {
      AttemptsCountClaims(c, es, ts, n - 1, id);
      RowStep(c, es, ts, n - 1, id);
      if id in ts[n - 1] {
        EveryRowIsShaped(c, es, ts, n - 1, id);
        ChangeCountsAttempts(c, es[n - 1], ts[n - 1], id, ts[n][id]);
      }
    }
  }

  /** A job that kills every host it lands on is handed out at most M times and put back at most M - 1 times. */
  lemma AttemptsAreBounded(c: Config, es: seq<Event>, ts: seq<Table>, n: nat, id: string)
    requires IsRun(c, es, ts) && n <= |es|
    ensures ClaimsOf(es, n, id) <= Limit(c.maxAttempts)
    ensures RequeuesOf(c, es, ts, n, id) <= Limit(c.maxAttempts) - 1
  {
    AttemptsCountClaims(c, es, ts, n, id);
    if id in ts[n] {
      EveryRowIsShaped(c, es, ts, n, id);
    }
  }

  // ---------------------------------------------------------------- payloads

  lemma {:induction false} RowsCarryTheirJob(c: Config, es: seq<Event>, ts: seq<Table>, n: nat, id: string)
    returns (m: nat)
    requires IsRun(c, es, ts) && n <= |es| && id in ts[n]
    ensures m < n && Accepts(es[m], id) && ts[n][id].job == es[m].job
    decreases n
  {
    RowStep(c, es, ts, n - 1, id);
    if id in ts[n - 1] {
      m := RowsCarryTheirJob(c, es, ts, n - 1, id);
    } else {
      m := n - 1;
    }
  }

  /** Of all the inserts for one identifier, at most one is ever accepted. */
  lemma AcceptedOnce(c: Config, es: seq<Event>, ts: seq<Table>, m: nat, n: nat, id: string)
    requires IsRun(c, es, ts) && m < n < |es| && Accepts(es[m], id)
    ensures !Accepts(es[n], id)
    ensures es[n].Inserted? && es[n].job.id == id && ValidateJob(es[n].job).Ok? ==> es[n].answer == Ok(Duplicate)
  {
    RowStep(c, es, ts, m, id);
    RowsAreNeverDeleted(c, es, ts, m + 1, n);
    assert id in ts[n];
    assert StepAt(c, es, ts, n);
  }

  /** What a runner is handed, on any go, is the dispatch of the one job accepted under that id. */
  lemma PayloadIsTheAcceptedJob(c: Config, es: seq<Event>, ts: seq<Table>, n: nat) returns (m: nat)
    requires IsRun(c, es, ts) && n < |es| && es[n].ClaimAsked? && es[n].handed.Some?
    ensures m < n && Accepts(es[m], es[n].handed.value.id) && !es[m].dispatched
    ensures es[n].handed.value == es[m].job.(jobDef := None)
    ensures var d, job := AsDispatch(es[n].handed.value), es[m].job;
            && d.jobId == job.id && d.product == job.product && d.server == job.server
            && d.channel == job.channel && d.user == job.user
            && d.select == (if job.select.None? then "" else job.select.value)
            && d.marker == (if job.marker.None? then "" else job.marker.value)
    ensures forall k :: 0 <= k < |es| && Accepts(es[k], es[n].handed.value.id) ==> k == m
  {
    var id := es[n].handed.value.id;
    RowStep(c, es, ts, n, id);
    assert Takes(es[n], id);
    m := RowsCarryTheirJob(c, es, ts, n, id);
    if es[m].dispatched {
      DispatchedRowsAreNeverHanded(c, es, ts, m, n);
    }
    forall k | 0 <= k < |es| && Accepts(es[k], id) ensures k == m {
      if k < m { AcceptedOnce(c, es, ts, k, m, id); }
      if m < k { AcceptedOnce(c, es, ts, m, k, id); }
    }
  }

  // ---------------------------------------------------------------- claims as the caller sees them

  /** Nothing about the row's labels or its channel stops this runner from taking it. */
  predicate Takeable(c: Config, t: Table, labels: seq<string>, id: string) {
    && id in t && t[id].state.Queued?
    && ((forall x :: x in labels ==> x == "") || (t[id].job.server != "" && t[id].job.server in labels))
    && (c.caps.runningPerChannel <= 0 || |BusyIn(t, t[id].job.channel)| < c.caps.runningPerChannel)
  }

  /**
   A claim comes back empty only when, expired leases having been reaped, nothing could be taken;
   otherwise it takes one of the oldest rows that could, as a new attempt, and no other row is touched.
   */
  lemma ClaimsAreWorkConserving(c: Config, es: seq<Event>, ts: seq<Table>, n: nat)
    requires IsRun(c, es, ts) && n < |es| && es[n].ClaimAsked?
    ensures var reaped := AfterReap(ts[n], es[n].now, c.maxAttempts);
            && (es[n].handed.None? <==> forall id :: !Takeable(c, reaped, es[n].labels, id))
            && (es[n].handed.None? ==> ts[n + 1] == reaped)
            && (es[n].handed.Some? ==>
                  var id := es[n].handed.value.id;
                  && Takeable(c, reaped, es[n].labels, id)
                  && (forall other :: Takeable(c, reaped, es[n].labels, other) ==>
                        reaped[id].createdAt <= reaped[other].createdAt)
                  && ts[n + 1].Keys == reaped.Keys
                  && (forall other :: other in reaped && other != id ==> ts[n + 1][other] == reaped[other])
                  && HeldBy(ts[n + 1][id], es[n].runner) && ts[n + 1][id].attempts == reaped[id].attempts + 1)
  {
    assert StepAt(c, es, ts, n);
    var reaped := AfterReap(ts[n], es[n].now, c.maxAttempts);
    var q := Request(c, es[n].runner, es[n].labels, es[n].now);
    TakeableIsEligible(c, reaped, q);
    if es[n].handed.Some? {
      assert Eligible(reaped, q, es[n].handed.value.id);
    }
  }

  lemma TakeableIsEligible(c: Config, t: Table, q: ClaimRequest)
    requires q.caps == c.caps
    ensures forall id :: Takeable(c, t, q.labels, id) <==> Eligible(t, q, id)
  {
    if x :| x in q.labels && x != "" {
      assert x in Wanted(q.labels);
    }
  }
}
