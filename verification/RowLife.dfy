/**
 The life of one row over any run: which columns are set in which state, that finished rows are
 frozen, that dispatched rows are left alone, and that every row runs out of steps.
 */
module RowLife {
  import opened Common
  import opened Jobs
  import opened Table
  import opened Runs

  /** A job is always given one go, whatever the configured number of attempts. */
  function Limit(maxAttempts: int): nat { if maxAttempts < 1 then 1 else maxAttempts }

  predicate NoResult(r: Row) {
    r.exitCode.None? && r.passed.None? && r.failed.None? && r.skipped.None? && r.duration.None?
  }

  predicate Unfinished(r: Row) { NoResult(r) && r.finishedAt.None? && r.summary.None? }

  predicate FullResult(r: Row) {
    r.exitCode.Some? && r.passed.Some? && r.failed.Some? && r.skipped.Some? && r.duration.Some?
  }

  predicate Reported(r: Row) { FullResult(r) && r.finishedAt.Some? && r.summary.Some? }

  predicate Shaped(r: Row, maxAttempts: int) {
    && (r.lease.Some? <==> Busy(r.state) && r.runner.Some?)
    && r.attempts <= Limit(maxAttempts)
    && match r.state
       case Queued => r.runner.None? && r.attempts < Limit(maxAttempts) && Unfinished(r)
       case Claimed => r.runner.Some? && r.attempts >= 1 && Unfinished(r)
       case Running => (r.runner.Some? <==> r.attempts >= 1) && r.startedAt.Some? && Unfinished(r)
       case Done => r.runner.Some? && r.attempts >= 1 && Reported(r) && r.exitCode == Some(0)
       case Failed => r.runner.Some? && r.attempts >= 1 && Reported(r) && r.exitCode != Some(0)
       case Abandoned => r.runner.Some? && r.attempts >= 1 && NoResult(r) && r.finishedAt.None? && r.summary.Some?
       case NotDispatched =>
         r.runner.None? && r.attempts < Limit(maxAttempts) && NoResult(r) && r.finishedAt.Some? && r.summary.Some?
  }

  lemma ChangeKeepsShape(c: Config, e: Event, id: string, r: Row, r': Row)
    requires RowChange(c, e, id, r, r') && Shaped(r, c.maxAttempts)
    ensures Shaped(r', c.maxAttempts)
  {
  }

  lemma {:induction false} EveryRowIsShaped(c: Config, es: seq<Event>, ts: seq<Table>, n: nat, id: string)
    requires IsRun(c, es, ts) && n <= |es| && id in ts[n]
    ensures Shaped(ts[n][id], c.maxAttempts)
    decreases n
  {
    if n > 0 {
      RowStep(c, es, ts, n - 1, id);
      if id in ts[n - 1] {
        EveryRowIsShaped(c, es, ts, n - 1, id);
        ChangeKeepsShape(c, es[n - 1], id, ts[n - 1][id], ts[n][id]);
      }
    }
  }

  // ---------------------------------------------------------------- finished rows

  /** Once a run is over no later call changes any column of its row. */
  lemma {:induction false} FinishedRowsAreFrozen(c: Config, es: seq<Event>, ts: seq<Table>, m: nat, n: nat, id: string)
    requires IsRun(c, es, ts) && m <= n <= |es|
    requires id in ts[m] && Terminal(ts[m][id].state)
    ensures id in ts[n] && ts[n][id] == ts[m][id]
    decreases n
  {
    if m < n {
      FinishedRowsAreFrozen(c, es, ts, m, n - 1, id);
      RowStep(c, es, ts, n - 1, id);
    }
  }

  /** Of all the results reported for a job, at most one is recorded; a retry is refused and changes nothing. */
  lemma OnlyOneResultIsRecorded(c: Config, es: seq<Event>, ts: seq<Table>, m: nat, n: nat)
    requires IsRun(c, es, ts) && m < n < |es|
    requires es[m].ResultReported? && es[m].ok && es[n].ResultReported? && es[n].id == es[m].id
    ensures !es[n].ok && ts[n + 1] == ts[n]
    ensures var id := es[m].id;
            id in ts[m] && id in ts[n] && ts[n][id] == Finish(ts[m][id], es[m].outcome, es[m].now)
  {
    var id := es[m].id;
    RowStep(c, es, ts, m, id);
    assert StepAt(c, es, ts, m);
    assert ts[m + 1][id] == Finish(ts[m][id], es[m].outcome, es[m].now) && Terminal(ts[m + 1][id].state);
    FinishedRowsAreFrozen(c, es, ts, m + 1, n, id);
    assert StepAt(c, es, ts, n);
  }

  // ---------------------------------------------------------------- the answer to `results`

  datatype Description =
    | NeverStarted(reason: string)
    | Finished(state: State, passed: int, failed: int, skipped: int, duration: real, runner: Option<string>)
    | Waiting(state: State, runner: Option<string>, age: real)
    | CannotFormat

  /** An absent or empty reason is replaced by a general one. */
  function ReasonOr(summary: Option<string>): string {
    if summary.GetOr("") == "" then "the dispatch did not go through" else summary.value
  }

  /** The edge's answer about one row; formatting a duration that is not there raises. */
  function Describe(r: Row, now: real): Description {
    if r.state.NotDispatched? then NeverStarted(ReasonOr(r.summary))
    else if r.finishedAt.Some? && r.finishedAt.value != 0.0 then
      if FullResult(r)
      then Finished(r.state, r.passed.value, r.failed.value, r.skipped.value, r.duration.value, r.runner)
      else CannotFormat
    else Waiting(r.state, r.runner, now - r.createdAt)
  }

  /** No row of any run breaks the answer, and only a run that really ran is described with counts. */
  lemma ResultsAreAlwaysDescribable(c: Config, es: seq<Event>, ts: seq<Table>, n: nat, id: string, now: real)
    requires IsRun(c, es, ts) && n <= |es| && id in ts[n]
    ensures var d := Describe(ts[n][id], now);
            && !d.CannotFormat?
            && (d.NeverStarted? <==> ts[n][id].state.NotDispatched?)
            && (d.NeverStarted? ==> d.reason != "")
            && (d.Finished? ==> (d.state.Done? || d.state.Failed?) && d.runner.Some?)
            && ((ts[n][id].state.Done? || ts[n][id].state.Failed?) && ts[n][id].finishedAt != Some(0.0) ==> d.Finished?)
  {
    EveryRowIsShaped(c, es, ts, n, id);
  }

  /** From the moment a result is accepted, `results` answers with the counts its holder reported, and names it. */
  lemma ResultsAnswerWhatWasReported(c: Config, es: seq<Event>, ts: seq<Table>, m: nat, n: nat, now: real)
    requires IsRun(c, es, ts) && m < n <= |es|
    requires es[m].ResultReported? && es[m].ok && es[m].now != 0.0
    ensures es[m].id in ts[n]
    ensures var o := es[m].outcome;
            Describe(ts[n][es[m].id], now)
            == Finished(if o.exitCode == 0 then Done else Failed, o.passed, o.failed, o.skipped, o.duration,
                        Some(es[m].runner))
  {
    var id := es[m].id;
    assert StepAt(c, es, ts, m);
    assert Terminal(ts[m + 1][id].state);
    FinishedRowsAreFrozen(c, es, ts, m + 1, n, id);
  }

  // ---------------------------------------------------------------- dispatched rows

  /** Running with nobody holding it: recorded by the process that dispatched it. */
  predicate Dispatched(r: Row) { r.state.Running? && r.runner.None? }

  /**
   A dispatched row is never claimed, renewed, reaped or finished: it stays exactly as inserted
   until a failure mark for that very id, and then exactly as that mark left it.
   */
  lemma {:induction false} DispatchedRowsAreLeftAlone(c: Config, es: seq<Event>, ts: seq<Table>, m: nat, n: nat)
    requires IsRun(c, es, ts) && m < n <= |es|
    requires es[m].Inserted? && es[m].dispatched && es[m].answer == Ok(Accepted)
    ensures var id := es[m].job.id;
            var born := NewRow(es[m].job, true, es[m].mode, es[m].now);
            && id in ts[n]
            && ((ts[n][id] == born && forall i :: m < i < n ==> !(es[i].DispatchFailed? && es[i].id == id))
                || exists i :: m < i < n && es[i].DispatchFailed? && es[i].id == id && es[i].ok
                             && ts[n][id] == Mark(born, es[i].reason, es[i].now))
    decreases n
  {
    var id := es[m].job.id;
    RowStep(c, es, ts, n - 1, id);
    if n == m + 1 {
      assert Accepts(es[m], id);
    } else {
      DispatchedRowsAreLeftAlone(c, es, ts, m, n - 1);
      var e := es[n - 1];
      if e.DispatchFailed? && e.id == id && Dispatched(ts[n - 1][id]) {
        assert ts[n][id] == Mark(ts[n - 1][id], e.reason, e.now);
      }
    }
  }

  /** The first failure mark that reaches the store for a dispatch always applies. */
  lemma FailureMarkApplies(c: Config, es: seq<Event>, ts: seq<Table>, m: nat, n: nat)
    requires IsRun(c, es, ts) && m < n < |es|
    requires es[m].Inserted? && es[m].dispatched && es[m].answer == Ok(Accepted)
    requires es[n].DispatchFailed? && es[n].id == es[m].job.id
    requires forall i :: m < i < n ==> !(es[i].DispatchFailed? && es[i].id == es[m].job.id)
    ensures es[n].ok && es[n].id in ts[n + 1]
    ensures Describe(ts[n + 1][es[n].id], es[n].now) == NeverStarted(ReasonOr(Some(Truncate(es[n].reason))))
  {
    DispatchedRowsAreLeftAlone(c, es, ts, m, n);
    assert StepAt(c, es, ts, n);
  }

  /** Nothing a runner does ever concerns a dispatched row. */
  lemma DispatchedRowsAreNeverHanded(c: Config, es: seq<Event>, ts: seq<Table>, m: nat, n: nat)
    requires IsRun(c, es, ts) && m < n < |es|
    requires es[m].Inserted? && es[m].dispatched && es[m].answer == Ok(Accepted)
    ensures !Takes(es[n], es[m].job.id) && !Loses(es[n], ts[n], es[m].job.id)
    ensures es[n].ResultReported? && es[n].id == es[m].job.id ==> !es[n].ok
    ensures es[n].StartReported? && es[n].id == es[m].job.id ==> !es[n].ok
    ensures forall r :: es[m].job.id !in RowsHeldBy(ts[n], r)
  {
    DispatchedRowsAreLeftAlone(c, es, ts, m, n);
    RowStep(c, es, ts, n, es[m].job.id);
    assert StepAt(c, es, ts, n);
  }

  // ---------------------------------------------------------------- termination

  function Rank(s: State): nat {
    match s
    case Queued => 0
    case Claimed => 2
    case Running => 1
    case _ => 0
  }

  /** How many moves a row has left, at most. */
  function StepsLeft(r: Row, maxAttempts: int): int {
    if Terminal(r.state) then 0
    else if Dispatched(r) then 1
    else 3 * (Limit(maxAttempts) - r.attempts) + Rank(r.state)
  }

  /** Every call that changes more than a lease brings the row strictly nearer its end. */
  lemma ChangesUseUpSteps(c: Config, e: Event, id: string, r: Row, r': Row)
    requires RowChange(c, e, id, r, r') && Shaped(r, c.maxAttempts)
    ensures 0 <= StepsLeft(r', c.maxAttempts) <= StepsLeft(r, c.maxAttempts)
    ensures r.(lease := None) != r'.(lease := None) ==> StepsLeft(r', c.maxAttempts) < StepsLeft(r, c.maxAttempts)
  {
    ChangeKeepsShape(c, e, id, r, r');
  }

  /** The call changed more of the row than its lease. */
  predicate Moves(t: Table, t': Table, id: string) {
    id in t && id in t' && t[id].(lease := None) != t'[id].(lease := None)
  }

  /** How many of the first `n` calls of a run moved the row. */
  function MovesOf(ts: seq<Table>, n: nat, id: string): nat
    requires n < |ts|
  {
    if n == 0 then 0 else MovesOf(ts, n - 1, id) + if Moves(ts[n - 1], ts[n], id) then 1 else 0
  }

  lemma {:induction false} NoMovesBeforeTheInsert(
    c: Config, es: seq<Event>, ts: seq<Table>, n: nat, id: string)
    requires IsRun(c, es, ts) && n <= |es| && id !in ts[n]
    ensures MovesOf(ts, n, id) == 0
    decreases n
  {
    if n > 0 {
      RowStep(c, es, ts, n - 1, id);
      NoMovesBeforeTheInsert(c, es, ts, n - 1, id);
    }
  }

  /** The moves a row is inserted with: three for each go a queued job gets, one for a dispatch. */
  function MovesAtFirst(e: Event, maxAttempts: int): nat
    requires e.Inserted?
  {
    if e.dispatched then 1 else 3 * Limit(maxAttempts)
  }

  /**
   However long the run, the row of a queued job moves at most 3M times, M being the number of goes a
   job gets, and the row of a dispatch at most once.
   */
  lemma {:induction false} RowsRunOutOfMoves(
    c: Config, es: seq<Event>, ts: seq<Table>, m: nat, n: nat, id: string)
    requires IsRun(c, es, ts) && m < n <= |es| && Accepts(es[m], id)
    ensures id in ts[n]
    ensures 0 <= StepsLeft(ts[n][id], c.maxAttempts) <= MovesAtFirst(es[m], c.maxAttempts) - MovesOf(ts, n, id)
    decreases n
  {
    RowStep(c, es, ts, n - 1, id);
    if n == m + 1 {
      NoMovesBeforeTheInsert(c, es, ts, m, id);
    } else {
      RowsRunOutOfMoves(c, es, ts, m, n - 1, id);
      EveryRowIsShaped(c, es, ts, n - 1, id);
      ChangesUseUpSteps(c, es[n - 1], id, ts[n - 1][id], ts[n][id]);
    }
  }
}
