/**
 Whole runs of the serial store: any sequence of calls, each with its own clock reading and each
 atomic, starting from an empty table and under one configuration.
 */
module Runs {
  import opened Common
  import opened Jobs
  import opened Table

  datatype Config = Config(caps: Caps, leaseSeconds: real, maxAttempts: int)

  /** One call and what it answered. */
  datatype Event =
    | Inserted(job: Job, dispatched: bool, mode: string, now: real, answer: Result<EnqueueResult>)
    | ClaimAsked(runner: string, labels: seq<string>, now: real, handed: Option<Job>)
    | StartReported(id: string, runner: string, now: real, ok: bool)
    | ResultReported(id: string, runner: string, outcome: Outcome, now: real, ok: bool)
    | DispatchFailed(id: string, reason: string, now: real, ok: bool)
    | Heartbeat(runner: string, now: real, renewed: nat)
    | Reaped(now: real)
    | StoreWasBusy

  function Request(c: Config, runner: string, labels: seq<string>, now: real): ClaimRequest {
    ClaimRequest(runner, labels, c.leaseSeconds, c.maxAttempts, c.caps, now)
  }

  predicate Step(c: Config, t: Table, e: Event, t': Table) {
    match e
    case Inserted(job, dispatched, mode, now, answer) =>
      answer == InsertAnswer(t, job, dispatched, c.caps) && t' == AfterInsert(t, job, dispatched, mode, c.caps, now)
    case ClaimAsked(runner, labels, now, handed) => ClaimStep(t, Request(c, runner, labels, now), t', handed)
    case StartReported(id, runner, now, ok) => ok == StartApplies(t, id, runner) && t' == AfterStart(t, id, runner, now)
    case ResultReported(id, runner, o, now, ok) =>
      ok == FinishApplies(t, id, runner) && t' == AfterFinish(t, id, runner, o, now)
    case DispatchFailed(id, reason, now, ok) => ok == MarkApplies(t, id) && t' == AfterMark(t, id, reason, now)
    case Heartbeat(runner, now, renewed) =>
      renewed == |RowsHeldBy(t, runner)| && t' == AfterRenew(t, runner, now + c.leaseSeconds)
    case Reaped(now) => t' == AfterReap(t, now, c.maxAttempts)
    case StoreWasBusy => t' == t
  }

  predicate StepAt(c: Config, es: seq<Event>, ts: seq<Table>, i: int)
    requires 0 <= i < |es| && |ts| == |es| + 1
  {
    Step(c, ts[i], es[i], ts[i + 1])
  }

  predicate IsRun(c: Config, es: seq<Event>, ts: seq<Table>) {
    && |ts| == |es| + 1
    && ts[0] == map[]
    && forall i :: 0 <= i < |es| ==> StepAt(c, es, ts, i)
  }

  // ---------------------------------------------------------------- one step, seen from one row

  predicate Accepts(e: Event, id: string) { e.Inserted? && e.answer == Ok(Accepted) && e.job.id == id }

  predicate Takes(e: Event, id: string) { e.ClaimAsked? && e.handed.Some? && e.handed.value.id == id }

  predicate Reaps(e: Event) { e.ClaimAsked? || e.Reaped? }

  /** This call found the row's lease expired, so whoever held it holds it no longer. */
  predicate Loses(e: Event, t: Table, id: string) { Reaps(e) && id in t && Expired(t[id], e.now) }

  predicate Requeues(c: Config, e: Event, t: Table, id: string) { Loses(e, t, id) && t[id].attempts < c.maxAttempts }

  /** What a call does to a row that was already there. */
  predicate RowChange(c: Config, e: Event, id: string, r: Row, r': Row) {
    match e
    case Inserted(_, _, _, _, _) => r' == r
    case ClaimAsked(runner, labels, now, handed) =>
      var reaped := ReapRow(r, now, c.maxAttempts);
      if Takes(e, id) then reaped.state.Queued? && r' == Take(reaped, runner, now + c.leaseSeconds) else r' == reaped
    case StartReported(target, runner, now, ok) =>
      if target == id && CanStart(r, runner) then ok && r' == Start(r, now) else r' == r && (target == id ==> !ok)
    case ResultReported(target, runner, o, now, ok) =>
      if target == id && HeldBy(r, runner) then ok && r' == Finish(r, o, now) else r' == r && (target == id ==> !ok)
    case DispatchFailed(target, reason, now, ok) =>
      if target == id && CanMark(r) then ok && r' == Mark(r, reason, now) else r' == r && (target == id ==> !ok)
    case Heartbeat(runner, now, _) => r' == if HeldBy(r, runner) then Renew(r, now + c.leaseSeconds) else r
    case Reaped(now) => r' == ReapRow(r, now, c.maxAttempts)
    case StoreWasBusy => r' == r
  }

  lemma ClaimByRow(c: Config, t: Table, e: Event, t': Table)
    requires Step(c, t, e, t') && Keyed(t) && e.ClaimAsked?
    ensures Keyed(t') && t.Keys == t'.Keys
    ensures forall id :: id in t ==> RowChange(c, e, id, t[id], t'[id])
    ensures forall id :: Takes(e, id) ==> id in t && e.handed == Some(Handed(t[id]))
  {
    var reaped := AfterReap(t, e.now, c.maxAttempts);
    if e.handed.Some? {
      var taken := e.handed.value.id;
      assert Eligible(reaped, Request(c, e.runner, e.labels, e.now), taken);
      assert Handed(reaped[taken]) == Handed(t[taken]);
      forall id | id in t ensures RowChange(c, e, id, t[id], t'[id]) {
        assert Takes(e, id) <==> id == taken;
      }
    }
  }

  lemma UpdateByRow(c: Config, t: Table, e: Event, t': Table)
    requires Step(c, t, e, t') && Keyed(t) && !e.ClaimAsked? && !e.Inserted?
    ensures Keyed(t') && t.Keys == t'.Keys
    ensures forall id :: id in t ==> RowChange(c, e, id, t[id], t'[id])
  {
    assert t'.Keys == t.Keys;
  }

  /** No call deletes a row; the only new row is the one an accepted insert wrote. */
  lemma StepByRow(c: Config, t: Table, e: Event, t': Table)
    requires Step(c, t, e, t') && Keyed(t)
    ensures Keyed(t') && t.Keys <= t'.Keys
    ensures forall id :: id in t ==> RowChange(c, e, id, t[id], t'[id])
    ensures forall id :: id in t' && id !in t ==> Accepts(e, id) && t'[id] == NewRow(e.job, e.dispatched, e.mode, e.now)
    ensures forall id :: Takes(e, id) ==> id in t && e.handed == Some(Handed(t[id]))
    ensures forall id :: Accepts(e, id) ==> id !in t && id in t'
  {
    if e.ClaimAsked? {
      ClaimByRow(c, t, e, t');
    } else if !e.Inserted? {
      UpdateByRow(c, t, e, t');
    }
  }

  lemma {:induction false} RunIsKeyed(c: Config, es: seq<Event>, ts: seq<Table>, n: nat)
    requires IsRun(c, es, ts) && n <= |es|
    ensures Keyed(ts[n])
    decreases n
  {
    if n > 0 {
      RunIsKeyed(c, es, ts, n - 1);
      assert StepAt(c, es, ts, n - 1);
      StepByRow(c, ts[n - 1], es[n - 1], ts[n]);
    }
  }

  /** Step `n` of a run, with everything StepByRow says about it. */
  lemma RunStep(c: Config, es: seq<Event>, ts: seq<Table>, n: nat)
    requires IsRun(c, es, ts) && n < |es|
    ensures Keyed(ts[n]) && Keyed(ts[n + 1]) && ts[n].Keys <= ts[n + 1].Keys
    ensures forall id :: id in ts[n] ==> RowChange(c, es[n], id, ts[n][id], ts[n + 1][id])
    ensures forall id :: id in ts[n + 1] && id !in ts[n] ==>
              Accepts(es[n], id) && ts[n + 1][id] == NewRow(es[n].job, es[n].dispatched, es[n].mode, es[n].now)
    ensures forall id :: Takes(es[n], id) ==> id in ts[n] && es[n].handed == Some(Handed(ts[n][id]))
    ensures forall id :: Accepts(es[n], id) ==> id !in ts[n] && id in ts[n + 1]
  {
    RunIsKeyed(c, es, ts, n);
    assert StepAt(c, es, ts, n);
    StepByRow(c, ts[n], es[n], ts[n + 1]);
  }

  /** Step `n` of a run as one row sees it. */
  lemma RowStep(c: Config, es: seq<Event>, ts: seq<Table>, n: nat, id: string)
    requires IsRun(c, es, ts) && n < |es|
    ensures id in ts[n] ==> id in ts[n + 1] && RowChange(c, es[n], id, ts[n][id], ts[n + 1][id])
    ensures id !in ts[n] && id in ts[n + 1] ==>
              Accepts(es[n], id) && ts[n + 1][id] == NewRow(es[n].job, es[n].dispatched, es[n].mode, es[n].now)
    ensures Takes(es[n], id) ==> id in ts[n] && es[n].handed == Some(Handed(ts[n][id]))
    ensures Accepts(es[n], id) ==> id !in ts[n] && id in ts[n + 1]
  {
    RunStep(c, es, ts, n);
  }

  lemma {:induction false} RowsAreNeverDeleted(c: Config, es: seq<Event>, ts: seq<Table>, m: nat, n: nat)
    requires IsRun(c, es, ts) && m <= n <= |es|
    ensures ts[m].Keys <= ts[n].Keys
    decreases n
  {
    if m < n {
      RowsAreNeverDeleted(c, es, ts, m, n - 1);
      RunStep(c, es, ts, n - 1);
    }
  }

  lemma ExtendRun(c: Config, es: seq<Event>, ts: seq<Table>, e: Event, t: Table)
    requires IsRun(c, es, ts) && Step(c, ts[|es|], e, t)
    ensures IsRun(c, es + [e], ts + [t])
  {
    var es', ts' := es + [e], ts + [t];
    forall i | 0 <= i < |es'| ensures StepAt(c, es', ts', i) {
      if i < |es| {
        assert StepAt(c, es, ts, i);
      }
    }
  }
}
