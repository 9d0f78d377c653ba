/**
 The SQLite backend. One writer at a time (BEGIN IMMEDIATE), so each method runs alone against the
 rows; `now` is whatever the clock said before the transaction opened, so nothing relates the
 `now` of one call to that of the next.
 */
module Sqlite {
  import opened Common
  import opened Jobs
  import opened Table

  /** Just inserted: these columns and no others. */
  predicate SaysInserted(r: Row, job: Job, state: State, mode: string, now: real) {
    && r.job == job && r.createdAt == now && r.state == state && r.mode == mode && r.attempts == 0
    && r.startedAt == (if state.Running? then Some(now) else None)
    && r.runner.None? && r.lease.None? && r.finishedAt.None? && r.exitCode.None? && r.summary.None?
  }

  /** There is a cap per job, and as many runs of it are queued, claimed or running. */
  predicate AtJobCap(t: Table, job: Job, cap: int) {
    && cap > 0
    && |set id | id in t && t[id].job.product == job.product && t[id].job.server == job.server
                 && (t[id].state.Queued? || t[id].state.Claimed? || t[id].state.Running?)| >= cap
  }

  class SqliteStore {
    var jobs: Table

    predicate Valid() reads this { Keyed(jobs) }

    constructor ()
      ensures Valid() && jobs == map[]
    {
      jobs := map[];
    }

    method Enqueue(job: Job, caps: Caps, now: real) returns (answer: Result<EnqueueResult>)
      requires Valid()
      modifies this
      ensures Valid()
      ensures answer == InsertAnswer(old(jobs), job, false, caps)
      ensures jobs == AfterInsert(old(jobs), job, false, "test-server", caps, now)
      ensures answer == Ok(Accepted) ==> job.id in jobs && SaysInserted(jobs[job.id], job, Queued, "test-server", now)
      ensures answer.Ok? && job.id !in old(jobs) ==>
                (answer.value.JobAtCapacity? <==> AtJobCap(old(jobs), job, caps.activePerJob))
    {
      answer := Insert(job, Queued, "test-server", caps, now);
    }

    method RecordDispatch(job: Job, mode: string, caps: Caps, now: real) returns (answer: Result<EnqueueResult>)
      requires Valid()
      modifies this
      ensures Valid()
      ensures answer == InsertAnswer(old(jobs), job, true, caps)
      ensures jobs == AfterInsert(old(jobs), job, true, mode, caps, now)
      ensures answer == Ok(Accepted) ==> job.id in jobs && SaysInserted(jobs[job.id], job, Running, mode, now)
      ensures answer.Ok? && job.id !in old(jobs) ==>
                (answer.value.JobAtCapacity? <==> AtJobCap(old(jobs), job, caps.activePerJob))
    {
      answer := Insert(job, Running, mode, caps, now);
    }

    method Insert(job: Job, state: State, mode: string, caps: Caps, now: real) returns (answer: Result<EnqueueResult>)
      requires Valid() && (state.Queued? || state.Running?)
      modifies this
      ensures Valid()
      ensures answer == InsertAnswer(old(jobs), job, state.Running?, caps)
      ensures jobs == AfterInsert(old(jobs), job, state.Running?, mode, caps, now)
      ensures answer == Ok(Accepted) ==> job.id in jobs && SaysInserted(jobs[job.id], job, state, mode, now)
      ensures answer.Ok? && job.id !in old(jobs) ==>
                (answer.value.JobAtCapacity? <==> AtJobCap(old(jobs), job, caps.activePerJob))
    {
      var valid := ValidateJob(job);
      if valid.StoreError? {
        return StoreError(valid.message);
      }
      if job.id in jobs {
        return Ok(Duplicate);
      }
      assert ActiveFor(jobs, job.product, job.server)
          == set id | id in jobs && jobs[id].job.product == job.product && jobs[id].job.server == job.server
                      && (jobs[id].state.Queued? || jobs[id].state.Claimed? || jobs[id].state.Running?);
      if caps.activePerJob > 0 {
        var active := |ActiveFor(jobs, job.product, job.server)|;
        if active >= caps.activePerJob {
          return Ok(JobAtCapacity);
        }
      }
      var channelCap, counted, refusal;
      if state.Queued? {
        channelCap, counted, refusal := caps.queuedPerChannel, QueuedIn(jobs, job.channel), ChannelQueueFull;
      } else {
        channelCap, counted, refusal := caps.runningPerChannel, BusyIn(jobs, job.channel), ChannelBusy;
      }
      if channelCap > 0 {
        if |counted| >= channelCap {
          return Ok(refusal);
        }
      }
      var started := if state.Running? then Some(now) else None;
      jobs := jobs[job.id := Row(job, now, state, mode, None, None, 0, started,
                                 None, None, None, None, None, None, None)];
      answer := Ok(Accepted);
    }

    /** SELECT ... WHERE state = 'queued' ORDER BY created_at: equal times come back in any order. */
    method SelectQueued() returns (rows: seq<string>)
      ensures forall id :: id in rows <==> id in jobs && jobs[id].state.Queued?
      ensures forall i, k :: 0 <= i < k < |rows| ==>
                rows[i] in jobs && rows[k] in jobs && jobs[rows[i]].createdAt <= jobs[rows[k]].createdAt
    {
      rows := [];
      var rest := set id | id in jobs && jobs[id].state.Queued?;
      while rest != {}
        invariant forall id :: id in rows || id in rest <==> id in jobs && jobs[id].state.Queued?
        invariant forall i, k :: 0 <= i < k < |rows| ==>
                    rows[i] in jobs && rows[k] in jobs && jobs[rows[i]].createdAt <= jobs[rows[k]].createdAt
        invariant forall a, b :: a in rows && b in rest ==>
                    a in jobs && b in jobs && jobs[a].createdAt <= jobs[b].createdAt
        decreases rest
      {
        OldestExists(jobs, rest);
        var next :| next in rest && forall o :: o in rest ==> jobs[next].createdAt <= jobs[o].createdAt;
        rows := rows + [next];
        rest := rest - {next};
      }
    }

    /** SELECT slack_channel, COUNT(*) ... GROUP BY slack_channel: a channel with nothing busy is absent. */
    method BusyByChannel() returns (busy: map<string, int>)
      ensures forall ch :: (if ch in busy then busy[ch] else 0) == |BusyIn(jobs, ch)|
    {
      busy := map ch | ch in (set id | id in jobs && Busy(jobs[id].state) :: jobs[id].job.channel)
                    :: |BusyIn(jobs, ch)|;
      forall ch | ch !in busy ensures BusyIn(jobs, ch) == {} {}
    }

    method Claim(runner: string, labels: seq<string>, leaseSeconds: real, maxAttempts: int, caps: Caps, now: real)
      returns (handed: Option<Job>)
      requires Valid()
      modifies this
      ensures Valid()
      ensures ClaimStep(old(jobs), ClaimRequest(runner, labels, leaseSeconds, maxAttempts, caps, now), jobs, handed)
    {
      var wanted := set x | x in labels && x != "";
      Reap(maxAttempts, now);
      ghost var q := ClaimRequest(runner, labels, leaseSeconds, maxAttempts, caps, now);
      ghost var reaped := jobs;

      var busyByChannel: map<string, int> := map[];
      if caps.runningPerChannel > 0 {
        busyByChannel := BusyByChannel();
      }

      var rows := SelectQueued();
      for i := 0 to |rows|
        invariant jobs == reaped
        invariant forall k :: 0 <= k < i ==> !Eligible(reaped, q, rows[k])
      {
        var row := jobs[rows[i]];
        if wanted != {} && row.job.server !in wanted {
          continue;
        }
        if caps.runningPerChannel > 0 {
          var running := if row.job.channel in busyByChannel then busyByChannel[row.job.channel] else 0;
          if running >= caps.runningPerChannel {
            continue;
          }
        }
        var taken := TakeIfQueued(row.job.id, runner, now + leaseSeconds);
        if taken {
          OldestIsTaken(old(jobs), q, reaped, rows, i);
          return Some(Job(row.job.id, row.job.product, row.job.server, row.job.select, row.job.marker,
                          row.job.channel, row.job.user, None));
        }
      }
      NoneIsEligible(old(jobs), q, reaped, rows);
      return None;
    }

    /** UPDATE ... WHERE id = ? AND state = 'queued': whether a row was changed is the answer. */
    method TakeIfQueued(id: string, runner: string, expires: real) returns (taken: bool)
      requires Valid()
      modifies this
      ensures Valid()
      ensures taken == (id in old(jobs) && old(jobs)[id].state.Queued?)
      ensures jobs == if taken then old(jobs)[id := Take(old(jobs)[id], runner, expires)] else old(jobs)
    {
      taken := id in jobs && jobs[id].state.Queued?;
      if taken {
        jobs := jobs[id := jobs[id].(state := Claimed, runner := Some(runner), lease := Some(expires),
                     attempts := jobs[id].attempts + 1)];
      }
    }

    method MarkRunning(id: string, runner: string, now: real) returns (ok: bool)
      requires Valid()
      modifies this
      ensures Valid()
      ensures ok == StartApplies(old(jobs), id, runner)
      ensures jobs == AfterStart(old(jobs), id, runner, now)
    {
      ok := id in jobs && jobs[id].runner == Some(runner) && jobs[id].state == Claimed;
      if ok {
        jobs := jobs[id := jobs[id].(state := Running, startedAt := Some(now))];
      }
    }

    method FinishJob(id: string, runner: string, o: Outcome, now: real) returns (ok: bool)
      requires Valid()
      modifies this
      ensures Valid()
      ensures ok == FinishApplies(old(jobs), id, runner)
      ensures jobs == AfterFinish(old(jobs), id, runner, o, now)
    {
      var state := if o.exitCode == 0 then Done else Failed;
      ok := id in jobs && jobs[id].runner == Some(runner) && (jobs[id].state == Claimed || jobs[id].state == Running);
      if ok {
        jobs := jobs[id := jobs[id].(state := state, finishedAt := Some(now), exitCode := Some(o.exitCode),
                     passed := Some(o.passed), failed := Some(o.failed), skipped := Some(o.skipped),
                     duration := Some(o.duration), summary := Some(Truncate(o.summary)), lease := None)];
      }
    }

    method MarkNotDispatched(id: string, reason: string, now: real) returns (ok: bool)
      requires Valid()
      modifies this
      ensures Valid()
      ensures ok == MarkApplies(old(jobs), id)
      ensures jobs == AfterMark(old(jobs), id, reason, now)
    {
      ok := id in jobs && (jobs[id].state == Queued || jobs[id].state == Running) && jobs[id].runner == None;
      if ok {
        jobs := jobs[id := jobs[id].(state := NotDispatched, finishedAt := Some(now),
                     summary := Some(Truncate(reason)), lease := None)];
      }
    }

    method RenewLeases(runner: string, leaseSeconds: real, now: real) returns (renewed: nat)
      requires Valid()
      modifies this
      ensures Valid()
      ensures jobs == AfterRenew(old(jobs), runner, now + leaseSeconds)
      ensures renewed == |RowsHeldBy(old(jobs), runner)|
    {
      var matching := set id | id in jobs && jobs[id].runner == Some(runner) && Busy(jobs[id].state);
      assert matching == RowsHeldBy(jobs, runner);
      jobs := map id | id in jobs :: if id in matching then jobs[id].(lease := Some(now + leaseSeconds)) else jobs[id];
      renewed := |matching|;
    }

    method RequeueExpired(maxAttempts: int, now: real)
      requires Valid()
      modifies this
      ensures Valid()
      ensures jobs == AfterRequeue(old(jobs), now, maxAttempts)
    {
      jobs := map id | id in jobs ::
        var r := jobs[id];
        if Busy(r.state) && r.lease.Some? && r.lease.value < now && r.attempts < maxAttempts
        then r.(state := Queued, runner := None, lease := None) else r;
    }

    method AbandonExpired(maxAttempts: int, now: real)
      requires Valid()
      modifies this
      ensures Valid()
      ensures jobs == AfterAbandon(old(jobs), now, maxAttempts)
    {
      jobs := map id | id in jobs ::
        var r := jobs[id];
        if Busy(r.state) && r.lease.Some? && r.lease.value < now && r.attempts >= maxAttempts
        then r.(state := Abandoned, lease := None, summary := Some("lease expired and out of attempts")) else r;
    }

    /** Two UPDATEs, one after the other, have the effect of deciding every row's fate at once. */
    method Reap(maxAttempts: int, now: real)
      requires Valid()
      modifies this
      ensures Valid()
      ensures jobs == AfterReap(old(jobs), now, maxAttempts)
    {
      RequeueExpired(maxAttempts, now);
      AbandonExpired(maxAttempts, now);
      TwoUpdatesAreOnePartition(old(jobs), now, maxAttempts);
    }
  }

  /** The first row the scan does not skip is one the claim may take. */
  lemma OldestIsTaken(before: Table, q: ClaimRequest, t: Table, rows: seq<string>, i: nat)
    requires t == AfterReap(before, q.now, q.maxAttempts) && Keyed(t)
    requires i < |rows| && Eligible(t, q, rows[i])
    requires forall id :: id in rows <==> id in t && t[id].state.Queued?
    requires forall a, b :: 0 <= a < b < |rows| ==> t[rows[a]].createdAt <= t[rows[b]].createdAt
    requires forall k :: 0 <= k < i ==> !Eligible(t, q, rows[k])
    ensures ClaimStep(before, q, AfterTake(t, q, rows[i]), Some(Handed(t[rows[i]])))
  {
    forall other | other in t && Eligible(t, q, other) ensures t[rows[i]].createdAt <= t[other].createdAt {
      var k :| 0 <= k < |rows| && rows[k] == other;
    }
    assert OldestEligible(t, q, rows[i]);
  }

  lemma NoneIsEligible(before: Table, q: ClaimRequest, t: Table, rows: seq<string>)
    requires t == AfterReap(before, q.now, q.maxAttempts)
    requires forall id :: id in rows <==> id in t && t[id].state.Queued?
    requires forall k :: 0 <= k < |rows| ==> !Eligible(t, q, rows[k])
    ensures ClaimStep(before, q, t, None)
  {
    forall id | id in t ensures !Eligible(t, q, id) {
      if id in rows {
        var k :| 0 <= k < |rows| && rows[k] == id;
      }
    }
  }
}
