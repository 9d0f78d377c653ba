/**
 The contract both store backends share: the states of a run, the three caps, the shape of a
 row of the `jobs` table, and what one UPDATE does to one row.
 */
module Jobs {
  import opened Common

  datatype State = Queued | Claimed | Running | Done | Failed | Abandoned | NotDispatched

  /** The run has been promised to somebody and will, or does, occupy a slot. */
  predicate Active(s: State) { s.Queued? || s.Claimed? || s.Running? }

  /** The run is executing, or about to, right now. */
  predicate Busy(s: State) { s.Claimed? || s.Running? }

  predicate Terminal(s: State) { !Active(s) }

  /** Zero means unlimited; a negative number is whatever the code makes of it. */
  datatype Caps = Caps(activePerJob: int, queuedPerChannel: int, runningPerChannel: int)

  datatype EnqueueResult = Accepted | Duplicate | JobAtCapacity | ChannelQueueFull | ChannelBusy

  datatype Job = Job(
    id: string, product: string, server: string,
    select: Option<string>, marker: Option<string>,
    channel: string, user: string, jobDef: Option<string>)

  /** What crosses from the edge to a test server. */
  datatype Dispatch = Dispatch(
    jobId: string, product: string, server: string, select: string, marker: string,
    channel: string, user: string)

  function AsDispatch(job: Job): Dispatch {
    Dispatch(job.id, job.product, job.server, job.select.GetOr(""), job.marker.GetOr(""), job.channel, job.user)
  }

  // ---------------------------------------------------------------- validation

  const MAX_FIELD := 200
  const MAX_SUMMARY := 2000

  function Fields(job: Job): seq<(string, string)> {
    [("id", job.id), ("product", job.product), ("server", job.server),
     ("slack_channel", job.channel), ("slack_user", job.user),
     ("select", job.select.GetOr("")), ("marker", job.marker.GetOr(""))]
  }

  function FirstTooLong(fields: seq<(string, string)>): Option<string> {
    if fields == [] then None
    else if |fields[0].1| > MAX_FIELD then Some(fields[0].0)
    else FirstTooLong(fields[1..])
  }

  function ValidateJob(job: Job): Result<()> {
    if job.id == "" then StoreError("a job needs an id")
    else match FirstTooLong(Fields(job))
      case Some(name) => StoreError(name + " is longer than 200 characters")
      case None => Ok(())
  }

  lemma {:induction false} FirstTooLongIsFirst(fields: seq<(string, string)>)
    ensures FirstTooLong(fields).None? <==> forall i :: 0 <= i < |fields| ==> |fields[i].1| <= MAX_FIELD
    ensures FirstTooLong(fields).Some? ==>
              exists i :: 0 <= i < |fields| && FirstTooLong(fields).value == fields[i].0 && |fields[i].1| > MAX_FIELD
                       && forall k :: 0 <= k < i ==> |fields[k].1| <= MAX_FIELD
  {
    if fields != [] && |fields[0].1| <= MAX_FIELD {
      var rest := fields[1..];
      FirstTooLongIsFirst(rest);
      if FirstTooLong(rest).Some? {
        var i :| 0 <= i < |rest| && FirstTooLong(rest).value == rest[i].0 && |rest[i].1| > MAX_FIELD
                 && forall k :: 0 <= k < i ==> |rest[k].1| <= MAX_FIELD;
        assert fields[i + 1] == rest[i];
        forall k | 0 <= k < i + 1 ensures |fields[k].1| <= MAX_FIELD {
          if k > 0 { assert fields[k] == rest[k - 1]; }
        }
      } else {
        forall i | 0 <= i < |fields| ensures |fields[i].1| <= MAX_FIELD {
          if i > 0 { assert fields[i] == rest[i - 1]; }
        }
      }
    }
  }

  /** A job enters the table only with an identifier, and with no field over the length limit. */
  lemma ValidJobsExactly(job: Job)
    ensures ValidateJob(job).Ok? <==>
              && job.id != ""
              && |job.id| <= MAX_FIELD && |job.product| <= MAX_FIELD && |job.server| <= MAX_FIELD
              && |job.channel| <= MAX_FIELD && |job.user| <= MAX_FIELD
              && |job.select.GetOr("")| <= MAX_FIELD && |job.marker.GetOr("")| <= MAX_FIELD
  {
    var f := Fields(job);
    FirstTooLongIsFirst(f);
    if forall i :: 0 <= i < |f| ==> |f[i].1| <= MAX_FIELD {
      assert |f[0].1| <= MAX_FIELD && |f[1].1| <= MAX_FIELD && |f[2].1| <= MAX_FIELD && |f[3].1| <= MAX_FIELD
          && |f[4].1| <= MAX_FIELD && |f[5].1| <= MAX_FIELD && |f[6].1| <= MAX_FIELD;
    }
  }

  // ---------------------------------------------------------------- rows

  datatype Outcome = Outcome(exitCode: int, passed: int, failed: int, skipped: int, duration: real, summary: string)

  datatype Row = Row(
    job: Job, createdAt: real, state: State, mode: string,
    runner: Option<string>, lease: Option<real>, attempts: nat,
    startedAt: Option<real>, finishedAt: Option<real>,
    exitCode: Option<int>, passed: Option<int>, failed: Option<int>, skipped: Option<int>,
    duration: Option<real>, summary: Option<string>)

  function Truncate(s: string): string { if |s| <= MAX_SUMMARY then s else s[..MAX_SUMMARY] }

  /** The row written by the INSERT: queued for a runner, or already running because this process dispatched it. */
  function NewRow(job: Job, dispatched: bool, mode: string, now: real): Row {
    Row(job, now, if dispatched then Running else Queued, mode, None, None, 0,
        if dispatched then Some(now) else None, None, None, None, None, None, None, None)
  }

  function Take(row: Row, runner: string, expires: real): Row {
    row.(state := Claimed, runner := Some(runner), lease := Some(expires), attempts := row.attempts + 1)
  }

  /** The job a claim hands back is rebuilt from the row, without the definition it came from. */
  function Handed(row: Row): Job { row.job.(jobDef := None) }

  predicate CanStart(row: Row, runner: string) { row.runner == Some(runner) && row.state.Claimed? }

  function Start(row: Row, now: real): Row { row.(state := Running, startedAt := Some(now)) }

  predicate HeldBy(row: Row, runner: string) { row.runner == Some(runner) && Busy(row.state) }

  function Finish(row: Row, o: Outcome, now: real): Row {
    row.(state := if o.exitCode == 0 then Done else Failed, finishedAt := Some(now),
         exitCode := Some(o.exitCode), passed := Some(o.passed), failed := Some(o.failed),
         skipped := Some(o.skipped), duration := Some(o.duration), summary := Some(Truncate(o.summary)),
         lease := None)
  }

  predicate CanMark(row: Row) { (row.state.Queued? || row.state.Running?) && row.runner.None? }

  function Mark(row: Row, reason: string, now: real): Row {
    row.(state := NotDispatched, finishedAt := Some(now), summary := Some(Truncate(reason)), lease := None)
  }

  function Renew(row: Row, expires: real): Row { row.(lease := Some(expires)) }

  predicate Expired(row: Row, now: real) { Busy(row.state) && row.lease.Some? && row.lease.value < now }

  function Requeue(row: Row): Row { row.(state := Queued, runner := None, lease := None) }

  function Abandon(row: Row): Row {
    row.(state := Abandoned, lease := None, summary := Some("lease expired and out of attempts"))
  }

  /** What reaping does to one row, said at once: put back, given up on, or left alone. */
  function ReapRow(row: Row, now: real, maxAttempts: int): Row {
    if !Expired(row, now) then row
    else if row.attempts < maxAttempts then Requeue(row)
    else Abandon(row)
  }
}
