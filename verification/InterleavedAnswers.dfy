/**
 What an insert is answered when Postgres transactions interleave: exactly what its one count of each cap
 found, in the rows committed at that moment.
 */
module InterleavedAnswers {
  import opened Common
  import opened Jobs
  import opened Table
  import opened Interleavings
  import opened InterleavedCaps

  // ---------------------------------------------------------------- rows by state

  function OpenRows(t: Table, product: string, server: string): set<string> {
    set id | id in t && t[id].job.product == product && t[id].job.server == server
             && (t[id].state.Queued? || t[id].state.Claimed? || t[id].state.Running?)
  }

  function StartedRows(t: Table, ch: string): set<string> {
    set id | id in t && t[id].job.channel == ch && (t[id].state.Claimed? || t[id].state.Running?)
  }

  function QueuedRows(t: Table, ch: string): set<string> {
    set id | id in t && t[id].job.channel == ch && t[id].state.Queued?
  }

  /** The caps, over committed rows by their state: per job exact, per channel at most one over. */
  lemma CapsHoldOverCommittedRows(
    c: Setup, ms: seq<Move>, ss: seq<Sys>, n: nat, product: string, server: string, ch: string)
    requires IsHistory(c, ms, ss) && n <= |ms|
    ensures c.caps.activePerJob > 0 ==> |OpenRows(ss[n].db, product, server)| <= c.caps.activePerJob
    ensures c.caps.runningPerChannel > 0 ==>
              |StartedRows(ss[n].db, ch)| <= c.caps.runningPerChannel + if c.dispatching && c.claiming then 1 else 0
  {
    assert OpenRows(ss[n].db, product, server) == ActiveFor(ss[n].db, product, server);
    assert StartedRows(ss[n].db, ch) == BusyIn(ss[n].db, ch);
    if c.caps.activePerJob > 0 { ActiveCapUnderInterleaving(c, ms, ss, n, product, server); }
    if c.caps.runningPerChannel > 0 { RunningCapUnderInterleaving(c, ms, ss, n, ch); }
  }

  // ---------------------------------------------------------------- what a count found

  predicate JobIsFull(c: Setup, t: Table, job: Job) {
    c.caps.activePerJob > 0 && |OpenRows(t, job.product, job.server)| >= c.caps.activePerJob
  }

  predicate ChannelIsFull(c: Setup, t: Table, job: Job) {
    c.caps.runningPerChannel > 0 && |StartedRows(t, job.channel)| >= c.caps.runningPerChannel
  }

  predicate QueueIsFull(c: Setup, t: Table, job: Job) {
    c.caps.queuedPerChannel > 0 && |QueuedRows(t, job.channel)| >= c.caps.queuedPerChannel
  }

  /** It has counted the job's active rows, and found this. */
  predicate AfterActive(pc: InsertPc, full: bool) {
    if full then pc == Answering(JobAtCapacity)
    else pc.CountingChannel? || pc.Inserting? || (pc.Answering? && !pc.result.JobAtCapacity?)
  }

  predicate AfterChannel(pc: InsertPc, dispatched: bool, full: bool) {
    if full then pc == Answering(if dispatched then ChannelBusy else ChannelQueueFull)
    else pc.Inserting? || pc == Answering(Accepted) || pc == Answering(Duplicate)
  }

  /** A transaction is still open as the same insert, or has ended with this answer or rolled back. */
  predicate Tracks(s: Sys, tid: nat, job: Job, dispatched: bool) {
    || (tid in s.live && s.live[tid].txn.Insert? && s.live[tid].txn.job == job
        && s.live[tid].txn.dispatched == dispatched && tid !in s.answers)
    || (tid !in s.live && tid in s.answers && (s.answers[tid].Inserted? ==> s.answers[tid].id == job.id))
  }

  predicate TracksActive(s: Sys, tid: nat, job: Job, dispatched: bool, full: bool) {
    && Tracks(s, tid, job, dispatched)
    && (tid in s.live ==> AfterActive(s.live[tid].txn.insertPc, full))
    && (tid in s.answers && s.answers[tid].Inserted? ==> (s.answers[tid].result.JobAtCapacity? <==> full))
  }

  predicate TracksChannel(s: Sys, tid: nat, job: Job, dispatched: bool, full: bool) {
    && Tracks(s, tid, job, dispatched)
    && (tid in s.live ==> AfterChannel(s.live[tid].txn.insertPc, dispatched, full))
    && (tid in s.answers && s.answers[tid].Inserted? ==>
          if full then s.answers[tid].result == (if dispatched then ChannelBusy else ChannelQueueFull)
          else s.answers[tid].result.Accepted? || s.answers[tid].result.Duplicate?)
  }

  lemma MoveKeepsTracking(c: Setup, s: Sys, m: Move, tid: nat, job: Job, dispatched: bool, full: bool)
    requires Enabled(c, s, m)
    ensures TracksActive(s, tid, job, dispatched, full) ==> TracksActive(Do(c, s, m), tid, job, dispatched, full)
    ensures TracksChannel(s, tid, job, dispatched, full) ==> TracksChannel(Do(c, s, m), tid, job, dispatched, full)
  {
    if m.tid != tid {
      MoveOfAnother(c, s, m, tid);
    }
  }

  lemma MoveOfAnother(c: Setup, s: Sys, m: Move, tid: nat)
    requires Enabled(c, s, m) && m.tid != tid
    ensures var s' := Do(c, s, m);
            && (tid in s'.live <==> tid in s.live) && (tid in s.live ==> s'.live[tid] == s.live[tid])
            && (tid in s'.answers <==> tid in s.answers) && (tid in s.answers ==> s'.answers[tid] == s.answers[tid])
  {
  }

  lemma {:induction false} TrackingLasts(
    c: Setup, ms: seq<Move>, ss: seq<Sys>, k: nat, n: nat, tid: nat, job: Job, dispatched: bool, full: bool)
    requires IsHistory(c, ms, ss) && k <= n <= |ms|
    ensures TracksActive(ss[k], tid, job, dispatched, full) ==> TracksActive(ss[n], tid, job, dispatched, full)
    ensures TracksChannel(ss[k], tid, job, dispatched, full) ==> TracksChannel(ss[n], tid, job, dispatched, full)
    decreases n
  {
    if k < n {
      TrackingLasts(c, ms, ss, k, n - 1, tid, job, dispatched, full);
      assert MoveAt(c, ms, ss, n - 1);
      MoveKeepsTracking(c, ss[n - 1], ms[n - 1], tid, job, dispatched, full);
    }
  }

  /**
   An insert that completes is told the job is at capacity exactly when, at its one count, as many rows of
   the (product, server) were queued, claimed or running as the cap allows.
   */
  lemma AtCapacityExactly(c: Setup, ms: seq<Move>, ss: seq<Sys>, k: nat, n: nat, tid: nat)
    requires IsHistory(c, ms, ss) && k < n <= |ms| && ms[k] == CountActive(tid)
    ensures tid in ss[k].live && ss[k].live[tid].txn.Insert?
    ensures tid in ss[n].answers && ss[n].answers[tid].Inserted? ==>
              var job := ss[k].live[tid].txn.job;
              && ss[n].answers[tid].id == job.id
              && (ss[n].answers[tid].result.JobAtCapacity? <==>
                    && c.caps.activePerJob > 0
                    && |OpenRows(ss[k].db, job.product, job.server)| == c.caps.activePerJob)
  {
    assert MoveAt(c, ms, ss, k);
    HistoryKeepsInv(c, ms, ss, k);
    assert LocksHeld(c, ss[k], tid);
    var t := ss[k].live[tid].txn;
    assert OpenRows(ss[k].db, t.job.product, t.job.server) == ActiveFor(ss[k].db, t.job.product, t.job.server);
    TrackingLasts(c, ms, ss, k + 1, n, tid, t.job, t.dispatched, JobIsFull(c, ss[k].db, t.job));
    CapsHoldOverCommittedRows(c, ms, ss, k, t.job.product, t.job.server, "");
  }

  /** And that the channel is full exactly when its one count of the channel found it so. */
  lemma ChannelFullExactly(c: Setup, ms: seq<Move>, ss: seq<Sys>, k: nat, n: nat, tid: nat)
    requires IsHistory(c, ms, ss) && k < n <= |ms| && ms[k] == CountChannel(tid)
    ensures tid in ss[k].live && ss[k].live[tid].txn.Insert?
    ensures tid in ss[n].answers && ss[n].answers[tid].Inserted? ==>
              var t, result := ss[k].live[tid].txn, ss[n].answers[tid].result;
              && (result.ChannelBusy? <==> t.dispatched && ChannelIsFull(c, ss[k].db, t.job))
              && (result.ChannelQueueFull? <==> !t.dispatched && QueueIsFull(c, ss[k].db, t.job))
              && (result.Accepted? || result.Duplicate? || result.ChannelBusy? || result.ChannelQueueFull?)
  {
    assert MoveAt(c, ms, ss, k);
    HistoryKeepsInv(c, ms, ss, k);
    assert LocksHeld(c, ss[k], tid);
    var t, db := ss[k].live[tid].txn, ss[k].db;
    assert StartedRows(db, t.job.channel) == BusyIn(db, t.job.channel);
    assert QueuedRows(db, t.job.channel) == QueuedIn(db, t.job.channel);
    TrackingLasts(c, ms, ss, k + 1, n, tid, t.job, t.dispatched,
                  if t.dispatched then ChannelIsFull(c, db, t.job) else QueueIsFull(c, db, t.job));
  }

  /** The insert is about to give this answer, or has given it. */
  predicate Told(s: Sys, tid: nat, result: EnqueueResult) {
    || (tid in s.live && s.live[tid].txn.Insert? && s.live[tid].txn.insertPc == Answering(result))
    || (tid in s.answers && s.answers[tid].Inserted? && s.answers[tid].result == result)
  }

  /** A refusal at a cap is never made without that count. */
  lemma {:induction false} RefusalsHaveCounted(c: Setup, ms: seq<Move>, ss: seq<Sys>, n: nat, tid: nat)
    requires IsHistory(c, ms, ss) && n <= |ms|
    ensures Told(ss[n], tid, JobAtCapacity) ==> CountActive(tid) in ms[..n]
    ensures Told(ss[n], tid, ChannelBusy) ==> CountChannel(tid) in ms[..n]
    ensures Told(ss[n], tid, ChannelQueueFull) ==> CountChannel(tid) in ms[..n]
    decreases n
  {
    if n > 0 {
      RefusalsHaveCounted(c, ms, ss, n - 1, tid);
      assert MoveAt(c, ms, ss, n - 1);
      assert ms[..n] == ms[..n - 1] + [ms[n - 1]];
      if ms[n - 1].tid != tid {
        MoveOfAnother(c, ss[n - 1], ms[n - 1], tid);
      }
    }
  }
}
