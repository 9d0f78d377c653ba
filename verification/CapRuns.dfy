/** What the three caps bound over whole serial runs. */
module CapRuns {
  import opened Common
  import opened Jobs
  import opened Table
  import opened Runs
  import opened RowLife
  import opened Histories

  // ---------------------------------------------------------------- the running cap

  lemma ClaimKeepsRunningCap(c: Config, t: Table, e: Event, t': Table, ch: string)
    requires Step(c, t, e, t') && e.ClaimAsked?
    requires c.caps.runningPerChannel > 0 && |BusyIn(t, ch)| <= c.caps.runningPerChannel
    ensures |BusyIn(t', ch)| <= c.caps.runningPerChannel
  {
    var reaped := AfterReap(t, e.now, c.maxAttempts);
    assert BusyIn(reaped, ch) <= BusyIn(t, ch);
    SubsetSize(BusyIn(reaped, ch), BusyIn(t, ch));
    if e.handed.Some? {
      var id := e.handed.value.id;
      assert Eligible(reaped, Request(c, e.runner, e.labels, e.now), id);
      if reaped[id].job.channel == ch {
        OneMoreSize(BusyIn(t', ch), BusyIn(reaped, ch), id);
      } else {
        SubsetSize(BusyIn(t', ch), BusyIn(reaped, ch));
      }
    }
  }

  lemma InsertKeepsRunningCap(c: Config, t: Table, e: Event, t': Table, ch: string)
    requires Step(c, t, e, t') && e.Inserted?
    requires c.caps.runningPerChannel > 0 && |BusyIn(t, ch)| <= c.caps.runningPerChannel
    ensures |BusyIn(t', ch)| <= c.caps.runningPerChannel
  {
    if e.answer == Ok(Accepted) && e.dispatched && e.job.channel == ch {
      OneMoreSize(BusyIn(t', ch), BusyIn(t, ch), e.job.id);
    } else {
      SubsetSize(BusyIn(t', ch), BusyIn(t, ch));
    }
  }

  /** Every other call frees slots or leaves them alone. */
  lemma OthersKeepRunningCap(c: Config, t: Table, e: Event, t': Table, ch: string)
    requires Step(c, t, e, t') && Keyed(t) && !e.Inserted? && !e.ClaimAsked?
    ensures |BusyIn(t', ch)| <= |BusyIn(t, ch)|
  {
    StepByRow(c, t, e, t');
    SubsetSize(BusyIn(t', ch), BusyIn(t, ch));
  }

  lemma StepKeepsRunningCap(c: Config, t: Table, e: Event, t': Table, ch: string)
    requires Step(c, t, e, t') && Keyed(t)
    requires c.caps.runningPerChannel > 0 && |BusyIn(t, ch)| <= c.caps.runningPerChannel
    ensures |BusyIn(t', ch)| <= c.caps.runningPerChannel
  {
    if e.ClaimAsked? {
      ClaimKeepsRunningCap(c, t, e, t', ch);
    } else if e.Inserted? {
      InsertKeepsRunningCap(c, t, e, t', ch);
    } else {
      OthersKeepRunningCap(c, t, e, t', ch);
    }
  }

  /** Both ways of starting work share one cap: claimed and running rows of a channel never exceed it. */
  lemma {:induction false} RunningCapHolds(c: Config, es: seq<Event>, ts: seq<Table>, n: nat, ch: string)
    requires IsRun(c, es, ts) && n <= |es| && c.caps.runningPerChannel > 0
    ensures |BusyIn(ts[n], ch)| <= c.caps.runningPerChannel
    decreases n
  {
    if n > 0 {
      RunningCapHolds(c, es, ts, n - 1, ch);
      RunIsKeyed(c, es, ts, n - 1);
      assert StepAt(c, es, ts, n - 1);
      StepKeepsRunningCap(c, ts[n - 1], es[n - 1], ts[n], ch);
    } else {
      assert BusyIn(ts[0], ch) == {};
    }
  }

  // ---------------------------------------------------------------- the per-job cap

  /** Only an accepted insert makes another row of the pair active. */
  lemma OthersKeepActiveRows(c: Config, t: Table, e: Event, t': Table, product: string, server: string)
    requires Step(c, t, e, t') && Keyed(t)
    requires !(e.Inserted? && e.answer == Ok(Accepted) && e.job.product == product && e.job.server == server)
    ensures |ActiveFor(t', product, server)| <= |ActiveFor(t, product, server)|
  {
    StepByRow(c, t, e, t');
    forall id | id in ActiveFor(t', product, server) ensures id in ActiveFor(t, product, server) {
      if id in t {
        assert RowChange(c, e, id, t[id], t'[id]);
      }
    }
    SubsetSize(ActiveFor(t', product, server), ActiveFor(t, product, server));
  }

  lemma StepKeepsActiveCap(c: Config, t: Table, e: Event, t': Table, product: string, server: string)
    requires Step(c, t, e, t') && Keyed(t)
    requires c.caps.activePerJob > 0 && |ActiveFor(t, product, server)| <= c.caps.activePerJob
    ensures |ActiveFor(t', product, server)| <= c.caps.activePerJob
  {
    if e.Inserted? && e.answer == Ok(Accepted) && e.job.product == product && e.job.server == server {
      OneMoreSize(ActiveFor(t', product, server), ActiveFor(t, product, server), e.job.id);
    } else {
      OthersKeepActiveRows(c, t, e, t', product, server);
    }
  }

  /** Queued, claimed and running rows of one (product, server) never exceed the per-job cap. */
  lemma {:induction false} ActiveCapHolds(
    c: Config, es: seq<Event>, ts: seq<Table>, n: nat, product: string, server: string)
    requires IsRun(c, es, ts) && n <= |es| && c.caps.activePerJob > 0
    ensures |ActiveFor(ts[n], product, server)| <= c.caps.activePerJob
    decreases n
  {
    if n > 0 {
      ActiveCapHolds(c, es, ts, n - 1, product, server);
      RunIsKeyed(c, es, ts, n - 1);
      assert StepAt(c, es, ts, n - 1);
      StepKeepsActiveCap(c, ts[n - 1], es[n - 1], ts[n], product, server);
    } else {
      assert ActiveFor(ts[0], product, server) == {};
    }
  }

  // ---------------------------------------------------------------- refusals

  predicate JobFull(c: Config, t: Table, job: Job) {
    c.caps.activePerJob > 0 && |ActiveFor(t, job.product, job.server)| == c.caps.activePerJob
  }

  predicate ChannelFull(c: Config, t: Table, job: Job) {
    c.caps.runningPerChannel > 0 && |BusyIn(t, job.channel)| == c.caps.runningPerChannel
  }

  predicate QueueFull(c: Config, t: Table, job: Job) {
    c.caps.queuedPerChannel > 0 && |QueuedIn(t, job.channel)| >= c.caps.queuedPerChannel
  }

  /**
   Every answer to a valid insert, in terms of the run so far: a duplicate exactly when the identifier
   was accepted before, and a refusal only ever at a cap that is exactly full.
   */
  lemma InsertAnswersExactly(c: Config, es: seq<Event>, ts: seq<Table>, n: nat)
    requires IsRun(c, es, ts) && n < |es| && es[n].Inserted? && ValidateJob(es[n].job).Ok?
    ensures var job, t, answer := es[n].job, ts[n], es[n].answer;
            var seen := SeenBefore(es, n, job.id);
            && (answer == Ok(Duplicate) <==> seen)
            && (answer == Ok(JobAtCapacity) <==> !seen && JobFull(c, t, job))
            && (answer == Ok(ChannelBusy) <==>
                  !seen && !JobFull(c, t, job) && es[n].dispatched && ChannelFull(c, t, job))
            && (answer == Ok(ChannelQueueFull) <==>
                  !seen && !JobFull(c, t, job) && !es[n].dispatched && QueueFull(c, t, job))
  {
    var job := es[n].job;
    SeenIsStored(c, es, ts, n, job.id);
    assert StepAt(c, es, ts, n);
    if c.caps.activePerJob > 0 { ActiveCapHolds(c, es, ts, n, job.product, job.server); }
    if c.caps.runningPerChannel > 0 { RunningCapHolds(c, es, ts, n, job.channel); }
  }

  // ---------------------------------------------------------------- the backlog

  /** Rows that are waiting, or that could be sent back to wait. */
  function Backlog(t: Table, ch: string): set<string> { QueuedIn(t, ch) + LeasedIn(t, ch) }

  lemma BacklogSize(t: Table, ch: string)
    ensures |Backlog(t, ch)| == |QueuedIn(t, ch)| + |LeasedIn(t, ch)|
  {
    assert QueuedIn(t, ch) !! LeasedIn(t, ch);
  }

  /** Claiming and requeueing move rows about inside the backlog, they never bring one in. */
  lemma ChangeKeepsOutsiders(c: Config, e: Event, id: string, r: Row, r': Row)
    requires RowChange(c, e, id, r, r') && Shaped(r, c.maxAttempts)
    ensures r'.job.channel == r.job.channel
    ensures r'.state.Queued? || (Busy(r'.state) && r'.lease.Some?) ==>
              r.state.Queued? || (Busy(r.state) && r.lease.Some?)
  {
  }

  predicate EnqueuesIn(e: Event, ch: string) {
    e.Inserted? && e.answer == Ok(Accepted) && !e.dispatched && e.job.channel == ch
  }

  /** Only an accepted enqueue adds to the backlog, and it adds one row. */
  lemma BacklogGrowsOnlyByEnqueue(c: Config, es: seq<Event>, ts: seq<Table>, n: nat, ch: string)
    requires IsRun(c, es, ts) && n < |es|
    ensures |Backlog(ts[n + 1], ch)| <= |Backlog(ts[n], ch)| + if EnqueuesIn(es[n], ch) then 1 else 0
  {
    var t, e, t' := ts[n], es[n], ts[n + 1];
    RunStep(c, es, ts, n);
    forall id | id in Backlog(t', ch) && id in t ensures id in Backlog(t, ch) {
      EveryRowIsShaped(c, es, ts, n, id);
      ChangeKeepsOutsiders(c, e, id, t[id], t'[id]);
    }
    if EnqueuesIn(e, ch) {
      OneMoreSize(Backlog(t', ch), Backlog(t, ch), e.job.id);
    } else {
      SubsetSize(Backlog(t', ch), Backlog(t, ch));
    }
  }

  lemma EnqueueSawRoom(c: Config, t: Table, e: Event, t': Table, ch: string)
    requires Step(c, t, e, t') && EnqueuesIn(e, ch) && c.caps.queuedPerChannel > 0
    ensures |QueuedIn(t, ch)| < c.caps.queuedPerChannel
  {
  }

  lemma EnqueueLeavesRoom(c: Config, es: seq<Event>, ts: seq<Table>, n: nat, ch: string)
    requires IsRun(c, es, ts) && n < |es| && EnqueuesIn(es[n], ch)
    requires c.caps.queuedPerChannel > 0 && c.caps.runningPerChannel > 0
    ensures |Backlog(ts[n], ch)| < c.caps.queuedPerChannel + c.caps.runningPerChannel
  {
    BacklogSize(ts[n], ch);
    RunningCapHolds(c, es, ts, n, ch);
    SubsetSize(LeasedIn(ts[n], ch), BusyIn(ts[n], ch));
    assert StepAt(c, es, ts, n);
    EnqueueSawRoom(c, ts[n], es[n], ts[n + 1], ch);
  }

  /** The queue and the leased rows of a channel together. */
  function Load(t: Table, ch: string): nat { |QueuedIn(t, ch)| + |LeasedIn(t, ch)| }

  lemma NoLoadAtFirst(ch: string)
    ensures Load(map[], ch) == 0
  {
    assert QueuedIn(map[], ch) == {} && LeasedIn(map[], ch) == {};
  }

  lemma StepKeepsLoadWithin(c: Config, es: seq<Event>, ts: seq<Table>, n: nat, ch: string)
    requires IsRun(c, es, ts) && n < |es|
    requires c.caps.queuedPerChannel > 0 && c.caps.runningPerChannel > 0
    requires Load(ts[n], ch) <= c.caps.queuedPerChannel + c.caps.runningPerChannel
    ensures Load(ts[n + 1], ch) <= c.caps.queuedPerChannel + c.caps.runningPerChannel
  {
    BacklogGrowsOnlyByEnqueue(c, es, ts, n, ch);
    BacklogSize(ts[n], ch);
    BacklogSize(ts[n + 1], ch);
    if EnqueuesIn(es[n], ch) {
      EnqueueLeavesRoom(c, es, ts, n, ch);
    }
  }

  /**
   Reaping never looks at the queued cap, so the queue itself can grow past it; what is conserved is
   the queue together with the leased rows, which never exceed the two caps added up.
   */
  lemma {:induction false} BacklogIsBounded(c: Config, es: seq<Event>, ts: seq<Table>, n: nat, ch: string)
    requires IsRun(c, es, ts) && n <= |es|
    requires c.caps.queuedPerChannel > 0 && c.caps.runningPerChannel > 0
    ensures Load(ts[n], ch) <= c.caps.queuedPerChannel + c.caps.runningPerChannel
    decreases n
  {
    if n == 0 {
      NoLoadAtFirst(ch);
    } else {
      BacklogIsBounded(c, es, ts, n - 1, ch);
      StepKeepsLoadWithin(c, es, ts, n - 1, ch);
    }
  }
}
