/** What every caller is told, in terms of the calls before it: inserts, claims, and the `results` command. */
module Answers {
  import opened Common
  import opened Jobs
  import opened Table
  import opened Runs
  import opened RowLife
  import opened Histories
  import opened CapRuns
  import opened QueueRuns
  import opened Ledger

  // ---------------------------------------------------------------- the caps

  /** The jobs of a channel that are with a runner. */
  function OutOn(c: Config, es: seq<Event>, n: nat, ch: string): set<string>
    requires n <= |es|
  {
    set i | 0 <= i < n && es[i].Inserted? && Accepts(es[i], es[i].job.id)
            && es[i].job.channel == ch && HandAt(c, es, n, es[i].job.id).Out?
      :: es[i].job.id
  }

  lemma OutIsLeased(c: Config, es: seq<Event>, ts: seq<Table>, n: nat, ch: string)
    requires IsRun(c, es, ts) && n <= |es|
    ensures LeasedIn(ts[n], ch) == OutOn(c, es, n, ch)
  {
    forall id ensures id in LeasedIn(ts[n], ch) <==> id in OutOn(c, es, n, ch) {
      RowsAndInserts(c, es, ts, n, id);
      if id in ts[n] {
        HandsAreInTheTable(c, es, ts, n, id);
        EveryRowIsShaped(c, es, ts, n, id);
      }
    }
  }

  /**
   Every cap, over the calls alone: jobs of a (product, server) accepted and not ended, jobs of a channel
   that hold a slot, jobs of a channel that wait or are out.
   */
  lemma CapsHoldOverTheCalls(
    c: Config, es: seq<Event>, ts: seq<Table>, n: nat, product: string, server: string, ch: string)
    requires IsRun(c, es, ts) && n <= |es|
    ensures c.caps.activePerJob > 0 ==> |OpenFor(c, es, n, product, server)| <= c.caps.activePerJob
    ensures c.caps.runningPerChannel > 0 ==> |OccupiedOn(c, es, n, ch)| <= c.caps.runningPerChannel
    ensures c.caps.queuedPerChannel > 0 && c.caps.runningPerChannel > 0 ==>
              |WaitingOn(c, es, n, ch)| + |OutOn(c, es, n, ch)| <= c.caps.queuedPerChannel + c.caps.runningPerChannel
    ensures c.caps.queuedPerChannel > 0 && c.maxAttempts <= 1 ==>
              |WaitingOn(c, es, n, ch)| <= c.caps.queuedPerChannel
  {
    OpenIsActive(c, es, ts, n, product, server);
    OccupiedIsBusy(c, es, ts, n, ch);
    WaitingIsQueued(c, es, ts, n, ch);
    OutIsLeased(c, es, ts, n, ch);
    if c.caps.activePerJob > 0 { ActiveCapHolds(c, es, ts, n, product, server); }
    if c.caps.runningPerChannel > 0 { RunningCapHolds(c, es, ts, n, ch); }
    if c.caps.queuedPerChannel > 0 && c.caps.runningPerChannel > 0 { BacklogIsBounded(c, es, ts, n, ch); }
    if c.caps.queuedPerChannel > 0 && c.maxAttempts <= 1 { QueuedCapHoldsWithoutRetries(c, es, ts, n, ch); }
  }

  // ---------------------------------------------------------------- inserts

  /** Every field that is checked fits, and there is an identifier. */
  predicate WellFormed(job: Job) {
    && job.id != "" && |job.id| <= 200 && |job.product| <= 200 && |job.server| <= 200
    && |job.channel| <= 200 && |job.user| <= 200
    && (job.select.Some? ==> |job.select.value| <= 200) && (job.marker.Some? ==> |job.marker.value| <= 200)
  }

  /** Why an insert after these calls is refused, if it is: the first of these that holds. */
  datatype Obstacle = NoObstacle | Malformed | Seen | JobFull | ChannelFull | QueueFull

  function ObstacleTo(c: Config, es: seq<Event>, n: nat, job: Job, dispatched: bool): Obstacle
    requires n <= |es|
  {
    var k, q, r := c.caps.activePerJob, c.caps.queuedPerChannel, c.caps.runningPerChannel;
    if !WellFormed(job) then Malformed
    else if SeenBefore(es, n, job.id) then Seen
    else if k > 0 && |OpenFor(c, es, n, job.product, job.server)| == k then Obstacle.JobFull
    else if dispatched && r > 0 && |OccupiedOn(c, es, n, job.channel)| == r then Obstacle.ChannelFull
    else if !dispatched && q > 0 && |WaitingOn(c, es, n, job.channel)| >= q then Obstacle.QueueFull
    else NoObstacle
  }

  predicate AnswerFits(answer: Result<EnqueueResult>, o: Obstacle) {
    match o
    case NoObstacle => answer == Ok(Accepted)
    case Malformed => answer.StoreError?
    case Seen => answer == Ok(Duplicate)
    case JobFull => answer == Ok(JobAtCapacity)
    case ChannelFull => answer == Ok(ChannelBusy)
    case QueueFull => answer == Ok(ChannelQueueFull)
  }

  /** The answer to any insert, from the calls before it: accepted exactly when nothing stands in its way. */
  lemma InsertsAreAnsweredFromTheCalls(c: Config, es: seq<Event>, ts: seq<Table>, n: nat)
    requires IsRun(c, es, ts) && n < |es| && es[n].Inserted?
    ensures AnswerFits(es[n].answer, ObstacleTo(c, es, n, es[n].job, es[n].dispatched))
  {
    var job := es[n].job;
    assert StepAt(c, es, ts, n);
    ValidJobsExactly(job);
    if ValidateJob(job).Ok? {
      InsertAnswersExactly(c, es, ts, n);
      OpenIsActive(c, es, ts, n, job.product, job.server);
      OccupiedIsBusy(c, es, ts, n, job.channel);
      WaitingIsQueued(c, es, ts, n, job.channel);
    }
  }

  // ---------------------------------------------------------------- claims

  /** Waiting, once whatever is past its time at this reading has been put back. */
  predicate WaitsAt(c: Config, es: seq<Event>, n: nat, id: string, now: real)
    requires n <= |es|
  {
    && SeenBefore(es, n, id) && !Sent(es, n, id) && !Ended(c, es, n, id)
    && (HandAt(c, es, n, id).Out? ==> HandAt(c, es, n, id).until < now && ClaimsOf(es, n, id) < c.maxAttempts)
  }

  function OccupiedOnAt(c: Config, es: seq<Event>, n: nat, ch: string, now: real): set<string>
    requires n <= |es|
  {
    set i | 0 <= i < n && es[i].Inserted? && Accepts(es[i], es[i].job.id) && es[i].job.channel == ch
            && Occupies(c, es, n, es[i].job.id)
            && (HandAt(c, es, n, es[i].job.id).Out? ==> now <= HandAt(c, es, n, es[i].job.id).until)
      :: es[i].job.id
  }

  /** Call `m` accepted a job that a claim with these labels, at this reading, may be given after `n` calls. */
  predicate Obtainable(c: Config, es: seq<Event>, n: nat, m: nat, labels: seq<string>, now: real)
    requires n <= |es|
  {
    && m < n && es[m].Inserted? && Accepts(es[m], es[m].job.id) && WaitsAt(c, es, n, es[m].job.id, now)
    && ((forall x :: x in labels ==> x == "") || (es[m].job.server != "" && es[m].job.server in labels))
    && (c.caps.runningPerChannel > 0 ==> |OccupiedOnAt(c, es, n, es[m].job.channel, now)| < c.caps.runningPerChannel)
  }

  lemma ReapedRow(c: Config, es: seq<Event>, ts: seq<Table>, n: nat, id: string, now: real)
    requires IsRun(c, es, ts) && n <= |es| && id in ts[n]
    ensures var r := ReapRow(ts[n][id], now, c.maxAttempts);
            && r.job == ts[n][id].job && r.createdAt == ts[n][id].createdAt
            && (r.state.Queued? <==> WaitsAt(c, es, n, id, now))
            && (Busy(r.state) <==>
                  && Occupies(c, es, n, id)
                  && (HandAt(c, es, n, id).Out? ==> now <= HandAt(c, es, n, id).until))
  {
    StatesInThree(c, es, ts, n, id);
    HandsAreInTheTable(c, es, ts, n, id);
    AttemptsCountClaims(c, es, ts, n, id);
    DispatchesAreNeverQueued(c, es, ts, n, id);
    SeenIsStored(c, es, ts, n, id);
  }

  lemma ReapedChannel(c: Config, es: seq<Event>, ts: seq<Table>, n: nat, ch: string, now: real)
    requires IsRun(c, es, ts) && n <= |es|
    ensures BusyIn(AfterReap(ts[n], now, c.maxAttempts), ch) == OccupiedOnAt(c, es, n, ch, now)
  {
    var busy := BusyIn(AfterReap(ts[n], now, c.maxAttempts), ch);
    forall id ensures id in busy <==> id in OccupiedOnAt(c, es, n, ch, now) {
      RowsAndInserts(c, es, ts, n, id);
      if id in ts[n] {
        ReapedRow(c, es, ts, n, id, now);
      }
    }
  }

  lemma TakeableIsObtainable(c: Config, es: seq<Event>, ts: seq<Table>, n: nat, m: nat, labels: seq<string>, now: real)
    requires IsRun(c, es, ts) && m < n <= |es| && es[m].Inserted? && Accepts(es[m], es[m].job.id)
    ensures var reaped, id := AfterReap(ts[n], now, c.maxAttempts), es[m].job.id;
            && id in reaped && reaped[id].createdAt == es[m].now && reaped[id].job == es[m].job
            && (Takeable(c, reaped, labels, id) <==> Obtainable(c, es, n, m, labels, now))
  {
    RowsKeepTheirInsert(c, es, ts, m, n, es[m].job.id);
    ReapedRow(c, es, ts, n, es[m].job.id, now);
    ReapedChannel(c, es, ts, n, es[m].job.channel, now);
  }

  /**
   A claim comes back empty exactly when nothing can be had. Otherwise it is given, of all the jobs that
   can be had, one whose accepting insert read the earliest time: first asked for, first handed out.
   */
  lemma ClaimsTakeTheOldestInsert(c: Config, es: seq<Event>, ts: seq<Table>, n: nat)
    requires IsRun(c, es, ts) && n < |es| && es[n].ClaimAsked?
    ensures es[n].handed.None? <==> forall m: nat :: !Obtainable(c, es, n, m, es[n].labels, es[n].now)
    ensures es[n].handed.Some? ==>
              exists m: nat ::
                && Obtainable(c, es, n, m, es[n].labels, es[n].now)
                && es[n].handed.value == es[m].job.(jobDef := None)
                && forall k: nat :: Obtainable(c, es, n, k, es[n].labels, es[n].now) ==> es[m].now <= es[k].now
  {
    var labels, now := es[n].labels, es[n].now;
    var reaped := AfterReap(ts[n], now, c.maxAttempts);
    ClaimsAreWorkConserving(c, es, ts, n);
    forall k: nat | k < n && es[k].Inserted? && Accepts(es[k], es[k].job.id)
      ensures var id := es[k].job.id;
              && id in reaped && reaped[id].createdAt == es[k].now && reaped[id].job == es[k].job
              && (Takeable(c, reaped, labels, id) <==> Obtainable(c, es, n, k, labels, now))
    {
      TakeableIsObtainable(c, es, ts, n, k, labels, now);
    }
    if es[n].handed.Some? {
      var m := PayloadIsTheAcceptedJob(c, es, ts, n);
      assert Obtainable(c, es, n, m, labels, now);
    } else {
      assert forall k: nat :: k < n && es[k].Inserted? && Accepts(es[k], es[k].job.id) ==>
               !Takeable(c, reaped, labels, es[k].job.id);
    }
    forall id | Takeable(c, reaped, labels, id) ensures exists m: nat :: Obtainable(c, es, n, m, labels, now) {
      var m := RowsCarryTheirJob(c, es, ts, n, id);
      assert Obtainable(c, es, n, m, labels, now);
    }
  }

  // ---------------------------------------------------------------- results

  /**
   The answer of `results`, from the calls: why it never started, what its result reported, or else its
   state, its holder if any, and how long ago it was asked for. A finish time of zero reads as none.
   */
  lemma ResultsAreDescribedFromTheCalls(
    c: Config, es: seq<Event>, ts: seq<Table>, m: nat, n: nat, id: string, now: real)
    requires IsRun(c, es, ts) && m < n <= |es| && Accepts(es[m], id)
    ensures id in ts[n]
    ensures var d := Describe(ts[n][id], now);
            && (forall i :: 0 <= i < n && MarkOf(es[i], id) ==>
                  d == NeverStarted(if es[i].reason == "" then "the dispatch did not go through"
                                    else Shortened(es[i].reason)))
            && (forall i :: 0 <= i < n && ResultOf(es[i], id) && es[i].now != 0.0 ==>
                  d == Finished(if es[i].outcome.exitCode == 0 then Done else Failed, es[i].outcome.passed,
                                es[i].outcome.failed, es[i].outcome.skipped, es[i].outcome.duration,
                                Some(es[i].runner)))
            && (forall i :: 0 <= i < n && ResultOf(es[i], id) && es[i].now == 0.0 ==>
                  d == Waiting(if es[i].outcome.exitCode == 0 then Done else Failed, Some(es[i].runner),
                               now - es[m].now))
            && (forall i :: 0 <= i < n && GivenUp(c, es, i, id) ==>
                  d == Waiting(Abandoned, Some(HandAt(c, es, i, id).runner), now - es[m].now))
            && (!Ended(c, es, n, id) ==>
                  d == match HandAt(c, es, n, id)
                       case Out(runner, _, started) =>
                         Waiting(if started then Running else Claimed, Some(runner), now - es[m].now)
                       case NotOut =>
                         Waiting(if es[m].dispatched then Running else Queued, None, now - es[m].now))
  {
    RowsKeepTheirInsert(c, es, ts, m, n, id);
    EndsAreWhatTheTableSays(c, es, ts, n, id);
    HandsAreInTheTable(c, es, ts, n, id);
    StatesAreTheHistory(c, es, ts, n, id);
    EveryRowIsShaped(c, es, ts, n, id);
    forall i | 0 <= i < n && Ends(c, es, i, id) ensures SaysEnd(c, es, i, id, ts[n][id]) {
      EndsAreExclusive(c, es, ts, i, id);
    }
    assert forall i :: 0 <= i < n && (ResultOf(es[i], id) || MarkOf(es[i], id) || GivenUp(c, es, i, id)) ==>
             Ends(c, es, i, id);
    forall k | 0 <= k < n && Accepts(es[k], id) ensures k == m {
      if k < m { AcceptedOnce(c, es, ts, k, m, id); }
      if m < k { AcceptedOnce(c, es, ts, m, k, id); }
    }
  }
}
