/**
 The slots dispatched runs take. A dispatch that went through is never heard of again, so its row is
 running for good and keeps its place under every cap: enough of them close a channel, or a job.
 */
module Slots {
  import opened Common
  import opened Jobs
  import opened Table
  import opened Runs
  import opened RowLife
  import opened Histories
  import opened CapRuns

  /** From call `m` up to call `n` no failure mark was taken for any of these jobs. */
  predicate NoneMarked(es: seq<Event>, m: nat, n: nat, ids: set<string>)
    requires n <= |es|
  {
    forall i, id :: m <= i < n && id in ids ==> !MarkOf(es[i], id)
  }

  predicate AllDispatched(t: Table, ids: set<string>) { forall id :: id in ids ==> id in t && Dispatched(t[id]) }

  lemma {:induction false} DispatchesStayAsTheyAre(
    c: Config, es: seq<Event>, ts: seq<Table>, m: nat, n: nat, ids: set<string>)
    requires IsRun(c, es, ts) && m <= n <= |es| && AllDispatched(ts[m], ids) && NoneMarked(es, m, n, ids)
    ensures forall id :: id in ids ==> id in ts[n] && ts[n][id] == ts[m][id]
    decreases n
  {
    if m < n {
      DispatchesStayAsTheyAre(c, es, ts, m, n - 1, ids);
      forall id | id in ids ensures id in ts[n] && ts[n][id] == ts[m][id] {
        RowStep(c, es, ts, n - 1, id);
        EveryRowIsShaped(c, es, ts, n - 1, id);
        assert !MarkOf(es[n - 1], id);
      }
    }
  }

  predicate AllOnChannel(t: Table, ids: set<string>, ch: string) {
    forall id :: id in ids && id in t ==> t[id].job.channel == ch
  }

  /** As many dispatches as the cap allows, none marked as failed, are all that is ever busy on their channel. */
  lemma FullChannelStaysFull(c: Config, es: seq<Event>, ts: seq<Table>, m: nat, n: nat, ids: set<string>, ch: string)
    requires IsRun(c, es, ts) && m <= n <= |es| && AllDispatched(ts[m], ids) && NoneMarked(es, m, n, ids)
    requires AllOnChannel(ts[m], ids, ch) && |ids| == c.caps.runningPerChannel > 0
    ensures BusyIn(ts[n], ch) == ids && AllDispatched(ts[n], ids)
  {
    DispatchesStayAsTheyAre(c, es, ts, m, n, ids);
    RunningCapHolds(c, es, ts, n, ch);
    assert ids <= BusyIn(ts[n], ch);
    SameSize(ids, BusyIn(ts[n], ch));
  }

  /**
   R dispatches that went through close their channel for the rest of the run: no later dispatch on it
   is accepted, and nothing queued on it is ever handed out.
   */
  lemma DispatchesCloseTheChannel(
    c: Config, es: seq<Event>, ts: seq<Table>, m: nat, n: nat, ids: set<string>, ch: string)
    requires IsRun(c, es, ts) && m <= n < |es| && AllDispatched(ts[m], ids) && NoneMarked(es, m, n, ids)
    requires AllOnChannel(ts[m], ids, ch) && |ids| == c.caps.runningPerChannel > 0
    ensures es[n].Inserted? && es[n].dispatched && es[n].job.channel == ch && ValidateJob(es[n].job).Ok? ==>
              if SeenBefore(es, n, es[n].job.id) then es[n].answer == Ok(Duplicate)
              else if JobFull(c, ts[n], es[n].job) then es[n].answer == Ok(JobAtCapacity)
              else es[n].answer == Ok(ChannelBusy)
    ensures es[n].ClaimAsked? && es[n].handed.Some? ==> es[n].handed.value.channel != ch
  {
    FullChannelStaysFull(c, es, ts, m, n, ids, ch);
    if es[n].Inserted? && ValidateJob(es[n].job).Ok? {
      InsertAnswersExactly(c, es, ts, n);
    } else if es[n].ClaimAsked? && es[n].handed.Some? {
      ClaimLeavesDispatches(c, es, ts, n, ids, ch);
    }
  }

  /** A reap frees no dispatched row's slot, so the claim after it finds the channel full. */
  lemma ClaimLeavesDispatches(c: Config, es: seq<Event>, ts: seq<Table>, n: nat, ids: set<string>, ch: string)
    requires IsRun(c, es, ts) && n < |es| && es[n].ClaimAsked? && es[n].handed.Some?
    requires BusyIn(ts[n], ch) == ids && AllDispatched(ts[n], ids) && |ids| == c.caps.runningPerChannel > 0
    ensures es[n].handed.value.channel != ch
  {
    var reaped := AfterReap(ts[n], es[n].now, c.maxAttempts);
    assert StepAt(c, es, ts, n);
    forall id | id in ids ensures id in BusyIn(reaped, ch) {
      EveryRowIsShaped(c, es, ts, n, id);
    }
    SubsetSize(ids, BusyIn(reaped, ch));
    assert Eligible(reaped, Request(c, es[n].runner, es[n].labels, es[n].now), es[n].handed.value.id);
  }

  predicate AllFor(t: Table, ids: set<string>, product: string, server: string) {
    forall id :: id in ids && id in t ==> t[id].job.product == product && t[id].job.server == server
  }

  /**
   K dispatches of one (product, server) that went through close it for the rest of the run, under the
   default cap of one already the first: no later run of it is accepted by either path.
   */
  lemma DispatchesCloseTheJob(
    c: Config, es: seq<Event>, ts: seq<Table>, m: nat, n: nat, ids: set<string>, product: string, server: string)
    requires IsRun(c, es, ts) && m <= n < |es| && AllDispatched(ts[m], ids) && NoneMarked(es, m, n, ids)
    requires AllFor(ts[m], ids, product, server) && |ids| == c.caps.activePerJob > 0
    ensures ActiveFor(ts[n], product, server) == ids
    ensures es[n].Inserted? && es[n].job.product == product && es[n].job.server == server
            && ValidateJob(es[n].job).Ok? ==>
              es[n].answer == Ok(if SeenBefore(es, n, es[n].job.id) then Duplicate else JobAtCapacity)
  {
    DispatchesStayAsTheyAre(c, es, ts, m, n, ids);
    ActiveCapHolds(c, es, ts, n, product, server);
    assert ids <= ActiveFor(ts[n], product, server);
    SameSize(ids, ActiveFor(ts[n], product, server));
    if es[n].Inserted? && ValidateJob(es[n].job).Ok? {
      InsertAnswersExactly(c, es, ts, n);
    }
  }
}
