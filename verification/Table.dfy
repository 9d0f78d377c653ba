/**
 The `jobs` table as a value, the counts the caps are measured over, and what each store
 operation does to the whole table. Everything else in the project is stated against this.
 */
module Table {
  import opened Common
  import opened Jobs

  type Table = map<string, Row>

  /** The primary key is the job's own identifier. */
  predicate Keyed(t: Table) { forall id :: id in t ==> t[id].job.id == id }

  // ---------------------------------------------------------------- counts

  function ActiveFor(t: Table, product: string, server: string): set<string> {
    set id | id in t && t[id].job.product == product && t[id].job.server == server && Active(t[id].state)
  }

  function QueuedIn(t: Table, channel: string): set<string> {
    set id | id in t && t[id].job.channel == channel && t[id].state.Queued?
  }

  function BusyIn(t: Table, channel: string): set<string> {
    set id | id in t && t[id].job.channel == channel && Busy(t[id].state)
  }

  /** Busy because a runner holds it, as opposed to dispatched by this process. */
  function LeasedIn(t: Table, channel: string): set<string> {
    set id | id in t && t[id].job.channel == channel && Busy(t[id].state) && t[id].lease.Some?
  }

  // ---------------------------------------------------------------- insert

  /** Which answer `_insert` gives to a valid job: the first of its checks that refuses. */
  function Admission(t: Table, job: Job, dispatched: bool, caps: Caps): EnqueueResult {
    if job.id in t then Duplicate
    else if caps.activePerJob > 0 && |ActiveFor(t, job.product, job.server)| >= caps.activePerJob then JobAtCapacity
    else if !dispatched && caps.queuedPerChannel > 0 && |QueuedIn(t, job.channel)| >= caps.queuedPerChannel
    then ChannelQueueFull
    else if dispatched && caps.runningPerChannel > 0 && |BusyIn(t, job.channel)| >= caps.runningPerChannel
    then ChannelBusy
    else Accepted
  }

  function InsertAnswer(t: Table, job: Job, dispatched: bool, caps: Caps): Result<EnqueueResult> {
    match ValidateJob(job)
    case StoreError(m) => StoreError(m)
    case Ok(_) => Ok(Admission(t, job, dispatched, caps))
  }

  function AfterInsert(t: Table, job: Job, dispatched: bool, mode: string, caps: Caps, now: real): Table {
    if InsertAnswer(t, job, dispatched, caps) == Ok(Accepted)
    then t[job.id := NewRow(job, dispatched, mode, now)]
    else t
  }

  // ---------------------------------------------------------------- reap

  function AfterReap(t: Table, now: real, maxAttempts: int): Table {
    map id | id in t :: ReapRow(t[id], now, maxAttempts)
  }

  /** The first UPDATE of `_reap`. */
  function AfterRequeue(t: Table, now: real, maxAttempts: int): Table {
    map id | id in t :: if Expired(t[id], now) && t[id].attempts < maxAttempts then Requeue(t[id]) else t[id]
  }

  /** The second UPDATE of `_reap`. */
  function AfterAbandon(t: Table, now: real, maxAttempts: int): Table {
    map id | id in t :: if Expired(t[id], now) && t[id].attempts >= maxAttempts then Abandon(t[id]) else t[id]
  }

  /** The two UPDATEs of `_reap`, run one after the other, decide every expired row by its attempts at once. */
  lemma TwoUpdatesAreOnePartition(t: Table, now: real, maxAttempts: int)
    ensures AfterAbandon(AfterRequeue(t, now, maxAttempts), now, maxAttempts) == AfterReap(t, now, maxAttempts)
    ensures AfterRequeue(AfterAbandon(t, now, maxAttempts), now, maxAttempts) == AfterReap(t, now, maxAttempts)
  {
    var two := AfterAbandon(AfterRequeue(t, now, maxAttempts), now, maxAttempts);
    var swapped := AfterRequeue(AfterAbandon(t, now, maxAttempts), now, maxAttempts);
    assert two.Keys == t.Keys && swapped.Keys == t.Keys;
    forall id | id in t ensures two[id] == ReapRow(t[id], now, maxAttempts) {}
    forall id | id in t ensures swapped[id] == ReapRow(t[id], now, maxAttempts) {}
  }

  // ---------------------------------------------------------------- claim

  datatype ClaimRequest = ClaimRequest(
    runner: string, labels: seq<string>, leaseSeconds: real, maxAttempts: int, caps: Caps, now: real)

  function Wanted(labels: seq<string>): set<string> { set x | x in labels && x != "" }

  /** No labels means a general-purpose server, which takes anything. */
  predicate LabelsAdmit(wanted: set<string>, server: string) { wanted == {} || server in wanted }

  predicate BelowRunningCap(t: Table, channel: string, cap: int) { cap > 0 ==> |BusyIn(t, channel)| < cap }

  /** A row this request may take out of a table that has just been reaped. */
  predicate Eligible(t: Table, q: ClaimRequest, id: string) {
    && id in t && t[id].state.Queued?
    && LabelsAdmit(Wanted(q.labels), t[id].job.server)
    && BelowRunningCap(t, t[id].job.channel, q.caps.runningPerChannel)
  }

  predicate OldestEligible(t: Table, q: ClaimRequest, id: string) {
    && Eligible(t, q, id)
    && forall other :: other in t && Eligible(t, q, other) ==> t[id].createdAt <= t[other].createdAt
  }

  /** Among any rows there is one created no later than the rest. */
  lemma OldestExists(t: Table, ids: set<string>)
    requires ids != {} && forall id :: id in ids ==> id in t
    ensures exists id :: id in ids && forall o :: o in ids ==> t[id].createdAt <= t[o].createdAt
  {
    var x :| x in ids;
    if ids - {x} != {} {
      OldestExists(t, ids - {x});
      var y :| y in ids - {x} && forall o :: o in ids - {x} ==> t[y].createdAt <= t[o].createdAt;
      var least := if t[x].createdAt <= t[y].createdAt then x else y;
      assert forall o :: o in ids ==> o == x || o in ids - {x};
      assert least in ids && forall o :: o in ids ==> t[least].createdAt <= t[o].createdAt;
    } else {
      assert ids == {x};
    }
  }

  function AfterTake(t: Table, q: ClaimRequest, id: string): Table
    requires id in t
  {
    t[id := Take(t[id], q.runner, q.now + q.leaseSeconds)]
  }

  /**
   What a claim does: reap, then hand out an oldest eligible row, or nothing exactly when no row is
   eligible. A relation, because rows created at the same instant may be taken in either order.
   */
  predicate ClaimStep(t: Table, q: ClaimRequest, t': Table, handed: Option<Job>) {
    var reaped := AfterReap(t, q.now, q.maxAttempts);
    match handed
    case None =>
      && t' == reaped
      && forall id :: id in reaped ==> !Eligible(reaped, q, id)
    case Some(job) =>
      && OldestEligible(reaped, q, job.id)
      && job == Handed(reaped[job.id])
      && t' == AfterTake(reaped, q, job.id)
  }

  // ---------------------------------------------------------------- the runner's calls

  predicate StartApplies(t: Table, id: string, runner: string) { id in t && CanStart(t[id], runner) }

  function AfterStart(t: Table, id: string, runner: string, now: real): Table {
    if StartApplies(t, id, runner) then t[id := Start(t[id], now)] else t
  }

  predicate FinishApplies(t: Table, id: string, runner: string) { id in t && HeldBy(t[id], runner) }

  function AfterFinish(t: Table, id: string, runner: string, o: Outcome, now: real): Table {
    if FinishApplies(t, id, runner) then t[id := Finish(t[id], o, now)] else t
  }

  predicate MarkApplies(t: Table, id: string) { id in t && CanMark(t[id]) }

  function AfterMark(t: Table, id: string, reason: string, now: real): Table {
    if MarkApplies(t, id) then t[id := Mark(t[id], reason, now)] else t
  }

  function RowsHeldBy(t: Table, runner: string): set<string> { set id | id in t && HeldBy(t[id], runner) }

  function AfterRenew(t: Table, runner: string, expires: real): Table {
    map id | id in t :: if HeldBy(t[id], runner) then Renew(t[id], expires) else t[id]
  }
}
