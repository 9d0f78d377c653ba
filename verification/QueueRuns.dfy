/**
 The queued cap over whole serial runs. Enqueueing respects it; reaping puts rows back without asking.
 So the queue keeps to its cap exactly when nothing is ever put back, and otherwise can reach the sum
 of the two channel caps.
 */
module QueueRuns {
  import opened Common
  import opened Jobs
  import opened Table
  import opened Runs
  import opened RowLife
  import opened CapRuns
  import opened Witnesses

  // ---------------------------------------------------------------- one attempt: nothing is put back

  lemma QueueGrowsOnlyByEnqueue(c: Config, es: seq<Event>, ts: seq<Table>, n: nat, ch: string)
    requires IsRun(c, es, ts) && n < |es| && c.maxAttempts <= 1
    ensures |QueuedIn(ts[n + 1], ch)| <= |QueuedIn(ts[n], ch)| + if EnqueuesIn(es[n], ch) then 1 else 0
  {
    var t, e, t' := ts[n], es[n], ts[n + 1];
    RunStep(c, es, ts, n);
    forall id | id in QueuedIn(t', ch) && id in t ensures id in QueuedIn(t, ch) {
      EveryRowIsShaped(c, es, ts, n, id);
      assert RowChange(c, e, id, t[id], t'[id]);
    }
    if EnqueuesIn(e, ch) {
      OneMoreSize(QueuedIn(t', ch), QueuedIn(t, ch), e.job.id);
    } else {
      SubsetSize(QueuedIn(t', ch), QueuedIn(t, ch));
    }
  }

  /** When a job gets one attempt only, the queue never exceeds its cap. */
  lemma {:induction false} QueuedCapHoldsWithoutRetries(c: Config, es: seq<Event>, ts: seq<Table>, n: nat, ch: string)
    requires IsRun(c, es, ts) && n <= |es| && c.caps.queuedPerChannel > 0 && c.maxAttempts <= 1
    ensures |QueuedIn(ts[n], ch)| <= c.caps.queuedPerChannel
    decreases n
  {
    if n == 0 {
      assert QueuedIn(ts[0], ch) == {};
    } else {
      QueuedCapHoldsWithoutRetries(c, es, ts, n - 1, ch);
      QueueGrowsOnlyByEnqueue(c, es, ts, n - 1, ch);
      if EnqueuesIn(es[n - 1], ch) {
        assert StepAt(c, es, ts, n - 1);
        EnqueueSawRoom(c, ts[n - 1], es[n - 1], ts[n], ch);
      }
    }
  }

  // ---------------------------------------------------------------- a second attempt: the queue overflows

  /** No lease handed out at or before time zero lasts longer. */
  function LastExpiry(c: Config): real { if c.leaseSeconds > 0.0 then c.leaseSeconds else 0.0 }

  predicate FirstTime(c: Config, r: Row, low: real) {
    r.state.Queued? || (r.state.Claimed? && r.attempts == 1 && r.lease.Some? && low <= r.lease.value <= LastExpiry(c))
  }

  /** `q` rows wait and `k` are leased for the first time, none of whose leases has passed at `low`. */
  predicate Loaded(c: Config, t: Table, names: seq<string>, ch: string, q: nat, k: nat, low: real) {
    && low <= 0.0
    && (forall id :: id in t ==> t[id].job == JobOn(id, ch) && FirstTime(c, t[id], low))
    && (forall id :: id in t && t[id].state.Queued? ==> t[id].attempts == 0)
    && (forall i :: q + k <= i < |names| ==> names[i] !in t)
    && |QueuedIn(t, ch)| == q && |BusyIn(t, ch)| == k
  }

  predicate MayRetry(c: Config) { c.caps.queuedPerChannel > 0 && c.maxAttempts >= 2 }

  /** The running cap, if there is one, leaves room for `k` rows. */
  predicate RoomFor(c: Config, k: int) { c.caps.runningPerChannel > 0 ==> k <= c.caps.runningPerChannel }

  function EnqueueOf(name: string, ch: string): Event {
    Inserted(JobOn(name, ch), false, "test-server", 0.0, Ok(Accepted))
  }

  function WithQueued(t: Table, name: string, ch: string): Table {
    t[name := NewRow(JobOn(name, ch), false, "test-server", 0.0)]
  }

  lemma EnqueueIsAccepted(c: Config, t: Table, name: string, ch: string)
    requires name !in t && ValidateJob(JobOn(name, ch)).Ok?
    requires forall id :: id in t ==> t[id].job == JobOn(id, ch)
    requires |QueuedIn(t, ch)| < c.caps.queuedPerChannel
    ensures Step(c, t, EnqueueOf(name, ch), WithQueued(t, name, ch))
  {
    assert ActiveFor(t, name, "s") == {};
    assert Admission(t, JobOn(name, ch), false, c.caps) == Accepted;
  }

  lemma EnqueueAddsOneWaiting(t: Table, name: string, ch: string)
    requires name !in t
    ensures |QueuedIn(WithQueued(t, name, ch), ch)| == |QueuedIn(t, ch)| + 1
    ensures |BusyIn(WithQueued(t, name, ch), ch)| == |BusyIn(t, ch)|
  {
    assert QueuedIn(WithQueued(t, name, ch), ch) == QueuedIn(t, ch) + {name};
    assert BusyIn(WithQueued(t, name, ch), ch) == BusyIn(t, ch);
  }

  lemma LoadedAfterEnqueue(c: Config, t: Table, names: seq<string>, ch: string, q: nat, k: nat, low: real)
    requires Loaded(c, t, names, ch, q, k, low) && q + k < |names|
    requires forall i :: q + k < i < |names| ==> names[i] != names[q + k]
    ensures Loaded(c, WithQueued(t, names[q + k], ch), names, ch, q + 1, k, low)
  {
    var name := names[q + k];
    var t' := WithQueued(t, name, ch);
    assert name !in t;
    forall i | q + 1 + k <= i < |names| ensures names[i] !in t' {}
    EnqueueAddsOneWaiting(t, name, ch);
  }

  lemma EnqueueOne(c: Config, es: seq<Event>, ts: seq<Table>, names: seq<string>, ch: string, q: nat, k: nat, low: real)
    returns (es': seq<Event>, ts': seq<Table>)
    requires IsRun(c, es, ts) && Loaded(c, ts[|es|], names, ch, q, k, low)
    requires Usable(names, ch) && q + k < |names| && q < c.caps.queuedPerChannel
    ensures IsRun(c, es', ts') && Loaded(c, ts'[|es'|], names, ch, q + 1, k, low)
  {
    var t, name := ts[|es|], names[q + k];
    EnqueueIsAccepted(c, t, name, ch);
    LoadedAfterEnqueue(c, t, names, ch, q, k, low);
    ExtendRun(c, es, ts, EnqueueOf(name, ch), WithQueued(t, name, ch));
    es', ts' := es + [EnqueueOf(name, ch)], ts + [WithQueued(t, name, ch)];
  }

  lemma SomeRowIsOldest(c: Config, t: Table, q: ClaimRequest, ch: string) returns (id: string)
    requires forall id :: id in t ==> t[id].job.channel == ch
    requires QueuedIn(t, ch) != {} && Wanted(q.labels) == {} && BelowRunningCap(t, ch, q.caps.runningPerChannel)
    ensures id in t && OldestEligible(t, q, id)
  {
    OldestExists(t, QueuedIn(t, ch));
    id :| id in QueuedIn(t, ch) && forall o :: o in QueuedIn(t, ch) ==> t[id].createdAt <= t[o].createdAt;
  }

  /** Nothing has expired at `low`, so a claim there only takes. */
  lemma LowReapDoesNothing(c: Config, t: Table, names: seq<string>, ch: string, q: nat, k: nat, low: real)
    requires Loaded(c, t, names, ch, q, k, low)
    ensures AfterReap(t, low, c.maxAttempts) == t
  {
    assert AfterReap(t, low, c.maxAttempts).Keys == t.Keys;
  }

  /** How far back the next claim must read its clock. */
  function Lower(c: Config, low: real): real { if c.leaseSeconds < 0.0 then low + c.leaseSeconds else low }

  lemma ClaimMovesOneAcross(t: Table, id: string, runner: string, expires: real, ch: string)
    requires id in QueuedIn(t, ch)
    ensures var t' := t[id := Take(t[id], runner, expires)];
            |QueuedIn(t', ch)| == |QueuedIn(t, ch)| - 1 && |BusyIn(t', ch)| == |BusyIn(t, ch)| + 1
  {
    var t' := t[id := Take(t[id], runner, expires)];
    assert QueuedIn(t', ch) == QueuedIn(t, ch) - {id};
    assert BusyIn(t', ch) == BusyIn(t, ch) + {id};
  }

  lemma FirstTimeFurtherBack(c: Config, r: Row, low: real)
    requires low <= 0.0
    ensures FirstTime(c, r, low) ==> FirstTime(c, r, Lower(c, low))
    ensures r.state.Queued? && r.attempts == 0 ==> FirstTime(c, Take(r, "r", low + c.leaseSeconds), Lower(c, low))
  {
  }

  lemma LoadedAfterClaim(c: Config, t: Table, names: seq<string>, ch: string, q: nat, k: nat, low: real, id: string)
    requires Loaded(c, t, names, ch, q, k, low) && q > 0 && id in QueuedIn(t, ch)
    ensures Loaded(c, AfterTake(t, Request(c, "r", [], low), id), names, ch, q - 1, k + 1, Lower(c, low))
  {
    var t' := AfterTake(t, Request(c, "r", [], low), id);
    ClaimMovesOneAcross(t, id, "r", low + c.leaseSeconds, ch);
    forall o | o in t' ensures t'[o].job == JobOn(o, ch) && FirstTime(c, t'[o], Lower(c, low)) {
      FirstTimeFurtherBack(c, t[o], low);
    }
    assert t'.Keys == t.Keys;
  }

  lemma ClaimOne(c: Config, es: seq<Event>, ts: seq<Table>, names: seq<string>, ch: string, q: nat, k: nat, low: real)
    returns (es': seq<Event>, ts': seq<Table>)
    requires IsRun(c, es, ts) && Loaded(c, ts[|es|], names, ch, q, k, low)
    requires q > 0 && RoomFor(c, k + 1)
    ensures IsRun(c, es', ts') && Loaded(c, ts'[|es'|], names, ch, q - 1, k + 1, Lower(c, low))
  {
    var t := ts[|es|];
    var request := Request(c, "r", [], low);
    assert Wanted([]) == {};
    var id := SomeRowIsOldest(c, t, request, ch);
    LowReapDoesNothing(c, t, names, ch, q, k, low);
    LoadedAfterClaim(c, t, names, ch, q, k, low, id);
    var e := ClaimAsked("r", [], low, Some(Handed(t[id])));
    assert ClaimStep(t, request, AfterTake(t, request, id), e.handed);
    ExtendRun(c, es, ts, e, AfterTake(t, request, id));
    es', ts' := es + [e], ts + [AfterTake(t, request, id)];
  }

  lemma {:induction false} FillQueue(c: Config, names: seq<string>, ch: string, q: nat)
    returns (es: seq<Event>, ts: seq<Table>)
    requires Usable(names, ch) && q <= |names| && q <= c.caps.queuedPerChannel
    ensures IsRun(c, es, ts) && Loaded(c, ts[|es|], names, ch, q, 0, 0.0)
    decreases q
  {
    if q == 0 {
      es, ts := [], [map[]];
      assert QueuedIn(map[], ch) == {} && BusyIn(map[], ch) == {};
    } else {
      es, ts := FillQueue(c, names, ch, q - 1);
      es, ts := EnqueueOne(c, es, ts, names, ch, q - 1, 0, 0.0);
    }
  }

  /** A full queue beside `k` leased rows: claim one, enqueue one in its place, `k` times over. */
  lemma {:induction false} FillBoth(c: Config, names: seq<string>, ch: string, k: nat)
    returns (es: seq<Event>, ts: seq<Table>, low: real)
    requires MayRetry(c) && Usable(names, ch) && RoomFor(c, k) && c.caps.queuedPerChannel + k <= |names|
    ensures IsRun(c, es, ts) && Loaded(c, ts[|es|], names, ch, c.caps.queuedPerChannel, k, low)
    decreases k
  {
    var q := c.caps.queuedPerChannel;
    if k == 0 {
      es, ts := FillQueue(c, names, ch, q);
      low := 0.0;
    } else {
      es, ts, low := FillBoth(c, names, ch, k - 1);
      es, ts := ClaimOne(c, es, ts, names, ch, q, k - 1, low);
      low := Lower(c, low);
      es, ts := EnqueueOne(c, es, ts, names, ch, q - 1, k, low);
    }
  }

  lemma ReapPutsAllBack(c: Config, t: Table, names: seq<string>, ch: string, q: nat, k: nat, low: real)
    requires Loaded(c, t, names, ch, q, k, low) && c.maxAttempts >= 2
    ensures |QueuedIn(AfterReap(t, LastExpiry(c) + 1.0, c.maxAttempts), ch)| == q + k
  {
    assert QueuedIn(AfterReap(t, LastExpiry(c) + 1.0, c.maxAttempts), ch) == QueuedIn(t, ch) + BusyIn(t, ch);
    assert QueuedIn(t, ch) !! BusyIn(t, ch);
  }

  /** With a second attempt allowed, the queue can overflow by as many rows as the running cap lets out at once. */
  lemma QueueOverflows(c: Config, names: seq<string>, ch: string, k: nat) returns (es: seq<Event>, ts: seq<Table>)
    requires MayRetry(c) && Usable(names, ch) && RoomFor(c, k) && c.caps.queuedPerChannel + k <= |names|
    ensures IsRun(c, es, ts) && |QueuedIn(ts[|es|], ch)| == c.caps.queuedPerChannel + k
  {
    var low;
    es, ts, low := FillBoth(c, names, ch, k);
    ReapPutsAllBack(c, ts[|es|], names, ch, c.caps.queuedPerChannel, k, low);
    var e := Reaped(LastExpiry(c) + 1.0);
    var t' := AfterReap(ts[|es|], LastExpiry(c) + 1.0, c.maxAttempts);
    ExtendRun(c, es, ts, e, t');
    es, ts := es + [e], ts + [t'];
  }

  /** The queued cap is kept in every run exactly when a job gets one attempt only. */
  lemma QueuedCapIsKeptExactly(c: Config, names: seq<string>, ch: string)
    requires c.caps.queuedPerChannel > 0 && Usable(names, ch) && |names| == c.caps.queuedPerChannel + 1
    ensures c.maxAttempts <= 1 <==>
              forall es, ts, any :: IsRun(c, es, ts) ==> |QueuedIn(ts[|es|], any)| <= c.caps.queuedPerChannel
  {
    if c.maxAttempts <= 1 {
      forall es, ts, any | IsRun(c, es, ts) ensures |QueuedIn(ts[|es|], any)| <= c.caps.queuedPerChannel {
        QueuedCapHoldsWithoutRetries(c, es, ts, |es|, any);
      }
    } else {
      var es, ts := QueueOverflows(c, names, ch, 1);
      assert IsRun(c, es, ts) && |QueuedIn(ts[|es|], ch)| > c.caps.queuedPerChannel;
    }
  }

  /** The bound on the backlog is reached by the queue alone: Q + R rows can be waiting at once. */
  lemma BacklogBoundIsReached(c: Config, names: seq<string>, ch: string) returns (es: seq<Event>, ts: seq<Table>)
    requires MayRetry(c) && c.caps.runningPerChannel > 0
    requires Usable(names, ch) && |names| == c.caps.queuedPerChannel + c.caps.runningPerChannel
    ensures IsRun(c, es, ts)
    ensures |QueuedIn(ts[|es|], ch)| == c.caps.queuedPerChannel + c.caps.runningPerChannel
  {
    es, ts := QueueOverflows(c, names, ch, c.caps.runningPerChannel);
  }
}
