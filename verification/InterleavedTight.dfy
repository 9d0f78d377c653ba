/**
 A lone insert transaction is the serial insert; and the run in which a claim and a dispatch each
 see the last free slot of a channel, whatever the cap.
 */
module InterleavedTight {
  import opened Common
  import opened Jobs
  import opened Table
  import opened Interleavings
  import opened InterleavedCaps
  import opened Witnesses

  predicate Fresh(s: Sys, tid: nat) { tid !in s.live && tid !in s.answers }

  predicate NobodyWrites(s: Sys, id: string) { forall tid :: tid in s.live ==> id !in s.live[tid].pending }

  /** The system with one insert open at `pc`, holding the enqueue lock if there is any cap. */
  function During(c: Setup, s: Sys, tid: nat, txn: Txn, pc: InsertPc, pending: Table): Sys
    requires txn.Insert?
  {
    s.(live := s.live[tid := Open(txn.(insertPc := pc), pending)],
       enqueueLock := if Capped(c.caps) then Some(tid) else s.enqueueLock)
  }

  lemma Opens(c: Setup, s: Sys, tid: nat, txn: Txn)
    requires Fresh(s, tid) && txn.Insert? && MayBegin(c, txn) && s.enqueueLock.None?
    ensures Enabled(c, s, Begin(tid, txn))
    ensures var s1 := Do(c, s, Begin(tid, txn));
            Enabled(c, s1, LockEnqueue(tid)) && Do(c, s1, LockEnqueue(tid)) == During(c, s, tid, txn, Checking, map[])
  {
    var s1 := Do(c, s, Begin(tid, txn));
    assert Do(c, s1, LockEnqueue(tid)).live == s.live[tid := Open(txn.(insertPc := Checking), map[])];
  }

  lemma ChecksDuplicate(c: Setup, s: Sys, tid: nat, txn: Txn)
    requires txn.Insert?
    ensures var d := During(c, s, tid, txn, Checking, map[]);
            Enabled(c, d, CheckDuplicate(tid))
            && Do(c, d, CheckDuplicate(tid))
               == During(c, s, tid, txn, if txn.job.id in s.db then Answering(Duplicate) else CountingActive, map[])
  {
    var d := During(c, s, tid, txn, Checking, map[]);
    var pc := if txn.job.id in s.db then Answering(Duplicate) else CountingActive;
    assert Do(c, d, CheckDuplicate(tid)).live == s.live[tid := Open(txn.(insertPc := pc), map[])];
  }

  function ActiveVerdict(c: Setup, s: Sys, txn: Txn): InsertPc
    requires txn.Insert?
  {
    var cap, active := c.caps.activePerJob, ActiveFor(s.db, txn.job.product, txn.job.server);
    if cap > 0 && |active| >= cap then Answering(JobAtCapacity) else CountingChannel
  }

  lemma CountsActive(c: Setup, s: Sys, tid: nat, txn: Txn)
    requires txn.Insert?
    ensures var d := During(c, s, tid, txn, CountingActive, map[]);
            Enabled(c, d, CountActive(tid))
            && Do(c, d, CountActive(tid))
               == During(c, s, tid, txn, ActiveVerdict(c, s, txn), map[])
  {
    var d := During(c, s, tid, txn, CountingActive, map[]);
    assert Do(c, d, CountActive(tid)).live == s.live[tid := Open(txn.(insertPc := ActiveVerdict(c, s, txn)), map[])];
  }

  function ChannelVerdict(c: Setup, s: Sys, txn: Txn): InsertPc
    requires txn.Insert?
  {
    var waiting, busy := QueuedIn(s.db, txn.job.channel), BusyIn(s.db, txn.job.channel);
    if !txn.dispatched && c.caps.queuedPerChannel > 0 && |waiting| >= c.caps.queuedPerChannel
    then Answering(ChannelQueueFull)
    else if txn.dispatched && c.caps.runningPerChannel > 0 && |busy| >= c.caps.runningPerChannel
    then Answering(ChannelBusy)
    else Inserting
  }

  lemma CountsChannel(c: Setup, s: Sys, tid: nat, txn: Txn)
    requires txn.Insert?
    ensures var d := During(c, s, tid, txn, CountingChannel, map[]);
            Enabled(c, d, CountChannel(tid))
            && Do(c, d, CountChannel(tid)) == During(c, s, tid, txn, ChannelVerdict(c, s, txn), map[])
  {
    var d := During(c, s, tid, txn, CountingChannel, map[]);
    assert Do(c, d, CountChannel(tid)).live == s.live[tid := Open(txn.(insertPc := ChannelVerdict(c, s, txn)), map[])];
  }

  lemma InsertsRow(c: Setup, s: Sys, tid: nat, txn: Txn)
    requires txn.Insert? && txn.job.id !in s.db && NobodyWrites(s, txn.job.id)
    ensures var d := During(c, s, tid, txn, Inserting, map[]);
            var row := NewRow(txn.job, txn.dispatched, txn.mode, txn.now);
            Enabled(c, d, InsertRow(tid))
            && Do(c, d, InsertRow(tid)) == During(c, s, tid, txn, Answering(Accepted), map[txn.job.id := row])
  {
    var d := During(c, s, tid, txn, Inserting, map[]);
    var row := NewRow(txn.job, txn.dispatched, txn.mode, txn.now);
    assert map[][txn.job.id := row] == map[txn.job.id := row];
    assert Do(c, d, InsertRow(tid)).live
        == s.live[tid := Open(txn.(insertPc := Answering(Accepted)), map[txn.job.id := row])];
  }

  function Concluded(s: Sys, tid: nat, txn: Txn, result: EnqueueResult): Sys
    requires txn.Insert?
  {
    s.(db := if result.Accepted? then s.db[txn.job.id := NewRow(txn.job, txn.dispatched, txn.mode, txn.now)] else s.db,
       answers := s.answers[tid := Inserted(txn.job.id, result)])
  }

  lemma Concludes(c: Setup, s: Sys, tid: nat, txn: Txn, result: EnqueueResult)
    requires Fresh(s, tid) && txn.Insert? && s.enqueueLock.None? && s.claimLock != Some(tid)
    ensures var pending: Table := if result.Accepted?
                                  then map[txn.job.id := NewRow(txn.job, txn.dispatched, txn.mode, txn.now)] else map[];
            var d := During(c, s, tid, txn, Answering(result), pending);
            Enabled(c, d, Commit(tid)) && Do(c, d, Commit(tid)) == Concluded(s, tid, txn, result)
  {
    var pending: Table := if result.Accepted?
                          then map[txn.job.id := NewRow(txn.job, txn.dispatched, txn.mode, txn.now)] else map[];
    var d := During(c, s, tid, txn, Answering(result), pending);
    var s' := Do(c, d, Commit(tid));
    assert s'.live == s.live;
    assert s'.db == Concluded(s, tid, txn, result).db;
    assert s'.handedOut == s.handedOut;
  }

  /** A growing history, and the move that makes it grow. */
  lemma Then(c: Setup, ms: seq<Move>, ss: seq<Sys>, m: Move, s': Sys) returns (ms': seq<Move>, ss': seq<Sys>)
    requires IsHistory(c, ms, ss) && Enabled(c, ss[|ms|], m) && s' == Do(c, ss[|ms|], m)
    ensures IsHistory(c, ms', ss') && ss'[|ms'|] == s'
  {
    ExtendHistory(c, ms, ss, m);
    ms', ss' := ms + [m], ss + [s'];
  }

  /** Up to the duplicate check. */
  lemma LoneInsertChecks(c: Setup, ms: seq<Move>, ss: seq<Sys>, tid: nat, txn: Txn)
    returns (ms': seq<Move>, ss': seq<Sys>)
    requires IsHistory(c, ms, ss)
    requires Fresh(ss[|ms|], tid) && txn.Insert? && MayBegin(c, txn) && ss[|ms|].enqueueLock.None?
    ensures IsHistory(c, ms', ss')
    ensures var s := ss[|ms|];
            ss'[|ms'|]
            == During(c, s, tid, txn, if txn.job.id in s.db then Answering(Duplicate) else CountingActive, map[])
  {
    var s := ss[|ms|];
    Opens(c, s, tid, txn);
    ms', ss' := Then(c, ms, ss, Begin(tid, txn), Do(c, s, Begin(tid, txn)));
    ms', ss' := Then(c, ms', ss', LockEnqueue(tid), During(c, s, tid, txn, Checking, map[]));
    ChecksDuplicate(c, s, tid, txn);
    ms', ss' := Then(c, ms', ss', CheckDuplicate(tid), Do(c, ss'[|ms'|], CheckDuplicate(tid)));
  }

  /** What the transaction has written when it knows its answer. */
  function Written(txn: Txn, result: EnqueueResult): Table
    requires txn.Insert?
  {
    if result.Accepted? then map[txn.job.id := NewRow(txn.job, txn.dispatched, txn.mode, txn.now)] else map[]
  }

  /** From the duplicate check to the answer, when the identifier is new. */
  lemma LoneInsertCounts(c: Setup, ms: seq<Move>, ss: seq<Sys>, s: Sys, tid: nat, txn: Txn)
    returns (ms': seq<Move>, ss': seq<Sys>)
    requires IsHistory(c, ms, ss) && txn.Insert? && txn.job.id !in s.db && NobodyWrites(s, txn.job.id)
    requires ss[|ms|] == During(c, s, tid, txn, CountingActive, map[])
    ensures IsHistory(c, ms', ss')
    ensures var result := Admission(s.db, txn.job, txn.dispatched, c.caps);
            ss'[|ms'|] == During(c, s, tid, txn, Answering(result), Written(txn, result))
  {
    var result := Admission(s.db, txn.job, txn.dispatched, c.caps);
    CountsActive(c, s, tid, txn);
    ms', ss' := Then(c, ms, ss, CountActive(tid), Do(c, ss[|ms|], CountActive(tid)));
    if !result.JobAtCapacity? {
      CountsChannel(c, s, tid, txn);
      ms', ss' := Then(c, ms', ss', CountChannel(tid), During(c, s, tid, txn, ChannelVerdict(c, s, txn), map[]));
      if result.Accepted? {
        InsertsRow(c, s, tid, txn);
        ms', ss' := Then(c, ms', ss', InsertRow(tid), Do(c, ss'[|ms'|], InsertRow(tid)));
      }
    }
  }

  /**
   An insert nobody interrupts is answered exactly as the serial store answers it, and leaves exactly
   the serial store's next table, whatever else is open.
   */
  lemma LoneInsertIsSerial(c: Setup, ms: seq<Move>, ss: seq<Sys>, tid: nat, txn: Txn)
    returns (ms': seq<Move>, ss': seq<Sys>)
    requires IsHistory(c, ms, ss)
    requires var s := ss[|ms|];
             Fresh(s, tid) && s.enqueueLock.None? && s.claimLock != Some(tid)
             && txn.Insert? && MayBegin(c, txn) && NobodyWrites(s, txn.job.id)
    ensures IsHistory(c, ms', ss')
    ensures ss'[|ms'|] == Concluded(ss[|ms|], tid, txn, Admission(ss[|ms|].db, txn.job, txn.dispatched, c.caps))
    ensures ss'[|ms'|].db == AfterInsert(ss[|ms|].db, txn.job, txn.dispatched, txn.mode, c.caps, txn.now)
  {
    var s := ss[|ms|];
    ms', ss' := LoneInsertChecks(c, ms, ss, tid, txn);
    if txn.job.id !in s.db {
      ms', ss' := LoneInsertCounts(c, ms', ss', s, tid, txn);
    }
    var result := Admission(s.db, txn.job, txn.dispatched, c.caps);
    Concludes(c, s, tid, txn, result);
    ms', ss' := Then(c, ms', ss', Commit(tid), Concluded(s, tid, txn, result));
  }

  // ---------------------------------------------------------------- both paths see the last slot

  function InsertOf(name: string, ch: string, dispatched: bool): Txn {
    Insert(JobOn(name, ch), dispatched, "", 0.0, Locking)
  }

  function RowOf(name: string, ch: string, dispatched: bool): Row { NewRow(JobOn(name, ch), dispatched, "", 0.0) }

  /** No two rows are for the same product, so the per-job cap never refuses a new one. */
  predicate OwnProducts(t: Table) { forall id :: id in t ==> t[id].job.product == id }

  lemma NewNamesAreAdmitted(t: Table, name: string, ch: string, dispatched: bool, caps: Caps)
    requires OwnProducts(t) && name !in t
    requires if dispatched then caps.runningPerChannel > 0 ==> |BusyIn(t, ch)| < caps.runningPerChannel
             else QueuedIn(t, ch) == {}
    ensures Admission(t, JobOn(name, ch), dispatched, caps) == Accepted
  {
    assert ActiveFor(t, name, "s") == {};
  }

  /** Nothing is open or waits, `k` rows of the channel are busy, `k` transactions are over, later names are free. */
  predicate Settled(s: Sys, names: seq<string>, ch: string, k: nat) {
    && s.live == map[] && s.enqueueLock.None? && s.claimLock.None?
    && (forall tid :: tid in s.answers ==> tid < k)
    && (forall i :: k <= i < |names| ==> names[i] !in s.db)
    && OwnProducts(s.db) && QueuedIn(s.db, ch) == {} && |BusyIn(s.db, ch)| == k
  }

  /** A running cap, and both ways of starting work in use; the other caps are whatever they are. */
  predicate BothPathsUnderCap(c: Setup) { c.caps.runningPerChannel > 0 && c.dispatching && c.claiming }

  lemma DispatchedRowIsBusy(t: Table, name: string, ch: string)
    requires name !in t
    ensures |BusyIn(t[name := RowOf(name, ch, true)], ch)| == |BusyIn(t, ch)| + 1
    ensures QueuedIn(t[name := RowOf(name, ch, true)], ch) == QueuedIn(t, ch)
  {
    assert BusyIn(t[name := RowOf(name, ch, true)], ch) == BusyIn(t, ch) + {name};
  }

  /** One more dispatch nobody interrupts, on a settled system. */
  lemma DispatchOne(c: Setup, ms: seq<Move>, ss: seq<Sys>, names: seq<string>, ch: string, k: nat)
    returns (ms': seq<Move>, ss': seq<Sys>)
    requires IsHistory(c, ms, ss) && Settled(ss[|ms|], names, ch, k)
    requires BothPathsUnderCap(c) && Usable(names, ch) && k < |names| && k < c.caps.runningPerChannel
    ensures IsHistory(c, ms', ss') && Settled(ss'[|ms'|], names, ch, k + 1)
  {
    var s := ss[|ms|];
    NewNamesAreAdmitted(s.db, names[k], ch, true, c.caps);
    DispatchedRowIsBusy(s.db, names[k], ch);
    ms', ss' := LoneInsertIsSerial(c, ms, ss, k, InsertOf(names[k], ch, true));
  }

  lemma {:induction false} FillChannel(c: Setup, names: seq<string>, ch: string, k: nat)
    returns (ms: seq<Move>, ss: seq<Sys>)
    requires BothPathsUnderCap(c) && Usable(names, ch) && k <= |names| && k <= c.caps.runningPerChannel
    ensures IsHistory(c, ms, ss) && Settled(ss[|ms|], names, ch, k)
    decreases k
  {
    if k == 0 {
      ms, ss := [], [START];
      assert BusyIn(START.db, ch) == {} && QueuedIn(START.db, ch) == {};
    } else {
      ms, ss := FillChannel(c, names, ch, k - 1);
      ms, ss := DispatchOne(c, ms, ss, names, ch, k - 1);
    }
  }

  function ClaimAt(s: Sys, tid: nat, pc: ClaimPc): Sys {
    s.(live := map[tid := Open(Claim("r", {}, 0.0, pc), map[])], claimLock := Some(tid))
  }

  function Counting(s: Sys, tid: nat): Sys { ClaimAt(s, tid, Choosing(s.db)) }

  /** The claim opens, reaps nothing, and counts. */
  lemma ClaimCounts(c: Setup, ms: seq<Move>, ss: seq<Sys>, tid: nat) returns (ms': seq<Move>, ss': seq<Sys>)
    requires IsHistory(c, ms, ss) && BothPathsUnderCap(c)
    requires ss[|ms|].live == map[] && ss[|ms|].claimLock.None? && Fresh(ss[|ms|], tid)
    ensures IsHistory(c, ms', ss')
    ensures ss'[|ms'|] == Counting(ss[|ms|], tid)
  {
    var s := ss[|ms|];
    var txn := Claim("r", {}, 0.0, AwaitingLock);
    ms', ss' := Then(c, ms, ss, Begin(tid, txn), ClaimAt(s, tid, AwaitingLock).(claimLock := None));
    assert Do(c, ss'[|ms'|], LockClaim(tid)) == ClaimAt(s, tid, Reaping(ReapStatements(0.0)));
    ms', ss' := Then(c, ms', ss', LockClaim(tid), ClaimAt(s, tid, Reaping(ReapStatements(0.0))));
    assert ReapStatements(0.0)[1..] == [AbandonExpired(0.0)];
    assert Do(c, ss'[|ms'|], NextStatement(tid)) == ClaimAt(s, tid, Reaping([AbandonExpired(0.0)]));
    ms', ss' := Then(c, ms', ss', NextStatement(tid), ClaimAt(s, tid, Reaping([AbandonExpired(0.0)])));
    assert [AbandonExpired(0.0)][1..] == [];
    assert Do(c, ss'[|ms'|], NextStatement(tid)) == ClaimAt(s, tid, Reaping([]));
    ms', ss' := Then(c, ms', ss', NextStatement(tid), ClaimAt(s, tid, Reaping([])));
    assert View(ss'[|ms'|], tid) == s.db;
    assert Do(c, ss'[|ms'|], Snapshot(tid)) == Counting(s, tid);
    ms', ss' := Then(c, ms', ss', Snapshot(tid), Counting(s, tid));
  }

  /** The claim takes the row it counted for, in a table that has moved on since, and commits. */
  lemma ClaimTakes(c: Setup, ms: seq<Move>, ss: seq<Sys>, tid: nat, snapshot: Table, id: string)
    returns (ms': seq<Move>, ss': seq<Sys>)
    requires IsHistory(c, ms, ss)
    requires ss[|ms|].live == map[tid := Open(Claim("r", {}, 0.0, Choosing(snapshot)), map[])]
    requires CandidateIn(c, snapshot, {}, id) && id in ss[|ms|].db && ss[|ms|].db[id].state.Queued?
    ensures IsHistory(c, ms', ss')
    ensures ss'[|ms'|].db == ss[|ms|].db[id := Take(ss[|ms|].db[id], "r", c.leaseSeconds)]
  {
    var s := ss[|ms|];
    assert View(s, tid) == s.db;
    ms', ss' := Then(c, ms, ss, TakeRow(tid, id), Do(c, s, TakeRow(tid, id)));
    var s1 := ss'[|ms'|];
    assert s1.live[tid].pending == map[id := Take(s.db[id], "r", c.leaseSeconds)] && s1.db == s.db;
    ms', ss' := Then(c, ms', ss', Commit(tid), Do(c, s1, Commit(tid)));
  }

  /** The channel one short of its cap, one row waiting, and a claim that has counted and is about to take it. */
  predicate ClaimPoised(c: Setup, s: Sys, tid: nat, waiting: string, ch: string) {
    && s == Counting(s, tid) && s.enqueueLock.None?
    && OwnProducts(s.db) && waiting in s.db && s.db[waiting] == RowOf(waiting, ch, false)
    && |BusyIn(s.db, ch)| == c.caps.runningPerChannel - 1
  }

  lemma PoiseClaim(c: Setup, names: seq<string>, ch: string) returns (ms: seq<Move>, ss: seq<Sys>)
    requires BothPathsUnderCap(c) && |names| == c.caps.runningPerChannel + 1 && Usable(names, ch)
    ensures IsHistory(c, ms, ss) && ClaimPoised(c, ss[|ms|], |names| - 1, names[|names| - 2], ch)
    ensures Fresh(ss[|ms|], |names|) && names[|names| - 1] !in ss[|ms|].db
  {
    var n := |names|;
    var waiting := names[n - 2];
    ms, ss := FillChannel(c, names, ch, n - 2);
    var s := ss[|ms|];
    NewNamesAreAdmitted(s.db, waiting, ch, false, c.caps);
    ms, ss := LoneInsertIsSerial(c, ms, ss, n - 2, InsertOf(waiting, ch, false));
    assert ss[|ms|].db == s.db[waiting := RowOf(waiting, ch, false)];
    assert BusyIn(ss[|ms|].db, ch) == BusyIn(s.db, ch);
    ms, ss := ClaimCounts(c, ms, ss, n - 1);
  }

  lemma DispatchSlipsIn(c: Setup, ms: seq<Move>, ss: seq<Sys>, tid: nat, waiting: string, late: string, ch: string)
    returns (ms': seq<Move>, ss': seq<Sys>)
    requires IsHistory(c, ms, ss) && ClaimPoised(c, ss[|ms|], tid, waiting, ch) && BothPathsUnderCap(c)
    requires Fresh(ss[|ms|], tid + 1) && late !in ss[|ms|].db && ValidateJob(JobOn(late, ch)).Ok?
    ensures IsHistory(c, ms', ss')
    ensures ss'[|ms'|].live == ss[|ms|].live && ss'[|ms'|].db == ss[|ms|].db[late := RowOf(late, ch, true)]
  {
    NewNamesAreAdmitted(ss[|ms|].db, late, ch, true, c.caps);
    ms', ss' := LoneInsertIsSerial(c, ms, ss, tid + 1, InsertOf(late, ch, true));
  }

  /** For every cap R, whatever the other caps, an interleaving that ends with R + 1 rows of one channel busy. */
  lemma RunningCapIsOutByOne(c: Setup, names: seq<string>, ch: string) returns (ms: seq<Move>, ss: seq<Sys>)
    requires BothPathsUnderCap(c) && |names| == c.caps.runningPerChannel + 1 && Usable(names, ch)
    ensures IsHistory(c, ms, ss)
    ensures |BusyIn(ss[|ms|].db, ch)| == c.caps.runningPerChannel + 1
  {
    var tid := |names| - 1;
    var waiting, late := names[tid - 1], names[tid];
    ms, ss := PoiseClaim(c, names, ch);
    var s := ss[|ms|];
    assert CandidateIn(c, s.db, {}, waiting);
    ms, ss := DispatchSlipsIn(c, ms, ss, tid, waiting, late, ch);
    DispatchedRowIsBusy(s.db, late, ch);
    var full := ss[|ms|].db;
    ms, ss := ClaimTakes(c, ms, ss, tid, s.db, waiting);
    assert BusyIn(ss[|ms|].db, ch) == BusyIn(full, ch) + {waiting};
  }

  /**
   The running cap is exact in every interleaving if and only if a deployment starts work in one way
   only: by dispatching, or by handing jobs out.
   */
  lemma RunningCapIsKeptExactly(c: Setup, names: seq<string>, ch: string)
    requires c.caps.runningPerChannel > 0 && |names| == c.caps.runningPerChannel + 1 && Usable(names, ch)
    ensures !c.dispatching || !c.claiming <==>
              forall ms, ss: seq<Sys>, any :: IsHistory(c, ms, ss) ==>
                |BusyIn(ss[|ms|].db, any)| <= c.caps.runningPerChannel
  {
    if !c.dispatching || !c.claiming {
      forall ms, ss: seq<Sys>, any | IsHistory(c, ms, ss)
        ensures |BusyIn(ss[|ms|].db, any)| <= c.caps.runningPerChannel
      {
        RunningCapUnderInterleaving(c, ms, ss, |ms|, any);
      }
    } else {
      var ms, ss := RunningCapIsOutByOne(c, names, ch);
      assert IsHistory(c, ms, ss) && |BusyIn(ss[|ms|].db, ch)| > c.caps.runningPerChannel;
    }
  }
}
