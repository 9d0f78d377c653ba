/**
 What the caps bound when Postgres transactions interleave. Inserts count and write under one
 advisory lock, claims under another, and both can make a channel busier: each path is exact alone,
 and together they can be out by one.
 */
module InterleavedCaps {
  import opened Common
  import opened Jobs
  import opened Table
  import opened Interleavings

  function One(b: bool): int { if b then 1 else 0 }

  // ---------------------------------------------------------------- the running cap

  /** The insert has seen room on the channel for a dispatched row and has not ended yet. */
  predicate CountedOn(t: Txn, ch: string) {
    t.Insert? && t.dispatched && t.job.channel == ch && (t.insertPc.Inserting? || t.insertPc == Answering(Accepted))
  }

  function Counted(s: Sys, ch: string): set<nat> { set tid | tid in s.live && CountedOn(s.live[tid].txn, ch) }

  /** The enqueue lock: at most one insert is between its count and its end. */
  lemma OneInsertAtATime(c: Setup, s: Sys, ch: string)
    requires Inv(c, s) && c.caps.runningPerChannel > 0
    ensures |Counted(s, ch)| <= One(c.dispatching)
  {
    if tid :| tid in Counted(s, ch) {
      assert LocksHeld(c, s, tid);
      forall other | other in Counted(s, ch) ensures other in {tid} {
        assert LocksHeld(c, s, other);
      }
      SubsetSize(Counted(s, ch), {tid});
    }
  }

  /** What a claim between its count and its end may still bring the channel to. */
  predicate ClaimWithin(c: Setup, s: Sys, tid: nat, ch: string)
    requires tid in s.live
  {
    var t := s.live[tid].txn;
    && (t.Claim? && t.claimPc.Choosing? && |BusyIn(t.claimPc.snapshot, ch)| < c.caps.runningPerChannel ==>
          |BusyIn(View(s, tid), ch)| + |Counted(s, ch)| <= c.caps.runningPerChannel - 1 + One(c.dispatching))
    && (t.Claim? && t.claimPc.Took? ==>
          |BusyIn(View(s, tid), ch)| + |Counted(s, ch)| <= c.caps.runningPerChannel + One(c.dispatching))
  }

  predicate RunningInv(c: Setup, s: Sys, ch: string) {
    && |BusyIn(s.db, ch)| + |Counted(s, ch)| <= c.caps.runningPerChannel - 1 + One(c.dispatching) + One(c.claiming)
    && forall tid :: tid in s.live ==> ClaimWithin(c, s, tid, ch)
  }

  lemma CountedShrinks(c: Setup, s: Sys, m: Move, ch: string)
    requires Enabled(c, s, m) && !m.CountChannel?
    ensures |Counted(Do(c, s, m), ch)| <= |Counted(s, ch)|
  {
    var s' := Do(c, s, m);
    forall tid | tid in Counted(s', ch) ensures tid in Counted(s, ch) {}
    SubsetSize(Counted(s', ch), Counted(s, ch));
  }

  /** A transaction that has not taken a row shows itself no more busy rows than are committed. */
  lemma PendingAddsNothing(c: Setup, s: Sys, tid: nat, ch: string)
    requires Inv(c, s) && tid in s.live && s.live[tid].txn.Claim? && !s.live[tid].txn.claimPc.Took?
    ensures BusyIn(View(s, tid), ch) <= BusyIn(s.db, ch)
    ensures |BusyIn(View(s, tid), ch)| <= |BusyIn(s.db, ch)|
  {
    assert PendingOk(s.db, s.live[tid]);
    SubsetSize(BusyIn(View(s, tid), ch), BusyIn(s.db, ch));
  }

  lemma TakenAddsOne(c: Setup, s: Sys, tid: nat, ch: string)
    requires Inv(c, s) && tid in s.live && s.live[tid].txn.Claim? && s.live[tid].txn.claimPc.Took?
    ensures |BusyIn(View(s, tid), ch)| <= |BusyIn(s.db, ch)| + 1
  {
    assert PendingOk(s.db, s.live[tid]);
    OneMoreSize(BusyIn(View(s, tid), ch), BusyIn(s.db, ch), s.live[tid].txn.claimPc.id);
  }

  lemma CountChannelKeeps(c: Setup, s: Sys, tid: nat, ch: string)
    requires Inv(c, s) && RunningInv(c, s, ch) && c.caps.runningPerChannel > 0
    requires Enabled(c, s, CountChannel(tid))
    ensures RunningInv(c, Do(c, s, CountChannel(tid)), ch)
  {
    var s' := Do(c, s, CountChannel(tid));
    MoveKeepsInv(c, s, CountChannel(tid));
    OneInsertAtATime(c, s', ch);
    OthersUntouched(c, s, CountChannel(tid));
    if tid in Counted(s', ch) {
      assert |BusyIn(s.db, ch)| < c.caps.runningPerChannel;
      forall other | other in s'.live ensures ClaimWithin(c, s', other, ch) {
        if s'.live[other].txn.Claim? {
          assert s'.live[other] == s.live[other];
          if s.live[other].txn.claimPc.Took? {
            TakenAddsOne(c, s, other, ch);
          } else {
            PendingAddsNothing(c, s, other, ch);
          }
        }
      }
    } else {
      SubsetSize(Counted(s', ch), Counted(s, ch));
      forall other | other in s'.live ensures ClaimWithin(c, s', other, ch) {
        assert other != tid ==> ClaimWithin(c, s, other, ch);
      }
    }
  }

  lemma SnapshotKeeps(c: Setup, s: Sys, tid: nat, ch: string)
    requires Inv(c, s) && RunningInv(c, s, ch) && c.caps.runningPerChannel > 0
    requires Enabled(c, s, Snapshot(tid))
    ensures RunningInv(c, Do(c, s, Snapshot(tid)), ch)
  {
    var s' := Do(c, s, Snapshot(tid));
    OneInsertAtATime(c, s, ch);
    CountedShrinks(c, s, Snapshot(tid), ch);
    OthersUntouched(c, s, Snapshot(tid));
    assert View(s', tid) == View(s, tid);
    forall other | other in s'.live ensures ClaimWithin(c, s', other, ch) {
      assert other != tid ==> ClaimWithin(c, s, other, ch);
    }
  }

  /** Another transaction's claim is bounded as before when nothing it sees has changed. */
  lemma StillWithin(c: Setup, s: Sys, s': Sys, tid: nat, ch: string)
    requires tid in s.live && tid in s'.live && s'.live[tid] == s.live[tid] && s'.db == s.db
    requires |Counted(s', ch)| <= |Counted(s, ch)| && ClaimWithin(c, s, tid, ch)
    ensures ClaimWithin(c, s', tid, ch)
  {
    assert View(s', tid) == View(s, tid);
  }

  lemma TakingFillsOneSlot(c: Setup, s: Sys, tid: nat, id: string, ch: string)
    requires Inv(c, s) && Enabled(c, s, TakeRow(tid, id))
    ensures var view' := View(Do(c, s, TakeRow(tid, id)), tid);
            var snapshot := s.live[tid].txn.claimPc.snapshot;
            if snapshot[id].job.channel == ch then |BusyIn(view', ch)| <= |BusyIn(View(s, tid), ch)| + 1
            else |BusyIn(view', ch)| <= |BusyIn(View(s, tid), ch)|
  {
    var view, view' := View(s, tid), View(Do(c, s, TakeRow(tid, id)), tid);
    assert PendingOk(s.db, s.live[tid]);
    assert view[id].job == s.live[tid].txn.claimPc.snapshot[id].job;
    assert view' == view[id := view'[id]] && view'[id].job == view[id].job;
    if view[id].job.channel == ch {
      OneMoreSize(BusyIn(view', ch), BusyIn(view, ch), id);
    } else {
      SubsetSize(BusyIn(view', ch), BusyIn(view, ch));
    }
  }

  lemma TakerWithin(c: Setup, s: Sys, tid: nat, id: string, ch: string)
    requires Inv(c, s) && RunningInv(c, s, ch) && c.caps.runningPerChannel > 0
    requires Enabled(c, s, TakeRow(tid, id))
    ensures ClaimWithin(c, Do(c, s, TakeRow(tid, id)), tid, ch)
  {
    CountedShrinks(c, s, TakeRow(tid, id), ch);
    assert LocksHeld(c, s, tid) && ClaimWithin(c, s, tid, ch);
    TakingFillsOneSlot(c, s, tid, id, ch);
    PendingAddsNothing(c, s, tid, ch);
  }

  lemma TakeRowKeeps(c: Setup, s: Sys, tid: nat, id: string, ch: string)
    requires Inv(c, s) && RunningInv(c, s, ch) && c.caps.runningPerChannel > 0
    requires Enabled(c, s, TakeRow(tid, id))
    ensures RunningInv(c, Do(c, s, TakeRow(tid, id)), ch)
  {
    var m := TakeRow(tid, id);
    var s' := Do(c, s, m);
    OthersUntouched(c, s, m);
    CountedShrinks(c, s, m, ch);
    TakerWithin(c, s, tid, id, ch);
    forall other | other in s'.live ensures ClaimWithin(c, s', other, ch) {
      if other != tid { StillWithin(c, s, s', other, ch); }
    }
  }

  lemma QuietMoveKeeps(c: Setup, s: Sys, m: Move, ch: string)
    requires Inv(c, s) && RunningInv(c, s, ch) && Enabled(c, s, m)
    requires !m.CountChannel? && !m.Snapshot? && !m.TakeRow? && !m.Commit? && !m.Rollback?
    ensures RunningInv(c, Do(c, s, m), ch)
  {
    var s' := Do(c, s, m);
    OthersUntouched(c, s, m);
    CountedShrinks(c, s, m, ch);
    NothingChosen(c, s, m);
    forall other | other in s'.live ensures ClaimWithin(c, s', other, ch) {
      if other != m.tid { StillWithin(c, s, s', other, ch); }
    }
  }

  lemma NothingChosen(c: Setup, s: Sys, m: Move)
    requires Enabled(c, s, m) && !m.Snapshot? && !m.TakeRow? && !m.Commit? && !m.Rollback?
    ensures var t := Do(c, s, m).live[m.tid].txn; !(t.Claim? && (t.claimPc.Choosing? || t.claimPc.Took?))
  {
  }

  lemma RollbackKeeps(c: Setup, s: Sys, tid: nat, ch: string)
    requires Inv(c, s) && RunningInv(c, s, ch) && Enabled(c, s, Rollback(tid))
    ensures RunningInv(c, Do(c, s, Rollback(tid)), ch)
  {
    var s' := Do(c, s, Rollback(tid));
    CountedShrinks(c, s, Rollback(tid), ch);
    forall other | other in s'.live ensures ClaimWithin(c, s', other, ch) {
      assert ClaimWithin(c, s, other, ch) && s'.live[other] == s.live[other];
    }
  }

  lemma CommitClosesTheCount(c: Setup, s: Sys, tid: nat, ch: string)
    requires Enabled(c, s, Commit(tid))
    ensures Do(c, s, Commit(tid)).db == View(s, tid)
    ensures |Counted(Do(c, s, Commit(tid)), ch)| == |Counted(s, ch)| - One(tid in Counted(s, ch))
  {
    assert Counted(Do(c, s, Commit(tid)), ch) == Counted(s, ch) - {tid};
  }

  /** A row committed by an insert is the one it counted; nothing else gets busier. */
  lemma InsertCommitAdds(c: Setup, s: Sys, tid: nat, ch: string, over: Table)
    requires tid in s.live && PendingOk(s.db, s.live[tid]) && MayCommit(s.live[tid].txn) && s.live[tid].txn.Insert?
    requires forall id :: id in over ==> id !in s.live[tid].pending
    ensures |BusyIn(View(s, tid) + over, ch)| <= |BusyIn(s.db + over, ch)| + One(tid in Counted(s, ch))
  {
    var t := s.live[tid].txn;
    var before, after := s.db + over, View(s, tid) + over;
    if t.insertPc == Answering(Accepted) {
      assert after == before[t.job.id := NewRow(t.job, t.dispatched, t.mode, t.now)];
      if t.dispatched && t.job.channel == ch {
        OneMoreSize(BusyIn(after, ch), BusyIn(before, ch), t.job.id);
      } else {
        SubsetSize(BusyIn(after, ch), BusyIn(before, ch));
      }
    } else {
      assert after == before;
    }
  }

  lemma UpdateCommitAdds(c: Setup, s: Sys, tid: nat, ch: string, over: Table)
    requires tid in s.live && PendingOk(s.db, s.live[tid]) && !s.live[tid].txn.Insert?
    requires !(s.live[tid].txn.Claim? && s.live[tid].txn.claimPc.Took?)
    requires forall id :: id in over ==> id !in s.live[tid].pending
    ensures |BusyIn(View(s, tid) + over, ch)| <= |BusyIn(s.db + over, ch)|
  {
    var o := s.live[tid];
    var before, after := s.db + over, View(s, tid) + over;
    forall id | id in BusyIn(after, ch) ensures id in BusyIn(before, ch) {
      if id !in over && id in o.pending {
        assert Kept(s.db[id], o.pending[id]);
      }
    }
    SubsetSize(BusyIn(after, ch), BusyIn(before, ch));
  }

  /** The rows a committing insert or update makes busy, seen through any other table laid on top, were counted. */
  lemma CommitAddsOnlyCounted(c: Setup, s: Sys, tid: nat, ch: string, over: Table)
    requires Inv(c, s) && tid in s.live && MayCommit(s.live[tid].txn)
    requires !(s.live[tid].txn.Claim? && s.live[tid].txn.claimPc.Took?)
    requires forall id :: id in over ==> id !in s.live[tid].pending
    ensures |BusyIn(View(s, tid) + over, ch)| <= |BusyIn(s.db + over, ch)| + One(tid in Counted(s, ch))
  {
    assert PendingOk(s.db, s.live[tid]);
    if s.live[tid].txn.Insert? {
      InsertCommitAdds(c, s, tid, ch, over);
    } else {
      UpdateCommitAdds(c, s, tid, ch, over);
    }
  }

  /** The claim lock: while one claim is between its count and its end, no other claim is past its lock. */
  lemma OneClaimAtATime(c: Setup, s: Sys, a: nat, b: nat)
    requires Inv(c, s) && c.caps.runningPerChannel > 0 && a in s.live && b in s.live
    requires s.live[a].txn.Claim? && !s.live[a].txn.claimPc.AwaitingLock?
    requires s.live[b].txn.Claim? && !s.live[b].txn.claimPc.AwaitingLock?
    ensures a == b
  {
    assert LocksHeld(c, s, a) && LocksHeld(c, s, b);
  }

  lemma CommitKeepsOtherClaims(c: Setup, s: Sys, tid: nat, other: nat, ch: string)
    requires Inv(c, s) && RunningInv(c, s, ch) && c.caps.runningPerChannel > 0
    requires Enabled(c, s, Commit(tid)) && other in s.live && other != tid
    ensures ClaimWithin(c, Do(c, s, Commit(tid)), other, ch)
  {
    var s' := Do(c, s, Commit(tid));
    var t := s.live[other].txn;
    assert s'.live[other] == s.live[other] && ClaimWithin(c, s, other, ch);
    if t.Claim? && (t.claimPc.Choosing? || t.claimPc.Took?) {
      if s.live[tid].txn.Claim? {
        OneClaimAtATime(c, s, tid, other);
      }
      assert Disjoint(s);
      CommitAddsOnlyCounted(c, s, tid, ch, s.live[other].pending);
      CommitClosesTheCount(c, s, tid, ch);
      assert View(s', other) == View(s, tid) + s.live[other].pending;
    }
  }

  lemma TakenRowsWithin(c: Setup, s: Sys, tid: nat, ch: string)
    requires tid in s.live && s.live[tid].txn.Claim? && s.live[tid].txn.claimPc.Took?
    requires LocksHeld(c, s, tid) && ClaimWithin(c, s, tid, ch)
    ensures |BusyIn(View(s, tid), ch)| + |Counted(s, ch)|
            <= c.caps.runningPerChannel - 1 + One(c.dispatching) + One(c.claiming)
  {
  }

  lemma CommittedRowsWithin(c: Setup, s: Sys, tid: nat, ch: string)
    requires Inv(c, s) && RunningInv(c, s, ch) && c.caps.runningPerChannel > 0
    requires tid in s.live && MayCommit(s.live[tid].txn)
    ensures |BusyIn(View(s, tid), ch)| + |Counted(s, ch)| - One(tid in Counted(s, ch))
            <= c.caps.runningPerChannel - 1 + One(c.dispatching) + One(c.claiming)
  {
    if s.live[tid].txn.Claim? && s.live[tid].txn.claimPc.Took? {
      assert LocksHeld(c, s, tid) && ClaimWithin(c, s, tid, ch);
      TakenRowsWithin(c, s, tid, ch);
    } else {
      CommitAddsOnlyCounted(c, s, tid, ch, map[]);
      assert s.db + map[] == s.db && View(s, tid) + map[] == View(s, tid);
    }
  }

  lemma CommitKeeps(c: Setup, s: Sys, tid: nat, ch: string)
    requires Inv(c, s) && RunningInv(c, s, ch) && c.caps.runningPerChannel > 0
    requires Enabled(c, s, Commit(tid))
    ensures RunningInv(c, Do(c, s, Commit(tid)), ch)
  {
    CommittedRowsWithin(c, s, tid, ch);
    CommitClosesTheCount(c, s, tid, ch);
    forall other | other in Do(c, s, Commit(tid)).live ensures ClaimWithin(c, Do(c, s, Commit(tid)), other, ch) {
      CommitKeepsOtherClaims(c, s, tid, other, ch);
    }
  }

  lemma MoveKeepsRunningInv(c: Setup, s: Sys, m: Move, ch: string)
    requires Inv(c, s) && RunningInv(c, s, ch) && c.caps.runningPerChannel > 0 && Enabled(c, s, m)
    ensures RunningInv(c, Do(c, s, m), ch)
  {
    match m {
      case CountChannel(tid) => CountChannelKeeps(c, s, tid, ch);
      case Snapshot(tid) => SnapshotKeeps(c, s, tid, ch);
      case TakeRow(tid, id) => TakeRowKeeps(c, s, tid, id, ch);
      case Commit(tid) => CommitKeeps(c, s, tid, ch);
      case Rollback(tid) => RollbackKeeps(c, s, tid, ch);
      case _ => QuietMoveKeeps(c, s, m, ch);
    }
  }

  lemma NothingRunsAtFirst(c: Setup, ch: string)
    requires c.caps.runningPerChannel > 0
    ensures RunningInv(c, START, ch)
  {
    assert BusyIn(START.db, ch) == {} && Counted(START, ch) == {};
  }

  lemma StepKeepsRunningInv(c: Setup, ms: seq<Move>, ss: seq<Sys>, n: nat, ch: string)
    requires IsHistory(c, ms, ss) && n < |ms| && c.caps.runningPerChannel > 0 && RunningInv(c, ss[n], ch)
    ensures RunningInv(c, ss[n + 1], ch)
  {
    HistoryKeepsInv(c, ms, ss, n);
    assert MoveAt(c, ms, ss, n);
    MoveKeepsRunningInv(c, ss[n], ms[n], ch);
  }

  lemma {:induction false} HistoryKeepsRunningInv(c: Setup, ms: seq<Move>, ss: seq<Sys>, n: nat, ch: string)
    requires IsHistory(c, ms, ss) && n <= |ms| && c.caps.runningPerChannel > 0
    ensures RunningInv(c, ss[n], ch)
    decreases n
  {
    if n == 0 {
      NothingRunsAtFirst(c, ch);
    } else {
      HistoryKeepsRunningInv(c, ms, ss, n - 1, ch);
      StepKeepsRunningInv(c, ms, ss, n - 1, ch);
    }
  }

  /**
   In every interleaving, claimed and running rows of a channel never exceed R + 1; with only claims,
   or only dispatches, starting work they never exceed R.
   */
  lemma RunningCapUnderInterleaving(c: Setup, ms: seq<Move>, ss: seq<Sys>, n: nat, ch: string)
    requires IsHistory(c, ms, ss) && n <= |ms| && c.caps.runningPerChannel > 0
    ensures |BusyIn(ss[n].db, ch)| <= c.caps.runningPerChannel + 1
    ensures !c.dispatching || !c.claiming ==> |BusyIn(ss[n].db, ch)| <= c.caps.runningPerChannel
  {
    HistoryKeepsRunningInv(c, ms, ss, n, ch);
  }

  // ---------------------------------------------------------------- the per-job cap

  predicate Promises(t: Txn, product: string, server: string) {
    && t.Insert? && t.job.product == product && t.job.server == server
    && (t.insertPc.CountingChannel? || t.insertPc.Inserting? || t.insertPc == Answering(Accepted))
  }

  function Promised(s: Sys, product: string, server: string): set<nat> {
    set tid | tid in s.live && Promises(s.live[tid].txn, product, server)
  }

  predicate ActiveInv(c: Setup, s: Sys, product: string, server: string) {
    |ActiveFor(s.db, product, server)| + |Promised(s, product, server)| <= c.caps.activePerJob
  }

  lemma CountActiveKeeps(c: Setup, s: Sys, tid: nat, product: string, server: string)
    requires Inv(c, s) && ActiveInv(c, s, product, server) && c.caps.activePerJob > 0
    requires Enabled(c, s, CountActive(tid))
    ensures ActiveInv(c, Do(c, s, CountActive(tid)), product, server)
  {
    var s' := Do(c, s, CountActive(tid));
    MoveKeepsInv(c, s, CountActive(tid));
    if tid in Promised(s', product, server) {
      forall other | other in Promised(s', product, server) ensures other in {tid} {
        assert LocksHeld(c, s', other) && LocksHeld(c, s', tid);
      }
      SubsetSize(Promised(s', product, server), {tid});
    } else {
      SubsetSize(Promised(s', product, server), Promised(s, product, server));
    }
  }

  lemma InsertedActiveRows(c: Setup, s: Sys, tid: nat, product: string, server: string)
    requires tid in s.live && PendingOk(s.db, s.live[tid]) && MayCommit(s.live[tid].txn) && s.live[tid].txn.Insert?
    ensures |ActiveFor(View(s, tid), product, server)|
            <= |ActiveFor(s.db, product, server)| + One(tid in Promised(s, product, server))
  {
    var o := s.live[tid];
    var before, after := ActiveFor(s.db, product, server), ActiveFor(View(s, tid), product, server);
    if o.txn.insertPc == Answering(Accepted) {
      var job := o.txn.job;
      assert View(s, tid) == s.db[job.id := o.pending[job.id]];
      if job.product == product && job.server == server {
        OneMoreSize(after, before, job.id);
      } else {
        SubsetSize(after, before);
      }
    } else {
      assert View(s, tid) == s.db;
    }
  }

  lemma UpdatedActiveRows(c: Setup, s: Sys, tid: nat, product: string, server: string)
    requires tid in s.live && PendingOk(s.db, s.live[tid]) && !s.live[tid].txn.Insert?
    ensures |ActiveFor(View(s, tid), product, server)| <= |ActiveFor(s.db, product, server)|
  {
    var o := s.live[tid];
    var before, after := ActiveFor(s.db, product, server), ActiveFor(View(s, tid), product, server);
    forall id | id in after ensures id in before {
      if id in o.pending {
        assert Kept(s.db[id], o.pending[id]) || TakenFrom(s.db[id], o.pending[id], o.txn.runner);
      }
    }
    SubsetSize(after, before);
  }

  lemma CommittedActiveRows(c: Setup, s: Sys, tid: nat, product: string, server: string)
    requires tid in s.live && PendingOk(s.db, s.live[tid]) && MayCommit(s.live[tid].txn)
    ensures |ActiveFor(View(s, tid), product, server)|
            <= |ActiveFor(s.db, product, server)| + One(tid in Promised(s, product, server))
  {
    if s.live[tid].txn.Insert? {
      InsertedActiveRows(c, s, tid, product, server);
    } else {
      UpdatedActiveRows(c, s, tid, product, server);
    }
  }

  lemma CommitKeepsActive(c: Setup, s: Sys, tid: nat, product: string, server: string)
    requires Inv(c, s) && ActiveInv(c, s, product, server)
    requires Enabled(c, s, Commit(tid))
    ensures ActiveInv(c, Do(c, s, Commit(tid)), product, server)
  {
    var s' := Do(c, s, Commit(tid));
    assert PendingOk(s.db, s.live[tid]);
    CommittedActiveRows(c, s, tid, product, server);
    assert s'.db == View(s, tid);
    assert Promised(s', product, server) == Promised(s, product, server) - {tid};
  }

  lemma NoNewPromise(c: Setup, s: Sys, m: Move, product: string, server: string)
    requires Enabled(c, s, m) && !m.CountActive?
    ensures |Promised(Do(c, s, m), product, server)| <= |Promised(s, product, server)|
  {
    var s' := Do(c, s, m);
    forall tid | tid in Promised(s', product, server) ensures tid in Promised(s, product, server) {}
    SubsetSize(Promised(s', product, server), Promised(s, product, server));
  }

  lemma OnlyCommitsWrite(c: Setup, s: Sys, m: Move)
    requires Enabled(c, s, m) && !m.Commit?
    ensures Do(c, s, m).db == s.db
  {
  }

  lemma MoveKeepsActiveInv(c: Setup, s: Sys, m: Move, product: string, server: string)
    requires Inv(c, s) && ActiveInv(c, s, product, server) && c.caps.activePerJob > 0 && Enabled(c, s, m)
    ensures ActiveInv(c, Do(c, s, m), product, server)
  {
    if m.CountActive? {
      CountActiveKeeps(c, s, m.tid, product, server);
    } else if m.Commit? {
      CommitKeepsActive(c, s, m.tid, product, server);
    } else {
      NoNewPromise(c, s, m, product, server);
      OnlyCommitsWrite(c, s, m);
    }
  }

  /** In every interleaving, queued, claimed and running rows of one (product, server) never exceed the per-job cap. */
  lemma {:induction false} ActiveCapUnderInterleaving(
    c: Setup, ms: seq<Move>, ss: seq<Sys>, n: nat, product: string, server: string)
    requires IsHistory(c, ms, ss) && n <= |ms| && c.caps.activePerJob > 0
    ensures ActiveInv(c, ss[n], product, server)
    ensures |ActiveFor(ss[n].db, product, server)| <= c.caps.activePerJob
    decreases n
  {
    if n == 0 {
      assert ActiveFor(START.db, product, server) == {} && Promised(START, product, server) == {};
    } else {
      ActiveCapUnderInterleaving(c, ms, ss, n - 1, product, server);
      HistoryKeepsInv(c, ms, ss, n - 1);
      assert MoveAt(c, ms, ss, n - 1);
      MoveKeepsActiveInv(c, ss[n - 1], ms[n - 1], product, server);
    }
  }
}
