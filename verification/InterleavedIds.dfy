/** Idempotency and exactly-once hand-out when Postgres transactions interleave. Neither needs a lock. */
module InterleavedIds {
  import opened Common
  import opened Jobs
  import opened Table
  import opened Interleavings
  import opened RowLife

  function Count(b: bool): nat { if b then 1 else 0 }

  /** The inserts that were told the job is theirs. */
  function AcceptedFor(s: Sys, id: string): set<nat> {
    set tid | tid in s.answers && s.answers[tid] == Inserted(id, Accepted)
  }

  predicate IdInv(s: Sys, id: string) {
    && |AcceptedFor(s, id)| == Count(id in s.db)
    && forall tid :: tid in s.answers && s.answers[tid] == Inserted(id, Duplicate) ==> id in s.db
  }

  lemma CommitKeepsIdInv(c: Setup, s: Sys, tid: nat, id: string)
    requires Inv(c, s) && IdInv(s, id) && Enabled(c, s, Commit(tid))
    ensures IdInv(Do(c, s, Commit(tid)), id)
  {
    var s' := Do(c, s, Commit(tid));
    var o := s.live[tid];
    assert LocksHeld(c, s, tid) && PendingOk(s.db, o);
    assert s'.db == View(s, tid) && s'.answers == s.answers[tid := AnswerOf(o.txn)];
    if AnswerOf(o.txn) == Inserted(id, Accepted) {
      assert AcceptedFor(s', id) == AcceptedFor(s, id) + {tid};
    } else {
      assert AcceptedFor(s', id) == AcceptedFor(s, id);
    }
  }

  lemma MoveKeepsIdInv(c: Setup, s: Sys, m: Move, id: string)
    requires Inv(c, s) && IdInv(s, id) && Enabled(c, s, m)
    ensures IdInv(Do(c, s, m), id)
    ensures AcceptedFor(s, id) <= AcceptedFor(Do(c, s, m), id)
  {
    var s' := Do(c, s, m);
    if m.Commit? {
      CommitKeepsIdInv(c, s, m.tid, id);
      assert LocksHeld(c, s, m.tid);
    } else if m.Rollback? {
      assert LocksHeld(c, s, m.tid);
      assert AcceptedFor(s', id) == AcceptedFor(s, id);
    } else {
      OthersUntouched(c, s, m);
    }
  }

  lemma {:induction false} HistoryKeepsIdInv(c: Setup, ms: seq<Move>, ss: seq<Sys>, n: nat, id: string)
    requires IsHistory(c, ms, ss) && n <= |ms|
    ensures IdInv(ss[n], id)
    decreases n
  {
    if n == 0 {
      assert AcceptedFor(START, id) == {};
    } else {
      HistoryKeepsIdInv(c, ms, ss, n - 1, id);
      HistoryKeepsInv(c, ms, ss, n - 1);
      assert MoveAt(c, ms, ss, n - 1);
      MoveKeepsIdInv(c, ss[n - 1], ms[n - 1], id);
    }
  }

  /**
   Any number of inserts for one identifier, interleaved in any way and under any caps: never more
   than one is accepted, and once any has been answered accepted or duplicate exactly one has.
   */
  lemma InsertsAreIdempotent(c: Setup, ms: seq<Move>, ss: seq<Sys>, n: nat, id: string)
    requires IsHistory(c, ms, ss) && n <= |ms|
    ensures |AcceptedFor(ss[n], id)| <= 1
    ensures |AcceptedFor(ss[n], id)| == 1 <==> id in ss[n].db
    ensures (exists tid :: tid in ss[n].answers
               && (ss[n].answers[tid] == Inserted(id, Accepted) || ss[n].answers[tid] == Inserted(id, Duplicate)))
            ==> |AcceptedFor(ss[n], id)| == 1
  {
    HistoryKeepsIdInv(c, ms, ss, n, id);
    if tid :| tid in ss[n].answers && ss[n].answers[tid] == Inserted(id, Accepted) {
      assert tid in AcceptedFor(ss[n], id);
    }
  }

  /** The accepted insert stays the accepted one for the rest of the history. */
  lemma {:induction false} AcceptanceIsFinal(c: Setup, ms: seq<Move>, ss: seq<Sys>, m: nat, n: nat, id: string)
    requires IsHistory(c, ms, ss) && m <= n <= |ms|
    ensures AcceptedFor(ss[m], id) <= AcceptedFor(ss[n], id)
    ensures |AcceptedFor(ss[m], id)| == 1 ==> AcceptedFor(ss[n], id) == AcceptedFor(ss[m], id)
    decreases n
  {
    if m < n {
      AcceptanceIsFinal(c, ms, ss, m, n - 1, id);
      HistoryKeepsInv(c, ms, ss, n - 1);
      HistoryKeepsIdInv(c, ms, ss, n - 1, id);
      HistoryKeepsIdInv(c, ms, ss, n, id);
      assert MoveAt(c, ms, ss, n - 1);
      MoveKeepsIdInv(c, ss[n - 1], ms[n - 1], id);
      if |AcceptedFor(ss[m], id)| == 1 {
        SameSize(AcceptedFor(ss[m], id), AcceptedFor(ss[n], id));
      }
    }
  }

  // ---------------------------------------------------------------- caps off

  predicate OnlyAcceptsOrDuplicates(s: Sys) {
    && (forall tid :: tid in s.live && s.live[tid].txn.Insert? && s.live[tid].txn.insertPc.Answering? ==>
          s.live[tid].txn.insertPc.result.Accepted? || s.live[tid].txn.insertPc.result.Duplicate?)
    && (forall tid :: tid in s.answers && s.answers[tid].Inserted? ==>
          s.answers[tid].result.Accepted? || s.answers[tid].result.Duplicate?)
  }

  /** With every cap off, an insert that completes is told accepted or duplicate and nothing else. */
  lemma {:induction false} NoCapsNoRefusals(c: Setup, ms: seq<Move>, ss: seq<Sys>, n: nat)
    requires IsHistory(c, ms, ss) && n <= |ms|
    requires c.caps.activePerJob <= 0 && c.caps.queuedPerChannel <= 0 && c.caps.runningPerChannel <= 0
    ensures OnlyAcceptsOrDuplicates(ss[n])
    decreases n
  {
    if n > 0 {
      NoCapsNoRefusals(c, ms, ss, n - 1);
      assert MoveAt(c, ms, ss, n - 1);
      NoCapsMove(c, ss[n - 1], ms[n - 1]);
    }
  }

  lemma NoCapsMove(c: Setup, s: Sys, m: Move)
    requires OnlyAcceptsOrDuplicates(s) && Enabled(c, s, m)
    requires c.caps.activePerJob <= 0 && c.caps.queuedPerChannel <= 0 && c.caps.runningPerChannel <= 0
    ensures OnlyAcceptsOrDuplicates(Do(c, s, m))
  {
    var s' := Do(c, s, m);
    forall tid | tid in s'.live && s'.live[tid].txn.Insert? && s'.live[tid].txn.insertPc.Answering?
      ensures s'.live[tid].txn.insertPc.result.Accepted? || s'.live[tid].txn.insertPc.result.Duplicate?
    {
      if tid != m.tid { assert s'.live[tid] == s.live[tid]; }
    }
  }

  // ---------------------------------------------------------------- exactly-once hand-out

  predicate WithinLimit(r: Row, maxAttempts: int) {
    r.attempts <= Limit(maxAttempts) && (r.state.Queued? ==> r.attempts < Limit(maxAttempts))
  }

  predicate AttemptsInv(c: Setup, s: Sys, id: string) {
    && s.handedOut[id] == (if id in s.db then s.db[id].attempts else 0)
    && (id in s.db ==> WithinLimit(s.db[id], c.maxAttempts))
    && forall tid :: tid in s.live && id in s.live[tid].pending ==> WithinLimit(s.live[tid].pending[id], c.maxAttempts)
  }

  lemma EffectWithinLimit(c: Setup, u: Update, id: string, r: Row)
    requires WithinLimit(r, c.maxAttempts) && Matches(c, u, id, r)
    ensures WithinLimit(Effect(u, r), c.maxAttempts)
  {
  }

  lemma OpenMoveKeepsAttempts(c: Setup, s: Sys, m: Move, id: string)
    requires AttemptsInv(c, s, id) && Enabled(c, s, m) && !m.Commit? && !m.Rollback?
    ensures AttemptsInv(c, Do(c, s, m), id)
  {
    var s' := Do(c, s, m);
    OthersUntouched(c, s, m);
    if m.UpdateRow? && m.id == id {
      EffectWithinLimit(c, CurrentUpdate(s.live[m.tid].txn).value, id, View(s, m.tid)[id]);
    }
    forall tid | tid in s'.live && id in s'.live[tid].pending
      ensures WithinLimit(s'.live[tid].pending[id], c.maxAttempts)
    {
      if tid != m.tid { assert s'.live[tid] == s.live[tid]; }
    }
  }

  lemma CommitKeepsAttempts(c: Setup, s: Sys, tid: nat, id: string)
    requires Inv(c, s) && AttemptsInv(c, s, id) && Enabled(c, s, Commit(tid))
    ensures AttemptsInv(c, Do(c, s, Commit(tid)), id)
  {
    var s' := Do(c, s, Commit(tid));
    var o := s.live[tid];
    assert PendingOk(s.db, o);
    assert s'.db == View(s, tid) && s'.handedOut == s.handedOut + TakenBy(o.txn);
    if id in o.pending {
      assert o.txn.Insert? || Kept(s.db[id], o.pending[id]) || TakenFrom(s.db[id], o.pending[id], o.txn.runner);
    }
    assert TakenBy(o.txn)[id] == Count(o.txn.Claim? && o.txn.claimPc == Took(id));
    forall other | other in s'.live && id in s'.live[other].pending
      ensures WithinLimit(s'.live[other].pending[id], c.maxAttempts)
    {
      assert s'.live[other] == s.live[other];
    }
  }

  lemma {:induction false} HistoryKeepsAttempts(c: Setup, ms: seq<Move>, ss: seq<Sys>, n: nat, id: string)
    requires IsHistory(c, ms, ss) && n <= |ms|
    ensures AttemptsInv(c, ss[n], id)
    decreases n
  {
    if n > 0 {
      HistoryKeepsAttempts(c, ms, ss, n - 1, id);
      HistoryKeepsInv(c, ms, ss, n - 1);
      assert MoveAt(c, ms, ss, n - 1);
      var m := ms[n - 1];
      if m.Commit? {
        CommitKeepsAttempts(c, ss[n - 1], m.tid, id);
      } else if m.Rollback? {
        assert AttemptsInv(c, Do(c, ss[n - 1], m), id);
      } else {
        OpenMoveKeepsAttempts(c, ss[n - 1], m, id);
      }
    }
  }

  /**
   Two claims never come away with the same turn of a job: every committed claim is a separate
   attempt in the row, so no interleaving hands a job out more often than its attempts allow.
   */
  lemma HandOutsAreCounted(c: Setup, ms: seq<Move>, ss: seq<Sys>, n: nat, id: string)
    requires IsHistory(c, ms, ss) && n <= |ms|
    ensures ss[n].handedOut[id] == if id in ss[n].db then ss[n].db[id].attempts else 0
    ensures ss[n].handedOut[id] <= Limit(c.maxAttempts)
  {
    HistoryKeepsAttempts(c, ms, ss, n, id);
  }
}
