/** What rows keep when Postgres transactions interleave: a finished row is final, and results are fenced. */
module InterleavedRows {
  import opened Common
  import opened Jobs
  import opened Table
  import opened Interleavings

  /** This commit hands the job to the runner. */
  predicate HandsTo(s: Sys, m: Move, id: string, runner: string) {
    && m.Commit? && m.tid in s.live
    && s.live[m.tid].txn.Claim? && s.live[m.tid].txn.claimPc == Took(id) && s.live[m.tid].txn.runner == runner
  }

  /** What one move does to one committed row. */
  lemma MoveOnRow(c: Setup, s: Sys, m: Move, id: string)
    requires Inv(c, s) && Enabled(c, s, m) && id in s.db
    ensures var s' := Do(c, s, m);
            && id in s'.db
            && (|| s'.db[id] == s.db[id]
                || (m.Commit? && Kept(s.db[id], s'.db[id]))
                || (s'.db[id].runner.Some? && HandsTo(s, m, id, s'.db[id].runner.value)
                    && TakenFrom(s.db[id], s'.db[id], s'.db[id].runner.value)))
  {
    if m.Commit? {
      assert PendingOk(s.db, s.live[m.tid]);
    } else if !m.Rollback? {
      OthersUntouched(c, s, m);
    }
  }

  /** A new row is queued or dispatched, and nobody's. */
  lemma NewRowsHaveNoRunner(c: Setup, s: Sys, m: Move, id: string)
    requires Inv(c, s) && Enabled(c, s, m) && id !in s.db && id in Do(c, s, m).db
    ensures Do(c, s, m).db[id].runner.None? && Active(Do(c, s, m).db[id].state)
  {
    if m.Commit? {
      assert PendingOk(s.db, s.live[m.tid]);
    } else if !m.Rollback? {
      OthersUntouched(c, s, m);
    }
  }

  /** Once a committed row is finished no later commit changes any column of it. */
  lemma {:induction false} FinishedRowsAreFinal(c: Setup, ms: seq<Move>, ss: seq<Sys>, m: nat, n: nat, id: string)
    requires IsHistory(c, ms, ss) && m <= n <= |ms|
    requires id in ss[m].db && Terminal(ss[m].db[id].state)
    ensures id in ss[n].db && ss[n].db[id] == ss[m].db[id]
    decreases n
  {
    if m < n {
      FinishedRowsAreFinal(c, ms, ss, m, n - 1, id);
      HistoryKeepsInv(c, ms, ss, n - 1);
      assert MoveAt(c, ms, ss, n - 1);
      MoveOnRow(c, ss[n - 1], ms[n - 1], id);
    }
  }

  /** Move `m` committed the runner's claim, and every committed table from there to `n` has the row in its hands. */
  predicate HeldSinceClaim(ms: seq<Move>, ss: seq<Sys>, m: int, n: nat, id: string, runner: string)
    requires |ss| == |ms| + 1 && n <= |ms|
  {
    && 0 <= m < n && HandsTo(ss[m], ms[m], id, runner)
    && forall i :: m < i <= n ==> id in ss[i].db && HeldBy(ss[i].db[id], runner)
  }

  lemma {:induction false} HolderCommittedAClaim(
    c: Setup, ms: seq<Move>, ss: seq<Sys>, n: nat, id: string, runner: string) returns (m: nat)
    requires IsHistory(c, ms, ss) && n <= |ms| && id in ss[n].db && HeldBy(ss[n].db[id], runner)
    ensures HeldSinceClaim(ms, ss, m, n, id, runner)
    decreases n
  {
    HistoryKeepsInv(c, ms, ss, n - 1);
    assert MoveAt(c, ms, ss, n - 1);
    if id !in ss[n - 1].db {
      NewRowsHaveNoRunner(c, ss[n - 1], ms[n - 1], id);
    }
    MoveOnRow(c, ss[n - 1], ms[n - 1], id);
    if HandsTo(ss[n - 1], ms[n - 1], id, runner) {
      m := n - 1;
    } else {
      m := HolderCommittedAClaim(c, ms, ss, n - 1, id, runner);
    }
  }

  /**
   A result is only ever committed over a row whose runner claimed it and has held it in every committed
   table since: whatever interleaves, no result comes from a runner whose job was taken back.
   */
  lemma ResultsNeedAStandingClaim(c: Setup, ms: seq<Move>, ss: seq<Sys>, n: nat, id: string) returns (m: nat)
    requires IsHistory(c, ms, ss) && n < |ms|
    requires id in ss[n + 1].db && HasResult(ss[n + 1].db[id])
    requires id in ss[n].db ==> !HasResult(ss[n].db[id])
    ensures ms[n].Commit? && id in ss[n].db && ss[n + 1].db[id].runner.Some?
    ensures HeldSinceClaim(ms, ss, m, n, id, ss[n + 1].db[id].runner.value)
  {
    HistoryKeepsInv(c, ms, ss, n);
    assert MoveAt(c, ms, ss, n);
    if id !in ss[n].db {
      NewRowsHaveNoRunner(c, ss[n], ms[n], id);
    }
    MoveOnRow(c, ss[n], ms[n], id);
    m := HolderCommittedAClaim(c, ms, ss, n, id, ss[n + 1].db[id].runner.value);
  }
}
