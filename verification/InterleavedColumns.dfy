/** What committed rows say when Postgres transactions interleave, column by column. */
module InterleavedColumns {
  import opened Common
  import opened Jobs
  import opened Table
  import opened Interleavings
  import opened InterleavedRows

  predicate Started(r: Row) { r.state.Claimed? || r.state.Running? }

  /** The WHERE clause of each statement. */
  predicate Fits(c: Setup, u: Update, id: string, r: Row) {
    match u
    case RequeueExpired(now) => Started(r) && r.lease.Some? && r.lease.value < now && r.attempts < c.maxAttempts
    case AbandonExpired(now) => Started(r) && r.lease.Some? && r.lease.value < now && r.attempts >= c.maxAttempts
    case RenewHeld(runner, _) => Started(r) && r.runner == Some(runner)
    case StartOne(target, runner, _) => id == target && r.state.Claimed? && r.runner == Some(runner)
    case FinishOne(target, runner, _, _) => id == target && Started(r) && r.runner == Some(runner)
    case MarkOne(target, _, _) => id == target && (r.state.Queued? || r.state.Running?) && r.runner.None?
  }

  function Shortened(s: string): string { if |s| > 2000 then s[..2000] else s }

  /** Its SET clause: these columns, and no others. */
  predicate Writes(u: Update, r: Row, r': Row) {
    match u
    case RequeueExpired(_) => r' == r.(state := Queued, runner := None, lease := None)
    case AbandonExpired(_) =>
      r' == r.(state := Abandoned, lease := None, summary := Some("lease expired and out of attempts"))
    case RenewHeld(_, expires) => r' == r.(lease := Some(expires))
    case StartOne(_, _, now) => r' == r.(state := Running, startedAt := Some(now))
    case FinishOne(_, _, o, now) =>
      r' == r.(state := if o.exitCode == 0 then Done else Failed, exitCode := Some(o.exitCode),
               passed := Some(o.passed), failed := Some(o.failed), skipped := Some(o.skipped),
               duration := Some(o.duration), summary := Some(Shortened(o.summary)),
               finishedAt := Some(now), lease := None)
    case MarkOne(_, reason, now) =>
      r' == r.(state := NotDispatched, finishedAt := Some(now), summary := Some(Shortened(reason)), lease := None)
  }

  /** The claim's own statement: a queued row its labels admit, taken for a full lease from its own reading. */
  predicate Claims(c: Setup, t: Txn, r: Row, r': Row)
    requires t.Claim?
  {
    && r.state.Queued? && (t.wanted == {} || r.job.server in t.wanted)
    && r' == r.(state := Claimed, runner := Some(t.runner), lease := Some(t.now + c.leaseSeconds),
                attempts := r.attempts + 1)
  }

  predicate Touches(m: Move, tid: nat, id: string) {
    m.tid == tid && (m.UpdateRow? || m.TakeRow?) && m.id == id
  }

  /** A move that writes a row writes what its statement says. */
  predicate WroteAs(c: Setup, s: Sys, m: Move, id: string, r': Row)
    requires m.tid in s.live && id in View(s, m.tid)
  {
    var t, r := s.live[m.tid].txn, View(s, m.tid)[id];
    if m.TakeRow? then t.Claim? && Claims(c, t, r, r')
    else CurrentUpdate(t).Some? && Fits(c, CurrentUpdate(t).value, id, r) && Writes(CurrentUpdate(t).value, r, r')
  }

  /** A claim chooses among rows it saw, and jobs never change their server. */
  lemma TakingWrites(c: Setup, s: Sys, tid: nat, id: string)
    requires Inv(c, s) && Enabled(c, s, TakeRow(tid, id))
    ensures tid in s.live && id in View(s, tid)
    ensures var m := TakeRow(tid, id);
            id in Do(c, s, m).live[tid].pending && WroteAs(c, s, m, id, Do(c, s, m).live[tid].pending[id])
  {
    assert PendingOk(s.db, s.live[tid]);
  }

  lemma UpdatingWrites(c: Setup, s: Sys, tid: nat, id: string)
    requires Enabled(c, s, UpdateRow(tid, id))
    ensures tid in s.live && id in View(s, tid)
    ensures var m := UpdateRow(tid, id);
            id in Do(c, s, m).live[tid].pending && WroteAs(c, s, m, id, Do(c, s, m).live[tid].pending[id])
  {
  }

  lemma TouchingWrites(c: Setup, s: Sys, m: Move, id: string)
    requires Inv(c, s) && Enabled(c, s, m) && Touches(m, m.tid, id)
    ensures m.tid in s.live && id in View(s, m.tid)
    ensures id in Do(c, s, m).live[m.tid].pending && WroteAs(c, s, m, id, Do(c, s, m).live[m.tid].pending[id])
    ensures Do(c, s, m).db == s.db
  {
    if m.TakeRow? {
      TakingWrites(c, s, m.tid, id);
    } else {
      UpdatingWrites(c, s, m.tid, id);
    }
    OthersUntouched(c, s, m);
  }

  /** A move that does not touch the row leaves it, pending and committed, as it was. */
  lemma OthersLeaveThePendingRow(c: Setup, s: Sys, m: Move, tid: nat, id: string)
    requires Inv(c, s) && Enabled(c, s, m) && !Touches(m, tid, id)
    requires var s' := Do(c, s, m); tid in s'.live && id in s'.live[tid].pending && id in s'.db
    ensures tid in s.live && id in s.live[tid].pending && id in s.db
    ensures var s' := Do(c, s, m); s'.live[tid].pending[id] == s.live[tid].pending[id] && s'.db[id] == s.db[id]
  {
    if m.Commit? || m.Rollback? {
      EndingsLeaveThePendingRow(c, s, m, tid, id);
    } else {
      OthersUntouched(c, s, m);
      if m.tid == tid { OwnMovesLeaveThePendingRow(c, s, m, id); }
    }
  }

  lemma EndingsLeaveThePendingRow(c: Setup, s: Sys, m: Move, tid: nat, id: string)
    requires Inv(c, s) && Enabled(c, s, m) && (m.Commit? || m.Rollback?)
    requires var s' := Do(c, s, m); tid in s'.live && id in s'.live[tid].pending && id in s'.db
    ensures tid in s.live && id in s.live[tid].pending && id in s.db
    ensures var s' := Do(c, s, m); s'.live[tid].pending[id] == s.live[tid].pending[id] && s'.db[id] == s.db[id]
  {
    assert Disjoint(s);
  }

  lemma OwnMovesLeaveThePendingRow(c: Setup, s: Sys, m: Move, id: string)
    requires Inv(c, s) && Enabled(c, s, m) && !m.Commit? && !m.Rollback? && !Touches(m, m.tid, id)
    requires id in s.db && m.tid in Do(c, s, m).live && id in Do(c, s, m).live[m.tid].pending
    ensures m.tid in s.live && id in s.live[m.tid].pending
    ensures Do(c, s, m).live[m.tid].pending[id] == s.live[m.tid].pending[id]
  {
  }

  /** Every uncommitted change of a stored row goes back to one move that wrote it, under a lock held since. */
  lemma {:induction false} PendingRowsWereWritten(
    c: Setup, ms: seq<Move>, ss: seq<Sys>, n: nat, tid: nat, id: string) returns (k: nat)
    requires IsHistory(c, ms, ss) && n <= |ms|
    requires tid in ss[n].live && id in ss[n].live[tid].pending && id in ss[n].db
    ensures k < n && Touches(ms[k], tid, id) && tid in ss[k].live && id in View(ss[k], tid)
    ensures WroteAs(c, ss[k], ms[k], id, ss[n].live[tid].pending[id])
    ensures id in ss[k].db && ss[k].db[id] == ss[n].db[id]
    decreases n
  {
    HistoryKeepsInv(c, ms, ss, n - 1);
    assert MoveAt(c, ms, ss, n - 1);
    if Touches(ms[n - 1], tid, id) {
      k := n - 1;
      TouchingWrites(c, ss[k], ms[k], id);
    } else {
      OthersLeaveThePendingRow(c, ss[n - 1], ms[n - 1], tid, id);
      k := PendingRowsWereWritten(c, ms, ss, n - 1, tid, id);
    }
  }

  /**
   Every change of a committed row was written by one move of the committing transaction, which found a
   row its WHERE clause fits and set exactly the columns its statement names.
   */
  lemma CommittedChangesWereWritten(c: Setup, ms: seq<Move>, ss: seq<Sys>, n: nat, id: string) returns (k: nat)
    requires IsHistory(c, ms, ss) && n < |ms| && id in ss[n].db
    requires id in ss[n + 1].db ==> ss[n + 1].db[id] != ss[n].db[id]
    ensures ms[n].Commit? && id in ss[n + 1].db
    ensures k < n && Touches(ms[k], ms[n].tid, id) && ms[n].tid in ss[k].live && id in View(ss[k], ms[n].tid)
    ensures WroteAs(c, ss[k], ms[k], id, ss[n + 1].db[id])
    ensures id !in ss[k].live[ms[n].tid].pending ==> View(ss[k], ms[n].tid)[id] == ss[n].db[id]
  {
    HistoryKeepsInv(c, ms, ss, n);
    assert MoveAt(c, ms, ss, n);
    MoveOnRow(c, ss[n], ms[n], id);
    k := PendingRowsWereWritten(c, ms, ss, n, ms[n].tid, id);
  }

  /**
   A committed result is one that was reported: this statement's outcome, all of it, from a runner that
   claimed the row and has held it in every committed table since.
   */
  lemma ResultsAreWhatWasReported(c: Setup, ms: seq<Move>, ss: seq<Sys>, n: nat, id: string)
    returns (m: nat, k: nat, u: Update)
    requires IsHistory(c, ms, ss) && n < |ms| && id in ss[n].db && id in ss[n + 1].db
    requires !HasResult(ss[n].db[id]) && HasResult(ss[n + 1].db[id])
    ensures k < n && ms[k] == UpdateRow(ms[n].tid, id) && ms[n].tid in ss[k].live
    ensures u.FinishOne? && HeldSinceClaim(ms, ss, m, n, id, u.runner)
    ensures CurrentUpdate(ss[k].live[ms[n].tid].txn) == Some(u) && u.id == id
    ensures var r, o := ss[n + 1].db[id], u.outcome;
            && r.state == (if o.exitCode == 0 then Done else Failed) && r.runner == Some(u.runner)
            && r.exitCode == Some(o.exitCode) && r.passed == Some(o.passed) && r.failed == Some(o.failed)
            && r.skipped == Some(o.skipped) && r.duration == Some(o.duration)
            && r.summary == Some(Shortened(o.summary)) && r.finishedAt == Some(u.now) && r.lease.None?
  {
    m := ResultsNeedAStandingClaim(c, ms, ss, n, id);
    k := CommittedChangesWereWritten(c, ms, ss, n, id);
    u := CurrentUpdate(ss[k].live[ms[n].tid].txn).GetOr(RequeueExpired(0.0));
  }

  /** A row appears when an insert that was answered accepted commits, and says what that insert was given. */
  lemma NewRowsAreWhatWasInserted(c: Setup, ms: seq<Move>, ss: seq<Sys>, n: nat, id: string)
    requires IsHistory(c, ms, ss) && n < |ms| && id !in ss[n].db && id in ss[n + 1].db
    ensures ms[n].Commit? && ms[n].tid in ss[n].live && ss[n].live[ms[n].tid].txn.Insert?
    ensures var t, r := ss[n].live[ms[n].tid].txn, ss[n + 1].db[id];
            && t.job.id == id && t.insertPc == Answering(Accepted)
            && r.job == t.job && r.createdAt == t.now && r.mode == t.mode
            && r.state == (if t.dispatched then Running else Queued)
            && r.startedAt == (if t.dispatched then Some(t.now) else None)
            && r.runner.None? && r.lease.None? && r.attempts == 0
            && r.finishedAt.None? && r.exitCode.None? && r.summary.None?
  {
    HistoryKeepsInv(c, ms, ss, n);
    assert MoveAt(c, ms, ss, n);
    if ms[n].Commit? {
      assert PendingOk(ss[n].db, ss[n].live[ms[n].tid]);
    } else if !ms[n].Rollback? {
      OthersUntouched(c, ss[n], ms[n]);
    }
  }
}
