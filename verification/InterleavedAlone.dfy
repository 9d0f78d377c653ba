/**
 A transaction nobody interrupts does what the serial store does: an update, a reap or a claim that runs
 through while nobody else has uncommitted rows ends in the serial store's next table.
 */
module InterleavedAlone {
  import opened Common
  import opened Jobs
  import opened Table
  import Postgres
  import opened Interleavings
  import opened InterleavedTight

  /** What the serial store makes of the table, statement by statement. */
  function SerialUpdate(c: Setup, t: Table, u: Update): Table {
    match u
    case RequeueExpired(now) => AfterRequeue(t, now, c.maxAttempts)
    case AbandonExpired(now) => AfterAbandon(t, now, c.maxAttempts)
    case RenewHeld(runner, expires) => AfterRenew(t, runner, expires)
    case StartOne(id, runner, now) => AfterStart(t, id, runner, now)
    case FinishOne(id, runner, o, now) => AfterFinish(t, id, runner, o, now)
    case MarkOne(id, reason, now) => AfterMark(t, id, reason, now)
  }

  function SerialUpdates(c: Setup, t: Table, todo: seq<Update>): Table {
    if todo == [] then t else SerialUpdates(c, SerialUpdate(c, t, todo[0]), todo[1..])
  }

  /** Nobody else has written anything it has not committed. */
  predicate AllQuietBut(s: Sys, tid: nat) {
    forall other :: other in s.live && other != tid ==> s.live[other].pending == map[]
  }

  function Matching(c: Setup, t: Table, u: Update): set<string> { set id | id in t && Matches(c, u, id, t[id]) }

  function Updated(t: Table, u: Update, ids: set<string>): Table { map id | id in t && id in ids :: Effect(u, t[id]) }

  /** A statement that reaches every row it matches is the serial store's. */
  lemma WholeStatementIsSerial(c: Setup, t: Table, u: Update)
    ensures t + Updated(t, u, Matching(c, t, u)) == SerialUpdate(c, t, u)
  {
    var t' := t + Updated(t, u, Matching(c, t, u));
    assert t'.Keys == t.Keys && SerialUpdate(c, t, u).Keys == t.Keys;
    forall id | id in t ensures t'[id] == SerialUpdate(c, t, u)[id] {}
  }

  /** The transaction with some of the rows of its current statement written. */
  function Partway(s: Sys, tid: nat, u: Update, ids: set<string>): Sys
    requires tid in s.live
  {
    s.(live := s.live[tid := s.live[tid].(pending := s.live[tid].pending + Updated(View(s, tid), u, ids))])
  }

  lemma UpdatesOneRow(c: Setup, s: Sys, tid: nat, u: Update, id: string)
    requires tid in s.live && CurrentUpdate(s.live[tid].txn) == Some(u) && AllQuietBut(s, tid)
    requires id in Matching(c, View(s, tid), u)
    ensures Enabled(c, s, UpdateRow(tid, id))
    ensures var o := s.live[tid];
            Do(c, s, UpdateRow(tid, id))
            == s.(live := s.live[tid := Open(o.txn, o.pending[id := Effect(u, View(s, tid)[id])])])
  {
  }

  lemma OneMoreWritten(pending: Table, view: Table, u: Update, ids: set<string>, id: string)
    requires id in view
    ensures (pending + Updated(view, u, ids))[id := Effect(u, view[id])] == pending + Updated(view, u, ids + {id})
  {
  }

  lemma OneMoreRow(c: Setup, s: Sys, tid: nat, u: Update, ids: set<string>, id: string)
    requires tid in s.live && CurrentUpdate(s.live[tid].txn) == Some(u) && AllQuietBut(s, tid)
    requires id in Matching(c, View(s, tid), u) && id !in ids
    ensures var s1 := Partway(s, tid, u, ids);
            Enabled(c, s1, UpdateRow(tid, id)) && Do(c, s1, UpdateRow(tid, id)) == Partway(s, tid, u, ids + {id})
  {
    var s1, view := Partway(s, tid, u, ids), View(s, tid);
    assert id in View(s1, tid) && View(s1, tid)[id] == view[id];
    UpdatesOneRow(c, s1, tid, u, id);
    OneMoreWritten(s.live[tid].pending, view, u, ids, id);
    var o := Open(s.live[tid].txn, s.live[tid].pending + Updated(view, u, ids + {id}));
    assert s1.live[tid := o] == s.live[tid := o];
  }

  lemma {:induction false} UpdateRows(c: Setup, ms: seq<Move>, ss: seq<Sys>, tid: nat, u: Update, ids: set<string>)
    returns (ms': seq<Move>, ss': seq<Sys>)
    requires IsHistory(c, ms, ss) && tid in ss[|ms|].live && AllQuietBut(ss[|ms|], tid)
    requires CurrentUpdate(ss[|ms|].live[tid].txn) == Some(u) && ids <= Matching(c, View(ss[|ms|], tid), u)
    ensures IsHistory(c, ms', ss') && ss'[|ms'|] == Partway(ss[|ms|], tid, u, ids)
    decreases ids
  {
    var s := ss[|ms|];
    if ids == {} {
      assert s.live[tid].pending + Updated(View(s, tid), u, {}) == s.live[tid].pending;
      assert Partway(s, tid, u, {}).live == s.live;
      ms', ss' := ms, ss;
    } else {
      var id :| id in ids;
      ms', ss' := UpdateRows(c, ms, ss, tid, u, ids - {id});
      OneMoreRow(c, s, tid, u, ids - {id}, id);
      assert ids - {id} + {id} == ids;
      ms', ss' := Then(c, ms', ss', UpdateRow(tid, id), Partway(s, tid, u, ids));
    }
  }

  /** The transaction at the start of a list of statements: the reap inside a claim, or a write. */
  function WithTodo(t: Txn, todo: seq<Update>): Txn
    requires !t.Insert?
  {
    if t.Claim? then t.(claimPc := Reaping(todo)) else Write(todo)
  }

  predicate AtTodo(t: Txn, todo: seq<Update>) { !t.Insert? && t == WithTodo(t, todo) }

  lemma StatementEnds(c: Setup, s: Sys, tid: nat, todo: seq<Update>)
    requires tid in s.live && todo != [] && AtTodo(s.live[tid].txn, todo)
    ensures Enabled(c, s, NextStatement(tid))
    ensures var s', o := Do(c, s, NextStatement(tid)), s.live[tid];
            && s' == s.(live := s.live[tid := Open(WithTodo(o.txn, todo[1..]), o.pending)])
            && View(s', tid) == View(s, tid)
  {
  }

  /** All the rows of the current statement. */
  lemma RunRows(c: Setup, ms: seq<Move>, ss: seq<Sys>, tid: nat, u: Update)
    returns (ms': seq<Move>, ss': seq<Sys>, pending: Table)
    requires IsHistory(c, ms, ss) && tid in ss[|ms|].live && AllQuietBut(ss[|ms|], tid)
    requires CurrentUpdate(ss[|ms|].live[tid].txn) == Some(u)
    ensures IsHistory(c, ms', ss')
    ensures var s := ss[|ms|];
            && ss'[|ms'|] == s.(live := s.live[tid := Open(s.live[tid].txn, pending)])
            && s.db + pending == SerialUpdate(c, View(s, tid), u)
  {
    var s := ss[|ms|];
    var ids := Matching(c, View(s, tid), u);
    ms', ss' := UpdateRows(c, ms, ss, tid, u, ids);
    WholeStatementIsSerial(c, View(s, tid), u);
    pending := s.live[tid].pending + Updated(View(s, tid), u, ids);
    assert s.db + pending == View(s, tid) + Updated(View(s, tid), u, ids);
  }

  lemma RunStatement(c: Setup, ms: seq<Move>, ss: seq<Sys>, tid: nat, todo: seq<Update>)
    returns (ms': seq<Move>, ss': seq<Sys>)
    requires IsHistory(c, ms, ss) && tid in ss[|ms|].live && AllQuietBut(ss[|ms|], tid) && todo != []
    requires AtTodo(ss[|ms|].live[tid].txn, todo)
    ensures IsHistory(c, ms', ss') && tid in ss'[|ms'|].live
    ensures var s, s' := ss[|ms|], ss'[|ms'|];
            && s' == s.(live := s.live[tid := s'.live[tid]])
            && s'.live[tid].txn == WithTodo(s.live[tid].txn, todo[1..])
            && View(s', tid) == SerialUpdate(c, View(s, tid), todo[0])
  {
    var live, pending := ss[|ms|].live, map[];
    ms', ss', pending := RunRows(c, ms, ss, tid, todo[0]);
    StatementEnds(c, ss'[|ms'|], tid, todo);
    ms', ss' := Then(c, ms', ss', NextStatement(tid), Do(c, ss'[|ms'|], NextStatement(tid)));
    var after := Open(WithTodo(live[tid].txn, todo[1..]), pending);
    assert live[tid := Open(live[tid].txn, pending)][tid := after] == live[tid := after];
  }

  lemma {:induction false} RunStatements(c: Setup, ms: seq<Move>, ss: seq<Sys>, tid: nat, todo: seq<Update>)
    returns (ms': seq<Move>, ss': seq<Sys>)
    requires IsHistory(c, ms, ss) && tid in ss[|ms|].live && AllQuietBut(ss[|ms|], tid)
    requires AtTodo(ss[|ms|].live[tid].txn, todo)
    ensures IsHistory(c, ms', ss') && tid in ss'[|ms'|].live
    ensures var s, s' := ss[|ms|], ss'[|ms'|];
            && s' == s.(live := s.live[tid := s'.live[tid]])
            && s'.live[tid].txn == WithTodo(s.live[tid].txn, [])
            && View(s', tid) == SerialUpdates(c, View(s, tid), todo)
    decreases |todo|
  {
    if todo == [] {
      assert ss[|ms|].live == ss[|ms|].live[tid := ss[|ms|].live[tid]];
      ms', ss' := ms, ss;
    } else {
      var s := ss[|ms|];
      ms', ss' := RunStatement(c, ms, ss, tid, todo);
      var s1 := ss'[|ms'|];
      ms', ss' := RunStatements(c, ms', ss', tid, todo[1..]);
      assert s1.live[tid := ss'[|ms'|].live[tid]] == s.live[tid := ss'[|ms'|].live[tid]];
    }
  }

  /** Any list of updates, run through alone, leaves what the serial store leaves. */
  lemma LoneUpdatesAreSerial(c: Setup, ms: seq<Move>, ss: seq<Sys>, tid: nat, todo: seq<Update>)
    returns (ms': seq<Move>, ss': seq<Sys>)
    requires IsHistory(c, ms, ss) && Fresh(ss[|ms|], tid) && AllQuietBut(ss[|ms|], tid)
    ensures IsHistory(c, ms', ss') && tid in ss'[|ms'|].answers && ss'[|ms'|].answers[tid] == Written
    ensures ss'[|ms'|].live == ss[|ms|].live && ss'[|ms'|].db == SerialUpdates(c, ss[|ms|].db, todo)
  {
    var s := ss[|ms|];
    var s1 := s.(live := s.live[tid := Open(Write(todo), map[])]);
    ms', ss' := Then(c, ms, ss, Begin(tid, Write(todo)), s1);
    assert View(s1, tid) == s.db;
    ms', ss' := RunStatements(c, ms', ss', tid, todo);
    var s2 := ss'[|ms'|];
    ms', ss' := Then(c, ms', ss', Commit(tid), Do(c, s2, Commit(tid)));
    assert ss'[|ms'|].live == s.live;
  }

  /** A result, a start, a mark or a heartbeat that runs through alone, and a reap. */
  lemma LoneCallsAreSerial(c: Setup, ms: seq<Move>, ss: seq<Sys>, tid: nat, u: Update)
    returns (ms': seq<Move>, ss': seq<Sys>)
    requires IsHistory(c, ms, ss) && Fresh(ss[|ms|], tid) && AllQuietBut(ss[|ms|], tid)
    ensures IsHistory(c, ms', ss')
    ensures var t, t' := ss[|ms|].db, ss'[|ms'|].db;
            match u
            case FinishOne(id, runner, o, now) => t' == AfterFinish(t, id, runner, o, now)
            case StartOne(id, runner, now) => t' == AfterStart(t, id, runner, now)
            case MarkOne(id, reason, now) => t' == AfterMark(t, id, reason, now)
            case RenewHeld(runner, expires) => t' == AfterRenew(t, runner, expires)
            case RequeueExpired(now) => t' == AfterReap(t, now, c.maxAttempts)
            case AbandonExpired(now) => t' == AfterReap(t, now, c.maxAttempts)
  {
    var todo := if u.RequeueExpired? || u.AbandonExpired? then ReapStatements(u.now) else [u];
    ms', ss' := LoneUpdatesAreSerial(c, ms, ss, tid, todo);
    if u.RequeueExpired? || u.AbandonExpired? {
      ReapIsSerial(c, ss[|ms|].db, u.now);
    } else {
      assert [u][1..] == [];
      assert SerialUpdates(c, ss[|ms|].db, [u]) == SerialUpdates(c, SerialUpdate(c, ss[|ms|].db, u), []);
    }
  }

  lemma ReapIsSerial(c: Setup, t: Table, now: real)
    ensures SerialUpdates(c, t, ReapStatements(now)) == AfterReap(t, now, c.maxAttempts)
  {
    var todo := ReapStatements(now);
    var t1 := AfterRequeue(t, now, c.maxAttempts);
    assert todo[1..] == [AbandonExpired(now)];
    assert [AbandonExpired(now)][1..] == [];
    assert SerialUpdates(c, t, todo) == SerialUpdates(c, t1, [AbandonExpired(now)]);
    assert SerialUpdates(c, t1, [AbandonExpired(now)]) == SerialUpdates(c, AfterAbandon(t1, now, c.maxAttempts), []);
    TwoUpdatesAreOnePartition(t, now, c.maxAttempts);
  }

  // ---------------------------------------------------------------- a claim

  function Asks(c: Setup, runner: string, labels: seq<string>, now: real): ClaimRequest {
    ClaimRequest(runner, labels, c.leaseSeconds, c.maxAttempts, c.caps, now)
  }

  /** The claim opens, takes its lock, reaps, and has its snapshot. */
  lemma ClaimReaps(c: Setup, ms: seq<Move>, ss: seq<Sys>, tid: nat, runner: string, wanted: set<string>, now: real)
    returns (ms': seq<Move>, ss': seq<Sys>)
    requires IsHistory(c, ms, ss) && c.claiming && Fresh(ss[|ms|], tid) && AllQuietBut(ss[|ms|], tid)
    requires ss[|ms|].claimLock.None?
    ensures IsHistory(c, ms', ss') && tid in ss'[|ms'|].live
    ensures var s, s' := ss[|ms|], ss'[|ms'|];
            var reaped := AfterReap(s.db, now, c.maxAttempts);
            && s' == s.(live := s.live[tid := s'.live[tid]], claimLock := s'.claimLock)
            && (s'.claimLock == Some(tid) || s'.claimLock == s.claimLock)
            && s'.live[tid].txn == Claim(runner, wanted, now, Choosing(reaped)) && View(s', tid) == reaped
  {
    var s := ss[|ms|];
    var txn := Claim(runner, wanted, now, AwaitingLock);
    var s1 := s.(live := s.live[tid := Open(txn, map[])]);
    ms', ss' := Then(c, ms, ss, Begin(tid, txn), s1);
    var s2 := Do(c, s1, LockClaim(tid));
    ms', ss' := Then(c, ms', ss', LockClaim(tid), s2);
    assert s2.live == s.live[tid := s2.live[tid]] && View(s2, tid) == s.db;
    ms', ss' := RunStatements(c, ms', ss', tid, ReapStatements(now));
    ReapIsSerial(c, s.db, now);
    var s3 := ss'[|ms'|];
    var s4 := Do(c, s3, Snapshot(tid));
    ms', ss' := Then(c, ms', ss', Snapshot(tid), s4);
    assert View(s4, tid) == View(s3, tid);
    assert s4.live == s.live[tid := s4.live[tid]];
  }

  /** From its snapshot to its commit. */
  lemma ClaimConcludes(c: Setup, ms: seq<Move>, ss: seq<Sys>, tid: nat, q: ClaimRequest, id: Option<string>)
    returns (ms': seq<Move>, ss': seq<Sys>)
    requires IsHistory(c, ms, ss) && tid in ss[|ms|].live && AllQuietBut(ss[|ms|], tid)
    requires q == Asks(c, q.runner, q.labels, q.now)
    requires ss[|ms|].live[tid].txn == Claim(q.runner, Wanted(q.labels), q.now, Choosing(View(ss[|ms|], tid)))
    requires id.Some? ==> Postgres.Candidate(View(ss[|ms|], tid), q, id.value)
    ensures IsHistory(c, ms', ss') && tid in ss'[|ms'|].answers && ss'[|ms'|].answers[tid] == Handed(id)
    ensures var view := View(ss[|ms|], tid);
            ss'[|ms'|].db == if id.Some? then AfterTake(view, q, id.value) else view
  {
    var s := ss[|ms|];
    var view := View(s, tid);
    var m := if id.Some? then TakeRow(tid, id.value) else TakeNothing(tid);
    var s1 := Do(c, s, m);
    ms', ss' := Then(c, ms, ss, m, s1);
    assert View(s1, tid) == if id.Some? then AfterTake(view, q, id.value) else view;
    ms', ss' := Then(c, ms', ss', Commit(tid), Do(c, s1, Commit(tid)));
  }

  /** Whatever the serial claim may hand out and leave, a claim that runs through alone may. */
  lemma LoneClaimIsSerial(
    c: Setup, ms: seq<Move>, ss: seq<Sys>, tid: nat, q: ClaimRequest, t': Table, handed: Option<Job>)
    returns (ms': seq<Move>, ss': seq<Sys>)
    requires IsHistory(c, ms, ss) && c.claiming && Fresh(ss[|ms|], tid) && AllQuietBut(ss[|ms|], tid)
    requires ss[|ms|].claimLock.None? && q == Asks(c, q.runner, q.labels, q.now)
    requires Postgres.StatementStep(ss[|ms|].db, q, t', handed)
    ensures IsHistory(c, ms', ss') && ss'[|ms'|].db == t' && tid in ss'[|ms'|].answers
    ensures ss'[|ms'|].answers[tid] == Handed(if handed.Some? then Some(handed.value.id) else None)
  {
    var id := if handed.Some? then Some(handed.value.id) else None;
    ms', ss' := ClaimReaps(c, ms, ss, tid, q.runner, Wanted(q.labels), q.now);
    ms', ss' := ClaimConcludes(c, ms', ss', tid, q, id);
  }

  // ---------------------------------------------------------------- giving up

  /** Any open transaction may be rolled back, and then nothing it did is ever seen. */
  lemma RollingBackUndoes(c: Setup, ms: seq<Move>, ss: seq<Sys>, tid: nat) returns (ms': seq<Move>, ss': seq<Sys>)
    requires IsHistory(c, ms, ss) && tid in ss[|ms|].live
    ensures IsHistory(c, ms', ss') && tid in ss'[|ms'|].answers && ss'[|ms'|].answers[tid] == RolledBack
    ensures ss'[|ms'|].db == ss[|ms|].db && ss'[|ms'|].handedOut == ss[|ms|].handedOut
    ensures ss'[|ms'|].live == ss[|ms|].live - {tid}
    ensures ss'[|ms'|].enqueueLock != Some(tid) && ss'[|ms'|].claimLock != Some(tid)
  {
    ms', ss' := Then(c, ms, ss, Rollback(tid), Do(c, ss[|ms|], Rollback(tid)));
  }
}
