/**
 The Postgres backend under READ COMMITTED, with any number of transactions open at once.

 A transaction is a program counter and the rows it has written but not committed. Those rows are
 locked: nobody else may write them until it ends, and nobody else sees them. A count reads what is
 committed at that moment together with the transaction's own writes. An UPDATE takes rows one at a
 time, testing its WHERE against the latest version of each; it may take any of the rows that match,
 which allows everything a statement snapshot would and more. The claim's candidate query counts in
 one step, on a snapshot, and takes and locks its row in a later one.
 */
module Interleavings {
  import opened Common
  import opened Jobs
  import opened Table

  /** One configuration for every caller, and which of the two ways of starting work are in use. */
  datatype Setup = Setup(caps: Caps, leaseSeconds: real, maxAttempts: int, dispatching: bool, claiming: bool)

  // ---------------------------------------------------------------- statements

  datatype Update =
    | RequeueExpired(now: real)
    | AbandonExpired(now: real)
    | RenewHeld(runner: string, expires: real)
    | StartOne(id: string, runner: string, now: real)
    | FinishOne(id: string, runner: string, outcome: Outcome, now: real)
    | MarkOne(id: string, reason: string, now: real)

  predicate Matches(c: Setup, u: Update, id: string, r: Row) {
    match u
    case RequeueExpired(now) => Expired(r, now) && r.attempts < c.maxAttempts
    case AbandonExpired(now) => Expired(r, now) && r.attempts >= c.maxAttempts
    case RenewHeld(runner, _) => HeldBy(r, runner)
    case StartOne(target, runner, _) => id == target && CanStart(r, runner)
    case FinishOne(target, runner, _, _) => id == target && HeldBy(r, runner)
    case MarkOne(target, _, _) => id == target && CanMark(r)
  }

  function Effect(u: Update, r: Row): Row {
    match u
    case RequeueExpired(_) => Requeue(r)
    case AbandonExpired(_) => Abandon(r)
    case RenewHeld(_, expires) => Renew(r, expires)
    case StartOne(_, _, now) => Start(r, now)
    case FinishOne(_, _, o, now) => Finish(r, o, now)
    case MarkOne(_, reason, now) => Mark(r, reason, now)
  }

  function ReapStatements(now: real): seq<Update> { [RequeueExpired(now), AbandonExpired(now)] }

  // ---------------------------------------------------------------- transactions

  datatype InsertPc =
    | Locking | Checking | CountingActive | CountingChannel | Inserting
    | Answering(result: EnqueueResult)

  datatype ClaimPc =
    | AwaitingLock
    | Reaping(todo: seq<Update>)
    | Choosing(snapshot: Table)
    | Took(id: string)
    | FoundNothing

  datatype Txn =
    | Insert(job: Job, dispatched: bool, mode: string, now: real, insertPc: InsertPc)
    | Claim(runner: string, wanted: set<string>, now: real, claimPc: ClaimPc)
    | Write(todo: seq<Update>)

  datatype Open = Open(txn: Txn, pending: Table)

  datatype Answer = Inserted(id: string, result: EnqueueResult) | Handed(taken: Option<string>) | Written | RolledBack

  datatype Sys = Sys(
    db: Table, live: map<nat, Open>, enqueueLock: Option<nat>, claimLock: Option<nat>,
    answers: map<nat, Answer>, handedOut: multiset<string>)

  const START := Sys(map[], map[], None, None, map[], multiset{})

  datatype Move =
    | Begin(tid: nat, txn: Txn)
    | LockEnqueue(tid: nat) | CheckDuplicate(tid: nat) | CountActive(tid: nat) | CountChannel(tid: nat)
    | InsertRow(tid: nat)
    | LockClaim(tid: nat) | UpdateRow(tid: nat, id: string) | NextStatement(tid: nat)
    | Snapshot(tid: nat) | TakeRow(tid: nat, id: string) | TakeNothing(tid: nat)
    | Commit(tid: nat) | Rollback(tid: nat)

  /** Any cap at all makes the insert path take its lock. */
  predicate Capped(caps: Caps) { caps.activePerJob != 0 || caps.queuedPerChannel != 0 || caps.runningPerChannel != 0 }

  predicate Unlocked(s: Sys, tid: nat, id: string) {
    forall other :: other in s.live && other != tid ==> id !in s.live[other].pending
  }

  function View(s: Sys, tid: nat): Table
    requires tid in s.live
  {
    s.db + s.live[tid].pending
  }

  function CurrentUpdate(t: Txn): Option<Update> {
    if t.Claim? && t.claimPc.Reaping? && t.claimPc.todo != [] then Some(t.claimPc.todo[0])
    else if t.Write? && t.todo != [] then Some(t.todo[0])
    else None
  }

  predicate MayBegin(c: Setup, t: Txn) {
    match t
    case Insert(job, dispatched, _, _, pc) => ValidateJob(job).Ok? && pc.Locking? && (dispatched ==> c.dispatching)
    case Claim(_, _, _, pc) => c.claiming && pc.AwaitingLock?
    case Write(_) => true
  }

  predicate MayCommit(t: Txn) {
    match t
    case Insert(_, _, _, _, pc) => pc.Answering?
    case Claim(_, _, _, pc) => pc.Took? || pc.FoundNothing?
    case Write(todo) => todo == []
  }

  predicate Enabled(c: Setup, s: Sys, m: Move) {
    if m.Begin? then m.tid !in s.live && m.tid !in s.answers && MayBegin(c, m.txn)
    else m.tid in s.live && var t := s.live[m.tid].txn;
      match m
      case LockEnqueue(tid) => t.Insert? && t.insertPc.Locking? && (Capped(c.caps) ==> s.enqueueLock.None?)
      case CheckDuplicate(tid) => t.Insert? && t.insertPc.Checking?
      case CountActive(tid) => t.Insert? && t.insertPc.CountingActive?
      case CountChannel(tid) => t.Insert? && t.insertPc.CountingChannel?
      case InsertRow(tid) => t.Insert? && t.insertPc.Inserting? && (t.job.id in s.db || Unlocked(s, tid, t.job.id))
      case LockClaim(tid) => t.Claim? && t.claimPc.AwaitingLock? && (c.caps.runningPerChannel > 0 ==> s.claimLock.None?)
      case UpdateRow(tid, id) =>
        && CurrentUpdate(t).Some? && Unlocked(s, tid, id)
        && id in View(s, tid) && Matches(c, CurrentUpdate(t).value, id, View(s, tid)[id])
      case NextStatement(tid) => CurrentUpdate(t).Some?
      case Snapshot(tid) => t.Claim? && t.claimPc.Reaping? && t.claimPc.todo == []
      case TakeRow(tid, id) =>
        && t.Claim? && t.claimPc.Choosing? && Unlocked(s, tid, id)
        && CandidateIn(c, t.claimPc.snapshot, t.wanted, id)
        && id in View(s, tid) && View(s, tid)[id].state.Queued?
      case TakeNothing(tid) => t.Claim? && t.claimPc.Choosing?
      case Commit(tid) => MayCommit(t)
      case Rollback(tid) => true
      case Begin(_, _) => false
  }

  /** The candidate query's WHERE clause, on the statement's snapshot. */
  predicate CandidateIn(c: Setup, snapshot: Table, wanted: set<string>, id: string) {
    && id in snapshot && snapshot[id].state.Queued? && LabelsAdmit(wanted, snapshot[id].job.server)
    && (c.caps.runningPerChannel == 0 || |BusyIn(snapshot, snapshot[id].job.channel)| < c.caps.runningPerChannel)
  }

  function AtPc(s: Sys, tid: nat, pc: InsertPc): Sys
    requires tid in s.live && s.live[tid].txn.Insert?
  {
    s.(live := s.live[tid := s.live[tid].(txn := s.live[tid].txn.(insertPc := pc))])
  }

  function AtClaimPc(s: Sys, tid: nat, pc: ClaimPc): Sys
    requires tid in s.live && s.live[tid].txn.Claim?
  {
    s.(live := s.live[tid := s.live[tid].(txn := s.live[tid].txn.(claimPc := pc))])
  }

  function WithPending(s: Sys, tid: nat, id: string, r: Row): Sys
    requires tid in s.live
  {
    s.(live := s.live[tid := s.live[tid].(pending := s.live[tid].pending[id := r])])
  }

  function Released(lock: Option<nat>, tid: nat): Option<nat> { if lock == Some(tid) then None else lock }

  /** Committed or rolled back, a transaction lets go of its rows and its advisory locks. */
  function Closed(s: Sys, tid: nat, a: Answer): Sys
    requires tid in s.live
  {
    s.(live := s.live - {tid}, enqueueLock := Released(s.enqueueLock, tid), claimLock := Released(s.claimLock, tid),
       answers := s.answers[tid := a])
  }

  function AnswerOf(t: Txn): Answer
    requires MayCommit(t)
  {
    match t
    case Insert(job, _, _, _, pc) => Inserted(job.id, pc.result)
    case Claim(_, _, _, pc) => Handed(if pc.Took? then Some(pc.id) else None)
    case Write(_) => Written
  }

  function TakenBy(t: Txn): multiset<string> {
    if t.Claim? && t.claimPc.Took? then multiset{t.claimPc.id} else multiset{}
  }

  function Do(c: Setup, s: Sys, m: Move): Sys
    requires Enabled(c, s, m)
  {
    match m
    case Begin(tid, txn) => s.(live := s.live[tid := Open(txn, map[])])
    case LockEnqueue(tid) =>
      AtPc(if Capped(c.caps) then s.(enqueueLock := Some(tid)) else s, tid, Checking)
    case CheckDuplicate(tid) =>
      AtPc(s, tid, if s.live[tid].txn.job.id in s.db then Answering(Duplicate) else CountingActive)
    case CountActive(tid) =>
      var job := s.live[tid].txn.job;
      AtPc(s, tid, if c.caps.activePerJob > 0 && |ActiveFor(s.db, job.product, job.server)| >= c.caps.activePerJob
                   then Answering(JobAtCapacity) else CountingChannel)
    case CountChannel(tid) =>
      var t := s.live[tid].txn;
      AtPc(s, tid,
        if !t.dispatched && c.caps.queuedPerChannel > 0 && |QueuedIn(s.db, t.job.channel)| >= c.caps.queuedPerChannel
        then Answering(ChannelQueueFull)
        else if t.dispatched && c.caps.runningPerChannel > 0
                && |BusyIn(s.db, t.job.channel)| >= c.caps.runningPerChannel
        then Answering(ChannelBusy)
        else Inserting)
    case InsertRow(tid) =>
      var t := s.live[tid].txn;
      if t.job.id in s.db then AtPc(s, tid, Answering(Duplicate))
      else AtPc(WithPending(s, tid, t.job.id, NewRow(t.job, t.dispatched, t.mode, t.now)), tid, Answering(Accepted))
    case LockClaim(tid) =>
      AtClaimPc(if c.caps.runningPerChannel > 0 then s.(claimLock := Some(tid)) else s, tid,
                Reaping(ReapStatements(s.live[tid].txn.now)))
    case UpdateRow(tid, id) => WithPending(s, tid, id, Effect(CurrentUpdate(s.live[tid].txn).value, View(s, tid)[id]))
    case NextStatement(tid) =>
      var t := s.live[tid].txn;
      if t.Claim? then AtClaimPc(s, tid, Reaping(t.claimPc.todo[1..]))
      else s.(live := s.live[tid := s.live[tid].(txn := Write(t.todo[1..]))])
    case Snapshot(tid) => AtClaimPc(s, tid, Choosing(View(s, tid)))
    case TakeRow(tid, id) =>
      var t := s.live[tid].txn;
      AtClaimPc(WithPending(s, tid, id, Take(View(s, tid)[id], t.runner, t.now + c.leaseSeconds)), tid, Took(id))
    case TakeNothing(tid) => AtClaimPc(s, tid, FoundNothing)
    case Commit(tid) =>
      var o := s.live[tid];
      Closed(s.(db := s.db + o.pending, handedOut := s.handedOut + TakenBy(o.txn)), tid, AnswerOf(o.txn))
    case Rollback(tid) => Closed(s, tid, RolledBack)
  }

  // ---------------------------------------------------------------- histories

  predicate MoveAt(c: Setup, ms: seq<Move>, ss: seq<Sys>, i: int)
    requires 0 <= i < |ms| && |ss| == |ms| + 1
  {
    Enabled(c, ss[i], ms[i]) && ss[i + 1] == Do(c, ss[i], ms[i])
  }

  /** Any interleaving of any transactions, from an empty table. */
  predicate IsHistory(c: Setup, ms: seq<Move>, ss: seq<Sys>) {
    && |ss| == |ms| + 1
    && ss[0] == START
    && forall i :: 0 <= i < |ms| ==> MoveAt(c, ms, ss, i)
  }

  // ---------------------------------------------------------------- what every transaction keeps

  /**
   An update may move an unfinished row towards its end, never back into a slot it had left, never to
   another runner, and to a result only from the hands of the runner that held it.
   */
  predicate Kept(before: Row, after: Row) {
    && after.job == before.job && after.attempts == before.attempts && Active(before.state)
    && (Busy(after.state) ==> Busy(before.state) && after.runner == before.runner)
    && (HasResult(after) ==> after.runner.Some? && HeldBy(before, after.runner.value))
  }

  predicate HasResult(r: Row) { r.state.Done? || r.state.Failed? }

  predicate TakenFrom(before: Row, after: Row, runner: string) {
    && after.job == before.job && after.attempts == before.attempts + 1 && Active(before.state)
    && after.state.Claimed? && after.runner == Some(runner)
  }

  predicate PendingOk(db: Table, o: Open) {
    match o.txn
    case Insert(job, dispatched, mode, now, pc) =>
      if pc == Answering(Accepted)
      then job.id !in db && o.pending == map[job.id := NewRow(job, dispatched, mode, now)]
      else o.pending == map[] && (pc == Answering(Duplicate) ==> job.id in db)
    case Claim(runner, _, _, pc) =>
      && (pc.AwaitingLock? ==> o.pending == map[])
      && (pc.Took? ==> pc.id in o.pending)
      && (pc.Choosing? ==> forall id :: id in pc.snapshot ==> id in db && db[id].job == pc.snapshot[id].job)
      && forall id :: id in o.pending ==>
           id in db && if pc == Took(id) then TakenFrom(db[id], o.pending[id], runner) else Kept(db[id], o.pending[id])
    case Write(_) => forall id :: id in o.pending ==> id in db && Kept(db[id], o.pending[id])
  }

  predicate LocksHeld(c: Setup, s: Sys, tid: nat)
    requires tid in s.live
  {
    var t := s.live[tid].txn;
    && tid !in s.answers
    && (t.Insert? && !t.insertPc.Locking? && Capped(c.caps) ==> s.enqueueLock == Some(tid))
    && (t.Insert? && t.dispatched ==> c.dispatching)
    && (t.Claim? ==> c.claiming)
    && (t.Claim? && !t.claimPc.AwaitingLock? && c.caps.runningPerChannel > 0 ==> s.claimLock == Some(tid))
  }

  predicate Disjoint(s: Sys) {
    forall a, b, id :: a in s.live && b in s.live && a != b && id in s.live[a].pending ==> id !in s.live[b].pending
  }

  predicate Inv(c: Setup, s: Sys) {
    && Disjoint(s)
    && forall tid :: tid in s.live ==> LocksHeld(c, s, tid) && PendingOk(s.db, s.live[tid])
  }

  lemma EffectKeeps(c: Setup, u: Update, id: string, base: Row, r: Row)
    requires (base == r || Kept(base, r)) && Matches(c, u, id, r)
    ensures Kept(base, Effect(u, r))
  {
  }

  /** What a commit does to a committed row: nothing, or what its transaction was entitled to. */
  lemma CommitByRow(c: Setup, s: Sys, tid: nat)
    requires Inv(c, s) && tid in s.live && MayCommit(s.live[tid].txn)
    ensures var db' := s.db + s.live[tid].pending;
            && s.db.Keys <= db'.Keys
            && (forall id :: id in s.db ==> db'[id].job == s.db[id].job)
            && (forall id :: id in s.db && id !in s.live[tid].pending ==> db'[id] == s.db[id])
  {
    assert PendingOk(s.db, s.live[tid]);
  }

  lemma OthersSurviveCommit(c: Setup, s: Sys, tid: nat, other: nat)
    requires Inv(c, s) && tid in s.live && MayCommit(s.live[tid].txn) && other in s.live && other != tid
    ensures PendingOk(s.db + s.live[tid].pending, s.live[other])
  {
    CommitByRow(c, s, tid);
    assert PendingOk(s.db, s.live[other]);
    assert Disjoint(s);
  }

  lemma CommitKeepsInv(c: Setup, s: Sys, tid: nat)
    requires Inv(c, s) && Enabled(c, s, Commit(tid))
    ensures Inv(c, Do(c, s, Commit(tid)))
  {
    var s' := Do(c, s, Commit(tid));
    forall other | other in s'.live ensures LocksHeld(c, s', other) && PendingOk(s'.db, s'.live[other]) {
      assert LocksHeld(c, s, other) && s'.live[other] == s.live[other];
      OthersSurviveCommit(c, s, tid, other);
    }
    assert Disjoint(s') by { assert Disjoint(s); }
  }

  lemma RollbackKeepsInv(c: Setup, s: Sys, tid: nat)
    requires Inv(c, s) && Enabled(c, s, Rollback(tid))
    ensures Inv(c, Do(c, s, Rollback(tid)))
  {
    var s' := Do(c, s, Rollback(tid));
    forall other | other in s'.live ensures LocksHeld(c, s', other) && PendingOk(s'.db, s'.live[other]) {
      assert LocksHeld(c, s, other) && PendingOk(s.db, s.live[other]) && s'.live[other] == s.live[other];
    }
    assert Disjoint(s') by { assert Disjoint(s); }
  }

  /** A move of one transaction that commits nothing leaves the others as they were. */
  lemma OthersUntouched(c: Setup, s: Sys, m: Move)
    requires Enabled(c, s, m) && !m.Commit? && !m.Rollback?
    ensures var s' := Do(c, s, m);
            && s'.db == s.db && s'.answers == s.answers && s'.handedOut == s.handedOut
            && s'.live.Keys == s.live.Keys + {m.tid}
            && forall other :: other in s.live && other != m.tid ==> s'.live[other] == s.live[other]
  {
  }

  predicate InsertMove(m: Move) {
    m.LockEnqueue? || m.CheckDuplicate? || m.CountActive? || m.CountChannel? || m.InsertRow?
  }

  lemma InsertMoveOk(c: Setup, s: Sys, m: Move)
    requires Enabled(c, s, m) && InsertMove(m)
    requires LocksHeld(c, s, m.tid) && PendingOk(s.db, s.live[m.tid])
    ensures LocksHeld(c, Do(c, s, m), m.tid) && PendingOk(s.db, Do(c, s, m).live[m.tid])
    ensures forall id :: id in Do(c, s, m).live[m.tid].pending && id !in s.live[m.tid].pending ==>
              Unlocked(s, m.tid, id)
  {
  }

  lemma UpdateRowOk(c: Setup, s: Sys, tid: nat, id: string)
    requires Enabled(c, s, UpdateRow(tid, id))
    requires LocksHeld(c, s, tid) && PendingOk(s.db, s.live[tid])
    ensures LocksHeld(c, Do(c, s, UpdateRow(tid, id)), tid) && PendingOk(s.db, Do(c, s, UpdateRow(tid, id)).live[tid])
  {
    var o := s.live[tid];
    var r := View(s, tid)[id];
    var u := CurrentUpdate(o.txn).value;
    var base := if id in o.pending then s.db[id] else r;
    EffectKeeps(c, u, id, base, r);
    var o' := Do(c, s, UpdateRow(tid, id)).live[tid];
    assert o' == Open(o.txn, o.pending[id := Effect(u, r)]);
  }

  lemma TakeRowOk(c: Setup, s: Sys, tid: nat, id: string)
    requires Enabled(c, s, TakeRow(tid, id))
    requires LocksHeld(c, s, tid) && PendingOk(s.db, s.live[tid])
    ensures LocksHeld(c, Do(c, s, TakeRow(tid, id)), tid) && PendingOk(s.db, Do(c, s, TakeRow(tid, id)).live[tid])
  {
    var o, o' := s.live[tid], Do(c, s, TakeRow(tid, id)).live[tid];
    var taken := Take(View(s, tid)[id], o.txn.runner, o.txn.now + c.leaseSeconds);
    assert o'.pending == o.pending[id := taken] && o'.txn.claimPc == Took(id);
    assert TakenFrom(s.db[id], taken, o.txn.runner);
  }

  lemma OtherMoveOk(c: Setup, s: Sys, m: Move)
    requires Enabled(c, s, m) && (m.LockClaim? || m.NextStatement? || m.Snapshot? || m.TakeNothing?)
    requires LocksHeld(c, s, m.tid) && PendingOk(s.db, s.live[m.tid])
    ensures LocksHeld(c, Do(c, s, m), m.tid) && PendingOk(s.db, Do(c, s, m).live[m.tid])
    ensures Do(c, s, m).live[m.tid].pending == s.live[m.tid].pending
  {
  }

  /** The moving transaction keeps its part of the invariant, and writes only rows nobody else has locked. */
  lemma OwnMoveOk(c: Setup, s: Sys, m: Move)
    requires Inv(c, s) && Enabled(c, s, m) && !m.Commit? && !m.Rollback?
    ensures LocksHeld(c, Do(c, s, m), m.tid) && PendingOk(s.db, Do(c, s, m).live[m.tid])
    ensures forall id :: id in Do(c, s, m).live[m.tid].pending ==>
              Unlocked(s, m.tid, id) || (m.tid in s.live && id in s.live[m.tid].pending)
  {
    if !m.Begin? {
      assert LocksHeld(c, s, m.tid) && PendingOk(s.db, s.live[m.tid]);
      if InsertMove(m) {
        InsertMoveOk(c, s, m);
      } else if m.UpdateRow? {
        UpdateRowOk(c, s, m.tid, m.id);
      } else if m.TakeRow? {
        TakeRowOk(c, s, m.tid, m.id);
      } else {
        OtherMoveOk(c, s, m);
      }
    }
  }

  /** Lock ownership of the others is not disturbed: a lock is only ever taken when it is free. */
  lemma OthersKeepLocks(c: Setup, s: Sys, m: Move, other: nat)
    requires Enabled(c, s, m) && !m.Commit? && !m.Rollback?
    requires other in s.live && other != m.tid && LocksHeld(c, s, other)
    ensures LocksHeld(c, Do(c, s, m), other)
  {
    OthersUntouched(c, s, m);
  }

  /** A transaction that moves without ending keeps the invariant if it keeps its own part and locks only free rows. */
  lemma OneMovedKeepsInv(c: Setup, s: Sys, s': Sys, tid: nat)
    requires Inv(c, s)
    requires s'.db == s.db && s'.live.Keys == s.live.Keys + {tid}
    requires forall other :: other in s.live && other != tid ==>
               s'.live[other] == s.live[other] && LocksHeld(c, s', other)
    requires LocksHeld(c, s', tid) && PendingOk(s.db, s'.live[tid])
    requires forall id :: id in s'.live[tid].pending ==>
               Unlocked(s, tid, id) || (tid in s.live && id in s.live[tid].pending)
    ensures Inv(c, s')
  {
    forall other | other in s'.live ensures LocksHeld(c, s', other) && PendingOk(s'.db, s'.live[other]) {
      if other != tid {
        assert PendingOk(s.db, s.live[other]);
      }
    }
    forall a, b, id | a in s'.live && b in s'.live && a != b && id in s'.live[a].pending
      ensures id !in s'.live[b].pending
    {
      assert Disjoint(s);
    }
  }

  lemma OpenMoveKeepsInv(c: Setup, s: Sys, m: Move)
    requires Inv(c, s) && Enabled(c, s, m) && !m.Commit? && !m.Rollback?
    ensures Inv(c, Do(c, s, m))
  {
    OthersUntouched(c, s, m);
    OwnMoveOk(c, s, m);
    forall other | other in s.live && other != m.tid ensures LocksHeld(c, Do(c, s, m), other) {
      assert LocksHeld(c, s, other);
      OthersKeepLocks(c, s, m, other);
    }
    OneMovedKeepsInv(c, s, Do(c, s, m), m.tid);
  }

  lemma MoveKeepsInv(c: Setup, s: Sys, m: Move)
    requires Inv(c, s) && Enabled(c, s, m)
    ensures Inv(c, Do(c, s, m))
  {
    if m.Commit? {
      CommitKeepsInv(c, s, m.tid);
    } else if m.Rollback? {
      RollbackKeepsInv(c, s, m.tid);
    } else {
      OpenMoveKeepsInv(c, s, m);
    }
  }

  lemma {:induction false} HistoryKeepsInv(c: Setup, ms: seq<Move>, ss: seq<Sys>, n: nat)
    requires IsHistory(c, ms, ss) && n <= |ms|
    ensures Inv(c, ss[n])
    decreases n
  {
    if n > 0 {
      HistoryKeepsInv(c, ms, ss, n - 1);
      assert MoveAt(c, ms, ss, n - 1);
      MoveKeepsInv(c, ss[n - 1], ms[n - 1]);
    }
  }

  lemma ExtendHistory(c: Setup, ms: seq<Move>, ss: seq<Sys>, m: Move)
    requires IsHistory(c, ms, ss) && Enabled(c, ss[|ms|], m)
    ensures IsHistory(c, ms + [m], ss + [Do(c, ss[|ms|], m)])
  {
    var ms', ss' := ms + [m], ss + [Do(c, ss[|ms|], m)];
    forall i | 0 <= i < |ms'| ensures MoveAt(c, ms', ss', i) {
      if i < |ms| {
        assert MoveAt(c, ms, ss, i);
      }
    }
  }
}
