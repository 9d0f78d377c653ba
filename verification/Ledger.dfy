/**
 The table read off the calls. Every column of every row, and every count a cap is measured over, is
 stated here in terms of the calls of the run and their answers alone.
 */
module Ledger {
  import opened Common
  import opened Jobs
  import opened Table
  import opened Runs
  import opened RowLife
  import opened Histories

  // ---------------------------------------------------------------- what the calls say of a job

  /** With a runner, until when, and when that runner said it had started; or not with anybody. */
  datatype Hand = NotOut | Out(runner: string, until: real, started: bool)

  /** Where the job is after the first `n` calls. */
  function HandAt(c: Config, es: seq<Event>, n: nat, id: string): Hand
    requires n <= |es|
  {
    if n == 0 then NotOut
    else
      var before, e := HandAt(c, es, n - 1, id), es[n - 1];
      if Takes(e, id) then Out(e.runner, e.now + c.leaseSeconds, false)
      else if before.NotOut? || ResultOf(e, id) || (Reaps(e) && before.until < e.now) then NotOut
      else if StartOf(e, id) then before.(started := true)
      else if e.Heartbeat? && e.runner == before.runner then before.(until := e.now + c.leaseSeconds)
      else before
  }

  /** Call `i` found the job out past its time. */
  predicate Overdue(c: Config, es: seq<Event>, i: nat, id: string)
    requires i < |es|
  {
    Reaps(es[i]) && HandAt(c, es, i, id).Out? && HandAt(c, es, i, id).until < es[i].now
  }

  /** It was out past its time for the last time it may be. */
  predicate GivenUp(c: Config, es: seq<Event>, i: nat, id: string)
    requires i < |es|
  {
    Overdue(c, es, i, id) && ClaimsOf(es, i, id) >= c.maxAttempts
  }

  /** This call ended the job: a result, a failure mark, or one lost lease too many. */
  predicate Ends(c: Config, es: seq<Event>, i: nat, id: string)
    requires i < |es|
  {
    ResultOf(es[i], id) || MarkOf(es[i], id) || GivenUp(c, es, i, id)
  }

  predicate Ended(c: Config, es: seq<Event>, n: nat, id: string)
    requires n <= |es|
  {
    exists i :: 0 <= i < n && Ends(c, es, i, id)
  }

  /** The time of the last accepted start, or of the dispatch, or neither. */
  function LastStart(es: seq<Event>, n: nat, id: string): Option<real>
    requires n <= |es|
  {
    if n == 0 then None
    else if StartOf(es[n - 1], id) || (Accepts(es[n - 1], id) && es[n - 1].dispatched) then Some(es[n - 1].now)
    else LastStart(es, n - 1, id)
  }

  function Shortened(s: string): string { if |s| > 2000 then s[..2000] else s }

  // ---------------------------------------------------------------- the columns

  /** What the accepted insert wrote and nothing rewrites: the job, when it was asked for, and how. */
  lemma {:induction false} RowsKeepTheirInsert(c: Config, es: seq<Event>, ts: seq<Table>, m: nat, n: nat, id: string)
    requires IsRun(c, es, ts) && m < n <= |es| && Accepts(es[m], id)
    ensures id in ts[n]
    ensures ts[n][id].job == es[m].job && ts[n][id].createdAt == es[m].now && ts[n][id].mode == es[m].mode
    decreases n
  {
    RowStep(c, es, ts, n - 1, id);
    if n > m + 1 {
      RowsKeepTheirInsert(c, es, ts, m, n - 1, id);
    }
  }

  /** The row's lease, holder and stage, against the hand. */
  predicate InHand(r: Row, h: Hand) {
    match h
    case NotOut => r.lease.None? && !r.state.Claimed? && (r.state.Running? ==> r.runner.None?)
    case Out(runner, until, started) =>
      r.lease == Some(until) && r.runner == Some(runner) && r.state == if started then Running else Claimed
  }

  lemma ChangeFollowsHand(c: Config, es: seq<Event>, n: nat, id: string, r: Row, r': Row)
    requires n < |es| && RowChange(c, es[n], id, r, r') && Shaped(r, c.maxAttempts)
    requires InHand(r, HandAt(c, es, n, id))
    ensures InHand(r', HandAt(c, es, n + 1, id))
  {
  }

  /** Who has the job, until when, and whether it was started: leases run from claims and landed heartbeats only. */
  lemma {:induction false} HandsAreInTheTable(c: Config, es: seq<Event>, ts: seq<Table>, n: nat, id: string)
    requires IsRun(c, es, ts) && n <= |es|
    ensures if id in ts[n] then InHand(ts[n][id], HandAt(c, es, n, id)) else HandAt(c, es, n, id).NotOut?
    decreases n
  {
    if n > 0 {
      HandsAreInTheTable(c, es, ts, n - 1, id);
      RowStep(c, es, ts, n - 1, id);
      if id in ts[n - 1] {
        EveryRowIsShaped(c, es, ts, n - 1, id);
        ChangeFollowsHand(c, es, n - 1, id, ts[n - 1][id], ts[n][id]);
      }
    }
  }

  /** No call has ended the job. */
  predicate Unwritten(r: Row) {
    && (r.state.Queued? || r.state.Claimed? || r.state.Running?)
    && r.finishedAt.None? && r.exitCode.None? && r.passed.None? && r.failed.None? && r.skipped.None?
    && r.duration.None? && r.summary.None?
  }

  /** The columns a result leaves, from the report itself. */
  predicate SaysResult(r: Row, e: Event)
    requires e.ResultReported?
  {
    && r.state == (if e.outcome.exitCode == 0 then Done else Failed)
    && r.runner == Some(e.runner) && r.lease.None? && r.finishedAt == Some(e.now)
    && r.exitCode == Some(e.outcome.exitCode) && r.passed == Some(e.outcome.passed)
    && r.failed == Some(e.outcome.failed) && r.skipped == Some(e.outcome.skipped)
    && r.duration == Some(e.outcome.duration) && r.summary == Some(Shortened(e.outcome.summary))
  }

  predicate NoCounts(r: Row) {
    r.exitCode.None? && r.passed.None? && r.failed.None? && r.skipped.None? && r.duration.None?
  }

  predicate SaysMark(r: Row, e: Event)
    requires e.DispatchFailed?
  {
    && r.state.NotDispatched? && r.runner.None? && r.lease.None? && r.finishedAt == Some(e.now)
    && r.summary == Some(Shortened(e.reason)) && NoCounts(r)
  }

  predicate SaysGivenUp(r: Row, holder: string) {
    && r.state.Abandoned? && r.runner == Some(holder) && r.lease.None? && r.finishedAt.None?
    && r.summary == Some("lease expired and out of attempts") && NoCounts(r)
  }

  /** The row says how call `i` ended its job. */
  predicate SaysEnd(c: Config, es: seq<Event>, i: nat, id: string, r: Row)
    requires i < |es| && Ends(c, es, i, id)
  {
    if ResultOf(es[i], id) then SaysResult(r, es[i])
    else if MarkOf(es[i], id) then SaysMark(r, es[i])
    else SaysGivenUp(r, HandAt(c, es, i, id).runner)
  }

  /** One call, seen from a row that no call has ended yet. */
  lemma ChangeEndsOrNot(c: Config, es: seq<Event>, ts: seq<Table>, n: nat, id: string)
    requires IsRun(c, es, ts) && n < |es| && id in ts[n] && Unwritten(ts[n][id])
    ensures id in ts[n + 1]
    ensures if Ends(c, es, n, id) then SaysEnd(c, es, n, id, ts[n + 1][id]) else Unwritten(ts[n + 1][id])
  {
    RowStep(c, es, ts, n, id);
    EveryRowIsShaped(c, es, ts, n, id);
    HandsAreInTheTable(c, es, ts, n, id);
    AttemptsCountClaims(c, es, ts, n, id);
    EndsByRow(c, es, n, id, ts[n][id], ts[n + 1][id]);
  }

  lemma EndsByRow(c: Config, es: seq<Event>, n: nat, id: string, r: Row, r': Row)
    requires n < |es| && RowChange(c, es[n], id, r, r') && Shaped(r, c.maxAttempts)
    requires Unwritten(r) && InHand(r, HandAt(c, es, n, id)) && r.attempts == ClaimsOf(es, n, id)
    ensures if Ends(c, es, n, id) then SaysEnd(c, es, n, id, r') else Unwritten(r')
  {
  }

  /** A call ends only a job that is there and has not ended. */
  lemma OnlyOpenJobsEnd(c: Config, es: seq<Event>, ts: seq<Table>, n: nat, id: string)
    requires IsRun(c, es, ts) && n < |es| && Ends(c, es, n, id)
    ensures id in ts[n] && Active(ts[n][id].state)
  {
    HandsAreInTheTable(c, es, ts, n, id);
    assert StepAt(c, es, ts, n);
  }

  /**
   What a row says of the end of its job: nothing until a call ends it, and then, for good, exactly what
   that one call reported. At most one call ever ends a job.
   */
  lemma {:induction false} EndsAreWhatTheTableSays(c: Config, es: seq<Event>, ts: seq<Table>, n: nat, id: string)
    requires IsRun(c, es, ts) && n <= |es| && id in ts[n]
    ensures !Ended(c, es, n, id) ==> Unwritten(ts[n][id])
    ensures forall i :: 0 <= i < n && Ends(c, es, i, id) ==> SaysEnd(c, es, i, id, ts[n][id])
    ensures forall i, k :: 0 <= i < n && 0 <= k < n && Ends(c, es, i, id) && Ends(c, es, k, id) ==> i == k
    decreases n
  {
    if n > 0 {
      RowStep(c, es, ts, n - 1, id);
      if Ends(c, es, n - 1, id) {
        OnlyOpenJobsEnd(c, es, ts, n - 1, id);
      }
      if id in ts[n - 1] {
        EndsAreWhatTheTableSays(c, es, ts, n - 1, id);
        EndStays(c, es, ts, n - 1, id);
      } else {
        NothingEndsBeforeTheInsert(c, es, ts, n - 1, id);
      }
    }
  }

  lemma EndStays(c: Config, es: seq<Event>, ts: seq<Table>, n: nat, id: string)
    requires IsRun(c, es, ts) && n < |es| && id in ts[n]
    requires !Ended(c, es, n, id) ==> Unwritten(ts[n][id])
    requires forall i :: 0 <= i < n && Ends(c, es, i, id) ==> SaysEnd(c, es, i, id, ts[n][id])
    ensures id in ts[n + 1]
    ensures Ended(c, es, n, id) ==> ts[n + 1][id] == ts[n][id] && !Ends(c, es, n, id)
    ensures !Ended(c, es, n, id) ==>
              if Ends(c, es, n, id) then SaysEnd(c, es, n, id, ts[n + 1][id]) else Unwritten(ts[n + 1][id])
  {
    if i :| 0 <= i < n && Ends(c, es, i, id) {
      assert Terminal(ts[n][id].state);
      FinishedRowsAreFrozen(c, es, ts, n, n + 1, id);
      if Ends(c, es, n, id) {
        OnlyOpenJobsEnd(c, es, ts, n, id);
      }
    } else {
      ChangeEndsOrNot(c, es, ts, n, id);
    }
  }

  lemma {:induction false} NothingEndsBeforeTheInsert(c: Config, es: seq<Event>, ts: seq<Table>, n: nat, id: string)
    requires IsRun(c, es, ts) && n <= |es| && id !in ts[n]
    ensures !Ended(c, es, n, id)
    decreases n
  {
    if n > 0 {
      RowStep(c, es, ts, n - 1, id);
      NothingEndsBeforeTheInsert(c, es, ts, n - 1, id);
      if Ends(c, es, n - 1, id) {
        OnlyOpenJobsEnd(c, es, ts, n - 1, id);
      }
    }
  }

  /** When the row says its job started: at the last accepted start, whichever runner it came from, or the dispatch. */
  lemma {:induction false} StartTimesAreReported(c: Config, es: seq<Event>, ts: seq<Table>, n: nat, id: string)
    requires IsRun(c, es, ts) && n <= |es|
    ensures LastStart(es, n, id) == if id in ts[n] then ts[n][id].startedAt else None
    decreases n
  {
    if n > 0 {
      StartTimesAreReported(c, es, ts, n - 1, id);
      RowStep(c, es, ts, n - 1, id);
      assert StepAt(c, es, ts, n - 1);
    }
  }

  // ---------------------------------------------------------------- the state

  predicate Sent(es: seq<Event>, n: nat, id: string)
    requires n <= |es|
  {
    exists m :: 0 <= m < n && Accepts(es[m], id) && es[m].dispatched
  }

  /** A job accepted, not dispatched, not ended and with nobody. */
  predicate Waits(c: Config, es: seq<Event>, n: nat, id: string)
    requires n <= |es|
  {
    SeenBefore(es, n, id) && !Sent(es, n, id) && !Ended(c, es, n, id) && HandAt(c, es, n, id).NotOut?
  }

  /** A dispatch nobody has marked, or a job that is out. */
  predicate Occupies(c: Config, es: seq<Event>, n: nat, id: string)
    requires n <= |es|
  {
    !Ended(c, es, n, id) && (Sent(es, n, id) || HandAt(c, es, n, id).Out?)
  }

  lemma {:induction false} DispatchesAreNeverQueued(c: Config, es: seq<Event>, ts: seq<Table>, n: nat, id: string)
    requires IsRun(c, es, ts) && n <= |es|
    ensures id in ts[n] && Sent(es, n, id) ==> Dispatched(ts[n][id]) || ts[n][id].state.NotDispatched?
    ensures id in ts[n] && !Sent(es, n, id) ==> !Dispatched(ts[n][id])
    decreases n
  {
    if n > 0 {
      DispatchesAreNeverQueued(c, es, ts, n - 1, id);
      SeenIsStored(c, es, ts, n - 1, id);
      RowStep(c, es, ts, n - 1, id);
      assert Sent(es, n, id) <==> Sent(es, n - 1, id) || (Accepts(es[n - 1], id) && es[n - 1].dispatched);
      if id in ts[n - 1] {
        EveryRowIsShaped(c, es, ts, n - 1, id);
        SentOrNot(c, es[n - 1], id, ts[n - 1][id], ts[n][id]);
      }
    }
  }

  lemma SentOrNot(c: Config, e: Event, id: string, r: Row, r': Row)
    requires RowChange(c, e, id, r, r') && Shaped(r, c.maxAttempts)
    ensures Dispatched(r) ==> Dispatched(r') || r'.state.NotDispatched?
    ensures !Dispatched(r) ==> !Dispatched(r')
    ensures r.state.NotDispatched? ==> r' == r
  {
  }

  /** The state column, each of its seven values exactly. */
  lemma StatesAreTheHistory(c: Config, es: seq<Event>, ts: seq<Table>, n: nat, id: string)
    requires IsRun(c, es, ts) && n <= |es|
    ensures id in ts[n] <==> SeenBefore(es, n, id)
    ensures id in ts[n] ==>
              var s, h := ts[n][id].state, HandAt(c, es, n, id);
              && (s.Queued? <==> Waits(c, es, n, id))
              && (s.Claimed? <==> h.Out? && !h.started)
              && (s.Running? <==> if h.Out? then h.started else Sent(es, n, id) && !Ended(c, es, n, id))
              && (s.Done? <==> exists i :: 0 <= i < n && ResultOf(es[i], id) && es[i].outcome.exitCode == 0)
              && (s.Failed? <==> exists i :: 0 <= i < n && ResultOf(es[i], id) && es[i].outcome.exitCode != 0)
              && (s.NotDispatched? <==> exists i :: 0 <= i < n && MarkOf(es[i], id))
              && (s.Abandoned? <==> exists i :: 0 <= i < n && GivenUp(c, es, i, id))
  {
    SeenIsStored(c, es, ts, n, id);
    if id in ts[n] {
      HandsAreInTheTable(c, es, ts, n, id);
      DispatchesAreNeverQueued(c, es, ts, n, id);
      EndsAreWhatTheTableSays(c, es, ts, n, id);
      if i :| 0 <= i < n && Ends(c, es, i, id) {
        assert SaysEnd(c, es, i, id, ts[n][id]);
        EndsAreExclusive(c, es, ts, i, id);
      }
      assert forall i :: 0 <= i < n && (ResultOf(es[i], id) || MarkOf(es[i], id) || GivenUp(c, es, i, id)) ==>
               Ends(c, es, i, id);
    }
  }

  lemma EndsAreExclusive(c: Config, es: seq<Event>, ts: seq<Table>, n: nat, id: string)
    requires IsRun(c, es, ts) && n < |es| && Ends(c, es, n, id)
    ensures GivenUp(c, es, n, id) ==> !ResultOf(es[n], id) && !MarkOf(es[n], id)
  {
  }

  // ---------------------------------------------------------------- the counts

  /** The jobs of a (product, server) that were accepted and that no call has ended. */
  function OpenFor(c: Config, es: seq<Event>, n: nat, product: string, server: string): set<string>
    requires n <= |es|
  {
    set i | 0 <= i < n && es[i].Inserted? && Accepts(es[i], es[i].job.id)
            && es[i].job.product == product && es[i].job.server == server && !Ended(c, es, n, es[i].job.id)
      :: es[i].job.id
  }

  /** The jobs of a channel that hold a slot. */
  function OccupiedOn(c: Config, es: seq<Event>, n: nat, ch: string): set<string>
    requires n <= |es|
  {
    set i | 0 <= i < n && es[i].Inserted? && Accepts(es[i], es[i].job.id)
            && es[i].job.channel == ch && Occupies(c, es, n, es[i].job.id)
      :: es[i].job.id
  }

  /** The jobs of a channel that wait. */
  function WaitingOn(c: Config, es: seq<Event>, n: nat, ch: string): set<string>
    requires n <= |es|
  {
    set i | 0 <= i < n && es[i].Inserted? && Accepts(es[i], es[i].job.id)
            && es[i].job.channel == ch && Waits(c, es, n, es[i].job.id)
      :: es[i].job.id
  }

  /** The rows stored are those of accepted inserts, and carry the job that was accepted. */
  lemma RowsAndInserts(c: Config, es: seq<Event>, ts: seq<Table>, n: nat, id: string)
    requires IsRun(c, es, ts) && n <= |es|
    ensures id in ts[n] <==> exists i :: 0 <= i < n && Accepts(es[i], id)
    ensures forall i :: 0 <= i < n && Accepts(es[i], id) ==> id in ts[n] && ts[n][id].job == es[i].job
  {
    SeenIsStored(c, es, ts, n, id);
    forall i | 0 <= i < n && Accepts(es[i], id) ensures id in ts[n] && ts[n][id].job == es[i].job {
      RowsKeepTheirInsert(c, es, ts, i, n, id);
    }
  }

  /** In terms of the state column: open, occupying and waiting. */
  lemma StatesInThree(c: Config, es: seq<Event>, ts: seq<Table>, n: nat, id: string)
    requires IsRun(c, es, ts) && n <= |es| && id in ts[n]
    ensures Active(ts[n][id].state) <==> !Ended(c, es, n, id)
    ensures Busy(ts[n][id].state) <==> Occupies(c, es, n, id)
    ensures ts[n][id].state.Queued? <==> Waits(c, es, n, id)
  {
    StatesAreTheHistory(c, es, ts, n, id);
    HandsAreInTheTable(c, es, ts, n, id);
    EndsAreWhatTheTableSays(c, es, ts, n, id);
    if i :| 0 <= i < n && Ends(c, es, i, id) {
      assert SaysEnd(c, es, i, id, ts[n][id]);
    }
  }

  lemma OpenIsActive(c: Config, es: seq<Event>, ts: seq<Table>, n: nat, product: string, server: string)
    requires IsRun(c, es, ts) && n <= |es|
    ensures ActiveFor(ts[n], product, server) == OpenFor(c, es, n, product, server)
  {
    forall id ensures id in ActiveFor(ts[n], product, server) <==> id in OpenFor(c, es, n, product, server) {
      RowsAndInserts(c, es, ts, n, id);
      if id in ts[n] {
        StatesInThree(c, es, ts, n, id);
      }
    }
  }

  lemma OccupiedIsBusy(c: Config, es: seq<Event>, ts: seq<Table>, n: nat, ch: string)
    requires IsRun(c, es, ts) && n <= |es|
    ensures BusyIn(ts[n], ch) == OccupiedOn(c, es, n, ch)
  {
    forall id ensures id in BusyIn(ts[n], ch) <==> id in OccupiedOn(c, es, n, ch) {
      RowsAndInserts(c, es, ts, n, id);
      if id in ts[n] {
        StatesInThree(c, es, ts, n, id);
      }
    }
  }

  lemma WaitingIsQueued(c: Config, es: seq<Event>, ts: seq<Table>, n: nat, ch: string)
    requires IsRun(c, es, ts) && n <= |es|
    ensures QueuedIn(ts[n], ch) == WaitingOn(c, es, n, ch)
  {
    forall id ensures id in QueuedIn(ts[n], ch) <==> id in WaitingOn(c, es, n, ch) {
      RowsAndInserts(c, es, ts, n, id);
      if id in ts[n] {
        StatesInThree(c, es, ts, n, id);
      }
    }
  }
}
