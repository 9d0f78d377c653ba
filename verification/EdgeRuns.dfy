/**
 The edge's Slack door on the dispatch path: record first, reply, dispatch in the background, and put a
 refused dispatch on record. Slack may send a command any number of times, the store may be busy when
 the failure is to be marked, the process may restart at any point, and everything else that uses the
 store goes on meanwhile.
 */
module EdgeRuns {
  import opened Common
  import opened Jobs
  import opened Table
  import opened Runs
  import opened RowLife

  /**
   `background` are the dispatches promised but not yet made, `refused` those GitHub has refused and
   whose mark is still to be made, `calls` all that GitHub has been asked for.
   */
  datatype Edge = Edge(jobs: Table, background: multiset<string>, refused: multiset<string>, calls: multiset<string>)

  const FIRST_BOOT := Edge(map[], multiset{}, multiset{}, multiset{})

  datatype Move =
    | Command(event: Event)
    | Dispatch(id: string, accepted: bool)
    | MarkFailure(id: string, event: Event)
    | Other(event: Event)
    | Restart

  predicate IsRecord(e: Event) { e.Inserted? && e.dispatched }

  /** The mark is tried once: it reaches the store, or the store is busy and only the log says so. */
  predicate IsMarkTry(e: Event, id: string) { (e.DispatchFailed? && e.id == id) || e.StoreWasBusy? }

  predicate Next(c: Config, s: Edge, m: Move, s': Edge) {
    match m
    case Command(e) =>
      && IsRecord(e) && Step(c, s.jobs, e, s'.jobs)
      && s' == s.(jobs := s'.jobs,
                  background := if e.answer == Ok(Accepted) then s.background + multiset{e.job.id} else s.background)
    case Dispatch(id, accepted) =>
      && id in s.background
      && s' == s.(background := s.background - multiset{id}, calls := s.calls + multiset{id},
                  refused := if accepted then s.refused else s.refused + multiset{id})
    case MarkFailure(id, e) =>
      && id in s.refused && IsMarkTry(e, id) && Step(c, s.jobs, e, s'.jobs)
      && s' == s.(jobs := s'.jobs, refused := s.refused - multiset{id})
    case Other(e) =>
      && !IsRecord(e) && !e.DispatchFailed? && Step(c, s.jobs, e, s'.jobs)
      && s' == s.(jobs := s'.jobs)
    case Restart => s' == s.(background := multiset{}, refused := multiset{})
  }

  predicate NextAt(c: Config, ms: seq<Move>, ss: seq<Edge>, i: int)
    requires 0 <= i < |ms| && |ss| == |ms| + 1
  {
    Next(c, ss[i], ms[i], ss[i + 1])
  }

  predicate IsService(c: Config, ms: seq<Move>, ss: seq<Edge>) {
    && |ss| == |ms| + 1 && ss[0] == FIRST_BOOT
    && forall i :: 0 <= i < |ms| ==> NextAt(c, ms, ss, i)
  }

  /** The store call behind a move. */
  function StoreCall(m: Move): Event {
    match m
    case Command(e) => e
    case MarkFailure(_, e) => e
    case Other(e) => e
    case _ => StoreWasBusy
  }

  /** The mark for this dispatch reaches the store. */
  predicate MarkLands(m: Move, id: string) { m.MarkFailure? && m.id == id && m.event.DispatchFailed? }

  // ---------------------------------------------------------------- one turn each

  predicate RowsShaped(c: Config, t: Table) { Keyed(t) && forall id :: id in t ==> Shaped(t[id], c.maxAttempts) }

  /** One call per identifier, and until its story is over its row waits as inserted. */
  predicate OneTurn(s: Edge, id: string) {
    && s.background[id] + s.calls[id] <= 1
    && s.refused[id] <= s.calls[id]
    && (s.background[id] + s.calls[id] == 1 ==> id in s.jobs)
    && (s.background[id] + s.refused[id] > 0 ==> Dispatched(s.jobs[id]))
  }

  lemma StoreStepKeepsShape(c: Config, t: Table, e: Event, t': Table)
    requires RowsShaped(c, t) && Step(c, t, e, t')
    ensures RowsShaped(c, t')
  {
    StepByRow(c, t, e, t');
    forall id | id in t' ensures Shaped(t'[id], c.maxAttempts) {
      if id in t { ChangeKeepsShape(c, e, id, t[id], t'[id]); }
    }
  }

  lemma OnlyMarksEndDispatched(c: Config, e: Event, id: string, r: Row, r': Row)
    requires RowChange(c, e, id, r, r') && Shaped(r, c.maxAttempts)
    ensures Dispatched(r) ==>
              if e.DispatchFailed? && e.id == id then e.ok && r' == Mark(r, e.reason, e.now) else r' == r
    ensures Terminal(r.state) ==> r' == r
  {
  }

  /** What one store call means for a dispatched or finished row. */
  lemma CallByRow(c: Config, t: Table, e: Event, t': Table, id: string)
    requires RowsShaped(c, t) && Step(c, t, e, t')
    ensures id in t ==> id in t'
    ensures id in t && Terminal(t[id].state) ==> t'[id] == t[id]
    ensures id in t && Dispatched(t[id]) ==>
              if e.DispatchFailed? && e.id == id
              then e.ok && t'[id] == Mark(t[id], e.reason, e.now) else t'[id] == t[id]
    ensures Accepts(e, id) ==> id !in t && id in t' && t'[id] == NewRow(e.job, e.dispatched, e.mode, e.now)
  {
    StepByRow(c, t, e, t');
    if id in t {
      OnlyMarksEndDispatched(c, e, id, t[id], t'[id]);
    }
  }

  lemma MoveIsAStoreCall(c: Config, s: Edge, m: Move, s': Edge)
    requires Next(c, s, m, s')
    ensures Step(c, s.jobs, StoreCall(m), s'.jobs)
    ensures forall id :: StoreCall(m).DispatchFailed? && StoreCall(m).id == id ==> MarkLands(m, id)
  {
  }

  lemma MoveKeepsTurn(c: Config, s: Edge, m: Move, s': Edge, id: string)
    requires RowsShaped(c, s.jobs) && OneTurn(s, id) && Next(c, s, m, s')
    ensures OneTurn(s', id)
    ensures MarkLands(m, id) ==>
              && id in s.jobs && m.event.ok && id in s'.jobs
              && s'.jobs[id] == Mark(s.jobs[id], m.event.reason, m.event.now)
  {
    MoveIsAStoreCall(c, s, m, s');
    CallByRow(c, s.jobs, StoreCall(m), s'.jobs, id);
  }

  lemma {:induction false} ServiceKeepsTurns(c: Config, ms: seq<Move>, ss: seq<Edge>, n: nat, id: string)
    requires IsService(c, ms, ss) && n <= |ms|
    ensures RowsShaped(c, ss[n].jobs) && OneTurn(ss[n], id)
    decreases n
  {
    if n > 0 {
      ServiceKeepsTurns(c, ms, ss, n - 1, id);
      assert NextAt(c, ms, ss, n - 1);
      MoveKeepsTurn(c, ss[n - 1], ms[n - 1], ss[n], id);
      MoveIsAStoreCall(c, ss[n - 1], ms[n - 1], ss[n]);
      StoreStepKeepsShape(c, ss[n - 1].jobs, StoreCall(ms[n - 1]), ss[n].jobs);
    }
  }

  /** However often Slack retries a command, GitHub is asked for its run at most once. */
  lemma DispatchedAtMostOnce(c: Config, ms: seq<Move>, ss: seq<Edge>, n: nat, id: string)
    requires IsService(c, ms, ss) && n <= |ms|
    ensures ss[n].calls[id] <= 1
  {
    ServiceKeepsTurns(c, ms, ss, n, id);
  }

  // ---------------------------------------------------------------- what goes on record

  predicate Records(m: Move, id: string) { m.Command? && Accepts(m.event, id) }

  function Born(m: Move): Row
    requires m.Command? && m.event.Inserted?
  {
    NewRow(m.event.job, true, m.event.mode, m.event.now)
  }

  /** Some mark for this dispatch has reached the store. */
  predicate MarkedBetween(ms: seq<Move>, m: nat, n: nat, id: string)
    requires n <= |ms|
  {
    exists k :: m < k < n && MarkLands(ms[k], id)
  }

  lemma {:induction false} RecordFollowsTheMark(c: Config, ms: seq<Move>, ss: seq<Edge>, m: nat, n: nat, id: string)
    requires IsService(c, ms, ss) && m < n <= |ms| && Records(ms[m], id)
    ensures id in ss[n].jobs
    ensures !MarkedBetween(ms, m, n, id) ==> ss[n].jobs[id] == Born(ms[m])
    ensures forall k :: m < k < n && MarkLands(ms[k], id) ==>
              ms[k].event.ok && ss[n].jobs[id] == Mark(Born(ms[m]), ms[k].event.reason, ms[k].event.now)
    decreases n
  {
    var s, move, s' := ss[n - 1], ms[n - 1], ss[n];
    assert NextAt(c, ms, ss, n - 1);
    ServiceKeepsTurns(c, ms, ss, n - 1, id);
    MoveIsAStoreCall(c, s, move, s');
    CallByRow(c, s.jobs, StoreCall(move), s'.jobs, id);
    if n > m + 1 {
      RecordFollowsTheMark(c, ms, ss, m, n - 1, id);
      if MarkLands(move, id) {
        assert Dispatched(s.jobs[id]);
        assert !MarkedBetween(ms, m, n - 1, id);
      }
    }
  }

  /**
   A dispatch is on record as never started exactly from the moment a mark for it reached the store.
   Until then, and for ever if none does, its row says what it said when it was inserted: running.
   */
  lemma FailuresAreRecordedExactly(c: Config, ms: seq<Move>, ss: seq<Edge>, m: nat, n: nat, id: string)
    requires IsService(c, ms, ss) && m < n <= |ms| && Records(ms[m], id)
    ensures id in ss[n].jobs
    ensures ss[n].jobs[id].state.NotDispatched? <==> MarkedBetween(ms, m, n, id)
    ensures ss[n].jobs[id].state.Running? <==> ss[n].jobs[id] == Born(ms[m])
    ensures ss[n].jobs[id].state.NotDispatched? || ss[n].jobs[id].state.Running?
  {
    assert NextAt(c, ms, ss, m);
    RecordFollowsTheMark(c, ms, ss, m, n, id);
  }

  /** GitHub was asked for the run and refused it. */
  predicate RefusedBefore(ms: seq<Move>, n: nat, id: string)
    requires n <= |ms|
  {
    exists k :: 0 <= k < n && ms[k] == Move.Dispatch(id, false)
  }

  lemma {:induction false} MarksFollowRefusals(c: Config, ms: seq<Move>, ss: seq<Edge>, n: nat, id: string)
    requires IsService(c, ms, ss) && n <= |ms|
    ensures ss[n].refused[id] > 0 ==> RefusedBefore(ms, n, id)
    ensures n < |ms| && ms[n].MarkFailure? && ms[n].id == id ==> RefusedBefore(ms, n, id)
    decreases n
  {
    if n < |ms| {
      assert NextAt(c, ms, ss, n);
    }
    if n > 0 {
      MarksFollowRefusals(c, ms, ss, n - 1, id);
      assert NextAt(c, ms, ss, n - 1);
      if RefusedBefore(ms, n - 1, id) {
        var k :| 0 <= k < n - 1 && ms[k] == Move.Dispatch(id, false);
        assert RefusedBefore(ms, n, id);
      } else if ss[n].refused[id] > 0 {
        assert ms[n - 1] == Move.Dispatch(id, false);
      }
    }
  }

  /** A dispatch that GitHub took is never marked: its row stays as inserted, running, in every later state. */
  lemma AcceptedDispatchesStand(c: Config, ms: seq<Move>, ss: seq<Edge>, m: nat, k: nat, n: nat, id: string)
    requires IsService(c, ms, ss) && m < k < n <= |ms| && Records(ms[m], id) && ms[k] == Move.Dispatch(id, true)
    ensures id in ss[n].jobs && ss[n].jobs[id] == Born(ms[m]) && ss[n].jobs[id].state.Running?
    ensures !MarkedBetween(ms, m, n, id)
  {
    ServiceKeepsTurns(c, ms, ss, k, id);
    assert NextAt(c, ms, ss, k);
    RecordFollowsTheMark(c, ms, ss, m, k, id);
    NothingComesAfter(c, ms, ss, k + 1, n, id);
    FailuresAreRecordedExactly(c, ms, ss, m, k + 1, id);
    FailuresAreRecordedExactly(c, ms, ss, m, n, id);
  }

  /**
   The whole story of a failed dispatch: the row says not dispatched exactly when GitHub refused the run
   and after that a mark for it reached the store.
   */
  lemma NotDispatchedExactly(c: Config, ms: seq<Move>, ss: seq<Edge>, m: nat, n: nat, id: string)
    requires IsService(c, ms, ss) && m < n <= |ms| && Records(ms[m], id)
    ensures id in ss[n].jobs
    ensures ss[n].jobs[id].state.NotDispatched? <==>
              exists j, k :: m < j < k < n && ms[j] == Move.Dispatch(id, false) && MarkLands(ms[k], id)
    ensures !ss[n].jobs[id].state.NotDispatched? ==> ss[n].jobs[id] == Born(ms[m]) && ss[n].jobs[id].state.Running?
  {
    FailuresAreRecordedExactly(c, ms, ss, m, n, id);
    if k :| m < k < n && MarkLands(ms[k], id) {
      MarksFollowRefusals(c, ms, ss, k, id);
      var j :| 0 <= j < k && ms[j] == Move.Dispatch(id, false);
      DispatchesFollowTheRecord(c, ms, ss, m, j, id);
    }
  }

  /** GitHub is only asked for a run that has been put on record. */
  lemma DispatchesFollowTheRecord(c: Config, ms: seq<Move>, ss: seq<Edge>, m: nat, j: nat, id: string)
    requires IsService(c, ms, ss) && m < |ms| && j < |ms| && Records(ms[m], id) && ms[j].Dispatch? && ms[j].id == id
    ensures m < j
  {
    if j <= m {
      assert NextAt(c, ms, ss, j) && NextAt(c, ms, ss, m);
      ServiceKeepsTurns(c, ms, ss, j, id);
      RowsStayInService(c, ms, ss, j, m, id);
      MoveIsAStoreCall(c, ss[m], ms[m], ss[m + 1]);
      ServiceKeepsTurns(c, ms, ss, m, id);
      CallByRow(c, ss[m].jobs, StoreCall(ms[m]), ss[m + 1].jobs, id);
    }
  }

  lemma {:induction false} RowsStayInService(c: Config, ms: seq<Move>, ss: seq<Edge>, m: nat, n: nat, id: string)
    requires IsService(c, ms, ss) && m <= n <= |ms| && id in ss[m].jobs
    ensures id in ss[n].jobs
    decreases n
  {
    if m < n {
      RowsStayInService(c, ms, ss, m, n - 1, id);
      assert NextAt(c, ms, ss, n - 1);
      ServiceKeepsTurns(c, ms, ss, n - 1, id);
      MoveIsAStoreCall(c, ss[n - 1], ms[n - 1], ss[n]);
      CallByRow(c, ss[n - 1].jobs, StoreCall(ms[n - 1]), ss[n].jobs, id);
    }
  }

  predicate RestartedBetween(ms: seq<Move>, m: nat, n: nat)
    requires n <= |ms|
  {
    exists k :: m < k < n && ms[k].Restart?
  }

  /** Only a restart loses a promise: a run put on record is dispatched or still to be. */
  lemma {:induction false} PromisesAreKept(c: Config, ms: seq<Move>, ss: seq<Edge>, m: nat, n: nat, id: string)
    requires IsService(c, ms, ss) && m < n <= |ms| && Records(ms[m], id) && !RestartedBetween(ms, m, n)
    ensures ss[n].background[id] > 0 || exists k :: m < k < n && ms[k].Dispatch? && ms[k].id == id
    decreases n
  {
    assert NextAt(c, ms, ss, n - 1);
    if n > m + 1 {
      assert !RestartedBetween(ms, m, n - 1) by {
        if k :| m < k < n - 1 && ms[k].Restart? { assert RestartedBetween(ms, m, n); }
      }
      PromisesAreKept(c, ms, ss, m, n - 1, id);
      assert !ms[n - 1].Restart?;
    }
  }

  /** And only a restart keeps a refusal from being put to the store: it was tried, or is still to be. */
  lemma {:induction false} RefusalsAreTried(c: Config, ms: seq<Move>, ss: seq<Edge>, m: nat, n: nat, id: string)
    requires IsService(c, ms, ss) && m < n <= |ms| && ms[m] == Move.Dispatch(id, false) && !RestartedBetween(ms, m, n)
    ensures ss[n].refused[id] > 0 || exists k :: m < k < n && ms[k].MarkFailure? && ms[k].id == id
    decreases n
  {
    assert NextAt(c, ms, ss, n - 1);
    if n > m + 1 {
      assert !RestartedBetween(ms, m, n - 1) by {
        if k :| m < k < n - 1 && ms[k].Restart? { assert RestartedBetween(ms, m, n); }
      }
      RefusalsAreTried(c, ms, ss, m, n - 1, id);
      assert !ms[n - 1].Restart?;
    }
  }

  /** Whenever the mark reaches the store it applies: nothing else can have moved the row. */
  lemma LandedMarksApply(c: Config, ms: seq<Move>, ss: seq<Edge>, n: nat, id: string)
    requires IsService(c, ms, ss) && n < |ms| && MarkLands(ms[n], id)
    ensures ms[n].event.ok && id in ss[n + 1].jobs && ss[n + 1].jobs[id].state.NotDispatched?
  {
    ServiceKeepsTurns(c, ms, ss, n, id);
    assert NextAt(c, ms, ss, n);
    MoveKeepsTurn(c, ss[n], ms[n], ss[n + 1], id);
  }

  /** Nothing is left that would still dispatch the run or mark it. */
  predicate TurnIsOver(s: Edge, id: string) { id in s.jobs && s.background[id] == 0 && s.refused[id] == 0 }

  lemma {:induction false} NothingComesAfter(c: Config, ms: seq<Move>, ss: seq<Edge>, m: nat, n: nat, id: string)
    requires IsService(c, ms, ss) && m <= n <= |ms| && TurnIsOver(ss[m], id)
    requires Dispatched(ss[m].jobs[id])
    ensures TurnIsOver(ss[n], id) && ss[n].jobs[id] == ss[m].jobs[id]
    decreases n
  {
    if m < n {
      NothingComesAfter(c, ms, ss, m, n - 1, id);
      assert NextAt(c, ms, ss, n - 1);
      ServiceKeepsTurns(c, ms, ss, n - 1, id);
      MoveIsAStoreCall(c, ss[n - 1], ms[n - 1], ss[n]);
      CallByRow(c, ss[n - 1].jobs, StoreCall(ms[n - 1]), ss[n].jobs, id);
    }
  }

  /**
   A mark the store was too busy for is never tried again, and what a restart cut off is never resumed: the
   run that did not start stays on record as running.
   */
  lemma LostMarksStayLost(c: Config, ms: seq<Move>, ss: seq<Edge>, k: nat, n: nat, id: string)
    requires IsService(c, ms, ss) && k < n <= |ms|
    requires || (ms[k].MarkFailure? && ms[k].id == id && ms[k].event.StoreWasBusy?)
             || (ms[k].Restart? && ss[k].background[id] + ss[k].refused[id] > 0)
    ensures id in ss[k].jobs && id in ss[n].jobs && ss[n].jobs[id] == ss[k].jobs[id] && Dispatched(ss[n].jobs[id])
  {
    ServiceKeepsTurns(c, ms, ss, k, id);
    assert NextAt(c, ms, ss, k);
    NothingComesAfter(c, ms, ss, k + 1, n, id);
  }

  lemma ExtendService(c: Config, ms: seq<Move>, ss: seq<Edge>, m: Move, s': Edge)
    returns (ms': seq<Move>, ss': seq<Edge>)
    requires IsService(c, ms, ss) && Next(c, ss[|ms|], m, s')
    ensures IsService(c, ms', ss') && ms' == ms + [m] && ss' == ss + [s']
  {
    ms', ss' := ms + [m], ss + [s'];
    forall i | 0 <= i < |ms'| ensures NextAt(c, ms', ss', i) {
      if i < |ms| {
        assert NextAt(c, ms, ss, i);
      }
    }
  }

  /** The first command of all is always recorded: no cap can be full yet. */
  lemma FirstRecordIsAccepted(c: Config, job: Job)
    requires ValidateJob(job).Ok?
    ensures Step(c, map[], Inserted(job, true, "gh-action", 1.0, Ok(Accepted)),
                 map[job.id := NewRow(job, true, "gh-action", 1.0)])
  {
    assert ActiveFor(map[], job.product, job.server) == {} && BusyIn(map[], job.channel) == {};
    assert map[][job.id := NewRow(job, true, "gh-action", 1.0)] == map[job.id := NewRow(job, true, "gh-action", 1.0)];
  }

  /** How a command's run may end on record. */
  datatype Ending = WentThrough | Recorded | StoreTooBusy | CutOff

  /**
   Every ending has its story, under any configuration: the run goes through, or its refusal is recorded,
   or the store is busy when the mark is tried, or the process restarts before it is. In the last two
   `results` says "running" ever after, as it does when the run went through.
   */
  lemma EveryEndingIsPossible(c: Config, job: Job, ending: Ending) returns (ms: seq<Move>, ss: seq<Edge>)
    requires ValidateJob(job).Ok?
    ensures IsService(c, ms, ss) && |ms| == if ending.WentThrough? then 2 else 3
    ensures Records(ms[0], job.id) && ms[1] == Move.Dispatch(job.id, ending.WentThrough?)
    ensures ending.Recorded? ==> MarkLands(ms[2], job.id)
    ensures ending.StoreTooBusy? ==> ms[2] == MarkFailure(job.id, StoreWasBusy)
    ensures ending.CutOff? ==> ms[2].Restart?
    ensures job.id in ss[|ms|].jobs && TurnIsOver(ss[|ms|], job.id)
    ensures if ending.Recorded? then ss[|ms|].jobs[job.id].state.NotDispatched?
            else ss[|ms|].jobs[job.id].state.Running?
  {
    var e := Inserted(job, true, "gh-action", 1.0, Ok(Accepted));
    var row := NewRow(job, true, "gh-action", 1.0);
    FirstRecordIsAccepted(c, job);
    var s1 := FIRST_BOOT.(jobs := map[job.id := row], background := multiset{job.id});
    ms, ss := ExtendService(c, [], [FIRST_BOOT], Command(e), s1);
    var refused := if ending.WentThrough? then multiset{} else multiset{job.id};
    var s2 := s1.(background := multiset{}, refused := refused, calls := multiset{job.id});
    ms, ss := ExtendService(c, ms, ss, Move.Dispatch(job.id, ending.WentThrough?), s2);
    if ending.Recorded? {
      var marked := s2.(jobs := map[job.id := Mark(row, "no", 2.0)], refused := multiset{});
      assert map[job.id := row][job.id := Mark(row, "no", 2.0)] == marked.jobs;
      ms, ss := ExtendService(c, ms, ss, MarkFailure(job.id, DispatchFailed(job.id, "no", 2.0, true)), marked);
    } else if !ending.WentThrough? {
      var m := if ending.CutOff? then Restart else MarkFailure(job.id, StoreWasBusy);
      ms, ss := ExtendService(c, ms, ss, m, s2.(refused := multiset{}));
    }
  }
}
