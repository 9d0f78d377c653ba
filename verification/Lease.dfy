/**
 The lease protocol end to end: test servers that claim, execute and report over a network that loses
 requests and replies, a heartbeat that renews, a clock, and the store behind the edge.
 */
module Lease {
  import opened Common
  import opened Jobs
  import opened Table
  import opened Runs
  import opened RowLife
  import opened Witnesses

  /**
   `gap` bounds the time between one heartbeat and the next, `losses` how many in a row may fail to
   land, and `lag` how long before taking effect a store call may have read its clock. Only the
   `steady` runners keep to the first two; the others may fall silent at any time.
   */
  datatype Protocol = Protocol(config: Config, gap: real, losses: nat, lag: real, steady: set<string>) {
    predicate Sensible() { gap >= 0.0 && lag >= 0.0 }

    /** How long after its last heartbeat attempt a runner that has lost `lost` in a row may still go unrenewed. */
    function Slack(lost: nat): real
      requires lost <= losses + 1
    {
      (losses + 1 - lost) as real * gap
    }

    /** Losing every heartbeat it may, a runner is still renewed within one lease. */
    predicate LeaseOutlastsSilence() { Slack(0) + lag <= config.leaseSeconds }
  }

  datatype Phase = Idle | Awaiting(job: string) | Executing(job: string, reported: bool)

  datatype Runner = Runner(phase: Phase, lastBeat: real, lost: nat)

  /** `posted` are the results some runner has sent off, `landed` those the store has answered at least once. */
  datatype World = World(
    clock: real, jobs: Table, runners: map<string, Runner>,
    posted: set<(string, string)>, landed: set<(string, string)>)

  const GENESIS := World(0.0, map[], map[], {}, {})

  datatype Move =
    | Tick(to: real)
    | Join(r: string)
    | Beat(r: string, now: real, renewed: nat)
    | BeatLost(r: string)
    | LateBeat(r: string, now: real, renewed: nat)
    | ClaimAnswered(r: string, labels: seq<string>, now: real, handed: Option<Job>)
    | ClaimUnheard(r: string, labels: seq<string>, now: real, handed: Option<Job>)
    | ReplyArrives(r: string)
    | ReplyLost(r: string)
    | StartedLands(r: string, id: string, now: real, ok: bool)
    | PostResult(r: string)
    | ResultLands(r: string, id: string, outcome: Outcome, now: real, ok: bool)
    | MoveOn(r: string)
    | EdgeActs(event: Event)

  /** The store call behind a move, if there is one. */
  function EventOf(m: Move): Option<Event> {
    match m
    case Beat(r, now, n) => Some(Heartbeat(r, now, n))
    case LateBeat(r, now, n) => Some(Heartbeat(r, now, n))
    case ClaimAnswered(r, labels, now, handed) => Some(ClaimAsked(r, labels, now, handed))
    case ClaimUnheard(r, labels, now, handed) => Some(ClaimAsked(r, labels, now, handed))
    case StartedLands(r, id, now, ok) => Some(StartReported(id, r, now, ok))
    case ResultLands(r, id, o, now, ok) => Some(ResultReported(id, r, o, now, ok))
    case EdgeActs(e) => Some(e)
    case _ => None
  }

  predicate OnTime(p: Protocol, w: World, e: Event) { e.StoreWasBusy? || w.clock - p.lag <= e.now <= w.clock }

  predicate Steady(p: Protocol, w: World, r: string) { r in p.steady && r in w.runners }

  ghost predicate Allowed(p: Protocol, w: World, m: Move) {
    match m
    case Tick(to) => to >= w.clock && forall r :: Steady(p, w, r) ==> to <= w.runners[r].lastBeat + p.gap
    case Join(r) => r !in w.runners
    case Beat(r, _, _) => r in w.runners
    case BeatLost(r) => r in w.runners && (r in p.steady ==> w.runners[r].lost < p.losses)
    case LateBeat(r, _, _) => r in w.runners
    case ClaimAnswered(r, _, _, _) => r in w.runners && w.runners[r].phase.Idle?
    case ClaimUnheard(r, _, _, _) => r in w.runners
    case ReplyArrives(r) => r in w.runners && w.runners[r].phase.Awaiting?
    case ReplyLost(r) => r in w.runners && w.runners[r].phase.Awaiting?
    case StartedLands(r, _, _, _) => r in w.runners
    case PostResult(r) => r in w.runners && w.runners[r].phase.Executing?
    case ResultLands(r, id, _, _, _) => (r, id) in w.posted
    case MoveOn(r) => r in w.runners && w.runners[r].phase.Executing? && w.runners[r].phase.reported
    case EdgeActs(e) => e.Inserted? || e.DispatchFailed? || e.Reaped? || e.StoreWasBusy?
  }

  function InPhase(w: World, r: string, phase: Phase): World
    requires r in w.runners
  {
    w.(runners := w.runners[r := w.runners[r].(phase := phase)])
  }

  /** Everything a move changes apart from the table. */
  ghost function Moved(p: Protocol, w: World, m: Move): World
    requires Allowed(p, w, m)
  {
    match m
    case Tick(to) => w.(clock := to)
    case Join(r) => w.(runners := w.runners[r := Runner(Idle, w.clock, 0)])
    case Beat(r, _, _) => w.(runners := w.runners[r := w.runners[r].(lastBeat := w.clock, lost := 0)])
    case BeatLost(r) =>
      w.(runners := w.runners[r := w.runners[r].(lastBeat := w.clock, lost := w.runners[r].lost + 1)])
    case ClaimAnswered(r, _, _, handed) =>
      if handed.Some? then InPhase(w, r, Awaiting(handed.value.id)) else w
    case ReplyArrives(r) => InPhase(w, r, Executing(w.runners[r].phase.job, false))
    case ReplyLost(r) => InPhase(w, r, Idle)
    case PostResult(r) =>
      InPhase(w, r, w.runners[r].phase.(reported := true)).(posted := w.posted + {(r, w.runners[r].phase.job)})
    case ResultLands(r, id, _, _, _) => w.(landed := w.landed + {(r, id)})
    case MoveOn(r) => InPhase(w, r, Idle)
    case _ => w
  }

  ghost predicate Next(p: Protocol, w: World, m: Move, w': World) {
    && Allowed(p, w, m)
    && w' == Moved(p, w, m).(jobs := w'.jobs)
    && match EventOf(m)
       case Some(e) => OnTime(p, w, e) && Step(p.config, w.jobs, e, w'.jobs)
       case None => w'.jobs == w.jobs
  }

  ghost predicate NextAt(p: Protocol, ms: seq<Move>, ws: seq<World>, i: int)
    requires 0 <= i < |ms| && |ws| == |ms| + 1
  {
    Next(p, ws[i], ms[i], ws[i + 1])
  }

  ghost predicate IsStory(p: Protocol, ms: seq<Move>, ws: seq<World>) {
    && |ws| == |ms| + 1
    && ws[0] == GENESIS
    && forall i :: 0 <= i < |ms| ==> NextAt(p, ms, ws, i)
  }

  // ---------------------------------------------------------------- the invariant

  predicate Held(t: Table, id: string, r: string) { id in t && HeldBy(t[id], r) }

  predicate SoundTable(p: Protocol, t: Table) {
    Keyed(t) && forall id :: id in t ==> Shaped(t[id], p.config.maxAttempts)
  }

  predicate Timely(p: Protocol, clock: real, runner: Runner) {
    runner.lost <= p.losses && runner.lastBeat <= clock <= runner.lastBeat + p.gap
  }

  /** Every row the runner holds is leased until its next landing heartbeat at the latest. */
  ghost predicate Leased(p: Protocol, t: Table, r: string, runner: Runner)
    requires runner.lost <= p.losses
  {
    forall id :: Held(t, id, r) ==> t[id].lease.Some? && t[id].lease.value >= runner.lastBeat + p.Slack(runner.lost)
  }

  /** Still at work on a job it has not reported. */
  predicate Owes(phase: Phase) { phase.Awaiting? || (phase.Executing? && !phase.reported) }

  /** Whatever the runner is busy with is a row it holds, or has finished. */
  ghost predicate Entitled(w: World, r: string, phase: Phase) {
    && (Owes(phase) ==> Held(w.jobs, phase.job, r) && (r, phase.job) !in w.posted)
    && (phase.Executing? && phase.reported ==> (r, phase.job) in w.posted)
    && forall id :: (r, id) in w.posted ==>
         if (r, id) in w.landed then id in w.jobs && w.jobs[id].runner == Some(r) && Terminal(w.jobs[id].state)
         else Held(w.jobs, id, r)
  }

  ghost predicate SteadyInv(p: Protocol, w: World, r: string)
    requires r in w.runners
  {
    && Timely(p, w.clock, w.runners[r])
    && Leased(p, w.jobs, r, w.runners[r])
    && Entitled(w, r, w.runners[r].phase)
  }

  /** Only runners that have joined hold rows or post results, and only posted results land. */
  ghost predicate Known(w: World) {
    && (forall id :: id in w.jobs && Busy(w.jobs[id].state) && w.jobs[id].runner.Some? ==>
          w.jobs[id].runner.value in w.runners)
    && (forall r, id :: (r, id) in w.posted ==> r in w.runners)
    && w.landed <= w.posted
  }

  ghost predicate Inv(p: Protocol, w: World) {
    && SoundTable(p, w.jobs)
    && Known(w)
    && forall r :: Steady(p, w, r) ==> SteadyInv(p, w, r)
  }

  lemma SlackFalls(p: Protocol, lost: nat)
    requires p.Sensible() && lost <= p.losses
    ensures p.Slack(lost) == p.Slack(lost + 1) + p.gap
    ensures p.gap <= p.Slack(lost) <= p.Slack(0)
  {
    var n := (p.losses - lost) as real;
    assert p.Slack(lost) == (n + 1.0) * p.gap == n * p.gap + p.gap;
    assert n * p.gap >= 0.0;
    assert p.Slack(0) == ((p.losses + 1) as real) * p.gap;
    assert lost as real * p.gap >= 0.0;
    assert p.Slack(0) == p.Slack(lost) + lost as real * p.gap;
  }

  /** No reap, however late its clock reading, finds a steady runner's row expired. */
  lemma SteadyRowsAreFresh(p: Protocol, w: World, r: string, id: string, now: real)
    requires p.Sensible() && Steady(p, w, r) && SteadyInv(p, w, r) && Held(w.jobs, id, r) && now <= w.clock
    ensures !Expired(w.jobs[id], now)
  {
    SlackFalls(p, w.runners[r].lost);
  }

  // ---------------------------------------------------------------- one store call

  lemma TableStaysSound(p: Protocol, t: Table, e: Event, t': Table)
    requires SoundTable(p, t) && Step(p.config, t, e, t')
    ensures SoundTable(p, t')
  {
    StepByRow(p.config, t, e, t');
    forall id | id in t' ensures Shaped(t'[id], p.config.maxAttempts) {
      if id in t {
        ChangeKeepsShape(p.config, e, id, t[id], t'[id]);
      }
    }
  }

  /** A row a runner holds with a live lease leaves its hands only by that runner's own result. */
  lemma FreshRowStays(c: Config, e: Event, id: string, r: string, row: Row, row': Row)
    requires RowChange(c, e, id, row, row') && HeldBy(row, r)
    requires Reaps(e) ==> !Expired(row, e.now)
    ensures if e.ResultReported? && e.id == id && e.runner == r
            then row'.runner == Some(r) && Terminal(row'.state)
            else && HeldBy(row', r)
                 && row'.lease == if e.Heartbeat? && e.runner == r then Some(e.now + c.leaseSeconds) else row.lease
  {
  }

  /** A runner comes to hold a row only by a claim. */
  lemma HeldOnlyByClaim(c: Config, e: Event, id: string, r: string, row: Row, row': Row)
    requires RowChange(c, e, id, row, row') && !HeldBy(row, r) && HeldBy(row', r)
    ensures Takes(e, id) && e.runner == r && row'.lease == Some(e.now + c.leaseSeconds)
  {
  }

  predicate Finishes(e: Event, id: string, r: string) { e.ResultReported? && e.id == id && e.runner == r }

  lemma StoreCallKeepsHeld(p: Protocol, w: World, e: Event, t': Table, r: string)
    requires p.Sensible() && Inv(p, w) && Steady(p, w, r)
    requires OnTime(p, w, e) && Step(p.config, w.jobs, e, t')
    ensures forall id :: Held(w.jobs, id, r) && !Finishes(e, id, r) ==> Held(t', id, r)
    ensures forall id :: Held(w.jobs, id, r) && Finishes(e, id, r) ==>
              id in t' && t'[id].runner == Some(r) && Terminal(t'[id].state)
    ensures forall id :: id in w.jobs && Terminal(w.jobs[id].state) ==> id in t' && t'[id] == w.jobs[id]
    ensures forall id :: Takes(e, id) ==> id in w.jobs && !Held(w.jobs, id, r) && !Terminal(w.jobs[id].state)
    ensures forall id :: Takes(e, id) && e.runner == r ==> Held(t', id, r)
  {
    StepByRow(p.config, w.jobs, e, t');
    forall id | Takes(e, id)
      ensures !Held(w.jobs, id, r) && !Terminal(w.jobs[id].state) && (e.runner == r ==> Held(t', id, r))
    {
      assert RowChange(p.config, e, id, w.jobs[id], t'[id]);
      if Held(w.jobs, id, r) { SteadyRowsAreFresh(p, w, r, id, e.now); }
    }
    forall id | Held(w.jobs, id, r)
      ensures if Finishes(e, id, r) then id in t' && t'[id].runner == Some(r) && Terminal(t'[id].state)
              else Held(t', id, r)
    {
      if Reaps(e) { SteadyRowsAreFresh(p, w, r, id, e.now); }
      FreshRowStays(p.config, e, id, r, w.jobs[id], t'[id]);
    }
    forall id | id in w.jobs && Terminal(w.jobs[id].state) ensures id in t' && t'[id] == w.jobs[id] {
      assert RowChange(p.config, e, id, w.jobs[id], t'[id]);
    }
  }

  /** After a store call every row a steady runner holds is still leased far enough ahead. */
  lemma StoreCallKeepsLeases(p: Protocol, w: World, e: Event, t': Table, r: string, runner': Runner)
    requires p.Sensible() && p.LeaseOutlastsSilence() && Inv(p, w) && Steady(p, w, r)
    requires OnTime(p, w, e) && Step(p.config, w.jobs, e, t')
    requires (runner'.lastBeat == w.runners[r].lastBeat && runner'.lost == w.runners[r].lost)
          || (e.Heartbeat? && e.runner == r && runner'.lastBeat == w.clock && runner'.lost == 0)
    ensures Leased(p, t', r, runner')
  {
    StepByRow(p.config, w.jobs, e, t');
    SlackFalls(p, w.runners[r].lost);
    SlackFalls(p, 0);
    forall id | Held(t', id, r)
      ensures t'[id].lease.Some? && t'[id].lease.value >= runner'.lastBeat + p.Slack(runner'.lost)
    {
      if Held(w.jobs, id, r) {
        if Reaps(e) { SteadyRowsAreFresh(p, w, r, id, e.now); }
        FreshRowStays(p.config, e, id, r, w.jobs[id], t'[id]);
      } else if id in w.jobs {
        HeldOnlyByClaim(p.config, e, id, r, w.jobs[id], t'[id]);
      }
    }
  }

  // ---------------------------------------------------------------- one move

  lemma StoreMoveKeepsEntitled(p: Protocol, w: World, m: Move, w': World, r: string)
    requires p.Sensible() && Inv(p, w) && Next(p, w, m, w') && EventOf(m).Some? && Steady(p, w, r)
    ensures Entitled(w', r, w'.runners[r].phase)
  {
    var e := EventOf(m).value;
    StoreCallKeepsHeld(p, w, e, w'.jobs, r);
    var phase, phase' := w.runners[r].phase, w'.runners[r].phase;
    assert w'.posted == w.posted && SteadyInv(p, w, r);
    if phase' != phase {
      assert m.ClaimAnswered? && m.r == r && phase' == Awaiting(m.handed.value.id);
      assert Takes(e, phase'.job);
    }
    forall id | (r, id) in w'.posted
      ensures if (r, id) in w'.landed then id in w'.jobs && w'.jobs[id].runner == Some(r) && Terminal(w'.jobs[id].state)
              else Held(w'.jobs, id, r)
    {
      assert Finishes(e, id, r) <==> m.ResultLands? && m.r == r && m.id == id;
    }
  }

  lemma HoldersAreKnown(c: Config, t: Table, e: Event, t': Table, runners: set<string>)
    requires Keyed(t) && Step(c, t, e, t') && (e.ClaimAsked? ==> e.runner in runners)
    requires forall id :: id in t && Busy(t[id].state) && t[id].runner.Some? ==> t[id].runner.value in runners
    ensures forall id :: id in t' && Busy(t'[id].state) && t'[id].runner.Some? ==> t'[id].runner.value in runners
  {
    StepByRow(c, t, e, t');
    forall id | id in t' && Busy(t'[id].state) && t'[id].runner.Some? ensures t'[id].runner.value in runners {
      var r := t'[id].runner.value;
      if id in t && !HeldBy(t[id], r) {
        HeldOnlyByClaim(c, e, id, r, t[id], t'[id]);
      }
    }
  }

  lemma StoreMoveKeepsKnown(p: Protocol, w: World, m: Move, w': World)
    requires Known(w) && Keyed(w.jobs) && Next(p, w, m, w') && EventOf(m).Some?
    ensures Known(w')
  {
    HoldersAreKnown(p.config, w.jobs, EventOf(m).value, w'.jobs, w.runners.Keys);
    assert w'.runners.Keys == w.runners.Keys && w'.posted == w.posted;
  }

  lemma StoreMoveKeepsInv(p: Protocol, w: World, m: Move, w': World)
    requires p.Sensible() && p.LeaseOutlastsSilence() && Inv(p, w) && Next(p, w, m, w') && EventOf(m).Some?
    ensures Inv(p, w')
  {
    var e := EventOf(m).value;
    TableStaysSound(p, w.jobs, e, w'.jobs);
    StoreMoveKeepsKnown(p, w, m, w');
    forall r | Steady(p, w', r) ensures SteadyInv(p, w', r) {
      assert Steady(p, w, r) && SteadyInv(p, w, r);
      StoreCallKeepsLeases(p, w, e, w'.jobs, r, w'.runners[r]);
      StoreMoveKeepsEntitled(p, w, m, w', r);
    }
  }

  lemma SilentBeatKeepsLeases(p: Protocol, w: World, r: string)
    requires p.Sensible() && Steady(p, w, r) && SteadyInv(p, w, r) && w.runners[r].lost < p.losses
    ensures Leased(p, w.jobs, r, w.runners[r].(lastBeat := w.clock, lost := w.runners[r].lost + 1))
  {
    SlackFalls(p, w.runners[r].lost);
  }

  lemma OtherMoveKeepsInv(p: Protocol, w: World, m: Move, w': World)
    requires p.Sensible() && Inv(p, w) && Next(p, w, m, w') && EventOf(m).None?
    ensures Inv(p, w')
  {
    forall r | Steady(p, w', r) ensures SteadyInv(p, w', r) {
      if m.Join? && m.r == r {
        assert forall id :: !Held(w.jobs, id, r);
      } else {
        assert Steady(p, w, r) && SteadyInv(p, w, r);
        if m.BeatLost? && m.r == r {
          SilentBeatKeepsLeases(p, w, r);
        }
      }
    }
  }

  lemma {:induction false} StoryKeepsInv(p: Protocol, ms: seq<Move>, ws: seq<World>, n: nat)
    requires p.Sensible() && p.LeaseOutlastsSilence() && IsStory(p, ms, ws) && n <= |ms|
    ensures Inv(p, ws[n])
    decreases n
  {
    if n > 0 {
      StoryKeepsInv(p, ms, ws, n - 1);
      assert NextAt(p, ms, ws, n - 1);
      if EventOf(ms[n - 1]).Some? {
        StoreMoveKeepsInv(p, ws[n - 1], ms[n - 1], ws[n]);
      } else {
        OtherMoveKeepsInv(p, ws[n - 1], ms[n - 1], ws[n]);
      }
    }
  }

  // ---------------------------------------------------------------- the two promises

  predicate Engaged(w: World, r: string, id: string) {
    r in w.runners && w.runners[r].phase.Executing? && w.runners[r].phase.job == id
  }

  /** No job is ever being executed by two steady runners at once. */
  ghost predicate Exclusive(p: Protocol, w: World) {
    forall a, b, id :: a in p.steady && b in p.steady && Engaged(w, a, id) && Engaged(w, b, id) ==> a == b
  }

  lemma NoTwoRunnersExecuteOneJob(p: Protocol, ms: seq<Move>, ws: seq<World>, n: nat)
    requires p.Sensible() && p.LeaseOutlastsSilence() && IsStory(p, ms, ws) && n <= |ms|
    ensures Exclusive(p, ws[n])
  {
    StoryKeepsInv(p, ms, ws, n);
    var w := ws[n];
    forall a, b, id | a in p.steady && b in p.steady && Engaged(w, a, id) && Engaged(w, b, id) ensures a == b {
      assert Steady(p, w, a) && Steady(p, w, b) && SteadyInv(p, w, a) && SteadyInv(p, w, b);
    }
  }

  /** The first of a steady runner's results for a job to reach the store is recorded, however late it lands. */
  lemma FirstResultIsAccepted(p: Protocol, ms: seq<Move>, ws: seq<World>, n: nat)
    requires p.Sensible() && p.LeaseOutlastsSilence() && IsStory(p, ms, ws) && n < |ms|
    requires ms[n].ResultLands? && ms[n].r in p.steady && (ms[n].r, ms[n].id) !in ws[n].landed
    ensures ms[n].ok
    ensures var id, jobs := ms[n].id, ws[n].jobs;
            id in jobs && ws[n + 1].jobs == jobs[id := Finish(jobs[id], ms[n].outcome, ms[n].now)]
  {
    StoryKeepsInv(p, ms, ws, n);
    assert NextAt(p, ms, ws, n);
    assert Steady(p, ws[n], ms[n].r) && SteadyInv(p, ws[n], ms[n].r);
  }

  // ---------------------------------------------------------------- and only then

  const DISPUTED := JobOn("j", "c")
  const WAITING: Table := map["j" := NewRow(DISPUTED, false, "test-server", 0.0)]

  lemma ExtendStory(p: Protocol, ms: seq<Move>, ws: seq<World>, m: Move, w': World)
    returns (ms': seq<Move>, ws': seq<World>)
    requires IsStory(p, ms, ws) && Next(p, ws[|ms|], m, w')
    ensures IsStory(p, ms', ws') && ws'[|ms'|] == w' && |ms'| == |ms| + 1 && ms'[|ms|] == m
  {
    ms', ws' := ms + [m], ws + [w'];
    forall i | 0 <= i < |ms'| ensures NextAt(p, ms', ws', i) {
      if i < |ms| {
        assert NextAt(p, ms, ws, i);
      }
    }
  }

  /** `a` executes the job, at `at` both runners have just lost their `i`-th heartbeat, and nothing else happened. */
  function Silent(p: Protocol, a: string, b: string, i: nat, at: real): World {
    World(at, map["j" := Take(WAITING["j"], a, p.config.leaseSeconds - p.lag)],
          map[a := Runner(Executing("j", false), at, i), b := Runner(Idle, at, i)], {}, {})
  }

  /** Two runners have joined and the job waits for either. */
  function Ready(a: string, b: string): World {
    World(0.0, WAITING, map[a := Runner(Idle, 0.0, 0), b := Runner(Idle, 0.0, 0)], {}, {})
  }

  lemma BothRunnersJoin(p: Protocol, a: string, b: string) returns (ms: seq<Move>, ws: seq<World>)
    requires p.Sensible() && a != b
    ensures IsStory(p, ms, ws) && ws[|ms|] == Ready(a, b)
  {
    ms, ws := [], [GENESIS];
    var w1 := GENESIS.(runners := map[a := Runner(Idle, 0.0, 0)]);
    assert map[][a := Runner(Idle, 0.0, 0)] == map[a := Runner(Idle, 0.0, 0)];
    ms, ws := ExtendStory(p, ms, ws, Join(a), w1);
    var w2 := Ready(a, b).(jobs := map[]);
    assert w1.runners[b := Runner(Idle, 0.0, 0)] == w2.runners;
    ms, ws := ExtendStory(p, ms, ws, Join(b), w2);
    ValidJobsExactly(DISPUTED);
    FirstEnqueueIsAccepted(p.config, "j", "c");
    var queued := Inserted(DISPUTED, false, "test-server", 0.0, Ok(Accepted));
    ms, ws := ExtendStory(p, ms, ws, EdgeActs(queued), Ready(a, b));
  }

  /** `a` has been given the job and its reply is on the way. */
  function Promised(p: Protocol, a: string, b: string): World {
    Silent(p, a, b, 0, 0.0).(runners := map[a := Runner(Awaiting("j"), 0.0, 0), b := Runner(Idle, 0.0, 0)])
  }

  lemma FirstHandOut(p: Protocol, a: string, b: string)
    requires p.Sensible()
    ensures Step(p.config, WAITING, ClaimAsked(a, [], -p.lag, Some(DISPUTED)), Promised(p, a, b).jobs)
  {
    var row := WAITING["j"];
    SoleRowIsHandedOut(p.config, WAITING, "j", "c", a, -p.lag);
    assert Promised(p, a, b).jobs == map["j" := Take(row, a, -p.lag + p.config.leaseSeconds)];
  }

  lemma FirstClaim(p: Protocol, a: string, b: string)
    requires p.Sensible() && a != b
    ensures Next(p, Ready(a, b), ClaimAnswered(a, [], -p.lag, Some(DISPUTED)), Promised(p, a, b))
  {
    FirstHandOut(p, a, b);
    assert Ready(a, b).runners[a := Runner(Awaiting("j"), 0.0, 0)] == Promised(p, a, b).runners;
  }

  lemma FirstReply(p: Protocol, a: string, b: string)
    requires p.Sensible() && a != b
    ensures Next(p, Promised(p, a, b), ReplyArrives(a), Silent(p, a, b, 0, 0.0))
  {
    assert Promised(p, a, b).runners[a := Runner(Executing("j", false), 0.0, 0)] == Silent(p, a, b, 0, 0.0).runners;
  }

  lemma FirstRunnerStarts(p: Protocol, a: string, b: string) returns (ms: seq<Move>, ws: seq<World>)
    requires p.Sensible() && a != b
    ensures IsStory(p, ms, ws) && ws[|ms|] == Silent(p, a, b, 0, 0.0)
  {
    ms, ws := BothRunnersJoin(p, a, b);
    FirstClaim(p, a, b);
    ms, ws := ExtendStory(p, ms, ws, ClaimAnswered(a, [], -p.lag, Some(DISPUTED)), Promised(p, a, b));
    FirstReply(p, a, b);
    ms, ws := ExtendStory(p, ms, ws, ReplyArrives(a), Silent(p, a, b, 0, 0.0));
  }

  lemma {:induction false} RunnersFallSilent(p: Protocol, a: string, b: string, i: nat)
    returns (ms: seq<Move>, ws: seq<World>, at: real)
    requires p.Sensible() && a != b && i <= p.losses
    ensures IsStory(p, ms, ws) && ws[|ms|] == Silent(p, a, b, i, at)
    ensures at == i as real * p.gap
    decreases i
  {
    if i == 0 {
      ms, ws := FirstRunnerStarts(p, a, b);
      at := 0.0;
    } else {
      var before;
      ms, ws, before := RunnersFallSilent(p, a, b, i - 1);
      at := before + p.gap;
      ms, ws := BothLoseABeat(p, ms, ws, a, b, i, before);
    }
  }

  lemma BothLoseABeat(p: Protocol, ms: seq<Move>, ws: seq<World>, a: string, b: string, i: nat, before: real)
    returns (ms': seq<Move>, ws': seq<World>)
    requires p.Sensible() && a != b && 0 < i <= p.losses
    requires IsStory(p, ms, ws) && ws[|ms|] == Silent(p, a, b, i - 1, before)
    ensures IsStory(p, ms', ws') && ws'[|ms'|] == Silent(p, a, b, i, before + p.gap)
  {
    var w, at := Silent(p, a, b, i - 1, before), before + p.gap;
    var w1 := w.(clock := at);
    ms', ws' := ExtendStory(p, ms, ws, Tick(at), w1);
    var w2 := w1.(runners := map[a := Runner(Executing("j", false), at, i), b := Runner(Idle, before, i - 1)]);
    assert w1.runners[a := Runner(Executing("j", false), at, i)] == w2.runners;
    ms', ws' := ExtendStory(p, ms', ws', BeatLost(a), w2);
    var w3 := Silent(p, a, b, i, at);
    assert w2.runners[b := Runner(Idle, at, i)] == w3.runners;
    ms', ws' := ExtendStory(p, ms', ws', BeatLost(b), w3);
  }

  /**
   The condition is exact. With a second attempt allowed and two steady runners, a lease any shorter
   lets a run end with both executing one job.
   */
  lemma ShorterLeasesAreNotEnough(p: Protocol, a: string, b: string) returns (ms: seq<Move>, ws: seq<World>)
    requires p.Sensible() && !p.LeaseOutlastsSilence() && p.config.maxAttempts >= 2
    requires a in p.steady && b in p.steady && a != b
    ensures IsStory(p, ms, ws) && !Exclusive(p, ws[|ms|])
  {
    var at;
    ms, ws, at := RunnersFallSilent(p, a, b, p.losses);
    var w := ws[|ms|];
    assert p.Slack(0) == at + p.gap;
    w := w.(clock := p.Slack(0));
    ms, ws := ExtendStory(p, ms, ws, Tick(w.clock), w);
    var freed := ReapRow(w.jobs["j"], w.clock, p.config.maxAttempts);
    SoleRowIsHandedOut(p.config, w.jobs, "j", "c", b, w.clock);
    w := w.(jobs := map["j" := Take(freed, b, w.clock + p.config.leaseSeconds)],
            runners := w.runners[b := Runner(Awaiting("j"), w.runners[b].lastBeat, w.runners[b].lost)]);
    ms, ws := ExtendStory(p, ms, ws, ClaimAnswered(b, [], w.clock, Some(DISPUTED)), w);
    w := w.(runners := w.runners[b := Runner(Executing("j", false), w.runners[b].lastBeat, w.runners[b].lost)]);
    ms, ws := ExtendStory(p, ms, ws, ReplyArrives(b), w);
    assert Engaged(w, a, "j") && Engaged(w, b, "j");
  }

  /**
   Given a second attempt and two steady runners, mutual exclusion holds in every story exactly when the
   lease outlasts the silence.
   */
  lemma LeaseConditionIsExact(p: Protocol, a: string, b: string)
    requires p.Sensible() && p.config.maxAttempts >= 2 && a in p.steady && b in p.steady && a != b
    ensures p.LeaseOutlastsSilence() <==>
              forall ms, ws :: IsStory(p, ms, ws) ==> Exclusive(p, ws[|ms|])
  {
    if p.LeaseOutlastsSilence() {
      forall ms, ws | IsStory(p, ms, ws) ensures Exclusive(p, ws[|ms|]) {
        NoTwoRunnersExecuteOneJob(p, ms, ws, |ms|);
      }
    } else {
      var ms, ws := ShorterLeasesAreNotEnough(p, a, b);
    }
  }
}
