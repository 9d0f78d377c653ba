/**
 What the stories of the lease protocol are: what a runner is doing follows from its moves, any call of
 any runner may come next, and time can always go on.
 */
module Stories {
  import opened Common
  import opened Jobs
  import opened Table
  import opened Runs
  import opened Lease

  /** A move that takes the runner from one thing it does to the next. */
  predicate Turns(m: Move, r: string) {
    || (m.ClaimAnswered? && m.r == r && m.handed.Some?)
    || ((m.ReplyArrives? || m.ReplyLost? || m.MoveOn?) && m.r == r)
  }

  predicate NoTurns(ms: seq<Move>, j: int, n: int, r: string)
    requires 0 <= n <= |ms|
  {
    forall i :: j < i < n && 0 <= i ==> !Turns(ms[i], r)
  }

  /** At move `j` a claim by the runner was answered with the job, and nothing has come of it yet. */
  predicate AnsweredAt(ms: seq<Move>, j: int, n: int, r: string, id: string)
    requires 0 <= n <= |ms|
  {
    && 0 <= j < n && ms[j].ClaimAnswered? && ms[j].r == r && ms[j].handed.Some? && ms[j].handed.value.id == id
    && NoTurns(ms, j, n, r)
  }

  /** At move `k` the answer arrived, and the runner has not moved on. */
  predicate StartedAt(ms: seq<Move>, j: int, k: int, n: int, r: string, id: string)
    requires 0 <= n <= |ms|
  {
    0 <= k < n && ms[k] == ReplyArrives(r) && AnsweredAt(ms, j, k, r, id) && NoTurns(ms, k, n, r)
  }

  predicate PostedSince(ms: seq<Move>, k: int, n: int, r: string)
    requires 0 <= n <= |ms|
  {
    exists i :: k < i < n && 0 <= i && ms[i] == PostResult(r)
  }

  /** What the runner is doing, from the moves. */
  ghost predicate PhaseFits(ms: seq<Move>, n: nat, r: string, phase: Phase)
    requires n <= |ms|
  {
    match phase
    case Awaiting(id) => exists j :: AnsweredAt(ms, j, n, r, id)
    case Executing(id, reported) =>
      exists j, k :: StartedAt(ms, j, k, n, r, id) && (reported <==> PostedSince(ms, k, n, r))
    case Idle =>
      NoTurns(ms, -1, n, r)
      || exists k :: 0 <= k < n && (ms[k] == ReplyLost(r) || ms[k] == MoveOn(r)) && NoTurns(ms, k, n, r)
  }

  lemma PhaseStays(ms: seq<Move>, n: nat, next: nat, r: string, phase: Phase)
    requires n < |ms| && next == n + 1 && PhaseFits(ms, n, r, phase) && !Turns(ms[n], r) && ms[n] != PostResult(r)
    ensures PhaseFits(ms, next, r, phase)
  {
    match phase {
      case Awaiting(id) =>
        var j :| AnsweredAt(ms, j, n, r, id);
        assert AnsweredAt(ms, j, next, r, id);
      case Executing(id, reported) =>
        var j, k :| StartedAt(ms, j, k, n, r, id) && (reported <==> PostedSince(ms, k, n, r));
        assert StartedAt(ms, j, k, next, r, id) && (PostedSince(ms, k, next, r) <==> PostedSince(ms, k, n, r));
      case Idle =>
        if !NoTurns(ms, -1, n, r) {
          var k :| 0 <= k < n && (ms[k] == ReplyLost(r) || ms[k] == MoveOn(r)) && NoTurns(ms, k, n, r);
          assert NoTurns(ms, k, next, r);
        }
    }
  }

  lemma PhaseTurns(p: Protocol, w: World, m: Move, w': World, ms: seq<Move>, n: nat, next: nat, r: string)
    requires n < |ms| && next == n + 1 && m == ms[n] && Next(p, w, m, w') && r in w.runners
    requires PhaseFits(ms, n, r, w.runners[r].phase) && (Turns(m, r) || m == PostResult(r))
    ensures r in w'.runners && PhaseFits(ms, next, r, w'.runners[r].phase)
  {
    var phase, phase' := w.runners[r].phase, w'.runners[r].phase;
    if m.ClaimAnswered? {
      assert AnsweredAt(ms, n, next, r, m.handed.value.id);
    } else if m.ReplyArrives? {
      var j :| AnsweredAt(ms, j, n, r, phase.job);
      assert StartedAt(ms, j, n, next, r, phase.job) && !PostedSince(ms, n, next, r);
    } else if m.PostResult? {
      var j, k :| StartedAt(ms, j, k, n, r, phase.job) && (phase.reported <==> PostedSince(ms, k, n, r));
      assert StartedAt(ms, j, k, next, r, phase.job) && PostedSince(ms, k, next, r);
    } else {
      assert NoTurns(ms, n, next, r);
    }
  }

  lemma QuietMovesKeepPhases(p: Protocol, w: World, m: Move, w': World, r: string)
    requires Next(p, w, m, w') && !Turns(m, r) && m != PostResult(r)
    ensures r in w'.runners ==> w'.runners[r].phase == if r in w.runners then w.runners[r].phase else Idle
    ensures r in w.runners ==> r in w'.runners
    ensures r !in w.runners ==> !(m.Join? && m.r == r) ==> r !in w'.runners
  {
  }

  lemma OnlyJoinedRunnersTurn(p: Protocol, w: World, m: Move, r: string)
    requires Allowed(p, w, m) && (Turns(m, r) || m == PostResult(r))
    ensures r in w.runners
  {
  }

  /**
   What a runner is doing is what its moves say: it waits from the answer to its claim until the answer
   arrives or is lost, executes from then until it moves on, and has reported once it has posted a result.
   */
  lemma {:induction false} RunnersDoWhatTheirMovesSay(p: Protocol, ms: seq<Move>, ws: seq<World>, n: nat, r: string)
    requires IsStory(p, ms, ws) && n <= |ms|
    ensures if r in ws[n].runners then PhaseFits(ms, n, r, ws[n].runners[r].phase) else NoTurns(ms, -1, n, r)
    decreases n
  {
    if n > 0 {
      var w, m, w' := ws[n - 1], ms[n - 1], ws[n];
      RunnersDoWhatTheirMovesSay(p, ms, ws, n - 1, r);
      assert NextAt(p, ms, ws, n - 1);
      if Turns(m, r) || m == PostResult(r) {
        OnlyJoinedRunnersTurn(p, w, m, r);
        PhaseTurns(p, w, m, w', ms, n - 1, n, r);
      } else {
        QuietMovesKeepPhases(p, w, m, w', r);
        if r in w.runners { PhaseStays(ms, n - 1, n, r, w.runners[r].phase); }
      }
    }
  }

  /** The call comes from the edge, or from a runner that has joined; a result only if it was posted. */
  predicate MayBeMade(w: World, e: Event) {
    match e
    case ClaimAsked(r, _, _, _) => r in w.runners
    case StartReported(_, r, _, _) => r in w.runners
    case Heartbeat(r, _, _) => r in w.runners
    case ResultReported(id, r, _, _, _) => (r, id) in w.posted
    case _ => true
  }

  /** Nothing is assumed of the store's other callers: any such call, heard or unheard, may come next in any story. */
  lemma AnyCallMayLand(p: Protocol, ms: seq<Move>, ws: seq<World>, e: Event, t': Table)
    returns (ms': seq<Move>, ws': seq<World>)
    requires IsStory(p, ms, ws)
    requires MayBeMade(ws[|ms|], e) && OnTime(p, ws[|ms|], e) && Step(p.config, ws[|ms|].jobs, e, t')
    ensures IsStory(p, ms', ws') && |ms'| == |ms| + 1 && EventOf(ms'[|ms|]) == Some(e)
    ensures ws'[|ms'|].jobs == t' && ws'[|ms'|].runners == ws[|ms|].runners
  {
    var m := match e
      case ClaimAsked(r, labels, now, handed) => ClaimUnheard(r, labels, now, handed)
      case StartReported(id, r, now, ok) => StartedLands(r, id, now, ok)
      case Heartbeat(r, now, renewed) => LateBeat(r, now, renewed)
      case ResultReported(id, r, o, now, ok) => ResultLands(r, id, o, now, ok)
      case _ => EdgeActs(e);
    var w' := Moved(p, ws[|ms|], m).(jobs := t');
    ms', ws' := ExtendStory(p, ms, ws, m, w');
  }

  /** Some runners' heartbeats land, one after the other, at this instant. */
  lemma {:induction false} BeatsLand(p: Protocol, ms: seq<Move>, ws: seq<World>, todo: set<string>)
    returns (ms': seq<Move>, ws': seq<World>)
    requires p.Sensible() && IsStory(p, ms, ws) && todo <= ws[|ms|].runners.Keys
    ensures IsStory(p, ms', ws')
    ensures var w, w' := ws[|ms|], ws'[|ms'|];
            && w'.clock == w.clock && w'.runners.Keys == w.runners.Keys
            && forall r :: r in todo ==> w'.runners[r].lastBeat == w.clock
    decreases todo
  {
    if todo == {} {
      ms', ws' := ms, ws;
    } else {
      var r :| r in todo;
      ms', ws' := BeatsLand(p, ms, ws, todo - {r});
      var w := ws'[|ms'|];
      var m := Beat(r, w.clock, |RowsHeldBy(w.jobs, r)|);
      var w' := Moved(p, w, m).(jobs := AfterRenew(w.jobs, r, w.clock + p.config.leaseSeconds));
      ms', ws' := ExtendStory(p, ms', ws', m, w');
    }
  }

  /** What is asked of steady runners can always be kept: any story can go on, and any amount of time can pass. */
  lemma {:induction false} TimeGoesOn(p: Protocol, ms: seq<Move>, ws: seq<World>, gaps: nat)
    returns (ms': seq<Move>, ws': seq<World>)
    requires p.Sensible() && IsStory(p, ms, ws)
    ensures IsStory(p, ms', ws') && ws'[|ms'|].clock == ws[|ms|].clock + gaps as real * p.gap
    ensures ws'[|ms'|].runners.Keys == ws[|ms|].runners.Keys
    decreases gaps
  {
    if gaps == 0 {
      ms', ws' := ms, ws;
    } else {
      ms', ws' := TimeGoesOn(p, ms, ws, gaps - 1);
      ms', ws' := BeatsLand(p, ms', ws', ws'[|ms'|].runners.Keys);
      var w := ws'[|ms'|];
      ms', ws' := ExtendStory(p, ms', ws', Tick(w.clock + p.gap), w.(clock := w.clock + p.gap));
      assert (gaps - 1) as real * p.gap + p.gap == gaps as real * p.gap;
    }
  }
}
