/** The bound on a row's moves is exact: a job that is lost on every go but its last moves 3M times. */
module LongestLife {
  import opened Common
  import opened Jobs
  import opened Table
  import opened Runs
  import opened RowLife
  import opened Witnesses

  lemma {:induction false} MovesOfPrefix(ts: seq<Table>, t: Table, n: nat, id: string)
    requires n < |ts|
    ensures MovesOf(ts + [t], n, id) == MovesOf(ts, n, id)
  {
    if n > 0 {
      MovesOfPrefix(ts, t, n - 1, id);
    }
  }

  /** One more call, and one more move of the only row. */
  lemma MoveOn(c: Config, es: seq<Event>, ts: seq<Table>, name: string, e: Event, r: Row)
    returns (es': seq<Event>, ts': seq<Table>)
    requires IsRun(c, es, ts) && ts[|es|].Keys == {name} && Step(c, ts[|es|], e, map[name := r])
    requires r.(lease := None) != ts[|es|][name].(lease := None)
    ensures IsRun(c, es', ts') && es' == es + [e] && ts'[|es'|] == map[name := r]
    ensures MovesOf(ts', |es'|, name) == MovesOf(ts, |es|, name) + 1
  {
    ExtendRun(c, es, ts, e, map[name := r]);
    es', ts' := es + [e], ts + [map[name := r]];
    MovesOfPrefix(ts, map[name := r], |es|, name);
  }

  /** The only row waits for its next go, `k` gone. */
  predicate WaitsAlone(t: Table, name: string, ch: string, k: nat) {
    && t.Keys == {name} && t[name].job == JobOn(name, ch) && t[name].attempts == k
    && t[name].state.Queued? && t[name].runner.None?
  }

  /** It is claimed and started. */
  lemma OneGo(c: Config, es: seq<Event>, ts: seq<Table>, name: string, ch: string, k: nat)
    returns (es': seq<Event>, ts': seq<Table>, r: Row)
    requires IsRun(c, es, ts) && WaitsAlone(ts[|es|], name, ch, k)
    ensures IsRun(c, es', ts') && es <= es' && ts'[|es'|] == map[name := r]
    ensures HeldBy(r, "r") && r.job == JobOn(name, ch) && r.attempts == k + 1 && r.lease == Some(c.leaseSeconds)
    ensures |es| < |es'| && Takes(es'[|es|], name) && es'[|es|].runner == "r"
    ensures MovesOf(ts', |es'|, name) == MovesOf(ts, |es|, name) + 2
  {
    SoleRowIsHandedOut(c, ts[|es|], name, ch, "r", 0.0);
    r := Take(ts[|es|][name], "r", 0.0 + c.leaseSeconds);
    es', ts' := MoveOn(c, es, ts, name, ClaimAsked("r", [], 0.0, Some(JobOn(name, ch))), r);
    assert map[name := r][name := Start(r, 0.0)] == map[name := Start(r, 0.0)];
    r := Start(r, 0.0);
    es', ts' := MoveOn(c, es', ts', name, StartReported(name, "r", 0.0, true), r);
  }

  /** Every go but the last ends in silence. */
  lemma {:induction false} LoseGoes(c: Config, name: string, ch: string, k: nat)
    returns (es: seq<Event>, ts: seq<Table>)
    requires ValidateJob(JobOn(name, ch)).Ok? && k < Limit(c.maxAttempts)
    ensures IsRun(c, es, ts) && WaitsAlone(ts[|es|], name, ch, k) && MovesOf(ts, |es|, name) == 3 * k
    ensures |es| > 0 && Accepts(es[0], name) && !es[0].dispatched
    ensures k > 0 ==> exists i :: 0 <= i < |es| && Takes(es[i], name) && es[i].runner == "r"
    decreases k
  {
    if k == 0 {
      FirstEnqueueIsAccepted(c, name, ch);
      var e := Inserted(JobOn(name, ch), false, "test-server", 0.0, Ok(Accepted));
      var t: Table := map[name := NewRow(JobOn(name, ch), false, "test-server", 0.0)];
      ExtendRun(c, [], [map[]], e, t);
      es, ts := [e], [map[], t];
      assert [] + [e] == es && [map[]] + [t] == ts;
    } else {
      es, ts := LoseGoes(c, name, ch, k - 1);
      var r;
      var claim := |es|;
      es, ts, r := OneGo(c, es, ts, name, ch, k - 1);
      var late := c.leaseSeconds + 1.0;
      assert AfterReap(ts[|es|], late, c.maxAttempts) == map[name := Requeue(r)];
      es, ts := MoveOn(c, es, ts, name, Reaped(late), Requeue(r));
      assert Takes(es[claim], name);
    }
  }

  /** Under any configuration some run has a queued job's row move 3M times. */
  lemma MoveBoundIsReached(c: Config, name: string, ch: string) returns (es: seq<Event>, ts: seq<Table>)
    requires ValidateJob(JobOn(name, ch)).Ok?
    ensures IsRun(c, es, ts) && |es| > 0 && Accepts(es[0], name) && !es[0].dispatched
    ensures MovesOf(ts, |es|, name) == MovesAtFirst(es[0], c.maxAttempts)
  {
    es, ts := LoseGoes(c, name, ch, Limit(c.maxAttempts) - 1);
    var r;
    es, ts, r := OneGo(c, es, ts, name, ch, Limit(c.maxAttempts) - 1);
    var o := Outcome(0, 1, 0, 0, 1.0, "");
    assert map[name := r][name := Finish(r, o, 0.0)] == map[name := Finish(r, o, 0.0)];
    es, ts := MoveOn(c, es, ts, name, ResultReported(name, "r", o, 0.0, true), Finish(r, o, 0.0));
  }
}
