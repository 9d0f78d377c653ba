/**
 A test server reporting one result: three tries, seconds apart, over a network that may lose or delay
 the request or the reply, against a store that everybody else goes on using in between.
 */
module Agent {
  import opened Common
  import opened Jobs
  import opened Table
  import opened Runs
  import opened RowLife
  import opened Histories
  import opened LongestLife
  import opened Witnesses

  /**
   What became of one try: lost on the way or turned away by a busy store, or a call of the run, whose
   reply may come back or not.
   */
  datatype Delivery = Lost | Landed(at: nat, replyArrives: bool)

  /** The tries that got through are calls of the run, each a different one; the run's other calls are anybody's. */
  predicate AreCalls(es: seq<Event>, network: seq<Delivery>, id: string, runner: string, o: Outcome) {
    && (forall k :: 0 <= k < |network| && network[k].Landed? ==>
          && network[k].at < |es| && es[network[k].at].ResultReported?
          && es[network[k].at].id == id && es[network[k].at].runner == runner && es[network[k].at].outcome == o)
    && forall j, k :: 0 <= j < k < |network| && network[j].Landed? && network[k].Landed? ==>
         network[j].at != network[k].at
  }

  /** The try got through while the runner's claim of the job stood. */
  ghost predicate InTime(es: seq<Event>, ts: seq<Table>, d: Delivery, id: string, runner: string)
    requires |ts| == |es| + 1 && (d.Landed? ==> d.at < |es|)
  {
    d.Landed? && exists m :: HeldSince(es, ts, m, d.at, id, runner)
  }

  lemma InTimeIsAccepted(
    c: Config, es: seq<Event>, ts: seq<Table>, network: seq<Delivery>, k: nat, id: string, runner: string, o: Outcome)
    requires IsRun(c, es, ts) && AreCalls(es, network, id, runner, o) && k < |network| && network[k].Landed?
    ensures InTime(es, ts, network[k], id, runner) <==> es[network[k].at].ok
  {
    ResultsAreFenced(c, es, ts, network[k].at);
  }

  /**
   The runner tries until it hears that its result was taken. It hears so exactly when some try got
   through while its claim stood and the reply to that one came back, and it stops at the first such try.
   */
  method SafeResult(ghost c: Config, es: seq<Event>, ghost ts: seq<Table>, network: seq<Delivery>,
                    ghost id: string, ghost runner: string, ghost o: Outcome)
    returns (reported: bool, tries: nat)
    requires IsRun(c, es, ts) && AreCalls(es, network, id, runner, o) && |network| == 3
    ensures 1 <= tries <= 3
    ensures forall k :: 0 <= k < tries - 1 ==>
              !(InTime(es, ts, network[k], id, runner) && network[k].replyArrives)
    ensures reported <==> InTime(es, ts, network[tries - 1], id, runner) && network[tries - 1].replyArrives
    ensures !reported ==> tries == 3
  {
    for attempt := 0 to 3
      invariant forall k :: 0 <= k < attempt ==> !(InTime(es, ts, network[k], id, runner) && network[k].replyArrives)
    {
      if network[attempt].Landed? {
        InTimeIsAccepted(c, es, ts, network, attempt, id, runner, o);
        if es[network[attempt].at].ok && network[attempt].replyArrives {
          return true, attempt + 1;
        }
      }
    }
    return false, 3;
  }

  /**
   At most one try is in time, so a recorded result is one the runner hears of exactly when the reply to
   that one try comes back; from then on the row says what it reported, whatever else is sent.
   */
  lemma OneTryCounts(c: Config, es: seq<Event>, ts: seq<Table>, network: seq<Delivery>, k: nat, n: nat,
                     id: string, runner: string, o: Outcome)
    requires IsRun(c, es, ts) && AreCalls(es, network, id, runner, o) && k < |network|
    requires InTime(es, ts, network[k], id, runner) && network[k].at < n <= |es|
    ensures forall j :: 0 <= j < |network| && j != k ==> !InTime(es, ts, network[j], id, runner)
    ensures (exists j :: 0 <= j < |network| && InTime(es, ts, network[j], id, runner) && network[j].replyArrives)
            <==> network[k].replyArrives
    ensures var at := network[k].at;
            id in ts[at] && id in ts[n] && ts[n][id] == Finish(ts[at][id], o, es[at].now)
  {
    var at := network[k].at;
    InTimeIsAccepted(c, es, ts, network, k, id, runner, o);
    forall j | 0 <= j < |network| && j != k ensures !InTime(es, ts, network[j], id, runner) {
      if network[j].Landed? {
        InTimeIsAccepted(c, es, ts, network, j, id, runner, o);
        if at < network[j].at {
          OnlyOneResultIsRecorded(c, es, ts, at, network[j].at);
        } else if es[network[j].at].ok {
          OnlyOneResultIsRecorded(c, es, ts, network[j].at, at);
        }
      }
    }
    assert StepAt(c, es, ts, at);
    assert Terminal(ts[at + 1][id].state);
    FinishedRowsAreFrozen(c, es, ts, at + 1, n, id);
  }

  /** A refused result is accepted when sent again only if the runner has claimed the job again in between. */
  lemma RefusalsLastUntilTheNextClaim(c: Config, es: seq<Event>, ts: seq<Table>, m: nat, n: nat)
    requires IsRun(c, es, ts) && m < n < |es|
    requires es[m].ResultReported? && !es[m].ok
    requires es[n].ResultReported? && es[n].ok && es[n].id == es[m].id && es[n].runner == es[m].runner
    ensures exists k :: m < k < n && Takes(es[k], es[n].id) && es[k].runner == es[n].runner
  {
    ResultsAreFenced(c, es, ts, m);
    ResultsAreFenced(c, es, ts, n);
    var k :| HeldSince(es, ts, k, n, es[n].id, es[n].runner);
    if k < m {
      assert HeldSince(es, ts, k, m, es[m].id, es[m].runner);
    }
  }

  /** At call `m` a runner that once had the job is refused, and at call `n` its result is accepted. */
  ghost predicate Revived(es: seq<Event>, m: nat, n: nat)
    requires m < n < |es|
  {
    && es[m].ResultReported? && !es[m].ok && es[n].ResultReported? && es[n].ok
    && es[n].id == es[m].id && es[n].runner == es[m].runner
    && exists k :: 0 <= k < m && Takes(es[k], es[m].id) && es[k].runner == es[m].runner
  }

  lemma OneGoMeansNoRevival(c: Config, es: seq<Event>, ts: seq<Table>, m: nat, n: nat)
    requires IsRun(c, es, ts) && m < n < |es| && c.maxAttempts <= 1
    ensures !Revived(es, m, n)
  {
    if Revived(es, m, n) {
      var id := es[m].id;
      var k :| 0 <= k < m && Takes(es[k], id) && es[k].runner == es[m].runner;
      RefusalsLastUntilTheNextClaim(c, es, ts, m, n);
      var l :| m < l < n && Takes(es[l], id) && es[l].runner == es[n].runner;
      ClaimsAreSeparatedByExpiry(c, es, ts, k, l, id);
      var i :| k < i <= l && Requeues(c, es[i], ts[i], id);
      EveryRowIsShaped(c, es, ts, i, id);
    }
  }

  /** The first go is lost, its result comes too late, the same runner gets the second go, and is heard. */
  lemma SecondGoRevives(c: Config, name: string, ch: string) returns (es: seq<Event>, ts: seq<Table>, m: nat)
    requires c.maxAttempts >= 2 && ValidateJob(JobOn(name, ch)).Ok?
    ensures IsRun(c, es, ts) && m < |es| - 1 && Revived(es, m, |es| - 1)
  {
    var o := Outcome(0, 1, 0, 0, 1.0, "");
    es, ts := LoseGoes(c, name, ch, 1);
    m := |es|;
    var first :| 0 <= first < m && Takes(es[first], name) && es[first].runner == "r";
    var lost, late := es, ResultReported(name, "r", o, 0.0, false);
    ExtendRun(c, es, ts, late, ts[m]);
    var r := ts[m][name];
    es, ts, r := OneGo(c, es + [late], ts + [ts[m]], name, ch, 1);
    assert lost + [late] <= es;
    assert es[m] == late && es[first] == lost[first];
    var before, heard := es, ResultReported(name, "r", o, 0.0, true);
    ExtendRun(c, es, ts, heard, AfterFinish(ts[|es|], name, "r", o, 0.0));
    es, ts := es + [heard], ts + [AfterFinish(ts[|es|], name, "r", o, 0.0)];
    assert es[m] == before[m] && es[first] == before[first];
  }

  /** So trying again after a refusal is pointless in every run exactly when a job gets one go only. */
  lemma RefusalsAreFinalExactly(c: Config, name: string, ch: string)
    requires ValidateJob(JobOn(name, ch)).Ok?
    ensures c.maxAttempts <= 1 <==> forall es, ts, m, n :: IsRun(c, es, ts) && 0 <= m < n < |es| ==> !Revived(es, m, n)
  {
    if c.maxAttempts <= 1 {
      forall es, ts, m, n | IsRun(c, es, ts) && 0 <= m < n < |es| ensures !Revived(es, m, n) {
        OneGoMeansNoRevival(c, es, ts, m, n);
      }
    } else {
      var es, ts, m := SecondGoRevives(c, name, ch);
      assert IsRun(c, es, ts) && Revived(es, m, |es| - 1);
    }
  }

  /** A result already answered changes nothing when it is sent again at once, and is refused. */
  lemma ResendingIsHarmless(t: Table, id: string, runner: string, o: Outcome, n1: real, n2: real)
    ensures !FinishApplies(AfterFinish(t, id, runner, o, n1), id, runner)
    ensures AfterFinish(AfterFinish(t, id, runner, o, n1), id, runner, o, n2) == AfterFinish(t, id, runner, o, n1)
  {
  }
}
