/**
 The Postgres backend with nobody else connected: the claim is one statement whose candidate query
 counts the busy rows of each candidate's channel. Compared here with the SQLite claim loop; what
 concurrent transactions do is in Interleavings.
 */
module Postgres {
  import opened Common
  import opened Jobs
  import opened Table

  /** The WHERE clause of the candidate query. */
  predicate Candidate(t: Table, q: ClaimRequest, id: string) {
    && id in t && t[id].state.Queued?
    && LabelsAdmit(Wanted(q.labels), t[id].job.server)
    && (q.caps.runningPerChannel == 0 || |BusyIn(t, t[id].job.channel)| < q.caps.runningPerChannel)
  }

  predicate OldestCandidate(t: Table, q: ClaimRequest, id: string) {
    && Candidate(t, q, id)
    && forall other :: other in t && Candidate(t, q, other) ==> t[id].createdAt <= t[other].createdAt
  }

  predicate StatementStep(t: Table, q: ClaimRequest, t': Table, handed: Option<Job>) {
    var reaped := AfterReap(t, q.now, q.maxAttempts);
    match handed
    case None => t' == reaped && forall id :: id in reaped ==> !Candidate(reaped, q, id)
    case Some(job) =>
      && OldestCandidate(reaped, q, job.id)
      && job == Handed(reaped[job.id])
      && t' == AfterTake(reaped, q, job.id)
  }

  class PostgresStore {
    var jobs: Table

    predicate Valid() reads this { Keyed(jobs) }

    constructor ()
      ensures Valid() && jobs == map[]
    {
      jobs := map[];
    }

    method Claim(runner: string, labels: seq<string>, leaseSeconds: real, maxAttempts: int, caps: Caps, now: real)
      returns (handed: Option<Job>)
      requires Valid()
      modifies this
      ensures Valid()
      ensures StatementStep(old(jobs), ClaimRequest(runner, labels, leaseSeconds, maxAttempts, caps, now), jobs, handed)
    {
      var q := ClaimRequest(runner, labels, leaseSeconds, maxAttempts, caps, now);
      Reap(maxAttempts, now);
      ghost var reaped := jobs;
      var candidates := set id | id in jobs && Candidate(jobs, q, id);
      assert forall id :: Candidate(jobs, q, id) ==> id in candidates;
      handed := None;
      if candidates != {} {
        OldestExists(jobs, candidates);
        var id :| id in candidates && forall o :: o in candidates ==> jobs[id].createdAt <= jobs[o].createdAt;
        assert OldestCandidate(reaped, q, id);
        var row := jobs[id].(state := Claimed, runner := Some(runner), lease := Some(now + leaseSeconds),
                             attempts := jobs[id].attempts + 1);
        jobs := jobs[id := row];
        handed := Some(Job(row.job.id, row.job.product, row.job.server, row.job.select, row.job.marker,
                           row.job.channel, row.job.user, None));
      }
    }

    method RequeueExpired(maxAttempts: int, now: real)
      requires Valid()
      modifies this
      ensures Valid()
      ensures jobs == AfterRequeue(old(jobs), now, maxAttempts)
    {
      jobs := map id | id in jobs ::
        var r := jobs[id];
        if Busy(r.state) && r.lease.Some? && r.lease.value < now && r.attempts < maxAttempts
        then r.(state := Queued, runner := None, lease := None) else r;
    }

    method AbandonExpired(maxAttempts: int, now: real)
      requires Valid()
      modifies this
      ensures Valid()
      ensures jobs == AfterAbandon(old(jobs), now, maxAttempts)
    {
      jobs := map id | id in jobs ::
        var r := jobs[id];
        if Busy(r.state) && r.lease.Some? && r.lease.value < now && r.attempts >= maxAttempts
        then r.(state := Abandoned, lease := None, summary := Some("lease expired and out of attempts")) else r;
    }

    /** Two UPDATEs, one after the other, have the effect of deciding every row's fate at once. */
    method Reap(maxAttempts: int, now: real)
      requires Valid()
      modifies this
      ensures Valid()
      ensures jobs == AfterReap(old(jobs), now, maxAttempts)
    {
      RequeueExpired(maxAttempts, now);
      AbandonExpired(maxAttempts, now);
      TwoUpdatesAreOnePartition(old(jobs), now, maxAttempts);
    }
  }

  lemma SameRowsQualify(t: Table, q: ClaimRequest)
    requires q.caps.runningPerChannel >= 0
    ensures forall id :: Candidate(t, q, id) <==> Eligible(t, q, id)
  {
  }

  /** Some row is waiting that the runner's labels would let it take. */
  predicate WorkWaits(t: Table, q: ClaimRequest) {
    exists id :: id in t && t[id].state.Queued? && LabelsAdmit(Wanted(q.labels), t[id].job.server)
  }

  ghost predicate Agree(t: Table, q: ClaimRequest) {
    forall t', handed :: ClaimStep(t, q, t', handed) <==> StatementStep(t, q, t', handed)
  }

  /**
   The two backends allow exactly the same claims, results and next tables alike, unless the running
   cap is negative and there is work to disagree about: SQLite reads a negative cap as no cap, the
   Postgres query as a cap nothing is below.
   */
  lemma BackendsAgreeExactly(t: Table, q: ClaimRequest)
    requires Keyed(t)
    ensures Agree(t, q) <==> q.caps.runningPerChannel >= 0 || !WorkWaits(AfterReap(t, q.now, q.maxAttempts), q)
  {
    var reaped := AfterReap(t, q.now, q.maxAttempts);
    if q.caps.runningPerChannel >= 0 {
      SameRowsQualify(reaped, q);
    } else if !WorkWaits(reaped, q) {
      assert forall id :: !Candidate(reaped, q, id) && !Eligible(reaped, q, id);
    } else {
      var waiting := set id | id in reaped && Eligible(reaped, q, id);
      assert waiting != {} by {
        var id :| id in reaped && reaped[id].state.Queued? && LabelsAdmit(Wanted(q.labels), reaped[id].job.server);
        assert id in waiting;
      }
      OldestExists(reaped, waiting);
      var id :| id in waiting && forall o :: o in waiting ==> reaped[id].createdAt <= reaped[o].createdAt;
      assert OldestEligible(reaped, q, id);
      assert ClaimStep(t, q, AfterTake(reaped, q, id), Some(Handed(reaped[id])));
      assert !StatementStep(t, q, AfterTake(reaped, q, id), Some(Handed(reaped[id])));
    }
  }

  /** A negative cap at work: SQLite hands the one queued job out, Postgres refuses it. */
  lemma NegativeCapSplitsTheBackends()
    ensures var job := Job("a", "p", "s", None, None, "c", "u", None);
            var t: Table := map["a" := NewRow(job, false, "test-server", 0.0)];
            var q := ClaimRequest("r", [], 10.0, 2, Caps(0, 0, -1), 1.0);
            ClaimStep(t, q, AfterTake(t, q, "a"), Some(job)) && StatementStep(t, q, t, None)
  {
    var job := Job("a", "p", "s", None, None, "c", "u", None);
    var t: Table := map["a" := NewRow(job, false, "test-server", 0.0)];
    var q := ClaimRequest("r", [], 10.0, 2, Caps(0, 0, -1), 1.0);
    assert AfterReap(t, q.now, q.maxAttempts) == t;
    assert Wanted(q.labels) == {};
    assert OldestEligible(t, q, "a");
  }

  predicate DistinctTimes(t: Table) {
    forall a, b :: a in t && b in t && a != b ==> t[a].createdAt != t[b].createdAt
  }

  /** With no two rows created at one instant, a claim has one possible answer and one possible next table. */
  lemma ClaimsAreDetermined(t: Table, q: ClaimRequest, t1: Table, h1: Option<Job>, t2: Table, h2: Option<Job>)
    requires DistinctTimes(t) && Keyed(t)
    requires ClaimStep(t, q, t1, h1) && ClaimStep(t, q, t2, h2)
    ensures t1 == t2 && h1 == h2
  {
    var reaped := AfterReap(t, q.now, q.maxAttempts);
    if h1.Some? && h2.Some? {
      var a, b := h1.value.id, h2.value.id;
      assert Eligible(reaped, q, a) && Eligible(reaped, q, b);
      assert reaped[a].createdAt == reaped[b].createdAt;
      assert t[a].createdAt == t[b].createdAt;
    }
  }

  /** On such a table, with a cap that is not negative, both backends return the same job and leave the same rows. */
  lemma BackendsComputeTheSame(t: Table, q: ClaimRequest, t1: Table, h1: Option<Job>, t2: Table, h2: Option<Job>)
    requires DistinctTimes(t) && Keyed(t) && q.caps.runningPerChannel >= 0
    requires ClaimStep(t, q, t1, h1) && StatementStep(t, q, t2, h2)
    ensures t1 == t2 && h1 == h2
  {
    BackendsAgreeExactly(t, q);
    ClaimsAreDetermined(t, q, t1, h1, t2, h2);
  }
}
