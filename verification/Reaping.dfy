/** The algebra of reaping, and what an unrenewed lease leads to. */
module Reaping {
  import opened Common
  import opened Jobs
  import opened Table
  import opened Runs

  /** Reaping twice, at any two readings of the clock and in either order, is reaping once at the later one. */
  lemma ReapsCompose(t: Table, n1: real, n2: real, maxAttempts: int)
    ensures AfterReap(AfterReap(t, n1, maxAttempts), n2, maxAttempts)
            == AfterReap(t, if n1 < n2 then n2 else n1, maxAttempts)
  {
    var twice := AfterReap(AfterReap(t, n1, maxAttempts), n2, maxAttempts);
    assert twice.Keys == t.Keys;
    forall id | id in t ensures twice[id] == ReapRow(t[id], if n1 < n2 then n2 else n1, maxAttempts) {}
  }

  /** The call set the runner's lease on the job to run from `at`. */
  predicate Leases(e: Event, t: Table, id: string, runner: string) {
    || (Takes(e, id) && e.runner == runner)
    || (e.Heartbeat? && e.runner == runner && id in t && HeldBy(t[id], runner))
  }

  lemma {:induction false} UnrenewedLeaseStands(
    c: Config, es: seq<Event>, ts: seq<Table>, m: nat, n: nat, id: string, runner: string)
    requires IsRun(c, es, ts) && m < n <= |es|
    requires Leases(es[m], ts[m], id, runner)
    requires forall i :: m < i < n ==> !Leases(es[i], ts[i], id, runner)
    ensures id in ts[n]
    ensures HeldBy(ts[n][id], runner) ==> ts[n][id].lease == Some(es[m].now + c.leaseSeconds)
    decreases n
  {
    RowStep(c, es, ts, n - 1, id);
    if n > m + 1 {
      UnrenewedLeaseStands(c, es, ts, m, n - 1, id, runner);
    }
  }

  /**
   Once a holder's last claim or renewal is more than one lease old, the next reap, or the reap inside
   the next claim, takes the job out of its hands; only that same claim could give it back.
   */
  lemma StaleHolderLosesTheJob(c: Config, es: seq<Event>, ts: seq<Table>, m: nat, n: nat, id: string, runner: string)
    requires IsRun(c, es, ts) && m < n < |es|
    requires Leases(es[m], ts[m], id, runner)
    requires forall i :: m < i < n ==> !Leases(es[i], ts[i], id, runner)
    requires Reaps(es[n]) && es[n].now > es[m].now + c.leaseSeconds
    ensures id in ts[n + 1]
    ensures HeldBy(ts[n + 1][id], runner) ==> Takes(es[n], id) && es[n].runner == runner
  {
    UnrenewedLeaseStands(c, es, ts, m, n, id, runner);
    RowStep(c, es, ts, n, id);
  }

  /** Conversely, a holder renewed within its lease is not disturbed by any reap or claim. */
  lemma FreshHolderKeepsTheJob(c: Config, es: seq<Event>, ts: seq<Table>, m: nat, n: nat, id: string, runner: string)
    requires IsRun(c, es, ts) && m < n < |es|
    requires Leases(es[m], ts[m], id, runner)
    requires forall i :: m < i < n ==> !Leases(es[i], ts[i], id, runner)
    requires Reaps(es[n]) && es[n].now <= es[m].now + c.leaseSeconds
    requires id in ts[n] && HeldBy(ts[n][id], runner)
    ensures id in ts[n + 1] && ts[n + 1][id] == ts[n][id]
  {
    UnrenewedLeaseStands(c, es, ts, m, n, id, runner);
    RowStep(c, es, ts, n, id);
  }
}
