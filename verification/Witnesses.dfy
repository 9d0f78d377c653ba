/** Jobs to build example runs from: as many as wanted, no two alike in what the per-job cap counts. */
module Witnesses {
  import opened Common
  import opened Jobs
  import opened Table
  import opened Runs

  function JobOn(name: string, ch: string): Job { Job(name, name, "s", None, None, ch, "u", None) }

  /** Distinct names, each of which makes a job the store lets in. */
  predicate Usable(names: seq<string>, ch: string) {
    && (forall i, k :: 0 <= i < k < |names| ==> names[i] != names[k])
    && forall i :: 0 <= i < |names| ==> ValidateJob(JobOn(names[i], ch)).Ok?
  }

  /** The first enqueue of all is always accepted: no cap can be full yet. */
  lemma FirstEnqueueIsAccepted(c: Config, name: string, ch: string)
    requires ValidateJob(JobOn(name, ch)).Ok?
    ensures Step(c, map[], Inserted(JobOn(name, ch), false, "test-server", 0.0, Ok(Accepted)),
                 map[name := NewRow(JobOn(name, ch), false, "test-server", 0.0)])
  {
    assert ActiveFor(map[], name, "s") == {} && QueuedIn(map[], ch) == {};
    assert map[][name := NewRow(JobOn(name, ch), false, "test-server", 0.0)]
        == map[name := NewRow(JobOn(name, ch), false, "test-server", 0.0)];
  }

  /** A table's only row, queued once reaped, goes to whoever asks. */
  lemma SoleRowIsHandedOut(c: Config, t: Table, name: string, ch: string, r: string, now: real)
    requires t.Keys == {name} && t[name].job == JobOn(name, ch)
    requires ReapRow(t[name], now, c.maxAttempts).state.Queued?
    ensures Step(c, t, ClaimAsked(r, [], now, Some(JobOn(name, ch))),
                 map[name := Take(ReapRow(t[name], now, c.maxAttempts), r, now + c.leaseSeconds)])
  {
    var q := Request(c, r, [], now);
    var reaped := AfterReap(t, now, c.maxAttempts);
    assert reaped.Keys == {name} && Wanted([]) == {};
    assert BusyIn(reaped, ch) == {};
    assert Eligible(reaped, q, name);
    assert AfterTake(reaped, q, name) == map[name := Take(reaped[name], r, now + c.leaseSeconds)];
  }
}
