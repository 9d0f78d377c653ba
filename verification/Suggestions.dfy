/**
 What the edge suggests when no definition has exactly the trigger that was asked for: those one token
 away, by name, and of them the first five.
 */
module Suggestions {
  import opened Common
  import opened JobDefs
  import opened Ordering

  function NameOf(d: JobDef): string { d.name }

  function Differences(a: (string, string, string), b: (string, string, string)): nat {
    (if a.0 != b.0 then 1 else 0) + (if a.1 != b.1 then 1 else 0) + (if a.2 != b.2 then 1 else 0)
  }

  function OneOff(requested: (string, string, string), defs: seq<JobDef>): seq<JobDef> {
    if defs == [] then []
    else (if Differences(requested, Trigger(defs[0])) == 1 then [defs[0]] else []) + OneOff(requested, defs[1..])
  }

  function NearMisses(requested: (string, string, string), defs: seq<JobDef>): seq<JobDef> {
    SortBy(NameOf, OneOff(requested, defs))
  }

  lemma {:induction false} OneOffCounts(requested: (string, string, string), defs: seq<JobDef>, d: JobDef)
    ensures multiset(OneOff(requested, defs))[d]
            == if Differences(requested, Trigger(d)) == 1 then multiset(defs)[d] else 0
  {
    if defs != [] {
      OneOffCounts(requested, defs[1..], d);
      assert defs == [defs[0]] + defs[1..];
    }
  }

  /** The suggestions are exactly the listed definitions one token away, each as often as it is listed, by name. */
  lemma NearMissesAreOneTokenAway(requested: (string, string, string), defs: seq<JobDef>)
    ensures var out := NearMisses(requested, defs);
            && SortedBy(NameOf, out)
            && forall d :: multiset(out)[d] == if Differences(requested, Trigger(d)) == 1 then multiset(defs)[d] else 0
  {
    SortSorts(NameOf, OneOff(requested, defs));
    forall d ensures multiset(NearMisses(requested, defs))[d]
                     == if Differences(requested, Trigger(d)) == 1 then multiset(defs)[d] else 0
    {
      OneOffCounts(requested, defs, d);
    }
  }

  const LISTED := 5

  /** The suggestions that fit into the reply. */
  function Listed(requested: (string, string, string), defs: seq<JobDef>): seq<JobDef> {
    var out := NearMisses(requested, defs);
    if |out| <= LISTED then out else out[..LISTED]
  }

  /** Correcting one token of the command would have found it. */
  ghost predicate OneTokenFinds(defs: Defs, requested: (string, string, string), d: JobDef) {
    exists corrected :: Differences(requested, corrected) == 1 && Find(defs, corrected) == Some(d)
  }

  /** After a failed lookup the near misses are what one corrected token would have found, once each. */
  lemma NearMissesWouldBeFound(defs: Defs, requested: (string, string, string), listing: seq<JobDef>, d: JobDef)
    requires Consistent(defs) && Find(defs, requested).None? && multiset(listing) == multiset(defs.Values)
    ensures d in NearMisses(requested, listing) <==> OneTokenFinds(defs, requested, d)
    ensures multiset(NearMisses(requested, listing))[d] <= 1
    ensures d in defs.Values ==> Differences(requested, Trigger(d)) != 0
  {
    var out := NearMisses(requested, listing);
    NearMissesAreOneTokenAway(requested, listing);
    assert d in out <==> d in multiset(out);
    if d in defs.Values {
      var id :| id in defs && defs[id] == d;
      FoundIsIt(defs, id);
    }
    if corrected :| Differences(requested, corrected) == 1 && Find(defs, corrected) == Some(d) {
      assert Trigger(d) == corrected;
    }
  }

  /** One corrected token would have found it, but the reply has no room for it. */
  ghost predicate LeftOut(defs: Defs, requested: (string, string, string), listing: seq<JobDef>, d: JobDef) {
    OneTokenFinds(defs, requested, d) && d !in Listed(requested, listing)
  }

  lemma AppearsTwice<T>(xs: seq<T>, i: nat, k: nat)
    requires i < k < |xs| && xs[i] == xs[k]
    ensures multiset(xs)[xs[k]] >= 2
  {
    assert xs == xs[..k] + xs[k..];
    assert xs[i] in multiset(xs[..k]) && xs[k] in multiset(xs[k..]);
  }

  /** With a sixth near miss somebody is left out. */
  lemma SixAreTooMany(defs: Defs, requested: (string, string, string), listing: seq<JobDef>) returns (d: JobDef)
    requires Consistent(defs) && Find(defs, requested).None? && multiset(listing) == multiset(defs.Values)
    requires |NearMisses(requested, listing)| > LISTED
    ensures LeftOut(defs, requested, listing, d)
  {
    var out := NearMisses(requested, listing);
    d := out[LISTED];
    NearMissesWouldBeFound(defs, requested, listing, d);
    if i :| 0 <= i < LISTED && out[i] == d {
      AppearsTwice(out, i, LISTED);
    }
  }

  lemma ListedComeFirst(requested: (string, string, string), listing: seq<JobDef>, d: JobDef, e: JobDef)
    requires d in Listed(requested, listing)
    requires e in NearMisses(requested, listing) && e !in Listed(requested, listing)
    ensures AtMost(d.name, e.name)
  {
    var out, listed := NearMisses(requested, listing), Listed(requested, listing);
    NearMissesAreOneTokenAway(requested, listing);
    assert forall j :: 0 <= j < |listed| ==> out[j] == listed[j];
    var i :| 0 <= i < |listed| && listed[i] == d;
    var k :| 0 <= k < |out| && out[k] == e;
  }

  /**
   Every definition that correcting one token would have found is suggested exactly when there are at
   most five of them. No other ever is, and when there are more the five are the first by name.
   */
  lemma SuggestionsAreCompleteExactly(defs: Defs, requested: (string, string, string), listing: seq<JobDef>)
    requires Consistent(defs) && Find(defs, requested).None? && multiset(listing) == multiset(defs.Values)
    ensures (forall d :: OneTokenFinds(defs, requested, d) ==> d in Listed(requested, listing))
            <==> |NearMisses(requested, listing)| <= LISTED
    ensures forall d :: d in Listed(requested, listing) ==> OneTokenFinds(defs, requested, d)
    ensures forall d, e :: d in Listed(requested, listing) && LeftOut(defs, requested, listing, e) ==>
              AtMost(d.name, e.name)
    ensures |NearMisses(requested, listing)| > LISTED ==> |Listed(requested, listing)| == LISTED
  {
    var listed := Listed(requested, listing);
    forall d ensures d in NearMisses(requested, listing) <==> OneTokenFinds(defs, requested, d) {
      NearMissesWouldBeFound(defs, requested, listing, d);
    }
    if |NearMisses(requested, listing)| > LISTED {
      var d := SixAreTooMany(defs, requested, listing);
    }
    forall d, e | d in listed && LeftOut(defs, requested, listing, e) ensures AtMost(d.name, e.name) {
      ListedComeFirst(requested, listing, d, e);
    }
  }

  // ---------------------------------------------------------------- six near misses

  /** A listing no two of whose definitions share an identifier or a trigger. */
  predicate Apart(listing: seq<JobDef>) {
    forall i, k :: 0 <= i < k < |listing| ==>
      listing[i].id != listing[k].id && Trigger(listing[i]) != Trigger(listing[k])
  }

  function ById(listing: seq<JobDef>): Defs
    requires Apart(listing)
  {
    map d | d in listing :: d.id := d
  }

  lemma {:induction false} OnceEach<T>(xs: seq<T>, s: set<T>)
    requires forall i, k :: 0 <= i < k < |xs| ==> xs[i] != xs[k]
    requires forall x :: x in xs <==> x in s
    ensures multiset(xs) == multiset(s)
  {
    if xs == [] {
      assert s == {};
    } else {
      var last := xs[|xs| - 1];
      var front := xs[..|xs| - 1];
      assert xs == front + [last];
      OnceEach(front, s - {last});
      assert s == (s - {last}) + {last};
    }
  }

  lemma ListingsAreTables(listing: seq<JobDef>)
    requires Apart(listing)
    ensures Consistent(ById(listing)) && multiset(listing) == multiset(ById(listing).Values)
  {
    var defs := ById(listing);
    forall d ensures d in listing <==> d in defs.Values {
      if d in listing {
        assert defs[d.id] == d;
      }
    }
    OnceEach(listing, defs.Values);
  }

  lemma {:induction false} AllOneOff(requested: (string, string, string), listing: seq<JobDef>)
    requires forall d :: d in listing ==> Differences(requested, Trigger(d)) == 1
    ensures OneOff(requested, listing) == listing
  {
    if listing != [] {
      AllOneOff(requested, listing[1..]);
    }
  }

  lemma NobodyAnswers(requested: (string, string, string), listing: seq<JobDef>)
    requires Apart(listing) && forall d :: d in listing ==> Differences(requested, Trigger(d)) == 1
    ensures Find(ById(listing), requested).None?
  {
  }

  /** When all definitions are one token away and listed by name, those from the sixth on are left out. */
  lemma LaterOnesAreLeftOut(requested: (string, string, string), listing: seq<JobDef>, k: nat)
    requires Apart(listing) && SortedBy(NameOf, listing) && LISTED <= k < |listing|
    requires forall d :: d in listing ==> Differences(requested, Trigger(d)) == 1
    ensures Find(ById(listing), requested).None? && LeftOut(ById(listing), requested, listing, listing[k])
  {
    ListingsAreTables(listing);
    NobodyAnswers(requested, listing);
    AllOneOff(requested, listing);
    SortedStaysPut(NameOf, listing);
    assert listing[k] in NearMisses(requested, listing);
    NearMissesWouldBeFound(ById(listing), requested, listing, listing[k]);
    assert forall i :: 0 <= i < LISTED ==> listing[i].id != listing[k].id;
  }

  function Letter(i: nat): string
    requires i < 6
  {
    [('a' as int + i) as char]
  }

  function DefFor(i: nat): JobDef
    requires i < 6
  {
    JobDef(Letter(i), Letter(i), "p", "t", Letter(i), "gh-action", "w", "python", "", 0.0, 0.0)
  }

  const SIX := seq(6, i requires 0 <= i < 6 => DefFor(i))

  lemma LettersAreInOrder(i: nat, k: nat)
    requires i < k < 6
    ensures Letter(i) != Letter(k) && Letter(i) != "s" && Letter(k) != "s" && AtMost(Letter(i), Letter(k))
  {
    assert Letter(i)[0] < Letter(k)[0] < "s"[0];
  }

  /** Six definitions that differ in the server only, and a command that names a seventh server: "f" is left out. */
  lemma TheSixthIsLeftOut()
    ensures Apart(SIX) && SIX[5].name == "f" && Find(ById(SIX), ("p", "t", "s")).None?
    ensures LeftOut(ById(SIX), ("p", "t", "s"), SIX, SIX[5])
  {
    forall i, k | 0 <= i < k < 6 ensures
      && SIX[i].id != SIX[k].id && Trigger(SIX[i]) != Trigger(SIX[k]) && AtMost(SIX[i].name, SIX[k].name)
      && Differences(("p", "t", "s"), Trigger(SIX[i])) == 1 && Differences(("p", "t", "s"), Trigger(SIX[k])) == 1
    {
      LettersAreInOrder(i, k);
    }
    LaterOnesAreLeftOut(("p", "t", "s"), SIX, 5);
  }
}
