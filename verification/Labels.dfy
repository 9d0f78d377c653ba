/**
 A runner's labels as stored (sorted and joined by commas) and as read back, and the routing both sides
 do with them.
 */
module Labels {
  import opened Table
  import opened Ordering

  function Join(labels: seq<string>): string {
    if labels == [] then ""
    else if |labels| == 1 then labels[0]
    else labels[0] + "," + Join(labels[1..])
  }

  /** `split(",")`: always at least one piece, and pieces may be empty. */
  function Split(s: string): (pieces: seq<string>)
    ensures |pieces| >= 1
  {
    if s == "" then [""]
    else
      var rest := Split(s[1..]);
      if s[0] == ',' then [""] + rest else [[s[0]] + rest[0]] + rest[1..]
  }

  function NonEmpty(xs: seq<string>): seq<string> {
    if xs == [] then [] else (if xs[0] != "" then [xs[0]] else []) + NonEmpty(xs[1..])
  }

  function Stored(labels: seq<string>): string { Join(SortBy(x => x, labels)) }

  function ReadBack(stored: string): seq<string> { NonEmpty(Split(stored)) }

  predicate Plain(tag: string) { tag != "" && ',' !in tag }

  lemma {:induction false} SplitFirst(tag: string, rest: string)
    requires ',' !in tag
    ensures Split(tag + "," + rest) == [tag] + Split(rest)
  {
    var s := tag + "," + rest;
    if tag == "" {
      assert s[1..] == rest;
    } else {
      SplitFirst(tag[1..], rest);
      assert s[1..] == tag[1..] + "," + rest;
      assert [tag[0]] + tag[1..] == tag;
    }
  }

  lemma {:induction false} SplitWhole(tag: string)
    requires ',' !in tag
    ensures Split(tag) == [tag]
  {
    if tag != "" {
      SplitWhole(tag[1..]);
      assert [tag[0]] + tag[1..] == tag;
    }
  }

  lemma {:induction false} SplitUndoesJoin(labels: seq<string>)
    requires labels != [] && forall l :: l in labels ==> ',' !in l
    ensures Split(Join(labels)) == labels
  {
    if |labels| == 1 {
      SplitWhole(labels[0]);
    } else {
      SplitUndoesJoin(labels[1..]);
      SplitFirst(labels[0], Join(labels[1..]));
    }
  }

  lemma {:induction false} NothingToDrop(xs: seq<string>)
    requires forall x :: x in xs ==> x != ""
    ensures NonEmpty(xs) == xs
  {
    if xs != [] {
      assert xs[0] in xs;
      forall x | x in xs[1..] ensures x != "" { assert x in xs; }
      NothingToDrop(xs[1..]);
      assert xs == [xs[0]] + xs[1..];
    }
  }

  lemma {:induction false} PiecesHaveNoCommas(s: string, piece: string)
    requires piece in Split(s)
    ensures ',' !in piece
  {
    if s != "" {
      var rest := Split(s[1..]);
      if s[0] == ',' {
        if piece != "" { PiecesHaveNoCommas(s[1..], piece); }
      } else if piece == [s[0]] + rest[0] {
        PiecesHaveNoCommas(s[1..], rest[0]);
      } else {
        assert piece in rest;
        PiecesHaveNoCommas(s[1..], piece);
      }
    }
  }

  lemma {:induction false} KeptPieces(xs: seq<string>, x: string)
    ensures x in NonEmpty(xs) <==> x in xs && x != ""
  {
    if xs != [] {
      KeptPieces(xs[1..], x);
    }
  }

  lemma SortedHasTheSameLabels(labels: seq<string>)
    ensures forall l :: l in SortBy(x => x, labels) <==> l in labels
    ensures |SortBy(x => x, labels)| == |labels|
  {
    var sorted := SortBy(x => x, labels);
    SortSorts(x => x, labels);
    assert |multiset(sorted)| == |multiset(labels)|;
    forall l ensures l in sorted <==> l in labels {
      assert l in multiset(sorted) <==> l in multiset(labels);
    }
  }

  /** What is read back is the enrolled labels exactly when every one of them is non-empty and free of commas. */
  lemma LabelsRoundTripExactly(labels: seq<string>)
    ensures (forall l :: l in ReadBack(Stored(labels)) <==> l in labels) <==> (forall l :: l in labels ==> Plain(l))
  {
    var sorted := SortBy(x => x, labels);
    SortedHasTheSameLabels(labels);
    if forall l :: l in labels ==> Plain(l) {
      forall l | l in sorted ensures Plain(l) { assert l in labels; }
      if sorted != [] {
        SplitUndoesJoin(sorted);
        NothingToDrop(sorted);
      } else {
        assert Split("") == [""] && NonEmpty([""]) == [];
      }
      assert ReadBack(Stored(labels)) == sorted;
    }
    if forall l :: l in ReadBack(Stored(labels)) <==> l in labels {
      forall l | l in labels ensures Plain(l) {
        KeptPieces(Split(Stored(labels)), l);
        PiecesHaveNoCommas(Stored(labels), l);
      }
    }
  }

  /** The edge, telling the user how many runners could take the job. */
  predicate CountedEligible(stored: string, server: string) {
    ReadBack(stored) == [] || server in ReadBack(stored)
  }

  /** The store, deciding whether a claim by that runner may take it. */
  predicate ClaimAdmits(stored: string, server: string) {
    LabelsAdmit(Wanted(ReadBack(stored)), server)
  }

  /** Both sides route alike, whatever was stored; with plain labels, by the labels the runner enrolled. */
  lemma RoutingAgrees(labels: seq<string>, server: string)
    ensures CountedEligible(Stored(labels), server) <==> ClaimAdmits(Stored(labels), server)
    ensures (forall l :: l in labels ==> Plain(l)) ==>
              (ClaimAdmits(Stored(labels), server) <==> labels == [] || server in labels)
  {
    var read := ReadBack(Stored(labels));
    forall l ensures l in Wanted(read) <==> l in read {
      KeptPieces(Split(Stored(labels)), l);
    }
    if read != [] {
      assert read[0] in Wanted(read);
    }
    if forall l :: l in labels ==> Plain(l) {
      LabelsRoundTripExactly(labels);
      if labels != [] { assert labels[0] in read; }
      if read != [] { assert read[0] in labels; }
    }
  }
}
