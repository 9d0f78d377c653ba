/** Python's `sorted` with a string key: code points compared left to right, and equal keys kept in order. */
module Ordering {
  predicate AtMost(a: string, b: string) {
    a == "" || (b != "" && (a[0] < b[0] || (a[0] == b[0] && AtMost(a[1..], b[1..]))))
  }

  lemma {:induction false} Total(a: string, b: string)
    ensures AtMost(a, b) || AtMost(b, a)
  {
    if a != "" && b != "" && a[0] == b[0] {
      Total(a[1..], b[1..]);
    }
  }

  lemma {:induction false} Transitive(a: string, b: string, c: string)
    requires AtMost(a, b) && AtMost(b, c)
    ensures AtMost(a, c)
  {
    if a != "" && a[0] == b[0] && b[0] == c[0] {
      Transitive(a[1..], b[1..], c[1..]);
    }
  }

  /** Before it altogether, or at the first character in which the two differ. */
  lemma {:induction false} AtMostIsLexicographic(a: string, b: string)
    ensures AtMost(a, b) <==> a <= b || exists i :: 0 <= i < |a| && i < |b| && a[..i] == b[..i] && a[i] < b[i]
  {
    if a != "" && b != "" && a[0] == b[0] {
      AtMostIsLexicographic(a[1..], b[1..]);
      if i :| 0 <= i < |a[1..]| && i < |b[1..]| && a[1..][..i] == b[1..][..i] && a[1..][i] < b[1..][i] {
        assert a[..i + 1] == [a[0]] + a[1..][..i] && b[..i + 1] == [b[0]] + b[1..][..i];
        assert a[i + 1] < b[i + 1];
      }
      if i :| 0 <= i < |a| && i < |b| && a[..i] == b[..i] && a[i] < b[i] {
        assert i > 0 && a[1..][..i - 1] == a[..i][1..] && b[1..][..i - 1] == b[..i][1..];
        assert a[1..][i - 1] < b[1..][i - 1];
      }
      assert a <= b <==> a[1..] <= b[1..];
    } else if a != "" && b != "" && a[0] < b[0] {
      assert a[..0] == b[..0];
    }
  }

  predicate SortedBy<T>(key: T -> string, xs: seq<T>) {
    forall i, k :: 0 <= i < k < |xs| ==> AtMost(key(xs[i]), key(xs[k]))
  }

  /** Before the first element with a greater key, so after those with the same one. */
  function InsertBy<T>(key: T -> string, x: T, xs: seq<T>): seq<T> {
    if xs == [] then [x]
    else if AtMost(key(x), key(xs[0])) then [x] + xs
    else [xs[0]] + InsertBy(key, x, xs[1..])
  }

  function SortBy<T>(key: T -> string, xs: seq<T>): seq<T> {
    if xs == [] then [] else InsertBy(key, xs[0], SortBy(key, xs[1..]))
  }

  lemma {:induction false} InsertKeepsElements<T>(key: T -> string, x: T, xs: seq<T>)
    ensures multiset(InsertBy(key, x, xs)) == multiset{x} + multiset(xs)
  {
    if xs != [] && !AtMost(key(x), key(xs[0])) {
      InsertKeepsElements(key, x, xs[1..]);
      assert xs == [xs[0]] + xs[1..];
    }
  }

  lemma {:induction false} InsertSorts<T>(key: T -> string, x: T, xs: seq<T>)
    requires SortedBy(key, xs)
    ensures SortedBy(key, InsertBy(key, x, xs))
  {
    if xs == [] {
    } else if AtMost(key(x), key(xs[0])) {
      forall k | 0 <= k < |xs| ensures AtMost(key(x), key(xs[k])) {
        if k > 0 { Transitive(key(x), key(xs[0]), key(xs[k])); }
      }
    } else {
      Total(key(x), key(xs[0]));
      InsertSorts(key, x, xs[1..]);
      var rest := InsertBy(key, x, xs[1..]);
      InsertKeepsElements(key, x, xs[1..]);
      forall k | 0 <= k < |rest| ensures AtMost(key(xs[0]), key(rest[k])) {
        assert rest[k] in multiset(rest);
        assert rest[k] == x || rest[k] in xs[1..];
        if rest[k] != x {
          var j :| 1 <= j < |xs| && xs[j] == rest[k];
        }
      }
    }
  }

  lemma {:induction false} SortSorts<T>(key: T -> string, xs: seq<T>)
    ensures SortedBy(key, SortBy(key, xs))
    ensures multiset(SortBy(key, xs)) == multiset(xs)
  {
    if xs != [] {
      SortSorts(key, xs[1..]);
      InsertSorts(key, xs[0], SortBy(key, xs[1..]));
      InsertKeepsElements(key, xs[0], SortBy(key, xs[1..]));
      assert xs == [xs[0]] + xs[1..];
    }
  }

  lemma {:induction false} SortedStaysPut<T>(key: T -> string, xs: seq<T>)
    requires SortedBy(key, xs)
    ensures SortBy(key, xs) == xs
  {
    if xs != [] {
      SortedStaysPut(key, xs[1..]);
    }
  }

  function WithKey<T>(key: T -> string, k: string, xs: seq<T>): seq<T> {
    if xs == [] then [] else (if key(xs[0]) == k then [xs[0]] else []) + WithKey(key, k, xs[1..])
  }

  lemma {:induction false} AtMostBoth(a: string, b: string)
    requires AtMost(a, b) && AtMost(b, a)
    ensures a == b
  {
    if a != "" && b != "" {
      AtMostBoth(a[1..], b[1..]);
    }
  }

  lemma WithKeyCons<T>(key: T -> string, k: string, x: T, xs: seq<T>)
    ensures WithKey(key, k, [x] + xs) == (if key(x) == k then [x] else []) + WithKey(key, k, xs)
  {
    assert ([x] + xs)[1..] == xs;
  }

  lemma {:induction false} InsertIsStable<T>(key: T -> string, k: string, x: T, xs: seq<T>)
    ensures WithKey(key, k, InsertBy(key, x, xs)) == (if key(x) == k then [x] else []) + WithKey(key, k, xs)
  {
    if xs == [] || AtMost(key(x), key(xs[0])) {
      WithKeyCons(key, k, x, xs);
      assert [x] + xs == InsertBy(key, x, xs);
    } else {
      Total(key(x), key(xs[0]));
      assert key(x) != key(xs[0]);
      InsertIsStable(key, k, x, xs[1..]);
      WithKeyCons(key, k, xs[0], InsertBy(key, x, xs[1..]));
      var added := if key(x) == k then [x] else [];
      var first := if key(xs[0]) == k then [xs[0]] else [];
      var rest := WithKey(key, k, xs[1..]);
      assert added == [] || first == [];
      assert first + (added + rest) == added + (first + rest);
    }
  }

  /** Elements with equal keys come out in the order they went in. */
  lemma {:induction false} SortIsStable<T>(key: T -> string, k: string, xs: seq<T>)
    ensures WithKey(key, k, SortBy(key, xs)) == WithKey(key, k, xs)
  {
    if xs != [] {
      SortIsStable(key, k, xs[1..]);
      InsertIsStable(key, k, xs[0], SortBy(key, xs[1..]));
    }
  }
}
