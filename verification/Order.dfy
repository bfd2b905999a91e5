/** The order Python gives tuples of integers, and sorting by such a key. */
module Order {
  import opened Sequences

  predicate LexLess(a: seq<int>, b: seq<int>) {
    if b == [] then false
    else if a == [] then true
    else a[0] < b[0] || (a[0] == b[0] && LexLess(a[1..], b[1..]))
  }

  predicate LexLeq(a: seq<int>, b: seq<int>) {
    !LexLess(b, a)
  }

  lemma {:induction false} LexIrreflexive(a: seq<int>)
    ensures !LexLess(a, a)
  {
    if a != [] {
      LexIrreflexive(a[1..]);
    }
  }

  lemma {:induction false} LexTotal(a: seq<int>, b: seq<int>)
    ensures LexLess(a, b) || a == b || LexLess(b, a)
  {
    if a != [] && b != [] {
      LexTotal(a[1..], b[1..]);
      assert a == [a[0]] + a[1..] && b == [b[0]] + b[1..];
    }
  }

  lemma {:induction false} LexTransitive(a: seq<int>, b: seq<int>, c: seq<int>)
    requires LexLess(a, b) && LexLess(b, c)
    ensures LexLess(a, c)
  {
    if a != [] {
      if a[0] == b[0] == c[0] {
        LexTransitive(a[1..], b[1..], c[1..]);
      }
    }
  }

  lemma LexAsymmetric(a: seq<int>, b: seq<int>)
    requires LexLess(a, b)
    ensures !LexLess(b, a) && a != b
  {
    LexIrreflexive(a);
    if LexLess(b, a) {
      LexTransitive(a, b, a);
    }
  }

  lemma LexLeqTransitive(a: seq<int>, b: seq<int>, c: seq<int>)
    requires LexLeq(a, b) && LexLeq(b, c)
    ensures LexLeq(a, c)
  {
    if LexLess(c, a) {
      LexTotal(a, b);
      if a == b {
      } else {
        LexTransitive(c, a, b);
      }
    }
  }

  // ------------------------------------------------------------------ sorting

  function InsertBy<T>(key: T -> seq<int>, x: T, xs: seq<T>): seq<T> {
    if xs == [] then [x]
    else if LexLeq(key(x), key(xs[0])) then [x] + xs
    else [xs[0]] + InsertBy(key, x, xs[1..])
  }

  /** Sorting by a key, as `sorted` does it: stable, ascending. */
  function SortBy<T>(key: T -> seq<int>, xs: seq<T>): seq<T> {
    if xs == [] then [] else InsertBy(key, xs[0], SortBy(key, xs[1..]))
  }

  ghost predicate SortedBy<T>(key: T -> seq<int>, xs: seq<T>) {
    forall i, j :: 0 <= i < j < |xs| ==> LexLeq(key(xs[i]), key(xs[j]))
  }

  lemma {:induction false} InsertByPermutes<T>(key: T -> seq<int>, x: T, xs: seq<T>)
    ensures multiset(InsertBy(key, x, xs)) == multiset{x} + multiset(xs)
  {
    if xs != [] && !LexLeq(key(x), key(xs[0])) {
      InsertByPermutes(key, x, xs[1..]);
      assert xs == [xs[0]] + xs[1..];
    }
  }

  lemma {:induction false} SortByPermutes<T>(key: T -> seq<int>, xs: seq<T>)
    ensures multiset(SortBy(key, xs)) == multiset(xs)
    ensures |SortBy(key, xs)| == |xs|
    ensures forall x :: x in SortBy(key, xs) <==> x in xs
  {
    if xs != [] {
      SortByPermutes(key, xs[1..]);
      InsertByPermutes(key, xs[0], SortBy(key, xs[1..]));
      assert xs == [xs[0]] + xs[1..];
    }
    PermutationLength(SortBy(key, xs), xs);
  }

  lemma {:induction false} InsertBySorts<T>(key: T -> seq<int>, x: T, xs: seq<T>)
    requires SortedBy(key, xs)
    ensures SortedBy(key, InsertBy(key, x, xs))
  {
    if xs == [] {
    } else if LexLeq(key(x), key(xs[0])) {
      forall j | 0 <= j < |xs| ensures LexLeq(key(x), key(xs[j])) {
        if j > 0 {
          LexLeqTransitive(key(x), key(xs[0]), key(xs[j]));
        }
      }
    } else {
      InsertBySorts(key, x, xs[1..]);
      InsertByPermutes(key, x, xs[1..]);
      var r := InsertBy(key, x, xs[1..]);
      LexAsymmetric(key(xs[0]), key(x));
      forall j | 0 <= j < |r| ensures LexLeq(key(xs[0]), key(r[j])) {
        assert r[j] in multiset(r);
        if r[j] != x {
          assert r[j] in multiset(xs[1..]);
          assert r[j] in xs[1..];
        }
      }
    }
  }

  lemma {:induction false} SortBySorts<T>(key: T -> seq<int>, xs: seq<T>)
    ensures SortedBy(key, SortBy(key, xs))
  {
    if xs != [] {
      SortBySorts(key, xs[1..]);
      InsertBySorts(key, xs[0], SortBy(key, xs[1..]));
    }
  }

  ghost predicate KeysDistinct<T>(key: T -> seq<int>, xs: seq<T>) {
    forall i, j :: 0 <= i < j < |xs| ==> key(xs[i]) != key(xs[j])
  }
}
