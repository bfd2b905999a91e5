/** Facts about sequences as multisets: permutations, mapping, filtering and sums. */
module Sequences {

  function Map<A, B>(f: A -> B, xs: seq<A>): (ys: seq<B>)
    ensures |ys| == |xs|
    ensures forall i :: 0 <= i < |xs| ==> ys[i] == f(xs[i])
  {
    seq(|xs|, i requires 0 <= i < |xs| => f(xs[i]))
  }

  function Filter<T>(p: T -> bool, xs: seq<T>): seq<T> {
    if xs == [] then []
    else if p(xs[0]) then [xs[0]] + Filter(p, xs[1..])
    else Filter(p, xs[1..])
  }

  function Count<T>(p: T -> bool, xs: seq<T>): nat {
    if xs == [] then 0 else (if p(xs[0]) then 1 else 0) + Count(p, xs[1..])
  }

  function Sum<T>(f: T -> int, xs: seq<T>): int {
    if xs == [] then 0 else f(xs[0]) + Sum(f, xs[1..])
  }

  /** The sum of some integers. */
  function Total(xs: seq<int>): int {
    if xs == [] then 0 else Total(xs[..|xs| - 1]) + xs[|xs| - 1]
  }

  predicate Distinct<T(==)>(xs: seq<T>) {
    forall i, j :: 0 <= i < j < |xs| ==> xs[i] != xs[j]
  }

  function Remove<T>(xs: seq<T>, k: nat): seq<T>
    requires k < |xs|
  {
    xs[..k] + xs[k + 1..]
  }

  /** 0, 1, ..., n-1. */
  function Range(n: nat): (r: seq<int>)
    ensures |r| == n
    ensures forall i :: 0 <= i < n ==> r[i] == i
  {
    seq(n, i => i)
  }

  function First<T>(p: T -> bool, xs: seq<T>): (r: int)
    ensures -1 <= r < |xs|
    ensures 0 <= r ==> p(xs[r]) && forall i :: 0 <= i < r ==> !p(xs[i])
    ensures r == -1 ==> forall i :: 0 <= i < |xs| ==> !p(xs[i])
  {
    if xs == [] then -1
    else if p(xs[0]) then 0
    else
      var r := First(p, xs[1..]);
      if r == -1 then -1 else r + 1
  }

  // ---------------------------------------------------------------- splitting

  lemma Associate<T>(a: seq<T>, b: seq<T>, c: seq<T>)
    ensures a + (b + c) == (a + b) + c
    ensures [] + a == a + [] == a
  {
  }

  lemma {:induction false} FilterAppend<T>(p: T -> bool, a: seq<T>, b: seq<T>)
    ensures Filter(p, a + b) == Filter(p, a) + Filter(p, b)
  {
    if a == [] {
      assert a + b == b;
    } else {
      FilterAppend(p, a[1..], b);
      assert (a + b)[1..] == a[1..] + b;
      var head := if p(a[0]) then [a[0]] else [];
      assert Filter(p, a + b) == head + Filter(p, (a + b)[1..]) && Filter(p, a) == head + Filter(p, a[1..]);
      hide Filter;
      Associate(head, Filter(p, a[1..]), Filter(p, b));
    }
  }

  lemma {:induction false} CountAtMost<T>(p: T -> bool, xs: seq<T>)
    ensures Count(p, xs) <= |xs|
  {
    if xs != [] {
      CountAtMost(p, xs[1..]);
    }
  }

  lemma {:induction false} CountAppend<T>(p: T -> bool, a: seq<T>, b: seq<T>)
    ensures Count(p, a + b) == Count(p, a) + Count(p, b)
  {
    if a == [] {
      assert a + b == b;
    } else {
      CountAppend(p, a[1..], b);
      assert (a + b)[1..] == a[1..] + b;
    }
  }

  lemma {:induction false} SumAppend<T>(f: T -> int, a: seq<T>, b: seq<T>)
    ensures Sum(f, a + b) == Sum(f, a) + Sum(f, b)
  {
    if a == [] {
      assert a + b == b;
    } else {
      SumAppend(f, a[1..], b);
      assert (a + b)[1..] == a[1..] + b;
    }
  }

  lemma FilterOne<T>(p: T -> bool, x: T)
    ensures Filter(p, [x]) == if p(x) then [x] else []
  {
    assert [x][1..] == [];
  }

  lemma {:induction false} FilterNone<T>(p: T -> bool, xs: seq<T>)
    requires forall i :: 0 <= i < |xs| ==> !p(xs[i])
    ensures Filter(p, xs) == []
  {
    if xs != [] {
      FilterNone(p, xs[1..]);
    }
  }

  function SetOf<T(==)>(xs: seq<T>): set<T> {
    set x | x in xs
  }

  lemma SumOne<T>(f: T -> int, x: T)
    ensures Sum(f, [x]) == f(x)
  {
    assert [x][1..] == [];
  }

  lemma {:induction false} FilterMembers<T>(p: T -> bool, xs: seq<T>)
    ensures forall x :: x in Filter(p, xs) <==> x in xs && p(x)
  {
    if xs != [] {
      FilterMembers(p, xs[1..]);
    }
  }

  lemma FilterNonempty<T>(p: T -> bool, xs: seq<T>)
    ensures Filter(p, xs) != [] <==> exists i :: 0 <= i < |xs| && p(xs[i])
  {
    if Filter(p, xs) != [] {
      var x := Filter(p, xs)[0];
      FilteredFrom(p, xs, x);
      var i :| 0 <= i < |xs| && xs[i] == x;
    }
    if i :| 0 <= i < |xs| && p(xs[i]) {
      FilterMembers(p, xs);
      assert xs[i] in Filter(p, xs);
    }
  }

  lemma {:induction false} FilteredFrom<T>(p: T -> bool, xs: seq<T>, x: T)
    requires x in Filter(p, xs)
    ensures x in xs && p(x)
  {
    if xs != [] && x in Filter(p, xs[1..]) {
      FilteredFrom(p, xs[1..], x);
    }
  }

  lemma {:induction false} FilterMultiset<T>(p: T -> bool, xs: seq<T>, x: T)
    ensures multiset(Filter(p, xs))[x] == if p(x) then multiset(xs)[x] else 0
  {
    if xs != [] {
      FilterMultiset(p, xs[1..], x);
      assert xs == [xs[0]] + xs[1..];
    }
  }

  lemma {:induction false} FilterDistinct<T>(p: T -> bool, xs: seq<T>)
    requires Distinct(xs)
    ensures Distinct(Filter(p, xs))
  {
    if xs != [] {
      FilterDistinct(p, xs[1..]);
      FilterMembers(p, xs[1..]);
    }
  }

  // ------------------------------------------------------------- permutations

  lemma RemoveMultiset<T>(xs: seq<T>, k: nat)
    requires k < |xs|
    ensures multiset(xs) == multiset(Remove(xs, k)) + multiset{xs[k]}
  {
    assert xs == xs[..k] + [xs[k]] + xs[k + 1..];
  }

  lemma MultisetIndex<T>(xs: seq<T>, x: T) returns (k: nat)
    requires x in multiset(xs)
    ensures k < |xs| && xs[k] == x
  {
    assert x in xs;
    k :| 0 <= k < |xs| && xs[k] == x;
  }

  lemma PermutationLength<T>(a: seq<T>, b: seq<T>)
    requires multiset(a) == multiset(b)
    ensures |a| == |b|
    ensures forall x :: x in a <==> x in b
  {
    assert |multiset(a)| == |a|;
    assert |multiset(b)| == |b|;
    forall x ensures x in a <==> x in b {
      assert x in a <==> x in multiset(a);
      assert x in b <==> x in multiset(b);
    }
  }

  /** Where an element of a permutation stands in the other. */
  lemma PermutationPlace<T>(a: seq<T>, b: seq<T>, i: nat) returns (k: nat)
    requires multiset(a) == multiset(b) && i < |a|
    ensures k < |b| && b[k] == a[i]
  {
    assert a[i] in multiset(a) && a[i] in multiset(b);
    k :| 0 <= k < |b| && b[k] == a[i];
  }

  /** Splits `b` at the first element of its permutation `a`. */
  lemma PermutationHead<T>(a: seq<T>, b: seq<T>) returns (k: nat)
    requires multiset(a) == multiset(b) && a != []
    ensures k < |b| && b[k] == a[0]
    ensures multiset(a[1..]) == multiset(Remove(b, k))
  {
    assert a == [a[0]] + a[1..];
    assert a[0] in multiset(a);
    k := MultisetIndex(b, a[0]);
    RemoveMultiset(b, k);
    assert multiset(a[1..]) == multiset(a) - multiset{a[0]};
    assert multiset(Remove(b, k)) == multiset(b) - multiset{b[k]};
  }

  /** Splits `b` at an occurrence of the last element of its permutation `a`. */
  lemma PermutationLast<T>(a: seq<T>, b: seq<T>) returns (k: nat)
    requires multiset(a) == multiset(b) && a != []
    ensures k < |b| && b[k] == a[|a| - 1]
    ensures multiset(a[..|a| - 1]) == multiset(Remove(b, k))
    ensures b == b[..k] + [b[k]] + b[k + 1..]
  {
    var n := |a| - 1;
    assert a == a[..n] + [a[n]];
    assert a[n] in multiset(a);
    k := MultisetIndex(b, a[n]);
    RemoveMultiset(b, k);
    assert multiset(a[..n]) == multiset(a) - multiset{a[n]};
    assert multiset(Remove(b, k)) == multiset(b) - multiset{b[k]};
  }

  lemma {:induction false} SumPermutation<T>(f: T -> int, a: seq<T>, b: seq<T>)
    requires multiset(a) == multiset(b)
    ensures Sum(f, a) == Sum(f, b)
    decreases |a|
  {
    PermutationLength(a, b);
    if a != [] {
      var k := PermutationHead(a, b);
      SumPermutation(f, a[1..], Remove(b, k));
      SumAppend(f, b[..k], b[k + 1..]);
      assert b == b[..k] + ([b[k]] + b[k + 1..]);
      SumAppend(f, b[..k], [b[k]] + b[k + 1..]);
      assert ([b[k]] + b[k + 1..])[1..] == b[k + 1..];
    }
  }

  lemma CountPermutation<T>(p: T -> bool, a: seq<T>, b: seq<T>)
    requires multiset(a) == multiset(b)
    ensures Count(p, a) == Count(p, b)
  {
    var f := x => if p(x) then 1 else 0;
    CountSumWith(p, f, a);
    CountSumWith(p, f, b);
    SumPermutation(f, a, b);
  }

  lemma {:induction false} CountSumWith<T>(p: T -> bool, f: T -> int, xs: seq<T>)
    requires forall x :: x in xs ==> f(x) == if p(x) then 1 else 0
    ensures Count(p, xs) == Sum(f, xs)
  {
    if xs != [] {
      CountSumWith(p, f, xs[1..]);
    }
  }

  lemma {:induction false} MapPermutation<A, B>(f: A -> B, a: seq<A>, b: seq<A>)
    requires multiset(a) == multiset(b)
    ensures multiset(Map(f, a)) == multiset(Map(f, b))
    decreases |a|
  {
    PermutationLength(a, b);
    if a != [] {
      var k := PermutationHead(a, b);
      MapPermutation(f, a[1..], Remove(b, k));
      assert Map(f, a) == [f(a[0])] + Map(f, a[1..]);
      assert Map(f, Remove(b, k)) == Remove(Map(f, b), k);
      RemoveMultiset(Map(f, b), k);
    } else {
      assert Map(f, a) == Map(f, b);
    }
  }

  lemma {:induction false} DistinctMultiplicity<T>(xs: seq<T>, x: T)
    requires Distinct(xs)
    ensures multiset(xs)[x] == if x in xs then 1 else 0
  {
    if xs != [] {
      assert xs == [xs[0]] + xs[1..];
      DistinctMultiplicity(xs[1..], x);
    }
  }

  /** Two repetition-free sequences with the same members are permutations of each other. */
  lemma DistinctSameMembers<T>(a: seq<T>, b: seq<T>)
    requires Distinct(a) && Distinct(b)
    requires forall x :: x in a <==> x in b
    ensures multiset(a) == multiset(b)
  {
    forall x ensures multiset(a)[x] == multiset(b)[x] {
      DistinctMultiplicity(a, x);
      DistinctMultiplicity(b, x);
    }
  }

  lemma TwiceInSequence<T>(xs: seq<T>, i: nat, j: nat)
    requires i < j < |xs|
    ensures xs[i] == xs[j] ==> multiset(xs)[xs[i]] >= 2
  {
    assert xs == xs[..i] + [xs[i]] + xs[i + 1..j] + [xs[j]] + xs[j + 1..];
  }

  lemma PermutationDistinct<T>(a: seq<T>, b: seq<T>)
    requires multiset(a) == multiset(b) && Distinct(a)
    ensures Distinct(b)
  {
    forall i, j | 0 <= i < j < |b| ensures b[i] != b[j] {
      DistinctMultiplicity(a, b[i]);
      TwiceInSequence(b, i, j);
    }
  }
}
