/** The global merge of `generate`: instructions of all CTAs popped from a heap in order of absolute time. */
module Merge {
  import opened Sequences
  import opened Order

  /** One CTA: where and when it starts, and the time of each of its instructions after its start. */
  datatype Stream = Stream(sm: int, start: int, deltas: seq<int>)

  datatype HeapEntry = HeapEntry(time: int, sm: int, block: int, ordinal: int)

  /** Heap entries compare as Python tuples. */
  function Key(h: HeapEntry): seq<int> {
    [h.time, h.sm, h.block, h.ordinal]
  }

  lemma KeyOrder(h: HeapEntry, k: HeapEntry)
    ensures LexLess(Key(h), Key(k)) <==>
      h.time < k.time || (h.time == k.time && (h.sm < k.sm || (h.sm == k.sm &&
        (h.block < k.block || (h.block == k.block && h.ordinal < k.ordinal)))))
  {
    LexStep(h.ordinal, [], k.ordinal, []);
    LexStep(h.block, [h.ordinal], k.block, [k.ordinal]);
    LexStep(h.sm, [h.block, h.ordinal], k.sm, [k.block, k.ordinal]);
    LexStep(h.time, [h.sm, h.block, h.ordinal], k.time, [k.sm, k.block, k.ordinal]);
    assert Key(h) == [h.time] + [h.sm, h.block, h.ordinal] && Key(k) == [k.time] + [k.sm, k.block, k.ordinal];
    assert [h.sm, h.block, h.ordinal] == [h.sm] + [h.block, h.ordinal]
           && [k.sm, k.block, k.ordinal] == [k.sm] + [k.block, k.ordinal];
    assert [h.block, h.ordinal] == [h.block] + [h.ordinal] && [k.block, k.ordinal] == [k.block] + [k.ordinal];
    assert [h.ordinal] == [h.ordinal] + [] && [k.ordinal] == [k.ordinal] + [];
  }

  lemma LexStep(x: int, xs: seq<int>, y: int, ys: seq<int>)
    ensures LexLess([x] + xs, [y] + ys) <==> x < y || (x == y && LexLess(xs, ys))
  {
    assert ([x] + xs)[1..] == xs && ([y] + ys)[1..] == ys;
  }

  lemma KeyInjective(h: HeapEntry, k: HeapEntry)
    requires Key(h) == Key(k)
    ensures h == k
  {
    assert Key(h)[0] == Key(k)[0] && Key(h)[1] == Key(k)[1] && Key(h)[2] == Key(k)[2] && Key(h)[3] == Key(k)[3];
  }

  lemma StrictOrEqual(h: HeapEntry, k: HeapEntry)
    requires LexLeq(Key(h), Key(k)) && h != k
    ensures LexLess(Key(h), Key(k))
  {
    LexTotal(Key(h), Key(k));
    if Key(h) == Key(k) {
      KeyInjective(h, k);
    }
  }

  // --------------------------------------------------------------------- heap

  /** The heap of Python's heapq module, by its contract: `Pop` takes a least entry. */
  class MinHeap {
    var entries: seq<HeapEntry>

    constructor (entries: seq<HeapEntry>)
      ensures this.entries == entries
    {
      this.entries := entries;
    }

    method Push(e: HeapEntry)
      modifies this
      ensures multiset(entries) == old(multiset(entries)) + multiset{e}
    {
      entries := entries + [e];
    }

    method Pop() returns (e: HeapEntry)
      requires entries != []
      modifies this
      ensures e in old(entries)
      ensures forall h :: h in old(entries) ==> LexLeq(Key(e), Key(h))
      ensures multiset(entries) == old(multiset(entries)) - multiset{e}
    {
      hide LexLess, Key;
      var least := 0;
      LexIrreflexive(Key(entries[0]));
      for i := 1 to |entries|
        invariant 0 <= least < i <= |entries|
        invariant entries == old(entries)
        invariant forall j :: 0 <= j < i ==> LexLeq(Key(entries[least]), Key(entries[j]))
      {
        if LexLess(Key(entries[i]), Key(entries[least])) {
          NewLeast(entries, least, i);
          least := i;
        }
      }
      e := entries[least];
      RemoveMultiset(entries, least);
      entries := Remove(entries, least);
    }
  }

  lemma NewLeast(s: seq<HeapEntry>, least: nat, i: nat)
    requires least < i < |s| && LexLess(Key(s[i]), Key(s[least]))
    requires forall j :: 0 <= j < i ==> LexLeq(Key(s[least]), Key(s[j]))
    ensures forall j :: 0 <= j <= i ==> LexLeq(Key(s[i]), Key(s[j]))
  {
    hide LexLess, Key;
    LexIrreflexive(Key(s[i]));
    LexAsymmetric(Key(s[i]), Key(s[least]));
    forall j | 0 <= j < i ensures LexLeq(Key(s[i]), Key(s[j])) {
      LexLeqTransitive(Key(s[i]), Key(s[least]), Key(s[j]));
    }
  }

  // ---------------------------------------------------------------- the merge

  function OfBlock(b: int): HeapEntry -> bool {
    (h: HeapEntry) => h.block == b
  }

  /** How many instructions of a CTA have been emitted. */
  function Emitted(done: seq<HeapEntry>, b: int): nat {
    Count(OfBlock(b), done)
  }

  function EntryFor(streams: seq<Stream>, b: int, ordinal: int): HeapEntry
    requires 0 <= b < |streams| && 0 <= ordinal < |streams[b].deltas|
  {
    HeapEntry(streams[b].start + streams[b].deltas[ordinal], streams[b].sm, b, ordinal)
  }

  /** The next instruction of an unfinished CTA. */
  predicate IsNext(streams: seq<Stream>, done: seq<HeapEntry>, h: HeapEntry) {
    && 0 <= h.block < |streams| && h.ordinal == Emitted(done, h.block) < |streams[h.block].deltas|
    && h == EntryFor(streams, h.block, h.ordinal)
  }

  /** The choice the heap makes: a least one among the CTAs' next instructions. */
  ghost predicate IsChoice(streams: seq<Stream>, done: seq<HeapEntry>, h: HeapEntry) {
    IsNext(streams, done, h) && forall k :: IsNext(streams, done, k) ==> LexLeq(Key(h), Key(k))
  }

  /** A whole run of the merge. */
  ghost predicate IsMerge(streams: seq<Stream>, out: seq<HeapEntry>) {
    && (forall i :: 0 <= i < |out| ==> IsChoice(streams, out[..i], out[i]))
    && (forall b :: 0 <= b < |streams| ==> Emitted(out, b) == |streams[b].deltas|)
  }

  lemma EmittedStep(done: seq<HeapEntry>, h: HeapEntry, b: int)
    ensures Emitted(done + [h], b) == Emitted(done, b) + if h.block == b then 1 else 0
  {
    CountAppend(OfBlock(b), done, [h]);
    assert [h][1..] == [];
  }

  // ------------------------------------------------------------- termination

  function Lengths(streams: seq<Stream>): nat {
    if streams == [] then 0 else Lengths(streams[..|streams| - 1]) + |streams[|streams| - 1].deltas|
  }

  function EmittedBelow(done: seq<HeapEntry>, n: nat): nat {
    if n == 0 then 0 else EmittedBelow(done, n - 1) + Emitted(done, n - 1)
  }

  lemma {:induction false} EmittedBelowStep(done: seq<HeapEntry>, h: HeapEntry, n: nat)
    ensures EmittedBelow(done + [h], n) == EmittedBelow(done, n) + if 0 <= h.block < n then 1 else 0
  {
    hide Emitted;
    if n > 0 {
      EmittedBelowStep(done, h, n - 1);
      EmittedStep(done, h, n - 1);
    }
  }

  /** Every emitted instruction belongs to some CTA of the grid. */
  lemma {:induction false} EmittedBelowIsLength(done: seq<HeapEntry>, n: nat)
    requires forall i :: 0 <= i < |done| ==> 0 <= done[i].block < n
    ensures EmittedBelow(done, n) == |done|
  {
    if done == [] {
      NoneEmitted(n);
    } else {
      var init := done[..|done| - 1];
      EmittedBelowIsLength(init, n);
      EmittedBelowStep(init, done[|done| - 1], n);
      assert done == init + [done[|done| - 1]];
    }
  }

  lemma {:induction false} NoneEmitted(n: nat)
    ensures EmittedBelow([], n) == 0
  {
    if n > 0 {
      NoneEmitted(n - 1);
    }
  }

  lemma {:induction false} EmittedAtMost(streams: seq<Stream>, done: seq<HeapEntry>)
    requires forall b :: 0 <= b < |streams| ==> Emitted(done, b) <= |streams[b].deltas|
    ensures EmittedBelow(done, |streams|) <= Lengths(streams)
    ensures (exists b :: 0 <= b < |streams| && Emitted(done, b) < |streams[b].deltas|)
              ==> EmittedBelow(done, |streams|) < Lengths(streams)
    ensures (forall b :: 0 <= b < |streams| ==> Emitted(done, b) == |streams[b].deltas|)
              ==> EmittedBelow(done, |streams|) == Lengths(streams)
    decreases |streams|
  {
    hide Emitted;
    if streams != [] {
      var n := |streams| - 1;
      assert forall b :: 0 <= b < n ==> streams[..n][b] == streams[b];
      EmittedAtMost(streams[..n], done);
    }
  }

  // ---------------------------------------------------------------- heap loop

  /** The heap holds each unfinished CTA's next instruction, once, and nothing else. */
  ghost predicate HoldsNext(entries: seq<HeapEntry>, streams: seq<Stream>, done: seq<HeapEntry>) {
    forall h :: multiset(entries)[h] == if IsNext(streams, done, h) then 1 else 0
  }

  lemma HoldsNextMembers(entries: seq<HeapEntry>, streams: seq<Stream>, done: seq<HeapEntry>)
    requires HoldsNext(entries, streams, done)
    ensures forall h :: h in entries <==> IsNext(streams, done, h)
  {
    forall h ensures h in entries <==> IsNext(streams, done, h) {
      assert h in entries <==> multiset(entries)[h] > 0;
    }
  }

  /** The first instructions of the CTAs below `b` that have one. */
  ghost predicate HeadsBelow(entries: seq<HeapEntry>, streams: seq<Stream>, b: int) {
    forall h :: multiset(entries)[h] == if IsNext(streams, [], h) && h.block < b then 1 else 0
  }

  lemma HeadsStep(entries: seq<HeapEntry>, streams: seq<Stream>, b: nat)
    requires b < |streams| && HeadsBelow(entries, streams, b)
    ensures streams[b].deltas == [] ==> HeadsBelow(entries, streams, b + 1)
    ensures streams[b].deltas != [] ==> HeadsBelow(entries + [EntryFor(streams, b, 0)], streams, b + 1)
  {
    forall h
      ensures IsNext(streams, [], h) && h.block == b
         <==> streams[b].deltas != [] && h == EntryFor(streams, b, 0) {
    }
  }

  lemma HeadsHold(entries: seq<HeapEntry>, streams: seq<Stream>)
    ensures HeadsBelow([], streams, 0)
    ensures HeadsBelow(entries, streams, |streams|) ==> HoldsNext(entries, streams, [])
  {
    hide Emitted;
  }

  /** Popping `h` and pushing its CTA's next instruction, if any, keeps the heap as it should be. */
  lemma HeapStep(before: seq<HeapEntry>, after: seq<HeapEntry>, streams: seq<Stream>, done: seq<HeapEntry>,
                 h: HeapEntry)
    requires HoldsNext(before, streams, done) && IsNext(streams, done, h)
    requires h.ordinal + 1 < |streams[h.block].deltas| ==>
               multiset(after) == multiset(before) - multiset{h} + multiset{EntryFor(streams, h.block, h.ordinal + 1)}
    requires h.ordinal + 1 >= |streams[h.block].deltas| ==> multiset(after) == multiset(before) - multiset{h}
    ensures HoldsNext(after, streams, done + [h])
  {
    hide Emitted;
    forall k ensures multiset(after)[k] == if IsNext(streams, done + [h], k) then 1 else 0 {
      EmittedStep(done, h, k.block);
      EmittedStep(done, h, h.block);
      assert multiset(before)[k] == if IsNext(streams, done, k) then 1 else 0;
    }
  }

  /** A run of the merge so far. */
  ghost predicate IsRun(streams: seq<Stream>, done: seq<HeapEntry>) {
    && (forall i :: 0 <= i < |done| ==> IsChoice(streams, done[..i], done[i]) && 0 <= done[i].block < |streams|)
    && (forall b :: 0 <= b < |streams| ==> Emitted(done, b) <= |streams[b].deltas|)
  }

  lemma ExtendRun(streams: seq<Stream>, done: seq<HeapEntry>, h: HeapEntry)
    requires IsRun(streams, done) && IsChoice(streams, done, h)
    ensures IsRun(streams, done + [h])
    ensures EmittedBelow(done, |streams|) < EmittedBelow(done + [h], |streams|) <= Lengths(streams)
  {
    hide Emitted, LexLess, Key;
    forall b | 0 <= b < |streams| ensures Emitted(done + [h], b) <= |streams[b].deltas| {
      EmittedStep(done, h, b);
    }
    assert forall i :: 0 <= i < |done| ==> (done + [h])[..i] == done[..i];
    assert (done + [h])[..|done|] == done;
    EmittedBelowStep(done, h, |streams|);
    EmittedAtMost(streams, done + [h]);
  }

  lemma RunStarts(streams: seq<Stream>)
    ensures IsRun(streams, [])
  {
  }

  lemma RunEnds(entries: seq<HeapEntry>, streams: seq<Stream>, out: seq<HeapEntry>)
    requires HoldsNext(entries, streams, out) && entries == [] && IsRun(streams, out)
    ensures IsMerge(streams, out) && |out| == Lengths(streams)
  {
    hide Emitted, IsNext, LexLess, Key;
    NothingNext(entries, streams, out);
    EmittedAtMost(streams, out);
    EmittedBelowIsLength(out, |streams|);
  }

  lemma NextParts(streams: seq<Stream>, done: seq<HeapEntry>, h: HeapEntry)
    requires IsNext(streams, done, h)
    ensures 0 <= h.block < |streams| && 0 <= h.ordinal == Emitted(done, h.block) < |streams[h.block].deltas|
    ensures h == EntryFor(streams, h.block, h.ordinal)
  {
  }

  lemma NothingNext(entries: seq<HeapEntry>, streams: seq<Stream>, done: seq<HeapEntry>)
    requires HoldsNext(entries, streams, done) && entries == []
    requires forall b :: 0 <= b < |streams| ==> Emitted(done, b) <= |streams[b].deltas|
    ensures forall b :: 0 <= b < |streams| ==> Emitted(done, b) == |streams[b].deltas|
  {
    hide Emitted, IsNext;
    HoldsNextMembers(entries, streams, done);
    forall b | 0 <= b < |streams| ensures Emitted(done, b) >= |streams[b].deltas| {
      UnfinishedHasNext(streams, done, b);
    }
  }

  lemma UnfinishedHasNext(streams: seq<Stream>, done: seq<HeapEntry>, b: int)
    requires 0 <= b < |streams|
    ensures Emitted(done, b) < |streams[b].deltas| ==> exists h :: IsNext(streams, done, h)
  {
    hide Emitted;
    if Emitted(done, b) < |streams[b].deltas| {
      assert IsNext(streams, done, EntryFor(streams, b, Emitted(done, b)));
    }
  }

  // -------------------------------------------------------------- conservation

  /** All instructions of one CTA, in template order. */
  function WholeStream(streams: seq<Stream>, b: int, n: nat): (s: seq<HeapEntry>)
    requires 0 <= b < |streams| && n <= |streams[b].deltas|
    ensures |s| == n && forall o :: 0 <= o < n ==> s[o] == EntryFor(streams, b, o)
  {
    seq(n, o requires 0 <= o < n => EntryFor(streams, b, o))
  }

  lemma {:induction false} PrefixInOrder(streams: seq<Stream>, out: seq<HeapEntry>, k: nat, b: int)
    requires k <= |out| && 0 <= b < |streams| && forall i :: 0 <= i < |out| ==> IsChoice(streams, out[..i], out[i])
    ensures Emitted(out[..k], b) <= |streams[b].deltas|
    ensures Filter(OfBlock(b), out[..k]) == WholeStream(streams, b, Emitted(out[..k], b))
  {
    hide LexLess, Key;
    if k > 0 {
      PrefixInOrder(streams, out, k - 1, b);
      var h := out[k - 1];
      assert IsChoice(streams, out[..k - 1], h);
      assert out[..k] == out[..k - 1] + [h];
      EmittedStep(out[..k - 1], h, b);
      FilterAppend(OfBlock(b), out[..k - 1], [h]);
      FilterOne(OfBlock(b), h);
    }
  }

  /**
   * Conservation, with no assumption about order: each CTA's instructions are emitted exactly once, in
   * template order, and nothing else is.
   */
  lemma MergeConserves(streams: seq<Stream>, out: seq<HeapEntry>, b: int)
    requires IsMerge(streams, out)
    ensures 0 <= b < |streams| ==> Filter(OfBlock(b), out) == WholeStream(streams, b, |streams[b].deltas|)
    ensures !(0 <= b < |streams|) ==> Filter(OfBlock(b), out) == []
    ensures |out| == Lengths(streams)
  {
    hide LexLess, Key, Emitted;
    assert out[..|out|] == out;
    forall i | 0 <= i < |out| ensures 0 <= out[i].block < |streams| {
      assert IsChoice(streams, out[..i], out[i]);
    }
    if 0 <= b < |streams| {
      PrefixInOrder(streams, out, |out|, b);
    } else {
      FilterNone(OfBlock(b), out);
    }
    EmittedAtMost(streams, out);
    EmittedBelowIsLength(out, |streams|);
  }

  /** Every instruction of every CTA is popped at some point. */
  lemma EmittedSomewhere(streams: seq<Stream>, out: seq<HeapEntry>, b: int, ordinal: nat) returns (k: nat)
    requires IsMerge(streams, out) && 0 <= b < |streams| && ordinal < |streams[b].deltas|
    ensures k < |out| && out[k] == EntryFor(streams, b, ordinal)
  {
    hide IsMerge;
    MergeConserves(streams, out, b);
    var x := EntryFor(streams, b, ordinal);
    assert WholeStream(streams, b, |streams[b].deltas|)[ordinal] == x;
    FilteredFrom(OfBlock(b), out, x);
    k :| 0 <= k < |out| && out[k] == x;
  }

  // --------------------------------------------------------------------- order

  /** The CTA's times do not go back along its template. */
  predicate Monotone(s: Stream) {
    forall i :: 0 < i < |s.deltas| ==> s.deltas[i - 1] <= s.deltas[i]
  }

  ghost predicate StrictlyIncreasing(out: seq<HeapEntry>) {
    forall i :: 0 < i < |out| ==> LexLess(Key(out[i - 1]), Key(out[i]))
  }

  lemma OrderAtStep(streams: seq<Stream>, out: seq<HeapEntry>, i: nat)
    requires IsMerge(streams, out) && 0 < i < |out|
    requires forall b :: 0 <= b < |streams| ==> Monotone(streams[b])
    ensures LexLess(Key(out[i - 1]), Key(out[i]))
  {
    hide LexLess, Key, Emitted;
    var done, p, h := out[..i - 1], out[i - 1], out[i];
    assert IsChoice(streams, done, p) && IsChoice(streams, out[..i], h);
    assert out[..i] == done + [p];
    EmittedStep(done, p, h.block);
    if h.block == p.block {
      assert h.ordinal == p.ordinal + 1;
      var deltas := streams[h.block].deltas;
      assert Monotone(streams[h.block]) && deltas[h.ordinal - 1] <= deltas[h.ordinal];
      KeyOrder(p, h);
    } else {
      assert IsNext(streams, done, h);
      StrictOrEqual(p, h);
    }
  }

  lemma {:induction false} IncreasingApart(out: seq<HeapEntry>, i: nat, j: nat)
    requires StrictlyIncreasing(out) && i < j < |out|
    ensures LexLess(Key(out[i]), Key(out[j]))
    decreases j
  {
    hide LexLess, Key;
    if i < j - 1 {
      IncreasingApart(out, i, j - 1);
      LexTransitive(Key(out[i]), Key(out[j - 1]), Key(out[j]));
    }
  }

  /** Elements of a filtered sequence stand in the original at ascending places. */
  lemma {:induction false} PlacesOf<T>(p: T -> bool, xs: seq<T>, a: nat, b: nat) returns (i: nat, j: nat)
    requires a < b < |Filter(p, xs)|
    ensures i < j < |xs| && xs[i] == Filter(p, xs)[a] && xs[j] == Filter(p, xs)[b]
    decreases |xs|
  {
    if !p(xs[0]) {
      i, j := PlacesOf(p, xs[1..], a, b);
      i, j := i + 1, j + 1;
    } else if a > 0 {
      i, j := PlacesOf(p, xs[1..], a - 1, b - 1);
      i, j := i + 1, j + 1;
    } else {
      i := 0;
      var y := Filter(p, xs)[b];
      assert y == Filter(p, xs[1..])[b - 1];
      FilteredFrom(p, xs[1..], y);
      var k :| 0 <= k < |xs[1..]| && xs[1..][k] == y;
      j := k + 1;
    }
  }

  lemma IncreasingForcesMonotone(streams: seq<Stream>, out: seq<HeapEntry>, b: nat, o: nat)
    requires IsMerge(streams, out) && StrictlyIncreasing(out) && b < |streams| && 0 < o < |streams[b].deltas|
    ensures streams[b].deltas[o - 1] <= streams[b].deltas[o]
  {
    hide IsMerge, StrictlyIncreasing, LexLess, Key;
    MergeConserves(streams, out, b);
    var i, j := PlacesOf(OfBlock(b), out, o - 1, o);
    IncreasingApart(out, i, j);
    KeyOrder(out[i], out[j]);
  }

  /**
   * The popped keys ascend strictly over the whole run exactly when no CTA's times go back along its
   * own template.
   */
  lemma MergeOrderedExactlyWhenMonotone(streams: seq<Stream>, out: seq<HeapEntry>)
    requires IsMerge(streams, out)
    ensures StrictlyIncreasing(out) <==> forall b :: 0 <= b < |streams| ==> Monotone(streams[b])
  {
    hide IsMerge, LexLess, Key;
    if forall b :: 0 <= b < |streams| ==> Monotone(streams[b]) {
      forall i | 0 < i < |out| ensures LexLess(Key(out[i - 1]), Key(out[i])) {
        OrderAtStep(streams, out, i);
      }
    }
    if StrictlyIncreasing(out) {
      forall b, o | 0 <= b < |streams| && 0 < o < |streams[b].deltas|
        ensures streams[b].deltas[o - 1] <= streams[b].deltas[o]
      {
        IncreasingForcesMonotone(streams, out, b, o);
      }
    }
  }

  // ---------------------------------------------------------------- uniqueness

  lemma SameChoice(streams: seq<Stream>, done: seq<HeapEntry>, h: HeapEntry, k: HeapEntry)
    requires IsChoice(streams, done, h) && IsChoice(streams, done, k)
    ensures h == k
  {
    hide LexLess, Key, IsNext;
    if h != k {
      StrictOrEqual(h, k);
    }
  }

  lemma {:induction false} SamePrefix(streams: seq<Stream>, a: seq<HeapEntry>, b: seq<HeapEntry>, n: nat)
    requires IsMerge(streams, a) && IsMerge(streams, b) && n <= |a| && n <= |b|
    ensures a[..n] == b[..n]
  {
    hide IsChoice;
    if n > 0 {
      SamePrefix(streams, a, b, n - 1);
      assert IsChoice(streams, a[..n - 1], a[n - 1]) && IsChoice(streams, b[..n - 1], b[n - 1]);
      SameChoice(streams, a[..n - 1], a[n - 1], b[n - 1]);
      assert a[..n] == a[..n - 1] + [a[n - 1]] && b[..n] == b[..n - 1] + [b[n - 1]];
    }
  }

  /** The heap's choices leave no freedom: there is one run. */
  lemma MergeUnique(streams: seq<Stream>, a: seq<HeapEntry>, b: seq<HeapEntry>)
    requires IsMerge(streams, a) && IsMerge(streams, b)
    ensures a == b
  {
    hide IsMerge;
    MergeConserves(streams, a, 0);
    MergeConserves(streams, b, 0);
    SamePrefix(streams, a, b, |a|);
    assert a[..|a|] == a && b[..|b|] == b;
  }

  // ----------------------------------------------------------------- existence

  /** Among the next instructions of the unfinished CTAs below `n` there is a least one. */
  lemma {:induction false} LeastNext(streams: seq<Stream>, done: seq<HeapEntry>, n: nat) returns (least: seq<HeapEntry>)
    requires n <= |streams|
    ensures |least| <= 1
    ensures least == [] ==> forall k :: IsNext(streams, done, k) ==> k.block >= n
    ensures least != [] ==> IsNext(streams, done, least[0])
                            && forall k :: IsNext(streams, done, k) && k.block < n ==> LexLeq(Key(least[0]), Key(k))
    decreases n
  {
    hide Emitted, LexLess, Key;
    least := [];
    if n > 0 {
      least := LeastNext(streams, done, n - 1);
      var o := Emitted(done, n - 1);
      if o < |streams[n - 1].deltas| {
        var h := EntryFor(streams, n - 1, o);
        LexIrreflexive(Key(h));
        if least == [] {
          least := [h];
        } else if LexLess(Key(h), Key(least[0])) {
          forall k | IsNext(streams, done, k) && k.block < n ensures LexLeq(Key(h), Key(k)) {
            if k != h {
              LexAsymmetric(Key(h), Key(least[0]));
              LexLeqTransitive(Key(h), Key(least[0]), Key(k));
            }
          }
          least := [h];
        }
      }
    }
  }

  lemma {:induction false} MergeFrom(streams: seq<Stream>, done: seq<HeapEntry>) returns (out: seq<HeapEntry>)
    requires IsRun(streams, done)
    ensures IsMerge(streams, out)
    decreases Lengths(streams) - EmittedBelow(done, |streams|)
  {
    hide Emitted, IsNext, LexLess, Key, IsRun;
    var least := LeastNext(streams, done, |streams|);
    if least == [] {
      out := done;
      RunComplete(streams, done);
    } else {
      NextParts(streams, done, least[0]);
      InRange(streams, done);
      assert IsChoice(streams, done, least[0]);
      ExtendRun(streams, done, least[0]);
      out := MergeFrom(streams, done + [least[0]]);
    }
  }

  lemma InRange(streams: seq<Stream>, done: seq<HeapEntry>)
    ensures forall k :: IsNext(streams, done, k) ==> 0 <= k.block < |streams|
  {
    hide Emitted;
  }

  lemma RunComplete(streams: seq<Stream>, done: seq<HeapEntry>)
    requires IsRun(streams, done) && forall k :: IsNext(streams, done, k) ==> k.block >= |streams|
    ensures IsMerge(streams, done)
  {
    hide Emitted, LexLess, Key;
    forall b | 0 <= b < |streams| ensures Emitted(done, b) >= |streams[b].deltas| {
      UnfinishedHasNext(streams, done, b);
    }
  }

  /** Every family of streams can be merged. */
  lemma MergeExists(streams: seq<Stream>) returns (out: seq<HeapEntry>)
    ensures IsMerge(streams, out)
  {
    RunStarts(streams);
    out := MergeFrom(streams, []);
  }
}
