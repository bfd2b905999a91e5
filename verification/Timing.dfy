/** The order of `generate`'s output: for which profiles, and for which captures, times ascend. */
module Timing {
  import opened Common
  import opened Sequences
  import opened Order
  import opened Lanes
  import opened SlotIndex
  import opened CoordinateRules
  import opened Template
  import opened Holdout
  import opened Classes
  import opened Profile
  import opened ProfileRun
  import opened Merge
  import opened Generate
  import opened Schedule
  import opened OneLane

  // ------------------------------------------------------------ order of the output

  /** The CTA's own times do not go back along the template as ordered. */
  ghost predicate InOwnOrder(p: Profile, b: int) {
    forall i :: 0 < i < |OrderedTemplate(p, b)| ==>
      OwnDelta(OrderedTemplate(p, b)[i - 1], b) <= OwnDelta(OrderedTemplate(p, b)[i], b)
  }

  lemma OrderedExactlyWhen(p: Profile, issue: map<int, Placement>, n: nat, out: seq<HeapEntry>)
    requires issue.Keys == Blocks(n) && IsMerge(Streams(p, issue, n), out)
    ensures StrictlyIncreasing(out) <==> forall b :: 0 <= b < n ==> InOwnOrder(p, b)
  {
    hide IsMerge, StrictlyIncreasing, Blocks, OrderedTemplate, OwnDelta;
    var streams := Streams(p, issue, n);
    MergeOrderedExactlyWhenMonotone(streams, out);
    forall b | 0 <= b < n ensures Monotone(streams[b]) <==> InOwnOrder(p, b) {
      StreamMonotone(p, streams[b], b);
    }
  }

  lemma StreamMonotone(p: Profile, stream: Stream, b: int)
    requires stream.deltas == Map(DeltaAt(b), OrderedTemplate(p, b))
    ensures Monotone(stream) <==> InOwnOrder(p, b)
  {
    hide OrderedTemplate, OwnDelta;
    var t, d := OrderedTemplate(p, b), stream.deltas;
    if Monotone(stream) {
      forall i | 0 < i < |t| ensures OwnDelta(t[i - 1], b) <= OwnDelta(t[i], b) {
        assert d[i - 1] <= d[i];
      }
    }
    if InOwnOrder(p, b) {
      forall i | 0 < i < |d| ensures d[i - 1] <= d[i] {
        assert OwnDelta(t[i - 1], b) <= OwnDelta(t[i], b);
      }
    }
  }

  lemma KeyLeadsWithTime(x: int, i: int, y: int, j: int)
    requires LexLeq([x, i], [y, j])
    ensures x <= y
  {
    LexStep(y, [j], x, [i]);
    assert [y] + [j] == [y, j] && [x] + [i] == [x, i];
  }

  /** No entry has a table of its own for each CTA. */
  predicate NoTables(template: seq<Entry>) {
    forall i :: 0 <= i < |template| ==> template[i].deltaByCta == None
  }

  /** On the class path, and with one delta for all CTAs (revision r9), every CTA is in its own order. */
  lemma SharedOrOwnDeltasInOrder(p: Profile, b: int)
    requires p.Structural? || NoTables(p.template)
    ensures InOwnOrder(p, b)
  {
    hide SortBy, LexLess;
    var t := OrderedTemplate(p, b);
    OrderedPermutes(p, b);
    if p.Structural? {
      SortBySorts(OwnKey(b), TemplateFor(p, b));
      forall i | 0 < i < |t| ensures OwnDelta(t[i - 1], b) <= OwnDelta(t[i], b) {
        KeyLeadsWithTime(OwnDelta(t[i - 1], b), t[i - 1].ordinal, OwnDelta(t[i], b), t[i].ordinal);
      }
    } else {
      SortBySorts(AnchorKey, p.template);
      forall i | 0 < i < |t| ensures OwnDelta(t[i - 1], b) <= OwnDelta(t[i], b) {
        assert t[i - 1] in p.template && t[i] in p.template;
        KeyLeadsWithTime(t[i - 1].delta, t[i - 1].ordinal, t[i].delta, t[i].ordinal);
      }
    }
  }

  ghost predicate NonDecreasing<T>(g: T -> int, t: seq<T>) {
    forall i :: 0 < i < |t| ==> g(t[i - 1]) <= g(t[i])
  }

  /** `g` follows the order of the keys. */
  ghost predicate AscendsWith<T>(key: T -> seq<int>, g: T -> int, t: seq<T>) {
    forall i, j :: 0 <= i < |t| && 0 <= j < |t| && LexLess(key(t[i]), key(t[j])) ==> g(t[i]) <= g(t[j])
  }

  ghost predicate KeysIdentify<T>(key: T -> seq<int>, t: seq<T>) {
    forall i, j :: 0 <= i < |t| && 0 <= j < |t| && key(t[i]) == key(t[j]) ==> t[i] == t[j]
  }

  lemma {:induction false} NonDecreasingApart<T>(g: T -> int, t: seq<T>, i: nat, j: nat)
    requires NonDecreasing(g, t) && i <= j < |t|
    ensures g(t[i]) <= g(t[j])
    decreases j
  {
    if i < j {
      NonDecreasingApart(g, t, i, j - 1);
    }
  }

  lemma SortedForward<T>(key: T -> seq<int>, s: seq<T>, k: nat, l: nat)
    requires SortedBy(key, s) && k < |s| && l < |s|
    ensures LexLess(key(s[k]), key(s[l])) ==> k <= l
  {
    hide LexLess;
  }

  /** Sorting by a key puts `g` in order exactly when `g` follows the key. */
  lemma SortedAscendsWith<T>(key: T -> seq<int>, g: T -> int, t: seq<T>)
    requires KeysIdentify(key, t)
    ensures NonDecreasing(g, SortBy(key, t)) <==> AscendsWith(key, g, t)
  {
    hide SortBy, LexLess;
    var s := SortBy(key, t);
    SortByPermutes(key, t);
    SortBySorts(key, t);
    if NonDecreasing(g, s) {
      forall i, j | 0 <= i < |t| && 0 <= j < |t| && LexLess(key(t[i]), key(t[j])) ensures g(t[i]) <= g(t[j]) {
        assert t[i] in s && t[j] in s;
        var k :| 0 <= k < |s| && s[k] == t[i];
        var l :| 0 <= l < |s| && s[l] == t[j];
        SortedForward(key, s, k, l);
        NonDecreasingApart(g, s, k, l);
      }
    }
    if AscendsWith(key, g, t) {
      forall i | 0 < i < |s| ensures g(s[i - 1]) <= g(s[i]) {
        assert s[i - 1] in t && s[i] in t;
        var k :| 0 <= k < |t| && t[k] == s[i - 1];
        var l :| 0 <= l < |t| && t[l] == s[i];
        assert LexLeq(key(s[i - 1]), key(s[i]));
        LexTotal(key(s[i - 1]), key(s[i]));
      }
    }
  }

  /** One instruction of the anchor CTA is issued before another. */
  predicate Before(q: Record, r: Record) {
    q.timestamp < r.timestamp || (q.timestamp == r.timestamp && q.sequence < r.sequence)
  }

  /** When a CTA executes the instruction that the anchor's record `q` stands for. */
  function TimeInSlot(anchor: seq<Record>, records: seq<Record>, q: Record): int
    requires Indexable(anchor) && Indexable(records) && Slots(anchor) == Slots(records) && q in anchor
  {
    SlotDeterminesRecord(anchor, q);
    RecordAt(records, SlotOf(anchor, q)).timestamp
  }

  /** A CTA never executes in the opposite order what the anchor executes in one order. */
  ghost predicate KeepsAnchorOrder(anchor: seq<Record>, records: seq<Record>)
    requires Indexable(anchor) && Indexable(records) && Slots(anchor) == Slots(records)
  {
    forall q, r :: q in anchor && r in anchor && Before(q, r) ==>
      TimeInSlot(anchor, records, q) <= TimeInSlot(anchor, records, r)
  }

  /** The entry built `i`th stands for the anchor's record number `i` in sequence order. */
  ghost predicate StandsFor(e: Entry, i: nat, anchor: seq<Record>, records: seq<Record>, b: int, r: Record)
    requires Indexable(anchor) && Indexable(records) && Slots(anchor) == Slots(records)
    requires records != [] && anchor != []
  {
    && r in anchor && e.ordinal == i && e.delta == r.timestamp - MinTime(anchor)
    && OwnDelta(e, b) == TimeInSlot(anchor, records, r) - MinTime(records)
  }

  lemma AnchorKeysAreRecords(d: Entry, i: nat, q: Record, e: Entry, j: nat, r: Record, least: int)
    requires d.ordinal == i && e.ordinal == j && d.delta == q.timestamp - least && e.delta == r.timestamp - least
    requires i < j <==> q.sequence < r.sequence
    ensures LexLess(AnchorKey(d), AnchorKey(e)) <==> Before(q, r)
  {
    LexStep(d.delta, [d.ordinal], e.delta, [e.ordinal]);
    LexStep(d.ordinal, [], e.ordinal, []);
    assert [d.delta] + [d.ordinal] == AnchorKey(d) && [e.delta] + [e.ordinal] == AnchorKey(e);
    assert [d.ordinal] + [] == [d.ordinal] && [e.ordinal] + [] == [e.ordinal];
  }

  /** Entries against records: the template is the anchor in sequence order. */
  ghost predicate Stands(template: seq<Entry>, ordered: seq<Record>, anchor: seq<Record>, records: seq<Record>, b: int)
    requires Indexable(anchor) && Indexable(records) && Slots(anchor) == Slots(records)
  {
    && |template| == |ordered| && (forall r :: r in anchor <==> r in ordered)
    && (forall i, j :: 0 <= i < |ordered| && 0 <= j < |ordered| ==>
          (i < j <==> ordered[i].sequence < ordered[j].sequence))
    && (template != [] ==> records != [] && anchor != [])
    && forall i :: 0 <= i < |template| ==> StandsFor(template[i], i, anchor, records, b, ordered[i])
  }

  lemma StandsPairwise(template: seq<Entry>, ordered: seq<Record>, anchor: seq<Record>, records: seq<Record>, b: int,
                       i: nat, j: nat)
    requires Indexable(anchor) && Indexable(records) && Slots(anchor) == Slots(records)
    requires Stands(template, ordered, anchor, records, b) && i < |template| && j < |template|
    ensures ordered[i] in anchor && ordered[j] in anchor
    ensures LexLess(AnchorKey(template[i]), AnchorKey(template[j])) <==> Before(ordered[i], ordered[j])
    ensures OwnDelta(template[i], b) <= OwnDelta(template[j], b)
       <==> TimeInSlot(anchor, records, ordered[i]) <= TimeInSlot(anchor, records, ordered[j])
    ensures AnchorKey(template[i]) == AnchorKey(template[j]) ==> i == j
  {
    hide Slots, Indexable, TimeInSlot, LexLess, OwnDelta, MinTime, Before;
    assert StandsFor(template[i], i, anchor, records, b, ordered[i])
           && StandsFor(template[j], j, anchor, records, b, ordered[j]);
    AnchorKeysAreRecords(template[i], i, ordered[i], template[j], j, ordered[j], MinTime(anchor));
    if AnchorKey(template[i]) == AnchorKey(template[j]) {
      assert AnchorKey(template[i])[1] == AnchorKey(template[j])[1];
    }
  }

  lemma RecordPlace(template: seq<Entry>, ordered: seq<Record>, anchor: seq<Record>, records: seq<Record>, b: int,
                    q: Record)
    returns (i: nat)
    requires Indexable(anchor) && Indexable(records) && Slots(anchor) == Slots(records)
    requires Stands(template, ordered, anchor, records, b) && q in anchor
    ensures i < |template| == |ordered| && ordered[i] == q
  {
    hide Slots, Indexable, StandsFor;
    assert q in ordered;
    i :| 0 <= i < |ordered| && ordered[i] == q;
  }

  lemma AscendsExactlyWhenKept(template: seq<Entry>, ordered: seq<Record>, anchor: seq<Record>, records: seq<Record>,
                               b: int)
    requires Indexable(anchor) && Indexable(records) && Slots(anchor) == Slots(records)
    requires Stands(template, ordered, anchor, records, b)
    ensures AscendsWith(AnchorKey, DeltaAt(b), template) <==> KeepsAnchorOrder(anchor, records)
    ensures KeysIdentify(AnchorKey, template)
  {
    hide Slots, Indexable, TimeInSlot, LexLess, OwnDelta, Stands, Before, AnchorKey;
    if KeepsAnchorOrder(anchor, records) {
      forall i, j | 0 <= i < |template| && 0 <= j < |template|
        && LexLess(AnchorKey(template[i]), AnchorKey(template[j]))
        ensures DeltaAt(b)(template[i]) <= DeltaAt(b)(template[j])
      {
        StandsPairwise(template, ordered, anchor, records, b, i, j);
      }
    }
    if AscendsWith(AnchorKey, DeltaAt(b), template) {
      forall q, r | q in anchor && r in anchor && Before(q, r)
        ensures TimeInSlot(anchor, records, q) <= TimeInSlot(anchor, records, r)
      {
        var i := RecordPlace(template, ordered, anchor, records, b, q);
        var j := RecordPlace(template, ordered, anchor, records, b, r);
        StandsPairwise(template, ordered, anchor, records, b, i, j);
        assert DeltaAt(b)(template[i]) <= DeltaAt(b)(template[j]);
      }
    }
    forall i, j | 0 <= i < |template| && 0 <= j < |template| && AnchorKey(template[i]) == AnchorKey(template[j])
      ensures template[i] == template[j]
    {
      StandsPairwise(template, ordered, anchor, records, b, i, j);
    }
  }

  // -------------------------------------------------- captures and their order

  lemma SequenceOrder(records: seq<Record>)
    requires DistinctSequences(records)
    ensures var t := SortBy(SequenceKey, records);
      forall i, j :: 0 <= i < |t| && 0 <= j < |t| ==> (i < j <==> t[i].sequence < t[j].sequence)
  {
    hide SortBy, LexLess;
    var t := SortBy(SequenceKey, records);
    SortByPermutes(SequenceKey, records);
    SortBySorts(SequenceKey, records);
    forall i, j | 0 <= i < j < |t| ensures t[i].sequence < t[j].sequence {
      SequenceKeys(t[i], t[j]);
      SequencesMakeDistinct(records);
      PermutationDistinct(records, t);
      assert t[i] in records && t[j] in records && t[i] != t[j];
    }
  }

  lemma SequenceKeys(q: Record, r: Record)
    ensures LexLeq(SequenceKey(q), SequenceKey(r)) <==> q.sequence <= r.sequence
  {
    LexStep(r.sequence, [], q.sequence, []);
    assert [q.sequence] + [] == SequenceKey(q) && [r.sequence] + [] == SequenceKey(r);
  }

  lemma StandsAt(sampled: map<int, seq<Record>>, indexed: map<int, Index>, ctas: seq<int>, dims: Dims, options: Options,
                 template: seq<Entry>, b: int, i: nat)
    requires Prepared(sampled, indexed, ctas) && BuildTemplate(sampled, indexed, ctas, dims, options) == Ok(template)
    requires options.exactTable && b in ctas && i < |template|
    requires ctas[0] in sampled && b in sampled && Indexable(sampled[ctas[0]]) && Indexable(sampled[b])
    requires Slots(sampled[ctas[0]]) == Slots(sampled[b])
    ensures sampled[b] != [] && sampled[ctas[0]] != [] && |template| == |SortBy(SequenceKey, sampled[ctas[0]])|
    ensures StandsFor(template[i], i, sampled[ctas[0]], sampled[b], b, SortBy(SequenceKey, sampled[ctas[0]])[i])
  {
    hide BuildTemplate, Slots, SortBy, Prepared, BuildEntry, MinTime, TimeInSlot, RecordAt, Indexable, Readable,
      SlotOf;
    var r := EntryOrigin(sampled, indexed, ctas, dims, options, template, i);
    EntryTimes(sampled, indexed, ctas, dims, options, i, r, template[i], b);
    TimedByOwnDelta(template[i], b);
    SlotTime(sampled[ctas[0]], sampled[b], r);
  }

  lemma UniformStands(sampled: map<int, seq<Record>>, s: Setup, template: seq<Entry>, b: int)
    requires WellSampled(sampled, Selected(s)) && ProfileOf(sampled, s) == Ok(Uniform(template))
    requires s.complete && s.uniformTables && 0 <= b < s.n && SlotsAgree(sampled, s.n)
    ensures Stands(template, SortBy(SequenceKey, sampled[0]), sampled[0], sampled[b], b)
  {
    hide ProfileOf, BuildTemplate, Slots, SortBy, Prepared, StandsFor, Indexes, Indexable, IndexableAt, WellSampled;
    var p := Uniform(template);
    GridSelected(sampled, s, p);
    var ctas, options := TemplateOrigin(sampled, s, p, b);
    assert ctas[0] == 0;
    SortByPermutes(SequenceKey, sampled[0]);
    SequencesOf(sampled[0]);
    SequenceOrder(sampled[0]);
    UniformTemplateLength(sampled, s, p);
    if template != [] {
      StandsAt(sampled, Indexes(sampled, Selected(s)), ctas, s.dims, options, template, b, 0);
    }
    forall i | 0 <= i < |template|
      ensures StandsFor(template[i], i, sampled[0], sampled[b], b, SortBy(SequenceKey, sampled[0])[i])
    {
      StandsAt(sampled, Indexes(sampled, Selected(s)), ctas, s.dims, options, template, b, i);
    }
  }

  lemma SequencesOf(records: seq<Record>)
    requires Indexable(records)
    ensures DistinctSequences(records)
  {
  }

  lemma SlotTime(anchor: seq<Record>, records: seq<Record>, q: Record)
    requires Indexable(anchor) && Indexable(records) && Slots(anchor) == Slots(records) && q in anchor && Readable(q)
    requires SlotOf(anchor, q) in Slots(records)
    ensures TimeInSlot(anchor, records, q) == RecordAt(records, SlotOf(anchor, q)).timestamp
  {
  }

  /** All CTAs of the grid have the structure of CTA 0. */
  ghost predicate SlotsAgree(sampled: map<int, seq<Record>>, n: nat) {
    n > 0 && 0 in sampled && Indexable(sampled[0])
    && forall b :: 0 <= b < n ==> b in sampled && Indexable(sampled[b]) && Slots(sampled[b]) == Slots(sampled[0])
  }

  lemma UniformSlotsAgree(sampled: map<int, seq<Record>>, s: Setup, p: Profile)
    requires WellSampled(sampled, Selected(s)) && ProfileOf(sampled, s) == Ok(p) && p.Uniform? && s.complete
    ensures SlotsAgree(sampled, s.n)
  {
    hide ProfileOf, Slots, Indexable;
    GridSelected(sampled, s, p);
    UniformHomogeneous(sampled, s, p);
    forall b | 0 <= b < s.n ensures Slots(sampled[b]) == Slots(sampled[0]) {
      assert Selected(s)[b] == b && Selected(s)[0] == 0;
      assert Structures(sampled, Selected(s))[b] == Structures(sampled, Selected(s))[0];
    }
  }

  /**
   * Revision r10 on a uniform complete grid: the merged output is in order of absolute time exactly when
   * no CTA executes any two instructions in the opposite order of CTA 0.
   */
  lemma UniformTablesOrderedExactlyWhen(sampled: map<int, seq<Record>>, s: Setup, p: Profile,
                                        issue: map<int, Placement>, out: seq<HeapEntry>)
    requires WellSampled(sampled, Selected(s)) && ProfileOf(sampled, s) == Ok(p) && p.Uniform?
    requires s.complete && s.uniformTables
    requires issue.Keys == Blocks(s.n) && IsMerge(Streams(p, issue, s.n), out)
    ensures SlotsAgree(sampled, s.n)
    ensures StrictlyIncreasing(out) <==> forall b :: 0 <= b < s.n ==> KeepsAnchorOrder(sampled[0], sampled[b])
  {
    hide ProfileOf, IsMerge, StrictlyIncreasing, Slots, Indexable, SortBy, KeepsAnchorOrder, Blocks, Stands;
    UniformSlotsAgree(sampled, s, p);
    OrderedExactlyWhen(p, issue, s.n, out);
    forall b | 0 <= b < s.n ensures InOwnOrder(p, b) <==> KeepsAnchorOrder(sampled[0], sampled[b]) {
      UniformStands(sampled, s, p.template, b);
      AscendsExactlyWhenKept(p.template, SortBy(SequenceKey, sampled[0]), sampled[0], sampled[b], b);
      SortedAscendsWith(AnchorKey, DeltaAt(b), p.template);
      OwnOrderIsNonDecreasing(p, b);
    }
  }

  lemma OwnOrderIsNonDecreasing(p: Profile, b: int)
    requires p.Uniform?
    ensures InOwnOrder(p, b) <==> NonDecreasing(DeltaAt(b), SortBy(AnchorKey, p.template))
  {
    hide SortBy, OwnDelta;
    var t := SortBy(AnchorKey, p.template);
    assert OrderedTemplate(p, b) == t;
    if NonDecreasing(DeltaAt(b), t) {
      forall i | 0 < i < |t| ensures OwnDelta(t[i - 1], b) <= OwnDelta(t[i], b) {
        assert DeltaAt(b)(t[i - 1]) <= DeltaAt(b)(t[i]);
      }
    }
    if InOwnOrder(p, b) {
      forall i | 0 < i < |t| ensures DeltaAt(b)(t[i - 1]) <= DeltaAt(b)(t[i]) {
        assert OwnDelta(t[i - 1], b) <= OwnDelta(t[i], b);
      }
    }
  }

  lemma SelectedSome(sampled: map<int, seq<Record>>, s: Setup)
    requires WellSampled(sampled, Selected(s)) && ProfileOf(sampled, s).Ok?
    ensures s.n > 0
  {
    hide ProfileOf, CtaCount;
    SelectionOfOk(sampled, s);
    assert Selected(s)[0] == s.train[0];
  }

  /** Structural classes, profiles with held-out CTAs, and revision r9 on a uniform grid always come out in order. */
  lemma AlwaysOrdered(sampled: map<int, seq<Record>>, s: Setup, p: Profile, issue: map<int, Placement>,
                      out: seq<HeapEntry>)
    requires WellSampled(sampled, Selected(s)) && ProfileOf(sampled, s) == Ok(p)
    requires p.Structural? || !s.complete || !s.uniformTables
    requires issue.Keys == Blocks(s.n) && IsMerge(Streams(p, issue, s.n), out)
    ensures StrictlyIncreasing(out)
  {
    hide ProfileOf, IsMerge, StrictlyIncreasing, Blocks, InOwnOrder, BuildTemplate, BuildEntry, Prepared, Indexes,
      IndexableAt;
    OrderedExactlyWhen(p, issue, s.n, out);
    if p.Uniform? {
      SelectedSome(sampled, s);
      var ctas, options := TemplateOrigin(sampled, s, p, 0);
      forall i | 0 <= i < |p.template| ensures p.template[i].deltaByCta == None {
        var r := EntryOrigin(sampled, Indexes(sampled, Selected(s)), ctas, s.dims, options, p.template, i);
        EntryTimes(sampled, Indexes(sampled, Selected(s)), ctas, s.dims, options, i, r, p.template[i], 0);
      }
    }
    forall b | 0 <= b < s.n ensures InOwnOrder(p, b) {
      SharedOrOwnDeltasInOrder(p, b);
    }
  }

  // ------------------------------------------------------------ a counterexample

  /** Two CTAs that execute the same two instructions in opposite orders. */
  function ReversedPair(): map<int, seq<Record>> {
    map[0 := [Access(0, "LDG", 0, 256, 0), Access(0, "STG", 10, 256, 1)],
        1 := [Access(1, "STG", 0, 256, 2), Access(1, "LDG", 10, 256, 3)]]
  }

  const PAIR := Setup([0, 1], [], true, true, true, Dims(2, 1, 1), 2)

  lemma PairIndexable(b: int)
    requires b == 0 || b == 1
    ensures Indexable(ReversedPair()[b]) && WellSampledAt(ReversedPair(), b)
  {
    hide Readable, SignatureOf;
    AccessReadable(0, "LDG", 0, 256, 0);
    AccessReadable(0, "STG", 10, 256, 1);
    AccessReadable(1, "STG", 0, 256, 2);
    AccessReadable(1, "LDG", 10, 256, 3);
  }

  lemma PairSameSlots()
    ensures Indexable(ReversedPair()[0]) && Indexable(ReversedPair()[1])
    ensures Slots(ReversedPair()[0]) == Slots(ReversedPair()[1])
  {
    hide Slots, Readable, SignatureOf, Access;
    PairIndexable(0);
    PairIndexable(1);
    var a, b := ReversedPair()[0], ReversedPair()[1];
    AccessReadable(0, "LDG", 0, 256, 0);
    AccessReadable(0, "STG", 10, 256, 1);
    AccessReadable(1, "STG", 0, 256, 2);
    AccessReadable(1, "LDG", 10, 256, 3);
    var load, store := SignatureOf(Access(0, "LDG", 0, 0, 0)), SignatureOf(Access(0, "STG", 0, 0, 0));
    assert Map(SignatureOf, a) == [load, store] && Map(SignatureOf, b) == [store, load];
    SameSlotsSameSignatures(a, b);
  }

  /** The pair is profiled as a uniform grid. */
  lemma PairProfile() returns (p: Profile)
    ensures WellSampled(ReversedPair(), Selected(PAIR)) && ProfileOf(ReversedPair(), PAIR) == Ok(p) && p.Uniform?
  {
    hide Slots, Indexable, BuildTemplate, ClassList, Groups, GatePasses, Indexes, ClassMap, ReversedPair;
    PairIndexable(0);
    PairIndexable(1);
    PairSameSlots();
    assert Selected(PAIR) == [0, 1] == Range(2);
    assert SelectionOk(PAIR);
    assert IndexableAt(ReversedPair(), [0, 1]);
    assert Homogeneous(Structures(ReversedPair(), Selected(PAIR)));
    PairReadable();
    CompleteProfileSucceeds(ReversedPair(), PAIR);
    p := ProfileOf(ReversedPair(), PAIR).value;
  }

  lemma PairReadable()
    ensures ReadableAt(ReversedPair(), [0, 1])
  {
    hide Readable;
    PairIndexable(0);
    PairIndexable(1);
  }

  lemma PairTime(q: Record, r: Record)
    requires Indexable(ReversedPair()[0]) && Indexable(ReversedPair()[1])
    requires Slots(ReversedPair()[0]) == Slots(ReversedPair()[1])
    requires q in ReversedPair()[0] && r in ReversedPair()[1] && q.opcode == r.opcode
    ensures TimeInSlot(ReversedPair()[0], ReversedPair()[1], q) == r.timestamp
  {
    hide Slots, Rank, Signature, RecordAt;
    var a, b := ReversedPair()[0], ReversedPair()[1];
    SlotDeterminesRecord(a, q);
    var x := RecordAt(b, SlotOf(a, q));
    assert SigOf(x).opcode == SigOf(q).opcode;
    assert SigOf(x).opcode == x.opcode && SigOf(q).opcode == q.opcode;
    assert x in b;
  }

  /** Under revision r10, a merge of the reversed pair is never in order of time, whatever the issue map. */
  lemma ReversedPairOutOfOrder(issue: map<int, Placement>, out: seq<HeapEntry>)
    requires issue.Keys == Blocks(2)
    ensures WellSampled(ReversedPair(), Selected(PAIR)) && ProfileOf(ReversedPair(), PAIR).Ok?
    ensures IsMerge(Streams(ProfileOf(ReversedPair(), PAIR).value, issue, 2), out) ==> !StrictlyIncreasing(out)
  {
    hide ProfileOf, Slots, Indexable, IsMerge, StrictlyIncreasing, TimeInSlot, Blocks;
    var p := PairProfile();
    if IsMerge(Streams(p, issue, 2), out) {
      UniformTablesOrderedExactlyWhen(ReversedPair(), PAIR, p, issue, out);
      var q, r := ReversedPair()[0][0], ReversedPair()[0][1];
      PairTime(q, ReversedPair()[1][1]);
      PairTime(r, ReversedPair()[1][0]);
      assert Before(q, r);
      assert !KeepsAnchorOrder(ReversedPair()[0], ReversedPair()[1]);
    }
  }
}
