/** Sampled profiles: what they say about CTAs that were never captured, and when they are accepted. */
module Extrapolation {
  import opened Common
  import opened Sequences
  import opened Order
  import opened Lanes
  import opened SlotIndex
  import opened CoordinateRules
  import opened Cascade
  import opened Coverage
  import opened Template
  import opened Meaning
  import opened Holdout
  import opened Classes
  import opened Profile
  import opened ProfileRun

  /**
   * The kernel's address law: for every slot and address group, the rule that the bases follow. It is the
   * truth the fitters look for, not anything they are given.
   */
  type Law = (Slot, nat) -> Rule

  predicate HasBase(records: seq<Record>, slot: Slot, g: nat, base: Result<int>)
    requires Indexable(records) && slot in Slots(records)
  {
    g < |RecordAt(records, slot).groups| && base == Ok(RecordAt(records, slot).groups[g].base)
  }

  /** A CTA has the anchor's structure, and its bases are those of the law. */
  ghost predicate Follows(law: Law, anchor: seq<Record>, records: seq<Record>, b: int, dims: Dims) {
    && Indexable(anchor) && Indexable(records) && Slots(records) == Slots(anchor)
    && forall slot, g: nat :: slot in Slots(anchor) && g < |slot.sig.offsets| ==>
         HasBase(records, slot, g, Predict(law(slot, g), b, dims))
  }

  /** The truth that training CTAs single out: in a covered coordinate family, or on the line of flat CTA numbers. */
  ghost predicate Identified(points: seq<Point>, dims: Dims, options: Options, truth: Rule) {
    if options.coordinates then PointsInGrid(points, dims) && points != [] && Covered(points, dims, truth)
    else truth.Flat? && exists i :: 0 < i < |points| && points[i].block != points[0].block
  }

  /** The training CTAs single out the law at every slot and group. */
  ghost predicate TrainingIdentifies(law: Law, anchor: seq<Record>, indexed: map<int, Index>, train: seq<int>,
                                     dims: Dims, options: Options)
  {
    Indexable(anchor) && forall slot, g: nat :: slot in Slots(anchor) && g < |slot.sig.offsets| ==>
      SlotEverywhere(indexed, train, slot, g)
      && Identified(Points(indexed, train, slot, g), dims, options, law(slot, g))
  }

  // ---------------------------------------------------------------- one base

  lemma FlatIdentified(points: seq<Point>, truth: Rule, dims: Dims)
    requires truth.Flat? && Fits(truth, points, dims)
    requires exists i :: 0 < i < |points| && points[i].block != points[0].block
    ensures FitFlat(points) == Ok(truth)
  {
    hide Slope, Predict, First, Fits;
    var i :| 0 < i < |points| && points[i].block != points[0].block;
    var k := First(OtherBlock(points[0].block), points[1..]);
    assert OtherBlock(points[0].block)(points[1..][i - 1]);
    assert points[1..][k] == points[k + 1];
    var p, q := points[0], points[k + 1];
    FlatAt(truth, points, 0, dims);
    FlatAt(truth, points, k + 1, dims);
    RiseOfRun(truth.intercept, truth.stride, p.block, q.block);
    SlopeOfMultiple(q.block - p.block, truth.stride);
    forall j | 0 <= j < |points| ensures truth.intercept + truth.stride * points[j].block == points[j].address {
      FlatAt(truth, points, j, dims);
    }
  }

  lemma FlatAt(truth: Rule, points: seq<Point>, j: nat, dims: Dims)
    requires truth.Flat? && Fits(truth, points, dims) && j < |points|
    ensures truth.intercept + truth.stride * points[j].block == points[j].address
  {
    assert Predict(truth, points[j].block, dims) == Ok(points[j].address);
  }

  lemma RiseOfRun(c: int, s: int, x: int, y: int)
    ensures (c + s * y) - (c + s * x) == s * (y - x)
    ensures (c + s * x) - s * x == c
  {
  }

  /** The fitted rule gives the true base at any CTA of the grid. */
  lemma IdentifiedPredicts(points: seq<Point>, dims: Dims, options: Options, truth: Rule, b: int)
    requires Identified(points, dims, options, truth) && Fits(truth, points, dims) && 0 <= b < CtaCount(dims)
    ensures FitBase(points, dims, options).Ok?
    ensures Predict(FitBase(points, dims, options).value, b, dims) == Predict(truth, b, dims)
  {
    hide FitCoordinateRule, FitFlat, Covered, Predict;
    if options.coordinates {
      IdentifiedExactlyWhenCovered(points, dims, truth);
      assert InGrid(points[0].block, dims);
      assert InGrid(b, dims);
    } else {
      FlatIdentified(points, truth, dims);
    }
  }

  // ---------------------------------------------------------------- one entry

  lemma LawFits(law: Law, anchor: seq<Record>, sampled: map<int, seq<Record>>, indexed: map<int, Index>,
                train: seq<int>, dims: Dims, slot: Slot, g: nat)
    requires Indexable(anchor) && Prepared(sampled, indexed, train) && SlotEverywhere(indexed, train, slot, g)
    requires slot in Slots(anchor) && g < |slot.sig.offsets|
    requires forall i :: 0 <= i < |train| ==>
               train[i] in sampled && Follows(law, anchor, sampled[train[i]], train[i], dims)
    ensures Fits(law(slot, g), Points(indexed, train, slot, g), dims)
  {
    hide Slots, RecordAt, Predict, SlotOf, Indexable;
    var points := Points(indexed, train, slot, g);
    forall i | 0 <= i < |points| ensures Predict(law(slot, g), points[i].block, dims) == Ok(points[i].address) {
      assert PreparedAt(sampled, indexed, train[i]);
      assert Follows(law, anchor, sampled[train[i]], train[i], dims);
      assert HasBase(sampled[train[i]], slot, g, Predict(law(slot, g), train[i], dims));
    }
  }

  /** Every CTA trained on follows the law, and together they single it out. */
  ghost predicate Trained(law: Law, anchor: seq<Record>, sampled: map<int, seq<Record>>, indexed: map<int, Index>,
                          train: seq<int>, dims: Dims, options: Options)
  {
    && Indexable(anchor) && Prepared(sampled, indexed, train)
    && (forall i :: 0 <= i < |train| ==> train[i] in sampled && Follows(law, anchor, sampled[train[i]], train[i], dims))
    && TrainingIdentifies(law, anchor, indexed, train, dims, options)
  }

  lemma GroupRule(law: Law, anchor: seq<Record>, sampled: map<int, seq<Record>>, indexed: map<int, Index>,
                  train: seq<int>, dims: Dims, options: Options, slot: Slot, g: nat, b: int)
    requires Trained(law, anchor, sampled, indexed, train, dims, options)
    requires slot in Slots(anchor) && g < |slot.sig.offsets| && 0 <= b < CtaCount(dims)
    ensures SlotEverywhere(indexed, train, slot, g) && FitBase(Points(indexed, train, slot, g), dims, options).Ok?
    ensures Predict(FitBase(Points(indexed, train, slot, g), dims, options).value, b, dims)
            == Predict(law(slot, g), b, dims)
  {
    hide Slots, Predict, FitBase, Prepared, Follows, Identified, CtaCount, Indexable;
    assert SlotEverywhere(indexed, train, slot, g)
           && Identified(Points(indexed, train, slot, g), dims, options, law(slot, g));
    LawFits(law, anchor, sampled, indexed, train, dims, slot, g);
    IdentifiedPredicts(Points(indexed, train, slot, g), dims, options, law(slot, g), b);
  }

  lemma {:induction false} LawRules(law: Law, anchor: seq<Record>, sampled: map<int, seq<Record>>,
                                    indexed: map<int, Index>, train: seq<int>, dims: Dims, options: Options, slot: Slot,
                                    groups: nat)
    requires Trained(law, anchor, sampled, indexed, train, dims, options) && CtaCount(dims) > 0
    requires slot in Slots(anchor) && groups <= |slot.sig.offsets|
    ensures SlotRules(indexed, train, slot, groups, dims, options).Ok?
    decreases groups
  {
    hide Trained, FitBase, Slots, SlotEverywhere, CtaCount, Indexable;
    if groups > 0 {
      assert Indexable(anchor) by { TrainedAnchor(law, anchor, sampled, indexed, train, dims, options); }
      LawRules(law, anchor, sampled, indexed, train, dims, options, slot, groups - 1);
      GroupRule(law, anchor, sampled, indexed, train, dims, options, slot, groups - 1, 0);
    }
  }

  lemma TrainedAnchor(law: Law, anchor: seq<Record>, sampled: map<int, seq<Record>>, indexed: map<int, Index>,
                      train: seq<int>, dims: Dims, options: Options)
    requires Trained(law, anchor, sampled, indexed, train, dims, options)
    ensures Indexable(anchor) && Prepared(sampled, indexed, train)
  {
  }

  /** The rules of a slot predict the law's bases at any CTA of the grid that follows the law, captured or not. */
  lemma SlotExtrapolates(law: Law, anchor: seq<Record>, sampled: map<int, seq<Record>>, indexed: map<int, Index>,
                         train: seq<int>, dims: Dims, options: Options, slot: Slot, b: int, records: seq<Record>)
    requires Trained(law, anchor, sampled, indexed, train, dims, options)
    requires Follows(law, anchor, records, b, dims) && slot in Slots(anchor) && 0 <= b < CtaCount(dims)
    ensures Indexable(records) && slot in Slots(records) && |RecordAt(records, slot).groups| == |slot.sig.offsets|
    ensures SlotRules(indexed, train, slot, |slot.sig.offsets|, dims, options).Ok?
    ensures PredictBases(SlotRules(indexed, train, slot, |slot.sig.offsets|, dims, options).value, b, dims)
         == Ok(Bases(RecordAt(records, slot).groups))
  {
    hide Trained, FitBase, Slots, SlotEverywhere, CtaCount, SlotRules, PredictBases, RecordAt, Predict, Signature;
    LawRules(law, anchor, sampled, indexed, train, dims, options, slot, |slot.sig.offsets|);
    RecordAtSignature(records, slot);
    var rules := SlotRules(indexed, train, slot, |slot.sig.offsets|, dims, options).value;
    var x := RecordAt(records, slot);
    forall g | 0 <= g < |rules| ensures Predict(rules[g], b, dims) == Ok(Bases(x.groups)[g]) {
      SlotRulesAre(indexed, train, slot, |slot.sig.offsets|, dims, options, g);
      GroupRule(law, anchor, sampled, indexed, train, dims, options, slot, g, b);
      assert HasBase(records, slot, g, Predict(law(slot, g), b, dims));
    }
    PredictBasesAre(rules, b, dims, Bases(x.groups));
  }

  // ------------------------------------------------------------ whole templates

  lemma EntryExtrapolates(law: Law, sampled: map<int, seq<Record>>, indexed: map<int, Index>, train: seq<int>,
                          dims: Dims, options: Options, ordinal: nat, r: Record, e: Entry, b: int, records: seq<Record>)
    requires train != [] && AllNonEmpty(sampled, train) && r in sampled[train[0]]
    requires Trained(law, sampled[train[0]], sampled, indexed, train, dims, options)
    requires Follows(law, sampled[train[0]], records, b, dims) && 0 <= b < CtaCount(dims)
    requires BuildEntry(sampled, indexed, train, dims, options, ordinal, r) == Ok(e)
    ensures Indexable(sampled[train[0]]) && Indexable(records) && Readable(r)
    ensures SlotOf(sampled[train[0]], r) in Slots(records) && Slots(records) == Slots(sampled[train[0]])
    ensures EntrySlot(e) == Ok(SlotOf(sampled[train[0]], r))
    ensures PredictBases(e.rules, b, dims) == Ok(Bases(RecordAt(records, SlotOf(sampled[train[0]], r)).groups))
    ensures EntryEvent(e, b, dims) == EventOf(RecordAt(records, SlotOf(sampled[train[0]], r)))
  {
    var anchor := sampled[train[0]];
    TrainedAnchor(law, anchor, sampled, indexed, train, dims, options);
    assert PreparedAt(sampled, indexed, train[0]);
    EntryShape(sampled, indexed, train, dims, options, ordinal, r, e);
    hide Trained, BuildEntry, SlotRules, PredictBases, Slots, RecordAt, SlotOf, Signature, CtaCount, EntrySlot,
      IndexOf, EntryEvent, MinTime, AllNonEmpty, Predict;
    SlotDeterminesRecord(anchor, r);
    var slot := SlotOf(anchor, r);
    RecordAtSignature(anchor, slot);
    SlotExtrapolates(law, anchor, sampled, indexed, train, dims, options, slot, b, records);
    EventFromBases(e, slot, records, b, dims);
  }

  /**
   * Extrapolation. A template built from CTAs that single out the kernel's address law stands, at any CTA
   * of the grid that has the anchor's structure and follows the law, for exactly that CTA's events: seen or not.
   */
  lemma TemplateExtrapolates(law: Law, sampled: map<int, seq<Record>>, indexed: map<int, Index>, train: seq<int>,
                             dims: Dims, options: Options, template: seq<Entry>, b: int, records: seq<Record>)
    requires train != [] && Prepared(sampled, indexed, train) && train[0] in sampled
    requires BuildTemplate(sampled, indexed, train, dims, options) == Ok(template)
    requires Trained(law, sampled[train[0]], sampled, indexed, train, dims, options)
    requires Follows(law, sampled[train[0]], records, b, dims) && 0 <= b < CtaCount(dims)
    ensures Reproduces(template, b, dims, records)
  {
    hide BuildEntries, SortBy, Slots, RecordAt, SlotOf, EntryEvent, EventOf, CtaCount, IndexOf, Readable, Trained,
      EntrySlot, PredictBases, Predict, Prepared;
    var anchor := sampled[train[0]];
    if anchor == [] {
      NoSlotsIffEmpty(anchor);
      NoSlotsIffEmpty(records);
      assert template == [] && records == [];
      assert Map(EventAt(b, dims), template) == Map(EventOf, records);
    } else {
      var ordered := SortBy(SequenceKey, anchor);
      OrderedAnchor(anchor);
      forall i | 0 <= i < |template|
        ensures EntryEvent(template[i], b, dims) == EventOf(Counterparts(anchor, ordered, records)[i])
      {
        EntryComesFrom(sampled, indexed, train, dims, options, ordered, i);
        EntryExtrapolates(law, sampled, indexed, train, dims, options, i, ordered[i], template[i], b, records);
      }
      MeaningFromEntries(template, anchor, ordered, records, b, dims);
    }
  }

  // ------------------------------------------------------------ sampled profiles

  /** The selected CTAs follow the law, and the CTAs trained on single it out. */
  ghost predicate LawSampled(law: Law, sampled: map<int, seq<Record>>, s: Setup) {
    hide Indexable, Follows, TrainingIdentifies, Indexes;
    && IndexableAt(sampled, Selected(s)) && s.train != [] && s.train[0] in sampled
    && (forall i :: 0 <= i < |Selected(s)| ==>
          Selected(s)[i] in sampled
          && Follows(law, sampled[s.train[0]], sampled[Selected(s)[i]], Selected(s)[i], s.dims))
    && TrainingIdentifies(law, sampled[s.train[0]], Indexes(sampled, Selected(s)), s.train, s.dims,
        Options(s.memc, false))
  }

  lemma LawTrained(law: Law, sampled: map<int, seq<Record>>, s: Setup)
    requires LawSampled(law, sampled, s)
    ensures Prepared(sampled, Indexes(sampled, Selected(s)), s.train)
    ensures Trained(law, sampled[s.train[0]], sampled, Indexes(sampled, Selected(s)), s.train, s.dims,
              Options(s.memc, false))
  {
    hide Follows, TrainingIdentifies, Prepared, Indexes, Indexable, IndexableAt;
    TrainPrepared(sampled, s);
    forall i | 0 <= i < |s.train| ensures Selected(s)[i] == s.train[i] {
    }
    assert Follows(law, sampled[s.train[0]], sampled[Selected(s)[0]], Selected(s)[0], s.dims);
    FollowsAnchor(law, sampled[s.train[0]], sampled[Selected(s)[0]], Selected(s)[0], s.dims);
  }

  lemma FollowsAnchor(law: Law, anchor: seq<Record>, records: seq<Record>, b: int, dims: Dims)
    requires Follows(law, anchor, records, b, dims)
    ensures Indexable(anchor) && Indexable(records) && Slots(records) == Slots(anchor)
  {
    hide Slots, Indexable;
  }

  /** A sampled profile means every CTA of the grid that follows the law, although most were never captured. */
  lemma SampledProfileExtrapolates(law: Law, sampled: map<int, seq<Record>>, s: Setup, p: Profile, b: int,
                                   records: seq<Record>)
    requires WellSampled(sampled, Selected(s)) && ProfileOf(sampled, s) == Ok(p) && !s.complete && 0 <= b < s.n
    requires LawSampled(law, sampled, s) && Follows(law, sampled[s.train[0]], records, b, s.dims)
    ensures Reproduces(TemplateFor(p, b), b, s.dims, records)
  {
    hide BuildTemplate, Reproduces, CtaCount, Slots, Indexable, Shaped, GatePasses, IndexOf, Follows, LawSampled,
      Trained, Prepared, Homogeneous, ClassList, Groups;
    IndexableFrom(sampled, Selected(s));
    TrainPrepared(sampled, s);
    TrainBelow(s);
    LawTrained(law, sampled, s);
    TemplateExtrapolates(law, sampled, Indexes(sampled, Selected(s)), s.train, s.dims, Options(s.memc, false),
                         p.template, b, records);
  }

  // --------------------------------------------------------------- acceptance

  lemma AnchorSlot(sampled: map<int, seq<Record>>, indexed: map<int, Index>, train: seq<int>, r: Record)
    requires train != [] && Prepared(sampled, indexed, train) && train[0] in sampled && r in sampled[train[0]]
    ensures Indexable(sampled[train[0]]) && Readable(r) && SlotOf(sampled[train[0]], r) in Slots(sampled[train[0]])
    ensures |SlotOf(sampled[train[0]], r).sig.offsets| == |r.groups|
    ensures train[0] in indexed && r.sequence in indexed[train[0]].bySequence
    ensures indexed[train[0]].bySequence[r.sequence] == SlotOf(sampled[train[0]], r)
  {
    assert PreparedAt(sampled, indexed, train[0]);
    hide Slots, RecordAt, Rank, Signature;
    SlotDeterminesRecord(sampled[train[0]], r);
  }

  lemma LawEntrySucceeds(law: Law, sampled: map<int, seq<Record>>, indexed: map<int, Index>, train: seq<int>,
                         dims: Dims, coordinates: bool, ordinal: nat, r: Record)
    requires train != [] && AllNonEmpty(sampled, train) && r in sampled[train[0]] && CtaCount(dims) > 0
    requires Trained(law, sampled[train[0]], sampled, indexed, train, dims, Options(coordinates, false))
    ensures BuildEntry(sampled, indexed, train, dims, Options(coordinates, false), ordinal, r).Ok?
  {
    hide Trained, SlotRules, Slots, Signature, CtaCount, MinTime, Prepared, SlotOf, Indexable, Readable, DeltaTable,
      SlotEverywhereAtAll;
    var anchor := sampled[train[0]];
    TrainedAnchor(law, anchor, sampled, indexed, train, dims, Options(coordinates, false));
    AnchorSlot(sampled, indexed, train, r);
    LawRules(law, anchor, sampled, indexed, train, dims, Options(coordinates, false), SlotOf(anchor, r), |r.groups|);
  }

  lemma {:induction false} LawEntriesSucceed(law: Law, sampled: map<int, seq<Record>>, indexed: map<int, Index>,
                                             train: seq<int>, dims: Dims, coordinates: bool, ordered: seq<Record>)
    requires train != [] && AllNonEmpty(sampled, train) && CtaCount(dims) > 0
    requires Trained(law, sampled[train[0]], sampled, indexed, train, dims, Options(coordinates, false))
    requires forall i :: 0 <= i < |ordered| ==> ordered[i] in sampled[train[0]]
    ensures BuildEntries(sampled, indexed, train, dims, Options(coordinates, false), ordered).Ok?
    decreases |ordered|
  {
    hide BuildEntry, Trained, CtaCount;
    if ordered != [] {
      LawEntriesSucceed(law, sampled, indexed, train, dims, coordinates, ordered[..|ordered| - 1]);
      LawEntrySucceeds(law, sampled, indexed, train, dims, coordinates, |ordered| - 1, ordered[|ordered| - 1]);
    }
  }

  lemma LawBuilds(law: Law, sampled: map<int, seq<Record>>, indexed: map<int, Index>, train: seq<int>, dims: Dims,
                  coordinates: bool)
    requires train != [] && Prepared(sampled, indexed, train) && train[0] in sampled && sampled[train[0]] != []
    requires CtaCount(dims) > 0
    requires Trained(law, sampled[train[0]], sampled, indexed, train, dims, Options(coordinates, false))
    ensures AllNonEmpty(sampled, train)
    ensures BuildTemplate(sampled, indexed, train, dims, Options(coordinates, false)).Ok?
  {
    hide BuildEntries, SortBy, CtaCount, Slots, TrainingIdentifies, IndexOf, Predict;
    var anchor := sampled[train[0]];
    forall i | 0 <= i < |train| ensures train[i] in sampled && sampled[train[i]] != [] {
      assert Follows(law, anchor, sampled[train[i]], train[i], dims);
      NoSlotsIffEmpty(anchor);
      NoSlotsIffEmpty(sampled[train[i]]);
    }
    OrderedAnchor(anchor);
    LawEntriesSucceed(law, sampled, indexed, train, dims, coordinates, SortBy(SequenceKey, anchor));
  }

  /** A held-out CTA that follows the law has exactly the predicted bases. */
  lemma LawExactAt(law: Law, sampled: map<int, seq<Record>>, indexed: map<int, Index>, train: seq<int>, dims: Dims,
                   options: Options, template: seq<Entry>, b: int)
    requires train != [] && Prepared(sampled, indexed, train) && train[0] in sampled && sampled[train[0]] != []
    requires BuildTemplate(sampled, indexed, train, dims, options) == Ok(template) && PreparedAt(sampled, indexed, b)
    requires Trained(law, sampled[train[0]], sampled, indexed, train, dims, options)
    requires Follows(law, sampled[train[0]], sampled[b], b, dims) && 0 <= b < CtaCount(dims)
    ensures TemplateExactAt(indexed, template, b, dims)
  {
    hide BuildEntries, SortBy, Slots, RecordAt, SlotOf, EntryEvent, EventOf, CtaCount, Readable, Trained, EntrySlot,
      PredictBases, Predict, Prepared, EntryExactAt, Follows, AllNonEmpty, IndexOf;
    var ordered := SortBy(SequenceKey, sampled[train[0]]);
    OrderedAnchor(sampled[train[0]]);
    forall i | 0 <= i < |template| ensures EntryExactAt(indexed, template[i], b, dims) {
      EntryComesFrom(sampled, indexed, train, dims, options, ordered, i);
      EntryExtrapolates(law, sampled, indexed, train, dims, options, i, ordered[i], template[i], b, sampled[b]);
      ExactFromBases(sampled, indexed, template[i], SlotOf(sampled[train[0]], ordered[i]), b, dims);
    }
  }

  lemma ExactFromBases(sampled: map<int, seq<Record>>, indexed: map<int, Index>, e: Entry, slot: Slot, b: int,
                       dims: Dims)
    requires PreparedAt(sampled, indexed, b) && EntrySlot(e) == Ok(slot) && slot in Slots(sampled[b])
    requires PredictBases(e.rules, b, dims) == Ok(Bases(RecordAt(sampled[b], slot).groups))
    ensures EntryExactAt(indexed, e, b, dims)
  {
    hide Slots, RecordAt, EntrySlot, PredictBases, Readable;
  }

  /** Some instruction of the CTA has an active lane. */
  ghost predicate Touches(records: seq<Record>) {
    exists i, g :: 0 <= i < |records| && LaneIn(records[i], g)
  }

  predicate LaneIn(r: Record, g: int) {
    Readable(r) && 0 <= g < |SigOf(r).offsets| && SigOf(r).offsets[g] != []
  }

  lemma TouchesLane(sampled: map<int, seq<Record>>, indexed: map<int, Index>, train: seq<int>, dims: Dims,
                    options: Options, template: seq<Entry>)
    requires Prepared(sampled, indexed, train) && BuildTemplate(sampled, indexed, train, dims, options) == Ok(template)
    requires train != [] && AllNonEmpty(sampled, train) && Touches(sampled[train[0]])
    requires forall i :: 0 <= i < |template| ==> Shaped(template[i])
    ensures exists i :: 0 <= i < |template| && HasLane(template[i])
  {
    hide BuildEntries, BuildEntry, SortBy, Signature, IndexOf, Slots;
    var anchor := sampled[train[0]];
    var ordered := SortBy(SequenceKey, anchor);
    SortByPermutes(SequenceKey, anchor);
    OrderedAnchor(anchor);
    var k, g :| 0 <= k < |anchor| && LaneIn(anchor[k], g);
    assert anchor[k] in ordered;
    var i :| 0 <= i < |ordered| && ordered[i] == anchor[k];
    assert PreparedAt(sampled, indexed, train[0]);
    EntryComesFrom(sampled, indexed, train, dims, options, ordered, i);
    EntryShape(sampled, indexed, train, dims, options, i, ordered[i], template[i]);
    LaneOfEntry(anchor[k], template[i], g);
  }

  lemma LaneOfEntry(r: Record, e: Entry, g: int)
    requires LaneIn(r, g) && Signature(e.pc, e.opcode, e.mask, e.pairs) == SignatureOf(r) && Shaped(e)
    ensures HasLane(e)
  {
    hide Signature;
  }

  lemma LawHomogeneous(law: Law, sampled: map<int, seq<Record>>, s: Setup)
    requires LawSampled(law, sampled, s)
    ensures IndexableAt(sampled, Selected(s)) && Homogeneous(Structures(sampled, Selected(s)))
  {
    hide Slots, Indexable, TrainingIdentifies, Predict, Follows;
    forall i | 0 <= i < |Selected(s)|
      ensures Indexable(sampled[Selected(s)[i]]) && Indexable(sampled[s.train[0]])
              && Slots(sampled[Selected(s)[i]]) == Slots(sampled[s.train[0]])
    {
      FollowsAnchor(law, sampled[s.train[0]], sampled[Selected(s)[i]], Selected(s)[i], s.dims);
    }
    assert Selected(s)[0] == s.train[0];
  }

  lemma LawGate(law: Law, sampled: map<int, seq<Record>>, s: Setup, template: seq<Entry>)
    requires WellSampled(sampled, Selected(s)) && SelectionOk(s) && !s.complete && LawSampled(law, sampled, s)
    requires sampled[s.train[0]] != [] && Touches(sampled[s.train[0]])
    requires Prepared(sampled, Indexes(sampled, Selected(s)), s.train)
    requires BuildTemplate(sampled, Indexes(sampled, Selected(s)), s.train, s.dims, Options(s.memc, false))
             == Ok(template)
    requires AllNonEmpty(sampled, s.train)
    ensures forall i :: 0 <= i < |template| ==> Shaped(template[i])
    ensures GatePasses(Indexes(sampled, Selected(s)), template, s.holdout, s.dims)
  {
    hide BuildTemplate, CtaCount, Slots, Indexable, Shaped, IndexOf, Follows, Trained, Prepared, TemplateExactAt,
      HasLane, Touches, TrainingIdentifies, AllNonEmpty;
    var indexed := Indexes(sampled, Selected(s));
    TemplateShaped(sampled, s, template);
    LawTrained(law, sampled, s);
    TrainPrepared(sampled, s);
    TrainBelow(s);
    TouchesLane(sampled, indexed, s.train, s.dims, Options(s.memc, false), template);
    forall k | 0 <= k < |s.holdout| ensures TemplateExactAt(indexed, template, s.holdout[k], s.dims) {
      var b := s.holdout[k];
      assert Selected(s)[|s.train| + k] == b;
      assert Follows(law, sampled[s.train[0]], sampled[b], b, s.dims);
      HeldOutPrepared(sampled, indexed, s.holdout, k);
      LawExactAt(law, sampled, indexed, s.train, s.dims, Options(s.memc, false), template, b);
    }
  }

  lemma HeldOutPrepared(sampled: map<int, seq<Record>>, indexed: map<int, Index>, ctas: seq<int>, k: nat)
    requires Prepared(sampled, indexed, ctas) && k < |ctas|
    ensures PreparedAt(sampled, indexed, ctas[k])
  {
    hide PreparedAt;
  }

  /** A sample whose CTAs follow the law and whose training CTAs single it out is accepted, base gate and all. */
  lemma LawSampleIsProfiled(law: Law, sampled: map<int, seq<Record>>, s: Setup)
    requires WellSampled(sampled, Selected(s)) && ReadableAt(sampled, Selected(s)) && SelectionOk(s) && !s.complete
    requires LawSampled(law, sampled, s) && Touches(sampled[s.train[0]])
    ensures ProfileOf(sampled, s).Ok? && ProfileOf(sampled, s).value.Uniform?
    ensures ProfileOf(sampled, s).value.template != []
  {
    hide BuildTemplate, CtaCount, Slots, Indexable, Shaped, IndexOf, Follows, LawSampled, Trained, Prepared,
      Homogeneous, ClassList, Groups, GatePasses, AllNonEmpty, Indexes, HasLane;
    IndexableFrom(sampled, Selected(s));
    TrainPrepared(sampled, s);
    TrainBelow(s);
    LawTrained(law, sampled, s);
    LawHomogeneous(law, sampled, s);
    assert Selected(s)[0] == s.train[0];
    LawBuilds(law, sampled, Indexes(sampled, Selected(s)), s.train, s.dims, s.memc);
    var indexed := Indexes(sampled, Selected(s));
    var template := BuildTemplate(sampled, indexed, s.train, s.dims, Options(s.memc, false)).value;
    LawGate(law, sampled, s, template);
    GateMeansExact(Indexes(sampled, Selected(s)), template, s.holdout, s.dims, 0);
  }
}
