/** A built template stands, at every CTA it covers, for exactly that CTA's recorded events. */
module Meaning {
  import opened Common
  import opened Sequences
  import opened Order
  import opened Lanes
  import opened SlotIndex
  import opened CoordinateRules
  import opened Cascade
  import opened Template

  /** At `block` the template's events are those of `records`, each as often. */
  ghost predicate Reproduces(template: seq<Entry>, block: int, dims: Dims, records: seq<Record>) {
    multiset(Map(EventAt(block, dims), template)) == multiset(Map(EventOf, records))
  }

  predicate CtasBelow(ctas: seq<int>, dims: Dims) {
    forall i :: 0 <= i < |ctas| ==> 0 <= ctas[i] < CtaCount(dims)
  }

  // ------------------------------------------------------- entry by entry

  lemma {:induction false} EntryComesFrom(sampled: map<int, seq<Record>>, indexed: map<int, Index>, ctas: seq<int>,
                                          dims: Dims, options: Options, ordered: seq<Record>, i: nat)
    requires ctas != [] && AllNonEmpty(sampled, ctas) && i < |ordered|
    requires BuildEntries(sampled, indexed, ctas, dims, options, ordered).Ok?
    ensures BuildEntry(sampled, indexed, ctas, dims, options, i, ordered[i])
         == Ok(BuildEntries(sampled, indexed, ctas, dims, options, ordered).value[i])
    decreases |ordered|
  {
    hide BuildEntry;
    var n := |ordered| - 1;
    if i < n {
      assert ordered[..n][i] == ordered[i];
      EntryComesFrom(sampled, indexed, ctas, dims, options, ordered[..n], i);
    }
  }

  lemma {:induction false} SlotRulesAre(indexed: map<int, Index>, ctas: seq<int>, slot: Slot, groups: nat, dims: Dims,
                                        options: Options, g: nat)
    requires g < groups && SlotRules(indexed, ctas, slot, groups, dims, options).Ok?
    ensures SlotEverywhere(indexed, ctas, slot, g)
    ensures FitBase(Points(indexed, ctas, slot, g), dims, options)
         == Ok(SlotRules(indexed, ctas, slot, groups, dims, options).value[g])
    decreases groups
  {
    hide FitBase, SlotEverywhere;
    if g < groups - 1 {
      SlotRulesAre(indexed, ctas, slot, groups - 1, dims, options, g);
    }
  }

  /** Every fitted rule gives back the bases it was fitted to. */
  lemma FitBaseSound(points: seq<Point>, dims: Dims, options: Options)
    requires FitBase(points, dims, options).Ok?
    requires PointsBelow(points, dims) && BlocksDistinct(points)
    ensures Fits(FitBase(points, dims, options).value, points, dims)
  {
    hide FitProfileRule, FitFlat;
    if options.coordinates {
      FitProfileRuleSound(points, dims, options.exactTable);
    } else {
      FitFlatSound(points, dims);
    }
  }

  lemma RulesPredict(indexed: map<int, Index>, ctas: seq<int>, slot: Slot, groups: nat, dims: Dims, options: Options,
                     k: nat, x: Record)
    requires SlotRules(indexed, ctas, slot, groups, dims, options).Ok?
    requires Distinct(ctas) && CtasBelow(ctas, dims) && k < |ctas|
    requires ctas[k] in indexed && slot in indexed[ctas[k]].bySlot && indexed[ctas[k]].bySlot[slot] == x
    requires |x.groups| == groups
    ensures PredictBases(SlotRules(indexed, ctas, slot, groups, dims, options).value, ctas[k], dims)
            == Ok(Bases(x.groups))
  {
    hide FitBase, SlotRules, PredictBases, Predict, CtaCount;
    var rules := SlotRules(indexed, ctas, slot, groups, dims, options).value;
    forall g | 0 <= g < groups ensures Predict(rules[g], ctas[k], dims) == Ok(Bases(x.groups)[g]) {
      SlotRulesAre(indexed, ctas, slot, groups, dims, options, g);
      var points := Points(indexed, ctas, slot, g);
      assert PointsBelow(points, dims) && BlocksDistinct(points);
      FitBaseSound(points, dims, options);
      assert points[k] == Point(ctas[k], x.groups[g].base);
    }
    PredictBasesAre(rules, ctas[k], dims, Bases(x.groups));
  }

  /** The anchor's record behind an entry, and the entry's slot. */
  lemma EntryShape(sampled: map<int, seq<Record>>, indexed: map<int, Index>, ctas: seq<int>, dims: Dims,
                   options: Options, ordinal: nat, r: Record, e: Entry)
    requires ctas != [] && Prepared(sampled, indexed, ctas) && AllNonEmpty(sampled, ctas) && r in sampled[ctas[0]]
    requires BuildEntry(sampled, indexed, ctas, dims, options, ordinal, r) == Ok(e)
    ensures Readable(r) && EntrySlot(e) == Ok(SlotOf(sampled[ctas[0]], r))
    ensures SlotRules(indexed, ctas, SlotOf(sampled[ctas[0]], r), |r.groups|, dims, options) == Ok(e.rules)
    ensures Signature(e.pc, e.opcode, e.mask, e.pairs) == SignatureOf(r) && e.ordinal == ordinal
    ensures e.delta == r.timestamp - MinTime(sampled[ctas[0]])
    ensures options.exactTable ==> SlotEverywhereAtAll(indexed, ctas, SlotOf(sampled[ctas[0]], r))
    ensures e.deltaByCta == if options.exactTable
                            then Some(DeltaTable(sampled, indexed, ctas, SlotOf(sampled[ctas[0]], r))) else None
  {
    hide Signature, SlotRules, MinTime, Rank, Slots;
    var i :| 0 <= i < |sampled[ctas[0]]| && sampled[ctas[0]][i] == r;
    assert Readable(sampled[ctas[0]][i]);
  }

  /** A record in a slot has that slot's signature. */
  lemma RecordAtSignature(records: seq<Record>, s: Slot)
    requires Indexable(records) && s in Slots(records)
    ensures SignatureOf(RecordAt(records, s)) == Ok(s.sig) && |RecordAt(records, s).groups| == |s.sig.offsets|
  {
    hide Slots, RecordAt, Signature;
    var r := RecordAt(records, s);
    assert Readable(r) && SigOf(r) == s.sig;
  }

  /** Right bases are all it takes for an entry to mean the record in its slot. */
  lemma EventFromBases(e: Entry, s: Slot, records: seq<Record>, block: int, dims: Dims)
    requires Indexable(records) && s in Slots(records) && EntrySlot(e) == Ok(s)
    requires PredictBases(e.rules, block, dims) == Ok(Bases(RecordAt(records, s).groups))
    ensures EntryEvent(e, block, dims) == EventOf(RecordAt(records, s)) && EntryEvent(e, block, dims).Ok?
  {
    hide Slots, RecordAt, Signature, PredictBases;
    RecordAtSignature(records, s);
  }

  // --------------------------------------------------- the whole template

  /** The records of `records` in the slots of the anchor's records, in the anchor's order. */
  function Counterparts(anchor: seq<Record>, ordered: seq<Record>, records: seq<Record>): (rs: seq<Record>)
    requires Indexable(anchor) && Indexable(records) && Slots(anchor) == Slots(records)
    requires forall i :: 0 <= i < |ordered| ==> ordered[i] in anchor
    ensures |rs| == |ordered|
    ensures forall i :: 0 <= i < |ordered| ==>
              Readable(ordered[i]) && SlotOf(anchor, ordered[i]) in Slots(records)
              && rs[i] == RecordAt(records, SlotOf(anchor, ordered[i]))
  {
    hide RecordAt, Readable, SlotOf;
    forall i | 0 <= i < |ordered| ensures Readable(ordered[i]) && SlotOf(anchor, ordered[i]) in Slots(records) {
      SlotDeterminesRecord(anchor, ordered[i]);
    }
    seq(|ordered|, i requires 0 <= i < |ordered| => RecordAt(records, SlotOf(anchor, ordered[i])))
  }

  lemma SlotsTellApart(anchor: seq<Record>, a: Record, b: Record)
    requires Indexable(anchor) && a in anchor && b in anchor && a != b
    ensures Readable(a) && Readable(b) && SlotOf(anchor, a) != SlotOf(anchor, b)
  {
    hide RecordAt, Slots, SlotOf, Readable;
    SlotDeterminesRecord(anchor, a);
    SlotDeterminesRecord(anchor, b);
  }

  /** Slots pair the anchor's records with the CTA's, one to one. */
  lemma CounterpartsPermute(anchor: seq<Record>, ordered: seq<Record>, records: seq<Record>)
    requires Indexable(anchor) && Indexable(records) && Slots(anchor) == Slots(records)
    requires multiset(ordered) == multiset(anchor)
    requires forall i :: 0 <= i < |ordered| ==> ordered[i] in anchor
    ensures multiset(Counterparts(anchor, ordered, records)) == multiset(records)
  {
    hide Slots, SlotOf, RecordAt, Readable;
    var rs := Counterparts(anchor, ordered, records);
    SequencesMakeDistinct(anchor);
    SequencesMakeDistinct(records);
    PermutationDistinct(anchor, ordered);
    forall i, j | 0 <= i < j < |rs| ensures rs[i] != rs[j] {
      SlotsTellApart(anchor, ordered[i], ordered[j]);
      AtSlot(records, SlotOf(anchor, ordered[i]));
      AtSlot(records, SlotOf(anchor, ordered[j]));
    }
    forall r | r in records ensures r in rs {
      SlotDeterminesRecord(records, r);
      var s := SlotOf(records, r);
      AtSlot(anchor, s);
      var a := RecordAt(anchor, s);
      PermutationLength(anchor, ordered);
      var i :| 0 <= i < |ordered| && ordered[i] == a;
      assert rs[i] == r;
    }
    forall r | r in rs ensures r in records {
      var i :| 0 <= i < |rs| && rs[i] == r;
      AtSlot(records, SlotOf(anchor, ordered[i]));
    }
    DistinctSameMembers(rs, records);
  }

  lemma AtSlot(records: seq<Record>, s: Slot)
    requires Indexable(records) && s in Slots(records)
    ensures RecordAt(records, s) in records && Readable(RecordAt(records, s))
            && SlotOf(records, RecordAt(records, s)) == s
  {
  }

  /** If every entry means the record in its slot, the template means the CTA. */
  lemma MeaningFromEntries(template: seq<Entry>, anchor: seq<Record>, ordered: seq<Record>, records: seq<Record>,
                           block: int, dims: Dims)
    requires Indexable(anchor) && Indexable(records) && Slots(anchor) == Slots(records)
    requires multiset(ordered) == multiset(anchor) && |template| == |ordered|
    requires forall i :: 0 <= i < |ordered| ==> ordered[i] in anchor
    requires forall i :: 0 <= i < |template| ==>
               EntryEvent(template[i], block, dims) == EventOf(Counterparts(anchor, ordered, records)[i])
    ensures Reproduces(template, block, dims, records)
  {
    hide EntryEvent, EventOf, Slots, RecordAt, SlotOf, Readable;
    var rs := Counterparts(anchor, ordered, records);
    CounterpartsPermute(anchor, ordered, records);
    MapPermutation(EventOf, rs, records);
    assert Map(EventAt(block, dims), template) == Map(EventOf, rs);
  }

  // ----------------------------------------------------------- training CTAs

  ghost predicate SameStructure(sampled: map<int, seq<Record>>, ctas: seq<int>) {
    forall i :: 0 <= i < |ctas| ==>
      ctas[i] in sampled && Indexable(sampled[ctas[i]]) && ctas[0] in sampled && Indexable(sampled[ctas[0]])
      && Slots(sampled[ctas[i]]) == Slots(sampled[ctas[0]])
  }

  lemma OrderedAnchor(records: seq<Record>)
    ensures multiset(SortBy(SequenceKey, records)) == multiset(records)
    ensures forall i :: 0 <= i < |SortBy(SequenceKey, records)| ==> SortBy(SequenceKey, records)[i] in records
  {
    SortByPermutes(SequenceKey, records);
    var s := SortBy(SequenceKey, records);
    forall i | 0 <= i < |s| ensures s[i] in records {
      assert s[i] in s;
    }
  }

  lemma EntryAtTrainingCta(sampled: map<int, seq<Record>>, indexed: map<int, Index>, ctas: seq<int>, dims: Dims,
                           options: Options, ordinal: nat, r: Record, e: Entry, k: nat)
    requires ctas != [] && Prepared(sampled, indexed, ctas) && AllNonEmpty(sampled, ctas) && r in sampled[ctas[0]]
    requires SameStructure(sampled, ctas) && Distinct(ctas) && CtasBelow(ctas, dims) && k < |ctas|
    requires BuildEntry(sampled, indexed, ctas, dims, options, ordinal, r) == Ok(e)
    ensures Readable(r) && SlotOf(sampled[ctas[0]], r) in Slots(sampled[ctas[k]])
    ensures PredictBases(e.rules, ctas[k], dims)
         == Ok(Bases(RecordAt(sampled[ctas[k]], SlotOf(sampled[ctas[0]], r)).groups))
    ensures EntryEvent(e, ctas[k], dims) == EventOf(RecordAt(sampled[ctas[k]], SlotOf(sampled[ctas[0]], r)))
    ensures EntryEvent(e, ctas[k], dims).Ok?
  {
    EntryShape(sampled, indexed, ctas, dims, options, ordinal, r, e);
    hide BuildEntry, SlotRules, PredictBases, Slots, RecordAt, SlotOf, Signature, CtaCount;
    var anchor, records := sampled[ctas[0]], sampled[ctas[k]];
    SlotDeterminesRecord(anchor, r);
    var s := SlotOf(anchor, r);
    var x := RecordAt(records, s);
    RecordAtSignature(records, s);
    RecordAtSignature(anchor, s);
    RulesPredict(indexed, ctas, s, |r.groups|, dims, options, k, x);
    EventFromBases(e, s, records, ctas[k], dims);
  }

  /** Meaning is preserved at every CTA the template was built from. */
  lemma TemplateMeaning(sampled: map<int, seq<Record>>, indexed: map<int, Index>, ctas: seq<int>, dims: Dims,
                        options: Options, template: seq<Entry>, k: nat)
    requires Prepared(sampled, indexed, ctas) && BuildTemplate(sampled, indexed, ctas, dims, options) == Ok(template)
    requires SameStructure(sampled, ctas) && Distinct(ctas) && CtasBelow(ctas, dims) && k < |ctas|
    ensures Reproduces(template, ctas[k], dims, sampled[ctas[k]])
  {
    hide BuildEntries, SortBy, Slots, RecordAt, SlotOf, EntryEvent, EventOf, CtaCount, IndexOf, Readable;
    var anchor, records := sampled[ctas[0]], sampled[ctas[k]];
    if anchor == [] {
      assert template == [] && records == [];
      assert Map(EventAt(ctas[k], dims), template) == Map(EventOf, records);
    } else {
      var ordered := SortBy(SequenceKey, anchor);
      OrderedAnchor(anchor);
      forall i | 0 <= i < |template|
        ensures EntryEvent(template[i], ctas[k], dims) == EventOf(Counterparts(anchor, ordered, records)[i])
      {
        EntryComesFrom(sampled, indexed, ctas, dims, options, ordered, i);
        EntryAtTrainingCta(sampled, indexed, ctas, dims, options, i, ordered[i], template[i], k);
      }
      MeaningFromEntries(template, anchor, ordered, records, ctas[k], dims);
    }
  }

  // ------------------------------------------------------------ holdout CTAs

  /** `actual` in the holdout loop: the captured record in an entry's slot. */
  function SlotRecord(indexed: map<int, Index>, block: int, e: Entry): Result<Record> {
    var slot :- EntrySlot(e);
    if block in indexed && slot in indexed[block].bySlot then Ok(indexed[block].bySlot[slot]) else Err(MissingKey)
  }

  /** The holdout CTA's record has exactly the predicted bases. */
  predicate EntryExactAt(indexed: map<int, Index>, e: Entry, block: int, dims: Dims) {
    && SlotRecord(indexed, block, e).Ok?
    && PredictBases(e.rules, block, dims) == Ok(Bases(SlotRecord(indexed, block, e).value.groups))
  }

  ghost predicate TemplateExactAt(indexed: map<int, Index>, template: seq<Entry>, block: int, dims: Dims) {
    forall i :: 0 <= i < |template| ==> EntryExactAt(indexed, template[i], block, dims)
  }

  lemma ExactBases(sampled: map<int, seq<Record>>, indexed: map<int, Index>, e: Entry, s: Slot, block: int, dims: Dims)
    requires PreparedAt(sampled, indexed, block) && EntrySlot(e) == Ok(s) && s in Slots(sampled[block])
    requires EntryExactAt(indexed, e, block, dims)
    ensures PredictBases(e.rules, block, dims) == Ok(Bases(RecordAt(sampled[block], s).groups))
  {
    hide Slots, RecordAt, EntrySlot, PredictBases, Readable;
  }

  lemma EntryAtHoldoutCta(sampled: map<int, seq<Record>>, indexed: map<int, Index>, ctas: seq<int>, dims: Dims,
                          options: Options, ordinal: nat, r: Record, e: Entry, block: int)
    requires ctas != [] && Prepared(sampled, indexed, ctas) && AllNonEmpty(sampled, ctas)
    requires PreparedAt(sampled, indexed, ctas[0]) && r in sampled[ctas[0]]
    requires PreparedAt(sampled, indexed, block) && Slots(sampled[block]) == Slots(sampled[ctas[0]])
    requires BuildEntry(sampled, indexed, ctas, dims, options, ordinal, r) == Ok(e)
    requires EntryExactAt(indexed, e, block, dims)
    ensures Readable(r) && SlotOf(sampled[ctas[0]], r) in Slots(sampled[block])
    ensures EntryEvent(e, block, dims) == EventOf(RecordAt(sampled[block], SlotOf(sampled[ctas[0]], r)))
  {
    hide BuildEntry, Slots, RecordAt, SlotOf, EntryEvent, EventOf, Readable, EntrySlot, PredictBases, IndexOf,
      EntryExactAt, SlotRules, Signature, AllNonEmpty, MinTime;
    EntryShape(sampled, indexed, ctas, dims, options, ordinal, r, e);
    SlotDeterminesRecord(sampled[ctas[0]], r);
    ExactBases(sampled, indexed, e, SlotOf(sampled[ctas[0]], r), block, dims);
    EventFromBases(e, SlotOf(sampled[ctas[0]], r), sampled[block], block, dims);
  }

  /** Meaning is preserved at every other CTA of the same structure that the base gate accepts. */
  lemma HoldoutMeaning(sampled: map<int, seq<Record>>, indexed: map<int, Index>, ctas: seq<int>, dims: Dims,
                       options: Options, template: seq<Entry>, block: int)
    requires ctas != [] && Prepared(sampled, indexed, ctas)
             && BuildTemplate(sampled, indexed, ctas, dims, options) == Ok(template)
    requires PreparedAt(sampled, indexed, ctas[0]) && sampled[ctas[0]] != []
    requires PreparedAt(sampled, indexed, block) && Slots(sampled[block]) == Slots(sampled[ctas[0]])
    requires TemplateExactAt(indexed, template, block, dims)
    ensures Reproduces(template, block, dims, sampled[block])
  {
    hide BuildEntries, SortBy, Slots, RecordAt, SlotOf, EntryEvent, EventOf, Readable, EntryExactAt, IndexOf;
    var anchor, records := sampled[ctas[0]], sampled[block];
    var ordered := SortBy(SequenceKey, anchor);
    OrderedAnchor(anchor);
    forall i | 0 <= i < |template|
      ensures EntryEvent(template[i], block, dims) == EventOf(Counterparts(anchor, ordered, records)[i])
    {
      EntryComesFrom(sampled, indexed, ctas, dims, options, ordered, i);
      EntryAtHoldoutCta(sampled, indexed, ctas, dims, options, i, ordered[i], template[i], block);
    }
    MeaningFromEntries(template, anchor, ordered, records, block, dims);
  }
}
