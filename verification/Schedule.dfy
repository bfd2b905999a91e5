/** Profiled kernels under `generate`: when the run succeeds, and when its output is in order of time. */
module Schedule {
  import opened Common
  import opened Sequences
  import opened Order
  import opened Numerals
  import opened Lanes
  import opened SlotIndex
  import opened CoordinateRules
  import opened Template
  import opened Meaning
  import opened Holdout
  import opened Classes
  import opened Profile
  import opened ProfileRun
  import opened Lines
  import opened Generate

  // ----------------------------------------------------- where entries come from

  /** The anchor's record behind entry `i`, and what the entry takes from it. */
  lemma EntryOrigin(sampled: map<int, seq<Record>>, indexed: map<int, Index>, ctas: seq<int>, dims: Dims,
                    options: Options, template: seq<Entry>, i: nat) returns (r: Record)
    requires Prepared(sampled, indexed, ctas) && BuildTemplate(sampled, indexed, ctas, dims, options) == Ok(template)
    requires i < |template|
    ensures ctas != [] && AllNonEmpty(sampled, ctas) && PreparedAt(sampled, indexed, ctas[0])
    ensures r in sampled[ctas[0]] && BuildEntry(sampled, indexed, ctas, dims, options, i, r) == Ok(template[i])
    ensures |template| == |SortBy(SequenceKey, sampled[ctas[0]])| && r == SortBy(SequenceKey, sampled[ctas[0]])[i]
  {
    hide BuildEntry, BuildEntries, SortBy, IndexOf, Indexable;
    var ordered := SortBy(SequenceKey, sampled[ctas[0]]);
    assert PreparedAt(sampled, indexed, ctas[0]);
    OrderedAnchor(sampled[ctas[0]]);
    EntryComesFrom(sampled, indexed, ctas, dims, options, ordered, i);
    r := ordered[i];
  }

  /** Times are counted from the CTA's first instruction, so they are not negative, and none is missing. */
  lemma EntryTimes(sampled: map<int, seq<Record>>, indexed: map<int, Index>, ctas: seq<int>, dims: Dims,
                   options: Options, i: nat, r: Record, e: Entry, b: int)
    requires ctas != [] && Prepared(sampled, indexed, ctas) && AllNonEmpty(sampled, ctas) && r in sampled[ctas[0]]
    requires BuildEntry(sampled, indexed, ctas, dims, options, i, r) == Ok(e) && (options.exactTable ==> b in ctas)
    ensures e.ordinal == i && e.delta == r.timestamp - MinTime(sampled[ctas[0]]) >= 0
    ensures TimestampDelta(e, b).Ok? && TimestampDelta(e, b).value >= 0
    ensures e.deltaByCta.Some? <==> options.exactTable
    ensures options.exactTable ==>
              && Readable(r) && Indexable(sampled[ctas[0]])
              && b in sampled && Indexable(sampled[b]) && sampled[b] != []
              && SlotOf(sampled[ctas[0]], r) in Slots(sampled[b])
              && TimestampDelta(e, b).value
                 == RecordAt(sampled[b], SlotOf(sampled[ctas[0]], r)).timestamp - MinTime(sampled[b])
  {
    hide BuildEntry, MinTime, Slots, RecordAt, SlotOf, Readable, Indexable, TimestampDelta;
    AnchorPrepared(sampled, indexed, ctas);
    AnchorTimes(sampled, indexed, ctas, dims, options, i, r, e, b);
    if options.exactTable {
      TabledTimes(sampled, indexed, ctas, dims, options, i, r, e, b);
    }
  }

  lemma AnchorTimes(sampled: map<int, seq<Record>>, indexed: map<int, Index>, ctas: seq<int>, dims: Dims,
                    options: Options, i: nat, r: Record, e: Entry, b: int)
    requires ctas != [] && Prepared(sampled, indexed, ctas) && AllNonEmpty(sampled, ctas) && r in sampled[ctas[0]]
    requires BuildEntry(sampled, indexed, ctas, dims, options, i, r) == Ok(e)
    ensures e.ordinal == i && e.delta == r.timestamp - MinTime(sampled[ctas[0]]) >= 0
    ensures e.deltaByCta.Some? <==> options.exactTable
    ensures !options.exactTable ==> TimestampDelta(e, b).Ok? && TimestampDelta(e, b).value == e.delta
  {
    EntryShape(sampled, indexed, ctas, dims, options, i, r, e);
    hide BuildEntry, SlotRules, MinTime, Slots, RecordAt, SlotOf, Signature, Readable, EntrySlot, DeltaTable;
    TimeNotNegative(sampled[ctas[0]], r);
  }

  lemma TabledTimes(sampled: map<int, seq<Record>>, indexed: map<int, Index>, ctas: seq<int>, dims: Dims,
                    options: Options, i: nat, r: Record, e: Entry, b: int)
    requires ctas != [] && Prepared(sampled, indexed, ctas) && AllNonEmpty(sampled, ctas) && r in sampled[ctas[0]]
    requires BuildEntry(sampled, indexed, ctas, dims, options, i, r) == Ok(e) && options.exactTable && b in ctas
    ensures Readable(r) && Indexable(sampled[ctas[0]])
    ensures b in sampled && Indexable(sampled[b]) && sampled[b] != []
    ensures SlotOf(sampled[ctas[0]], r) in Slots(sampled[b])
    ensures TimestampDelta(e, b).Ok?
    ensures TimestampDelta(e, b).value
         == RecordAt(sampled[b], SlotOf(sampled[ctas[0]], r)).timestamp - MinTime(sampled[b]) >= 0
  {
    AnchorPrepared(sampled, indexed, ctas);
    EntryShape(sampled, indexed, ctas, dims, options, i, r, e);
    hide BuildEntry, SlotRules, MinTime, Slots, RecordAt, SlotOf, Signature, Readable, EntrySlot, Indexable,
      DeltaTable, PreparedAt, TimestampDelta;
    TabledDelta(sampled, indexed, ctas, SlotOf(sampled[ctas[0]], r), e, b);
  }

  lemma AnchorPrepared(sampled: map<int, seq<Record>>, indexed: map<int, Index>, ctas: seq<int>)
    requires ctas != [] && Prepared(sampled, indexed, ctas)
    ensures ctas[0] in sampled && Indexable(sampled[ctas[0]])
  {
    hide Indexable, IndexOf;
    assert PreparedAt(sampled, indexed, ctas[0]);
  }

  /** The table of deltas holds each CTA's own time in the slot, counted from its own first instruction. */
  lemma TabledDelta(sampled: map<int, seq<Record>>, indexed: map<int, Index>, ctas: seq<int>, slot: Slot, e: Entry,
                    b: int)
    requires Prepared(sampled, indexed, ctas) && AllNonEmpty(sampled, ctas) && b in ctas
    requires SlotEverywhereAtAll(indexed, ctas, slot)
    requires e.deltaByCta == Some(DeltaTable(sampled, indexed, ctas, slot))
    ensures b in sampled && Indexable(sampled[b]) && slot in Slots(sampled[b]) && sampled[b] != []
    ensures TimestampDelta(e, b).Ok?
    ensures TimestampDelta(e, b).value == RecordAt(sampled[b], slot).timestamp - MinTime(sampled[b]) >= 0
  {
    hide MinTime, Slots, RecordAt, Readable;
    var k :| 0 <= k < |ctas| && ctas[k] == b;
    assert PreparedAt(sampled, indexed, ctas[k]);
    assert slot in indexed[b].bySlot;
    TimeNotNegative(sampled[b], RecordAt(sampled[b], slot));
  }

  lemma TimeNotNegative(records: seq<Record>, r: Record)
    requires r in records
    ensures r.timestamp - MinTime(records) >= 0
  {
    var i :| 0 <= i < |records| && records[i] == r;
    MinTimeIsLeast(records, i);
  }

  /** Whatever has a structure can be read back from a line. */
  lemma ReadableFrom(r: Record)
    requires Readable(r)
    ensures PairsReadable(PairsOf(r.groups))
  {
    hide Strides, ParseHex, OffsetsFrom, StridesReadable;
    forall g | 0 <= g < |r.groups| ensures StridesReadable(r.groups[g].pairs) {
      assert LaneOffsets(r.mask, PairsOf(r.groups)[g]).Ok?;
      StridesAre(r.groups[g].pairs);
    }
  }

  /** The CTAs that the template of a CTA of the grid was built from, whether the CTA is among them or not. */
  lemma TemplateOrigin(sampled: map<int, seq<Record>>, s: Setup, p: Profile, b: int)
      returns (ctas: seq<int>, options: Options)
    requires WellSampled(sampled, Selected(s)) && ProfileOf(sampled, s) == Ok(p) && 0 <= b < s.n
    ensures IndexableAt(sampled, Selected(s)) && Prepared(sampled, Indexes(sampled, Selected(s)), ctas)
    ensures BuildTemplate(sampled, Indexes(sampled, Selected(s)), ctas, s.dims, options) == Ok(TemplateFor(p, b))
    ensures ctas != [] && ctas[0] in Selected(s) && (s.complete || options.exactTable ==> b in ctas)
    ensures p.Structural? ==> options.exactTable
    ensures p.Uniform? ==> ctas == s.train && options == Options(s.memc, s.complete && s.uniformTables)
  {
    hide BuildTemplate, Groups, Slots, Indexable, ClassMap, ClassList, Indexes, GatePasses, Prepared, Homogeneous;
    IndexableFrom(sampled, Selected(s));
    TrainPrepared(sampled, s);
    if p.Uniform? {
      ctas, options := s.train, Options(s.memc, s.complete && s.uniformTables);
      assert Selected(s)[0] == s.train[0] && Range(s.n)[b] == b;
    } else {
      var g := Groups(Structures(sampled, Selected(s)));
      var k := ClassOfCta(sampled, s, p, g, b);
      ctas, options := g[k], EXACT;
      PreparedSelected(sampled, s, ctas);
    }
  }

  lemma PreparedSelected(sampled: map<int, seq<Record>>, s: Setup, ctas: seq<int>)
    requires IndexableAt(sampled, Selected(s)) && Prepared(sampled, Indexes(sampled, Selected(s)), ctas)
    ensures forall i :: 0 <= i < |ctas| ==> ctas[i] in Selected(s)
  {
    hide Indexable, IndexOf;
    forall i | 0 <= i < |ctas| ensures ctas[i] in Selected(s) {
      assert PreparedAt(sampled, Indexes(sampled, Selected(s)), ctas[i]);
    }
  }

  // ------------------------------------------------------ when generation succeeds

  predicate NonNegativeBases(records: seq<Record>) {
    forall i :: 0 <= i < |records| ==> NonNegative(Bases(records[i].groups))
  }

  /** An entry that means one of the CTA's events predicts that event's bases. */
  lemma EntryMeansRecord(template: seq<Entry>, b: int, dims: Dims, records: seq<Record>, i: nat) returns (r: Record)
    requires Reproduces(template, b, dims, records) && AllReadable(records) && i < |template|
    ensures r in records && EntryEvent(template[i], b, dims) == EventOf(r) && EventOf(r).Ok?
    ensures PredictBases(template[i].rules, b, dims) == Ok(Bases(r.groups))
  {
    hide PredictBases, Signature, EntryEvent;
    var events, captured := Map(EventAt(b, dims), template), Map(EventOf, records);
    PermutationLength(events, captured);
    assert events[i] in events;
    var k :| 0 <= k < |captured| && captured[k] == events[i];
    r := records[k];
    EventParts(template[i], b, dims, r);
  }

  lemma EventParts(e: Entry, b: int, dims: Dims, r: Record)
    requires EntryEvent(e, b, dims) == EventOf(r) && Readable(r)
    ensures PredictBases(e.rules, b, dims) == Ok(Bases(r.groups))
  {
    hide PredictBases, Signature;
  }

  lemma EntryWrites(sampled: map<int, seq<Record>>, indexed: map<int, Index>, ctas: seq<int>, dims: Dims,
                    options: Options, template: seq<Entry>, b: int, records: seq<Record>, i: nat)
    requires Prepared(sampled, indexed, ctas) && BuildTemplate(sampled, indexed, ctas, dims, options) == Ok(template)
    requires (options.exactTable ==> b in ctas) && i < |template|
    requires AllReadable(records) && NonNegativeBases(records) && Reproduces(template, b, dims, records)
    ensures WriteEntry(template[i], b, dims).Ok?
  {
    hide BuildTemplate, Prepared, BuildEntry, PredictBases, Reproduces, AllReadable, LineFields, Line,
      TimestampDelta, Readable, EntryEvent;
    var origin := EntryOrigin(sampled, indexed, ctas, dims, options, template, i);
    EntryTimes(sampled, indexed, ctas, dims, options, i, origin, template[i], b);
    var r := EntryMeansRecord(template, b, dims, records, i);
    var k :| 0 <= k < |records| && records[k] == r;
    assert NonNegative(Bases(records[k].groups));
  }

  /** The profile's templates stand, at every CTA of the grid, for the events that `truth` has there. */
  ghost predicate Mirrors(p: Profile, dims: Dims, n: nat, truth: map<int, seq<Record>>) {
    forall b :: 0 <= b < n ==>
      b in truth && AllReadable(truth[b]) && Reproduces(TemplateFor(p, b), b, dims, truth[b])
  }

  ghost predicate AllCtas(sampled: map<int, seq<Record>>, n: nat) {
    forall b :: 0 <= b < n ==> b in sampled && NonNegativeBases(sampled[b])
  }

  ghost predicate SomeRecord(sampled: map<int, seq<Record>>, n: nat) {
    exists b :: 0 <= b < n && b in sampled && sampled[b] != []
  }

  lemma GridSelected(sampled: map<int, seq<Record>>, s: Setup, p: Profile)
    requires WellSampled(sampled, Selected(s)) && ProfileOf(sampled, s) == Ok(p) && s.complete
    ensures SelectionOk(s) && Selected(s) == Range(s.n) == s.train && s.n > 0 && IndexableAt(sampled, Selected(s))
    ensures forall b :: 0 <= b < s.n ==>
              Selected(s)[b] == b && b in sampled && AllReadable(sampled[b]) && Indexable(sampled[b])
  {
    hide BuildTemplate, ClassList, Groups, Slots, GatePasses, Indexes, ClassMap, Homogeneous, Prepared;
    IndexableFrom(sampled, Selected(s));
    assert Selected(s) == Range(s.n);
    forall b | 0 <= b < s.n ensures b in sampled && AllReadable(sampled[b]) && Indexable(sampled[b]) {
      assert Selected(s)[b] == b;
    }
  }

  /** The profile of a complete grid mirrors the grid it was taken from. */
  lemma CompleteMirrors(sampled: map<int, seq<Record>>, s: Setup, p: Profile)
    requires WellSampled(sampled, Selected(s)) && ProfileOf(sampled, s) == Ok(p) && s.complete
    ensures Mirrors(p, s.dims, s.n, sampled)
  {
    hide ProfileOf, Reproduces, AllReadable, TemplateFor, Indexable, IndexableAt;
    GridSelected(sampled, s, p);
    forall b | 0 <= b < s.n ensures b in sampled && Reproduces(TemplateFor(p, b), b, s.dims, sampled[b]) {
      ProfilePreservesMeaning(sampled, s, p, b);
    }
  }

  /** Whatever mirrors CTAs with nonnegative bases can be written. */
  lemma MirrorWrites(sampled: map<int, seq<Record>>, s: Setup, p: Profile, truth: map<int, seq<Record>>, b: int, i: nat)
    requires WellSampled(sampled, Selected(s)) && ProfileOf(sampled, s) == Ok(p)
    requires Mirrors(p, s.dims, s.n, truth) && AllCtas(truth, s.n) && 0 <= b < s.n && i < |OrderedTemplate(p, b)|
    ensures Writable(p, s.dims, b, i)
  {
    hide ProfileOf, OrderedTemplate, BuildTemplate, Prepared, Reproduces, Indexes, AllReadable, WriteEntry,
      TemplateFor;
    var ctas, options := TemplateOrigin(sampled, s, p, b);
    OrderedPermutes(p, b);
    var template := TemplateFor(p, b);
    var k :| 0 <= k < |template| && template[k] == OrderedTemplate(p, b)[i];
    EntryWrites(sampled, Indexes(sampled, Selected(s)), ctas, s.dims, options, template, b, truth[b], k);
  }

  lemma EmptyTemplateIff(sampled: map<int, seq<Record>>, s: Setup, p: Profile)
    requires WellSampled(sampled, Selected(s)) && ProfileOf(sampled, s) == Ok(p) && s.complete
    ensures TemplatesOk(p, s.n) <==> SomeRecord(sampled, s.n)
  {
    hide ProfileOf, BuildTemplate, ClassList, Groups, Slots, Indexable, GatePasses, Indexes, ClassMap, GateOk;
    GridSelected(sampled, s, p);
    if p.Structural? {
      ProfilePassesGate(sampled, s, p);
      Differ(sampled, s, p);
    } else {
      UniformHomogeneous(sampled, s, p);
      forall b | 0 <= b < s.n ensures sampled[b] == [] <==> sampled[0] == [] {
        assert Selected(s)[b] == b && Selected(s)[0] == 0;
        NoSlotsIffEmpty(sampled[b]);
        NoSlotsIffEmpty(sampled[0]);
      }
      UniformTemplateLength(sampled, s, p);
    }
  }

  lemma UniformHomogeneous(sampled: map<int, seq<Record>>, s: Setup, p: Profile)
    requires WellSampled(sampled, Selected(s)) && ProfileOf(sampled, s) == Ok(p) && p.Uniform?
    ensures IndexableAt(sampled, Selected(s)) && Homogeneous(Structures(sampled, Selected(s)))
  {
    hide BuildTemplate, ClassList, Groups, Slots, Indexable, GatePasses, Indexes, ClassMap, Homogeneous;
    IndexableFrom(sampled, Selected(s));
  }

  lemma UniformTemplateLength(sampled: map<int, seq<Record>>, s: Setup, p: Profile)
    requires WellSampled(sampled, Selected(s)) && ProfileOf(sampled, s) == Ok(p) && p.Uniform? && s.complete
    ensures s.n > 0 && 0 in sampled && |p.template| == |sampled[0]|
  {
    GridSelected(sampled, s, p);
    hide ProfileOf, Slots, Indexable, IndexOf, BuildEntries;
    var ctas, options := TemplateOrigin(sampled, s, p, 0);
    SortByPermutes(SequenceKey, sampled[0]);
    assert ctas[0] == 0;
  }

  /** A structural profile means that some CTA has records: CTAs without any all look alike. */
  lemma Differ(sampled: map<int, seq<Record>>, s: Setup, p: Profile)
    requires WellSampled(sampled, Selected(s)) && ProfileOf(sampled, s) == Ok(p) && p.Structural?
    ensures SomeRecord(sampled, s.n)
  {
    hide BuildTemplate, ClassList, Groups, Slots, Indexable, GatePasses, Indexes, ClassMap;
    IndexableFrom(sampled, Selected(s));
    assert Selected(s) == Range(s.n);
    var keys := Structures(sampled, Selected(s));
    var b :| 0 <= b < |keys| && keys[b] != keys[0];
    assert Selected(s)[b] == b && Selected(s)[0] == 0;
    NoSlotsIffEmpty(sampled[b]);
    NoSlotsIffEmpty(sampled[0]);
  }

  /**
   * The profile of a complete grid can always be generated from, given an issue map that covers the grid,
   * unless the kernel has no memory instruction at all.
   */
  lemma CompleteProfileGenerates(sampled: map<int, seq<Record>>, s: Setup, p: Profile, issue: map<int, Placement>,
                                 smCount: int)
    requires WellSampled(sampled, Selected(s)) && ProfileOf(sampled, s) == Ok(p) && s.complete
    requires AllCtas(sampled, s.n)
    ensures CanGenerate(p, issue, smCount, s.dims, s.n) <==> IssueOk(issue, smCount, s.n) && SomeRecord(sampled, s.n)
  {
    hide ProfileOf, AllCtas, IssueOk, TemplatesOk, SomeRecord, Writable, OrderedTemplate;
    EmptyTemplateIff(sampled, s, p);
    SelectionOfOk(sampled, s);
    CompleteMirrors(sampled, s, p);
    hide Mirrors;
    forall b, i | 0 <= b < s.n && 0 <= i < |OrderedTemplate(p, b)| ensures Writable(p, s.dims, b, i) {
      MirrorWrites(sampled, s, p, sampled, b, i);
    }
  }
}
