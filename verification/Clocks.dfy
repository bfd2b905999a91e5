/** What times a template, and the text generated from it, carry. */
module Clocks {
  import opened Common
  import opened Sequences
  import opened Order
  import opened Lanes
  import opened SlotIndex
  import opened CoordinateRules
  import opened Template
  import opened Meaning
  import opened Holdout
  import opened Classes
  import opened Profile
  import opened Merge
  import opened Generate
  import opened Schedule
  import opened Lines
  import opened Varint
  import opened Memc
  import opened Capture
  import opened Audit
  import opened Pipeline
  import opened Replay
  import opened Timing

  /** An event, its CTA and when it happens. */
  datatype TimedEvent = TimedEvent(block: int, event: Result<Event>, time: int)

  /** The events of CTA `b`'s records, timed from `first` on. */
  function Since(b: int, first: int): Record -> TimedEvent {
    (r: Record) => TimedEvent(b, EventOf(r), r.timestamp - first)
  }

  /** What an entry stands for at a CTA. */
  function EntryTimed(b: int, dims: Dims): Entry -> TimedEvent {
    (e: Entry) => TimedEvent(b, EntryEvent(e, b, dims), OwnDelta(e, b))
  }

  // ------------------------------------------------------------------ templates

  /** The CTA's own times: those of its table, or those of the anchor at the anchor itself. */
  predicate OwnTimes(options: Options, ctas: seq<int>, b: int) {
    if options.exactTable then b in ctas else ctas != [] && b == ctas[0]
  }

  /** The template's class as the profile forms it. */
  ghost predicate ClassOf(sampled: map<int, seq<Record>>, ctas: seq<int>, dims: Dims) {
    SameStructure(sampled, ctas) && Distinct(ctas) && CtasBelow(ctas, dims)
  }

  lemma EntryClock(sampled: map<int, seq<Record>>, indexed: map<int, Index>, ctas: seq<int>, dims: Dims,
                   options: Options, i: nat, r: Record, e: Entry, k: nat, first: int)
    requires ctas != [] && Prepared(sampled, indexed, ctas) && AllNonEmpty(sampled, ctas) && r in sampled[ctas[0]]
    requires ClassOf(sampled, ctas, dims) && k < |ctas| && OwnTimes(options, ctas, ctas[k])
    requires BuildEntry(sampled, indexed, ctas, dims, options, i, r) == Ok(e) && IsFirstTime(sampled[ctas[k]], first)
    ensures Readable(r) && Indexable(sampled[ctas[0]]) && Indexable(sampled[ctas[k]])
    ensures SlotOf(sampled[ctas[0]], r) in Slots(sampled[ctas[k]]) && TimestampDelta(e, ctas[k]).Ok?
    ensures EntryTimed(ctas[k], dims)(e)
            == Since(ctas[k], first)(RecordAt(sampled[ctas[k]], SlotOf(sampled[ctas[0]], r)))
  {
    hide BuildEntry, MinTime, Slots, RecordAt, SlotOf, Readable, Indexable, TimestampDelta, EntryEvent, EventOf,
      PredictBases, IsFirstTime, IndexOf;
    var b := ctas[k];
    AnchorPrepared(sampled, indexed, ctas);
    EntryAtTrainingCta(sampled, indexed, ctas, dims, options, i, r, e, k);
    EntryTimes(sampled, indexed, ctas, dims, options, i, r, e, b);
    MinTimeIsFirst(sampled[b], first);
    TimedByOwnDelta(e, b);
    if !options.exactTable {
      AnchorTimes(sampled, indexed, ctas, dims, options, i, r, e, b);
      SlotDeterminesRecord(sampled[b], r);
    }
  }

  /**
   * A template's entries, at a CTA whose own times it has, are the CTA's events with their times counted
   * from the CTA's first instruction, each as often.
   */
  lemma TemplateClock(sampled: map<int, seq<Record>>, indexed: map<int, Index>, ctas: seq<int>, dims: Dims,
                      options: Options, template: seq<Entry>, k: nat, first: int)
    requires Prepared(sampled, indexed, ctas) && BuildTemplate(sampled, indexed, ctas, dims, options) == Ok(template)
    requires ClassOf(sampled, ctas, dims) && k < |ctas| && OwnTimes(options, ctas, ctas[k])
    requires IsFirstTime(sampled[ctas[k]], first)
    ensures multiset(Map(EntryTimed(ctas[k], dims), template)) == multiset(Map(Since(ctas[k], first), sampled[ctas[k]]))
    ensures forall i :: 0 <= i < |template| ==> TimestampDelta(template[i], ctas[k]).Ok?
  {
    hide BuildEntries, SortBy, Slots, RecordAt, SlotOf, EntryEvent, EventOf, CtaCount, IndexOf, Readable,
      TimestampDelta, EntryTimed, Since;
    var anchor, records := sampled[ctas[0]], sampled[ctas[k]];
    assert sampled[ctas[k]] != [];
    var ordered := SortBy(SequenceKey, anchor);
    OrderedAnchor(anchor);
    var rs := Counterparts(anchor, ordered, records);
    forall i | 0 <= i < |template|
      ensures TimestampDelta(template[i], ctas[k]).Ok?
      ensures EntryTimed(ctas[k], dims)(template[i]) == Since(ctas[k], first)(rs[i])
    {
      EntryComesFrom(sampled, indexed, ctas, dims, options, ordered, i);
      EntryClock(sampled, indexed, ctas, dims, options, i, ordered[i], template[i], k, first);
    }
    CounterpartsPermute(anchor, ordered, records);
    MapPermutation(Since(ctas[k], first), rs, records);
    assert Map(EntryTimed(ctas[k], dims), template) == Map(Since(ctas[k], first), rs);
  }

  /** The entry's delta is the distance of this record from the first one. */
  ghost predicate TimedAs(e: Entry, b: int, dims: Dims, r: Record, first: int) {
    && TimestampDelta(e, b).Ok? && TimestampDelta(e, b).value == r.timestamp - first
    && EntryEvent(e, b, dims) == EventOf(r)
  }

  lemma EntryStands(template: seq<Entry>, b: int, dims: Dims, records: seq<Record>, first: int, i: nat)
    returns (r: Record)
    requires multiset(Map(EntryTimed(b, dims), template)) == multiset(Map(Since(b, first), records))
    requires i < |template| && TimestampDelta(template[i], b).Ok?
    ensures r in records && TimedAs(template[i], b, dims, r, first)
  {
    hide EntryEvent, EventOf, TimestampDelta, OwnDelta;
    var k := PermutationPlace(Map(EntryTimed(b, dims), template), Map(Since(b, first), records), i);
    r := records[k];
    TimedByOwnDelta(template[i], b);
  }

  lemma RecordStands(template: seq<Entry>, b: int, dims: Dims, records: seq<Record>, first: int, k: nat)
    returns (i: nat)
    requires multiset(Map(EntryTimed(b, dims), template)) == multiset(Map(Since(b, first), records)) && k < |records|
    requires forall i :: 0 <= i < |template| ==> TimestampDelta(template[i], b).Ok?
    ensures i < |template| && TimedAs(template[i], b, dims, records[k], first)
  {
    hide EntryEvent, EventOf, TimestampDelta, OwnDelta;
    i := PermutationPlace(Map(Since(b, first), records), Map(EntryTimed(b, dims), template), k);
    TimedByOwnDelta(template[i], b);
  }

  /**
   * So every entry's delta is the distance of one of the CTA's records from its first one, none is negative,
   * some entry's is zero, and two deltas are as far apart as the records' times.
   */
  lemma DeltasCountFromFirst(sampled: map<int, seq<Record>>, indexed: map<int, Index>, ctas: seq<int>, dims: Dims,
                             options: Options, template: seq<Entry>, k: nat, i: nat, j: nat)
    returns (q: Record, r: Record, zero: nat)
    requires Prepared(sampled, indexed, ctas) && BuildTemplate(sampled, indexed, ctas, dims, options) == Ok(template)
    requires ClassOf(sampled, ctas, dims) && k < |ctas| && OwnTimes(options, ctas, ctas[k]) && sampled[ctas[k]] != []
    requires i < |template| && j < |template|
    ensures zero < |template| && TimestampDelta(template[zero], ctas[k]).Ok?
    ensures TimestampDelta(template[zero], ctas[k]).value == 0
    ensures q in sampled[ctas[k]] && EntryEvent(template[i], ctas[k], dims) == EventOf(q)
    ensures r in sampled[ctas[k]] && EntryEvent(template[j], ctas[k], dims) == EventOf(r)
    ensures TimestampDelta(template[i], ctas[k]).Ok? && TimestampDelta(template[i], ctas[k]).value >= 0
    ensures TimestampDelta(template[j], ctas[k]).Ok?
    ensures TimestampDelta(template[j], ctas[k]).value - TimestampDelta(template[i], ctas[k]).value
         == r.timestamp - q.timestamp
  {
    hide BuildTemplate, Prepared, Distinct, CtasBelow, Slots, Indexable, OwnTimes, EntryEvent, EventOf, MinTime,
      EntryTimed, Since, TimestampDelta;
    var b, records := ctas[k], sampled[ctas[k]];
    var first := MinTime(records);
    MinTimeIsFirst(records, first);
    TemplateClock(sampled, indexed, ctas, dims, options, template, k, first);
    q := EntryStands(template, b, dims, records, first, i);
    r := EntryStands(template, b, dims, records, first, j);
    var m :| 0 <= m < |records| && records[m].timestamp == first;
    zero := RecordStands(template, b, dims, records, first, m);
  }

  // ----------------------------------------------------------------- generated text

  /** What a parsed line says. */
  function LineTimed(): Record -> TimedEvent {
    (r: Record) => TimedEvent(r.block, EventOf(r), r.timestamp)
  }

  function AtCta(b: int): TimedEvent -> bool {
    (x: TimedEvent) => x.block == b
  }

  function PoppedTimed(p: Profile, dims: Dims): HeapEntry -> TimedEvent {
    (h: HeapEntry) =>
      if 0 <= h.ordinal < |OrderedTemplate(p, h.block)|
      then EntryTimed(h.block, dims)(OrderedTemplate(p, h.block)[h.ordinal])
      else TimedEvent(h.block, Err(MissingKey), 0)
  }

  /** The line's record happens, counted from its CTA's start, at the time of the heap entry it was written for. */
  predicate LineOf(r: Record, h: HeapEntry, issue: map<int, Placement>) {
    && r.block == h.block && h.block in issue
    && issue[h.block].sm == h.sm && issue[h.block].start + r.timestamp == h.time
  }

  lemma LineClock(e: Entry, b: nat, dims: Dims, line: string, sequence: int)
    requires Legible(e, b, dims) && WriteEntry(e, b, dims) == Ok(line)
    ensures ParseLine(line, sequence).Ok?
    ensures LineTimed()(ParseLine(line, sequence).value) == EntryTimed(b, dims)(e)
  {
    hide ParseLine, WriteEntry, Legible, ItemOf, ItemFrom, EntryEvent, EventOf, TimestampDelta, OwnDelta;
    LineMeansEntry(e, b, dims, line, sequence);
    LineTime(e, b, dims, line, sequence);
    ItemParts(ParseLine(line, sequence).value, b, EntryEvent(e, b, dims));
  }

  lemma LineTime(e: Entry, b: nat, dims: Dims, line: string, sequence: int)
    requires Legible(e, b, dims) && WriteEntry(e, b, dims) == Ok(line)
    ensures ParseLine(line, sequence).Ok? && ParseLine(line, sequence).value.timestamp == OwnDelta(e, b)
  {
    hide ParseLine, LineFields, Line, Clean, PairsReadable, PredictBases, Signature, OwnDelta;
    LineParses(b, TimestampDelta(e, b).value, e, PredictBases(e.rules, b, dims).value, sequence);
    TimedByOwnDelta(e, b);
  }

  lemma ItemParts(r: Record, b: int, event: Result<Event>)
    requires event.Ok? && ItemOf(r) == Ok(ItemFrom(b)(event))
    ensures r.block == b && EventOf(r) == event
  {
    hide EventOf;
  }

  lemma {:induction false} ParsedLines(lines: seq<string>)
    requires forall i :: 0 <= i < |lines| ==> ParseLine(lines[i], i).Ok?
    ensures ParseAll(lines).Ok?
    ensures forall i :: 0 <= i < |lines| ==> ParseAll(lines).value[i] == ParseLine(lines[i], i).value
    decreases |lines|
  {
    hide ParseLine;
    if lines != [] {
      ParsedLines(lines[..|lines| - 1]);
    }
  }

  lemma PoppedClock(p: Profile, issue: map<int, Placement>, n: nat, done: seq<HeapEntry>, h: HeapEntry)
    requires issue.Keys == Blocks(n) && IsNext(Streams(p, issue, n), done, h)
    ensures 0 <= h.block < n && h.block in issue && 0 <= h.ordinal < |OrderedTemplate(p, h.block)|
    ensures h.sm == issue[h.block].sm
    ensures h.time == issue[h.block].start + OwnDelta(OrderedTemplate(p, h.block)[h.ordinal], h.block)
  {
    hide OrderedTemplate, Emitted, OwnDelta, Blocks;
    NextParts(Streams(p, issue, n), done, h);
  }

  /**
   * Every line of a generated text, parsed back, carries the time of the heap entry it was popped for: added
   * to its CTA's start in the issue map it is the entry's time. And it carries that entry's event.
   */
  lemma LinesCarryTimes(p: Profile, issue: map<int, Placement>, dims: Dims, n: nat, lines: seq<string>)
    returns (out: seq<HeapEntry>)
    requires Generated(p, issue, dims, n, lines) && AllLegible(p, dims, n)
    ensures ParseAll(lines).Ok? && |out| == |lines| && IsMerge(Streams(p, issue, n), out)
    ensures forall i :: 0 <= i < |lines| ==> LineOf(ParseAll(lines).value[i], out[i], issue)
    ensures Map(LineTimed(), ParseAll(lines).value) == Map(PoppedTimed(p, dims), out)
  {
    hide OrderedTemplate, WriteEntry, ParseLine, Blocks, Legible, EntryTimed, LineTimed, IsNext, LexLess, OwnDelta;
    out :| IsMerge(Streams(p, issue, n), out) && Written(p, dims, out, lines);
    forall i | 0 <= i < |lines|
      ensures ParseLine(lines[i], i).Ok?
      ensures LineOf(ParseLine(lines[i], i).value, out[i], issue)
      ensures LineTimed()(ParseLine(lines[i], i).value) == PoppedTimed(p, dims)(out[i])
    {
      assert WrittenAs(p, dims, out[i], lines[i]) && IsChoice(Streams(p, issue, n), out[..i], out[i]);
      OneLineClock(p, issue, dims, n, out[..i], out[i], lines[i], i);
    }
    ParsedLines(lines);
    var rs := ParseAll(lines).value;
    assert Map(LineTimed(), rs) == Map(PoppedTimed(p, dims), out);
  }

  lemma OneLineClock(p: Profile, issue: map<int, Placement>, dims: Dims, n: nat, done: seq<HeapEntry>, h: HeapEntry,
                     line: string, i: int)
    requires issue.Keys == Blocks(n) && IsNext(Streams(p, issue, n), done, h) && AllLegible(p, dims, n)
    requires WrittenAs(p, dims, h, line)
    ensures ParseLine(line, i).Ok? && LineOf(ParseLine(line, i).value, h, issue)
    ensures LineTimed()(ParseLine(line, i).value) == PoppedTimed(p, dims)(h)
  {
    hide OrderedTemplate, WriteEntry, ParseLine, Blocks, Legible, IsNext, OwnDelta, EventOf, EntryEvent, Streams;
    PoppedClock(p, issue, n, done, h);
    LineClock(OrderedTemplate(p, h.block)[h.ordinal], h.block, dims, line, i);
  }

  /** At each CTA of the grid the parsed lines are the entries of its template, with their times. */
  lemma TimesAtCta(p: Profile, issue: map<int, Placement>, dims: Dims, n: nat, lines: seq<string>, b: int)
    requires Generated(p, issue, dims, n, lines) && AllLegible(p, dims, n) && 0 <= b < n
    ensures ParseAll(lines).Ok?
    ensures Filter(AtCta(b), Map(LineTimed(), ParseAll(lines).value)) == Map(EntryTimed(b, dims), OrderedTemplate(p, b))
  {
    hide OrderedTemplate, IsMerge, Blocks, EntryTimed, LineTimed, AllLegible, LineOf, Written;
    var out := LinesCarryTimes(p, issue, dims, n, lines);
    var streams := Streams(p, issue, n);
    forall i | 0 <= i < |out| ensures AtCta(b)(PoppedTimed(p, dims)(out[i])) <==> OfBlock(b)(out[i]) {
      PoppedBlock(p, dims, out[i]);
    }
    FilterMap(PoppedTimed(p, dims), OfBlock(b), AtCta(b), out);
    MergeConserves(streams, out, b);
    assert Map(PoppedTimed(p, dims), WholeStream(streams, b, |OrderedTemplate(p, b)|))
        == Map(EntryTimed(b, dims), OrderedTemplate(p, b));
  }

  lemma PoppedBlock(p: Profile, dims: Dims, h: HeapEntry)
    ensures PoppedTimed(p, dims)(h).block == h.block
  {
    hide OrderedTemplate, EntryEvent, OwnDelta;
    if 0 <= h.ordinal < |OrderedTemplate(p, h.block)| {
      var e := OrderedTemplate(p, h.block)[h.ordinal];
      assert PoppedTimed(p, dims)(h) == EntryTimed(h.block, dims)(e);
    }
  }

  // ------------------------------------------------------------------ whole profiles

  /** The class of a CTA of a complete grid, as its template was built from it. */
  lemma ClassOrigin(sampled: map<int, seq<Record>>, s: Setup, p: Profile, b: int)
    returns (ctas: seq<int>, options: Options, k: nat)
    requires WellSampled(sampled, Selected(s)) && ProfileOf(sampled, s) == Ok(p) && s.complete && 0 <= b < s.n
    ensures IndexableAt(sampled, Selected(s)) && Prepared(sampled, Indexes(sampled, Selected(s)), ctas)
    ensures BuildTemplate(sampled, Indexes(sampled, Selected(s)), ctas, s.dims, options) == Ok(TemplateFor(p, b))
    ensures ClassOf(sampled, ctas, s.dims) && k < |ctas| && ctas[k] == b
    ensures options.exactTable <==> p.Structural? || s.uniformTables
  {
    hide BuildTemplate, Groups, Slots, Indexable, ClassMap, ClassList, CtaCount, Prepared, Indexes, GatePasses,
      Homogeneous, IsClass;
    GridSelected(sampled, s, p);
    TrainPrepared(sampled, s);
    TrainBelow(s);
    if p.Uniform? {
      SameStructureFrom(sampled, s);
      ctas, options, k := s.train, Options(s.memc, s.complete && s.uniformTables), b;
      assert Range(s.n)[b] == b;
    } else {
      var keys := Structures(sampled, Selected(s));
      var g := Groups(keys);
      var c := ClassOfCta(sampled, s, p, g, b);
      GroupsPartition(keys);
      ClassAt(keys, g, c);
      ClassInRange(keys, g[c]);
      ctas, options := g[c], EXACT;
      k :| 0 <= k < |g[c]| && g[c][k] == b;
      forall i | 0 <= i < |ctas|
        ensures ctas[i] in sampled && Indexable(sampled[ctas[i]]) && Slots(sampled[ctas[i]]) == keys[ctas[i]]
      {
        assert Selected(s)[ctas[i]] == ctas[i];
      }
      assert SameStructure(sampled, ctas);
    }
  }

  /**
   * The profile of a complete grid that keeps tables of times: at every CTA, the text generated from it,
   * parsed back, holds the CTA's events with their times counted from its first instruction, each as often.
   */
  lemma TimesSurvive(sampled: map<int, seq<Record>>, s: Setup, p: Profile, issue: map<int, Placement>,
                     lines: seq<string>, b: int, first: int)
    requires WellSampled(sampled, Selected(s)) && ProfileOf(sampled, s) == Ok(p) && s.complete && 0 <= b < s.n
    requires p.Structural? || s.uniformTables
    requires Generated(p, issue, s.dims, s.n, lines) && AllLegible(p, s.dims, s.n)
    requires b in sampled && IsFirstTime(sampled[b], first)
    ensures ParseAll(lines).Ok?
    ensures multiset(Filter(AtCta(b), Map(LineTimed(), ParseAll(lines).value)))
         == multiset(Map(Since(b, first), sampled[b]))
  {
    hide ProfileOf, BuildTemplate, Generated, AllLegible, ParseAll, EntryTimed, LineTimed, Since, IsFirstTime,
      OrderedTemplate, TemplateFor, Indexes, Prepared, ClassOf, WellSampled, Selected;
    TimesAtCta(p, issue, s.dims, s.n, lines, b);
    var ctas, options, k := ClassOrigin(sampled, s, p, b);
    assert b in ctas;
    TemplateClock(sampled, Indexes(sampled, Selected(s)), ctas, s.dims, options, TemplateFor(p, b), k, first);
    OrderedPermutes(p, b);
    MapPermutation(EntryTimed(b, s.dims), OrderedTemplate(p, b), TemplateFor(p, b));
  }

  /**
   * Without tables, at held-out CTAs and on a uniform grid of revision r9, every CTA gets the times of the
   * first CTA trained on, counted from that CTA's first instruction.
   */
  lemma SharedTimes(sampled: map<int, seq<Record>>, s: Setup, p: Profile, issue: map<int, Placement>,
                    lines: seq<string>, b: int, first: int)
    requires WellSampled(sampled, Selected(s)) && ProfileOf(sampled, s) == Ok(p) && 0 <= b < s.n
    requires p.Uniform? && !(s.complete && s.uniformTables)
    requires Generated(p, issue, s.dims, s.n, lines) && AllLegible(p, s.dims, s.n)
    requires s.train != [] && s.train[0] in sampled && IsFirstTime(sampled[s.train[0]], first)
    ensures ParseAll(lines).Ok?
    ensures multiset(Map(TimeOf(), Filter(AtCta(b), Map(LineTimed(), ParseAll(lines).value))))
         == multiset(Map(SinceTime(first), sampled[s.train[0]]))
  {
    hide ProfileOf, BuildTemplate, Generated, AllLegible, ParseAll, LineTimed, IsFirstTime, OrderedTemplate,
      TemplateFor, Indexes, Prepared, WellSampled, Selected, EntryEvent;
    TimesAtCta(p, issue, s.dims, s.n, lines, b);
    var ctas, options := TemplateOrigin(sampled, s, p, b);
    AnchorDeltas(sampled, Indexes(sampled, Selected(s)), ctas, s.dims, options, TemplateFor(p, b), b, first);
    OrderedPermutes(p, b);
    MapPermutation(DeltaAt(b), OrderedTemplate(p, b), TemplateFor(p, b));
    assert Map(TimeOf(), Map(EntryTimed(b, s.dims), OrderedTemplate(p, b))) == Map(DeltaAt(b), OrderedTemplate(p, b));
  }

  function TimeOf(): TimedEvent -> int {
    (x: TimedEvent) => x.time
  }

  function SinceTime(first: int): Record -> int {
    (r: Record) => r.timestamp - first
  }

  lemma AnchorDeltas(sampled: map<int, seq<Record>>, indexed: map<int, Index>, ctas: seq<int>, dims: Dims,
                     options: Options, template: seq<Entry>, b: int, first: int)
    requires Prepared(sampled, indexed, ctas) && BuildTemplate(sampled, indexed, ctas, dims, options) == Ok(template)
    requires ctas != [] && ctas[0] in sampled && !options.exactTable && IsFirstTime(sampled[ctas[0]], first)
    ensures multiset(Map(DeltaAt(b), template)) == multiset(Map(SinceTime(first), sampled[ctas[0]]))
  {
    hide BuildEntries, BuildEntry, SortBy, Indexable, IndexOf, TimestampDelta, OwnDelta, MinTime;
    var anchor := sampled[ctas[0]];
    assert anchor != [];
    var ordered := SortBy(SequenceKey, anchor);
    OrderedAnchor(anchor);
    MinTimeIsFirst(anchor, first);
    forall i | 0 <= i < |template| ensures DeltaAt(b)(template[i]) == SinceTime(first)(ordered[i]) {
      EntryComesFrom(sampled, indexed, ctas, dims, options, ordered, i);
      AnchorTimes(sampled, indexed, ctas, dims, options, i, ordered[i], template[i], b);
      TimedByOwnDelta(template[i], b);
    }
    MapPermutation(SinceTime(first), ordered, anchor);
    assert Map(DeltaAt(b), template) == Map(SinceTime(first), ordered);
  }

  // -------------------------------------------------------------------- order in the file

  /** The absolute time of a parsed line. */
  function AbsoluteTime(r: Record, issue: map<int, Placement>): int {
    (if r.block in issue then issue[r.block].start else 0) + r.timestamp
  }

  /** A merge in strict order puts the lines of the file in order of absolute time. */
  lemma LinesAscend(p: Profile, issue: map<int, Placement>, dims: Dims, n: nat, lines: seq<string>)
    requires Generated(p, issue, dims, n, lines) && AllLegible(p, dims, n)
    requires forall out :: IsMerge(Streams(p, issue, n), out) ==> StrictlyIncreasing(out)
    ensures ParseAll(lines).Ok?
    ensures forall i :: 0 < i < |lines| ==>
              AbsoluteTime(ParseAll(lines).value[i - 1], issue) <= AbsoluteTime(ParseAll(lines).value[i], issue)
  {
    hide IsMerge, AllLegible, ParseAll, Map, LexLess;
    var out := LinesCarryTimes(p, issue, dims, n, lines);
    var rs := ParseAll(lines).value;
    forall i | 0 < i < |lines| ensures AbsoluteTime(rs[i - 1], issue) <= AbsoluteTime(rs[i], issue) {
      assert LineOf(rs[i - 1], out[i - 1], issue) && LineOf(rs[i], out[i], issue);
      KeyOrder(out[i - 1], out[i]);
    }
  }

  /** If `first` is CTA `b`'s first time, the text holds at `b` the captured events, each so long after `first`. */
  ghost predicate TimesHeld(lines: seq<string>, captured: seq<MemcRecord>, b: int, first: int) {
    && ParseAll(lines).Ok? && SelectedLowerable(captured, {b})
    && (IsFirstTime(Found(captured, b), first) ==>
          multiset(Filter(AtCta(b), Map(LineTimed(), ParseAll(lines).value)))
          == multiset(Map(Since(b, first), Found(captured, b))))
  }

  /**
   * From the capture to the text: for a complete grid profiled with tables of times, the lines of every CTA
   * carry the captured events, each at the captured time counted from the CTA's first instruction.
   */
  lemma CapturedTimesSurvive(files: seq<seq<byte>>, s: Setup, gapsValidated: bool, p: Profile,
                             issue: map<int, Placement>, lines: seq<string>, captured: seq<MemcRecord>, b: int,
                             first: int)
    requires DecodeFiles(files) == Ok(captured) && CleanOpcodes(captured, SetOf(Selected(s)))
    requires s.complete && ProfileFiles(files, s, gapsValidated) == Ok(p) && (p.Structural? || s.uniformTables)
    requires Generated(p, issue, s.dims, s.n, lines) && 0 <= b < s.n
    ensures TimesHeld(lines, captured, b, first)
  {
    hide DecodeFiles, ProfileFiles, ProfileOf, Found, AllFromWire, WellSampled, AllLegible, CleanOpcodes, ParseAll,
      CleanSelected, Generated, SelectedCollected, Selected, IsFirstTime, LineTimed, Since, Blocks, Lowerable,
      GoodCta;
    var c := GridCollected(files, s, gapsValidated, p, captured);
    CleanCollected(captured, s, c.found);
    ProfileLegible(c.found, s, p);
    TimesAtCta(p, issue, s.dims, s.n, lines, b);
    assert c.found[b] == Found(captured, b);
    if IsFirstTime(Found(captured, b), first) {
      TimesSurvive(c.found, s, p, issue, lines, b, first);
    }
  }

  /** The file of a profile without shared tables is in order of absolute time. */
  lemma FileInTimeOrder(sampled: map<int, seq<Record>>, s: Setup, p: Profile, issue: map<int, Placement>,
                        lines: seq<string>)
    requires WellSampled(sampled, Selected(s)) && ProfileOf(sampled, s) == Ok(p)
    requires p.Structural? || !s.complete || !s.uniformTables
    requires Generated(p, issue, s.dims, s.n, lines) && AllLegible(p, s.dims, s.n)
    ensures ParseAll(lines).Ok?
    ensures forall i :: 0 < i < |lines| ==>
              AbsoluteTime(ParseAll(lines).value[i - 1], issue) <= AbsoluteTime(ParseAll(lines).value[i], issue)
  {
    hide ProfileOf, IsMerge, StrictlyIncreasing, AllLegible, ParseAll, WellSampled, Selected, Blocks, Written;
    forall out | IsMerge(Streams(p, issue, s.n), out) ensures StrictlyIncreasing(out) {
      AlwaysOrdered(sampled, s, p, issue, out);
    }
    LinesAscend(p, issue, s.dims, s.n, lines);
  }
}
