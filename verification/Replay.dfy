/** The generated text, read back, holds exactly the captured events; so the audit of a complete grid passes. */
module Replay {
  import opened Common
  import opened Sequences
  import opened Order
  import opened Varint
  import opened Memc
  import opened Lanes
  import opened Capture
  import opened SlotIndex
  import opened CoordinateRules
  import opened Template
  import opened Meaning
  import opened Classes
  import opened Profile
  import opened ProfileRun
  import opened Lines
  import opened TraceFile
  import opened Merge
  import opened Generate
  import opened Schedule
  import opened Audit
  import opened Pipeline
  import opened OneLane

  const NO_EVENT := Event(Sig("", "", "", []), [])

  function ItemFrom(b: int): Result<Event> -> Item {
    (e: Result<Event>) => Item(b, if e.Ok? then e.value else NO_EVENT)
  }

  /** The items of some events at one CTA. */
  function ItemsAt(b: int, events: seq<Result<Event>>): seq<Item> {
    Map(ItemFrom(b), events)
  }

  // ------------------------------------------------------------- captured items

  predicate AllLowerable(s: seq<MemcRecord>) {
    forall i :: 0 <= i < |s| ==> Lowerable(s[i])
  }

  lemma LoweredItem(r: MemcRecord)
    requires FromWire(r) && Lowerable(r)
    ensures ItemOf(Lower(r).value.record) == Ok(ItemFrom(r.block)(EventOf(Lower(r).value.record)))
  {
    hide Lower, FromWire, EventOf;
    LoweredFromWire(r);
  }

  lemma CapturedStep(s: seq<MemcRecord>, r: MemcRecord, items: seq<Item>, x: Item)
    requires CaptureItems(s) == Ok(items) && Lowerable(r) && ItemOf(Lower(r).value.record) == Ok(x)
    ensures CaptureItems(s + [r]) == Ok(items + [x])
  {
    hide Lower, ItemOf;
    var rs, record := LowerAll(s).value, Lower(r).value.record;
    assert (s + [r])[..|s|] == s;
    assert (rs + [record])[..|rs|] == rs;
    assert LowerAll(s + [r]) == Ok(rs + [record]);
  }

  lemma NothingCaptured()
    ensures CaptureItems([]) == Ok([]) && TextItems([]) == Ok([])
  {
  }

  /** The captured items of one CTA are the events of its lowered records. */
  lemma {:induction false} CapturedItems(s: seq<MemcRecord>, b: int)
    requires AllFromWire(s) && AllLowerable(s)
    ensures CaptureItems(s).Ok? && |CaptureItems(s).value| == |s|
    ensures SelectedLowerable(s, {b})
    ensures Filter(InBlock(b), CaptureItems(s).value) == ItemsAt(b, Map(EventOf, Found(s, b)))
    decreases |s|
  {
    hide Lower, FromWire, EventOf, ItemOf, CaptureItems;
    if s == [] {
      NothingCaptured();
      assert ItemsAt(b, Map(EventOf, [])) == [];
    } else {
      var init, r := s[..|s| - 1], s[|s| - 1];
      CapturedItems(init, b);
      assert s == init + [r];
      assert Lowerable(r) && FromWire(r);
      LoweredItem(r);
      var record := Lower(r).value.record;
      var items, x := CaptureItems(init).value, ItemFrom(r.block)(EventOf(record));
      CapturedStep(init, r, items, x);
      FilterAppend(InBlock(b), items, [x]);
      FilterOne(InBlock(b), x);
      if r.block == b {
        assert Found(s, b) == Found(init, b) + [record];
        assert Map(EventOf, Found(s, b)) == Map(EventOf, Found(init, b)) + [EventOf(record)];
      } else {
        assert Found(s, b) == Found(init, b) + [] == Found(init, b);
      }
    }
  }

  function OnGrid(n: nat): MemcRecord -> bool {
    (r: MemcRecord) => 0 <= r.block < n
  }

  /** The records of the stream whose CTA is in the grid. */
  function GridPart(s: seq<MemcRecord>, n: nat): seq<MemcRecord> {
    Filter(OnGrid(n), s)
  }

  lemma GridPartLowerable(s: seq<MemcRecord>, n: nat)
    requires AllFromWire(s) && SelectedLowerable(s, Blocks(n))
    ensures AllFromWire(GridPart(s, n)) && AllLowerable(GridPart(s, n))
  {
    hide FromWire, Lowerable, Blocks;
    var t := GridPart(s, n);
    forall i | 0 <= i < |t| ensures FromWire(t[i]) && Lowerable(t[i]) {
      assert t[i] in t;
      FilteredFrom(OnGrid(n), s, t[i]);
      var k :| 0 <= k < |s| && s[k] == t[i];
      BlocksAre(n, s[k].block);
    }
  }

  lemma {:induction false} FoundOnGrid(s: seq<MemcRecord>, n: nat, b: int)
    requires SelectedLowerable(s, {b}) && SelectedLowerable(GridPart(s, n), {b})
    ensures Found(GridPart(s, n), b) == if 0 <= b < n then Found(s, b) else []
    decreases |s|
  {
    hide Lower, Lowerable;
    if s != [] {
      var init, r := s[..|s| - 1], s[|s| - 1];
      assert s == init + [r];
      FilterAppend(OnGrid(n), init, [r]);
      FilterOne(OnGrid(n), r);
      PartLowerable(init, r, n, b);
      FoundOnGrid(init, n, b);
      if 0 <= r.block < n {
        assert GridPart(s, n) == GridPart(init, n) + [r];
        assert r.block == b ==> Lowerable((init + [r])[|init|]);
        FoundStep(GridPart(init, n), r, b);
      } else {
        assert GridPart(s, n) == GridPart(init, n) + [] == GridPart(init, n);
      }
    }
  }

  lemma PartLowerable(init: seq<MemcRecord>, r: MemcRecord, n: nat, b: int)
    requires SelectedLowerable(init + [r], {b}) && SelectedLowerable(GridPart(init + [r], n), {b})
    ensures SelectedLowerable(init, {b}) && SelectedLowerable(GridPart(init, n), {b})
  {
    hide Lowerable;
    FilterAppend(OnGrid(n), init, [r]);
    assert forall i :: 0 <= i < |init| ==> (init + [r])[i] == init[i];
    var part, whole := GridPart(init, n), GridPart(init + [r], n);
    assert forall i :: 0 <= i < |part| ==> whole[i] == part[i];
  }

  // ------------------------------------------------------------ generated items

  /** The event a popped heap entry stands for. */
  function PoppedItem(p: Profile, dims: Dims): HeapEntry -> Item {
    (h: HeapEntry) =>
      ItemFrom(h.block)(
        if 0 <= h.ordinal < |OrderedTemplate(p, h.block)|
        then EntryEvent(OrderedTemplate(p, h.block)[h.ordinal], h.block, dims) else Err(MissingKey))
  }

  /** What an entry needs for its line to be read back. */
  predicate Legible(e: Entry, b: int, dims: Dims) {
    && |e.rules| == |e.pairs| > 0 && PairsReadable(e.pairs)
    && Clean(e.pc) && Clean(e.opcode) && Clean(e.mask)
    && TimestampDelta(e, b).Ok? && TimestampDelta(e, b).value >= 0
    && Signature(e.pc, e.opcode, e.mask, e.pairs).Ok?
  }

  ghost predicate AllLegible(p: Profile, dims: Dims, n: nat) {
    forall b, i :: 0 <= b < n && 0 <= i < |OrderedTemplate(p, b)| ==> Legible(OrderedTemplate(p, b)[i], b, dims)
  }

  /** A written line reads back as the event of its entry. */
  lemma LineMeansEntry(e: Entry, b: nat, dims: Dims, line: string, sequence: int)
    requires Legible(e, b, dims) && WriteEntry(e, b, dims) == Ok(line)
    ensures ParseLine(line, sequence).Ok?
    ensures EntryEvent(e, b, dims).Ok?
    ensures ItemOf(ParseLine(line, sequence).value) == Ok(ItemFrom(b)(EntryEvent(e, b, dims)))
  {
    hide ParseLine, LineFields, Line, Clean, PairsReadable, PredictBases, Signature;
    var bases := PredictBases(e.rules, b, dims).value;
    LineParses(b, TimestampDelta(e, b).value, e, bases, sequence);
    var r := ParseLine(line, sequence).value;
    assert PairsOf(r.groups) == e.pairs && Bases(r.groups) == bases;
  }

  /** Line number `i` reads back as the item `x`. */
  predicate LineHolds(line: string, i: int, x: Item) {
    ParseLine(line, i).Ok? && ItemOf(ParseLine(line, i).value) == Ok(x)
  }

  lemma {:induction false} TextItemsAre(lines: seq<string>, items: seq<Item>)
    requires |lines| == |items| && forall i :: 0 <= i < |lines| ==> LineHolds(lines[i], i, items[i])
    ensures TextItems(lines) == Ok(items)
    decreases |lines|
  {
    hide ParseLine, ItemOf;
    if lines == [] {
      NothingCaptured();
    } else {
      var m := |lines| - 1;
      assert LineHolds(lines[m], m, items[m]);
      TextItemsAre(lines[..m], items[..m]);
      assert items == items[..m] + [items[m]];
    }
  }

  ghost predicate Popped(p: Profile, n: nat, out: seq<HeapEntry>) {
    forall i :: 0 <= i < |out| ==> 0 <= out[i].block < n && 0 <= out[i].ordinal < |OrderedTemplate(p, out[i].block)|
  }

  /** The generated text reads back, line by line, as the events popped from the heap. */
  lemma GeneratedItems(p: Profile, dims: Dims, n: nat, out: seq<HeapEntry>, lines: seq<string>)
    requires AllLegible(p, dims, n) && Popped(p, n, out) && Written(p, dims, out, lines)
    ensures TextItems(lines) == Ok(Map(PoppedItem(p, dims), out))
  {
    hide OrderedTemplate, Legible, WriteEntry, PoppedItem, TextItems, LineHolds;
    var items := Map(PoppedItem(p, dims), out);
    forall i | 0 <= i < |lines| ensures LineHolds(lines[i], i, items[i]) {
      assert WrittenAs(p, dims, out[i], lines[i]);
      PoppedLine(p, dims, out[i], lines[i], i);
    }
    TextItemsAre(lines, items);
  }

  lemma PoppedLine(p: Profile, dims: Dims, h: HeapEntry, line: string, i: int)
    requires WrittenAs(p, dims, h, line) && h.block >= 0
    requires 0 <= h.ordinal < |OrderedTemplate(p, h.block)|
             && Legible(OrderedTemplate(p, h.block)[h.ordinal], h.block, dims)
    ensures LineHolds(line, i, PoppedItem(p, dims)(h))
  {
    hide ParseLine, OrderedTemplate, Legible, WriteEntry, ItemOf, EntryEvent, ItemFrom;
    LineMeansEntry(OrderedTemplate(p, h.block)[h.ordinal], h.block, dims, line, i);
  }

  lemma {:induction false} FilterMap<A, B>(f: A -> B, p: A -> bool, q: B -> bool, xs: seq<A>)
    requires forall i :: 0 <= i < |xs| ==> (q(f(xs[i])) <==> p(xs[i]))
    ensures Filter(q, Map(f, xs)) == Map(f, Filter(p, xs))
  {
    if xs == [] {
      assert Map(f, xs) == [];
    } else {
      FilterMap(f, p, q, xs[1..]);
      assert Map(f, xs) == [f(xs[0])] + Map(f, xs[1..]);
      assert Map(f, xs)[1..] == Map(f, xs[1..]);
      assert Map(f, [xs[0]] + Filter(p, xs[1..])) == [f(xs[0])] + Map(f, Filter(p, xs[1..]));
    }
  }

  lemma MergePops(p: Profile, issue: map<int, Placement>, n: nat, out: seq<HeapEntry>)
    requires issue.Keys == Blocks(n) && IsMerge(Streams(p, issue, n), out)
    ensures Popped(p, n, out)
  {
    hide OrderedTemplate, Emitted, LexLess, Merge.Key, Blocks;
    forall i | 0 <= i < |out|
      ensures 0 <= out[i].block < n && 0 <= out[i].ordinal < |OrderedTemplate(p, out[i].block)| {
      assert IsChoice(Streams(p, issue, n), out[..i], out[i]);
      NextParts(Streams(p, issue, n), out[..i], out[i]);
    }
  }

  /** The written file, taken apart at its newlines, is the generated lines again. */
  lemma FileHoldsLines(p: Profile, issue: map<int, Placement>, dims: Dims, n: nat, lines: seq<string>)
    requires AllLegible(p, dims, n) && Generated(p, issue, dims, n, lines)
    ensures SplitLines(Joined(lines)) == lines
  {
    hide OrderedTemplate, WriteEntry, IsMerge, Legible, OneLine, Ended, Blocks;
    var out: seq<HeapEntry> :| IsMerge(Streams(p, issue, n), out) && Written(p, dims, out, lines);
    MergePops(p, issue, n, out);
    forall i | 0 <= i < |lines| ensures Ended(lines[i]) && OneLine(lines[i]) {
      assert WrittenAs(p, dims, out[i], lines[i]);
      var b, e := out[i].block, OrderedTemplate(p, out[i].block)[out[i].ordinal];
      WrittenOnOneLine(e, b, dims, lines[i]);
    }
    SplitJoinedLines(lines);
  }

  lemma WrittenOnOneLine(e: Entry, b: nat, dims: Dims, line: string)
    requires Legible(e, b, dims) && WriteEntry(e, b, dims) == Ok(line)
    ensures Ended(line) && OneLine(line)
  {
    hide Line, Clean, PairsReadable, Signature, FormatLine;
    GeneratedLineIsOneLine(b, TimestampDelta(e, b).value, e, dims, line);
    CleanHasNoNewline(e.pc);
    CleanHasNoNewline(e.opcode);
    CleanHasNoNewline(e.mask);
  }

  /** A CTA's events in the merge are those of its ordered template, whatever the merge does with the others. */
  lemma PoppedAtCta(p: Profile, issue: map<int, Placement>, dims: Dims, n: nat, out: seq<HeapEntry>, b: int)
    requires issue.Keys == Blocks(n) && IsMerge(Streams(p, issue, n), out)
    ensures 0 <= b < n ==>
              Filter(InBlock(b), Map(PoppedItem(p, dims), out))
              == ItemsAt(b, Map(EventAt(b, dims), OrderedTemplate(p, b)))
    ensures !(0 <= b < n) ==> Filter(InBlock(b), Map(PoppedItem(p, dims), out)) == []
  {
    hide OrderedTemplate, IsMerge, Blocks, EntryEvent;
    var streams, f := Streams(p, issue, n), PoppedItem(p, dims);
    FilterMap(f, OfBlock(b), InBlock(b), out);
    MergeConserves(streams, out, b);
    if 0 <= b < n {
      var t := OrderedTemplate(p, b);
      var whole := WholeStream(streams, b, |t|);
      assert Map(f, whole) == ItemsAt(b, Map(EventAt(b, dims), t));
    } else {
      assert Map(f, []) == [];
    }
  }

  // -------------------------------------------------------------- legibility

  predicate CleanRecord(r: Record) {
    r.groups != [] && Clean(r.pc) && Clean(r.opcode) && Clean(r.mask)
  }

  predicate CleanRecords(records: seq<Record>) {
    forall i :: 0 <= i < |records| ==> CleanRecord(records[i])
  }

  /** No opcode that the given CTAs execute has white space in it. */
  predicate CleanOpcodes(s: seq<MemcRecord>, ctas: set<int>) {
    forall i :: 0 <= i < |s| && s[i].block in ctas ==> Clean(s[i].opcode)
  }

  lemma {:induction false} FoundClean(s: seq<MemcRecord>, b: int)
    requires AllFromWire(s) && CleanOpcodes(s, {b}) && SelectedLowerable(s, {b})
    ensures CleanRecords(Found(s, b))
    decreases |s|
  {
    hide Lower, FromWire, Clean;
    if s != [] {
      var n := |s| - 1;
      FoundClean(s[..n], b);
      if s[n].block == b {
        assert Lowerable(s[n]) && FromWire(s[n]);
        LoweredFromWire(s[n]);
      }
    }
  }

  lemma BuiltLegible(sampled: map<int, seq<Record>>, indexed: map<int, Index>, ctas: seq<int>, dims: Dims,
                     options: Options, template: seq<Entry>, b: int, i: nat)
    requires Prepared(sampled, indexed, ctas) && BuildTemplate(sampled, indexed, ctas, dims, options) == Ok(template)
    requires (options.exactTable ==> b in ctas) && i < |template| && ctas[0] in sampled
             && CleanRecords(sampled[ctas[0]])
    ensures Legible(template[i], b, dims)
  {
    hide BuildTemplate, Prepared, BuildEntry, Clean, Signature, PairsReadable, TimestampDelta, SlotRules, Slots,
      RecordAt, EntrySlot, MinTime;
    var r := EntryOrigin(sampled, indexed, ctas, dims, options, template, i);
    EntryTimes(sampled, indexed, ctas, dims, options, i, r, template[i], b);
    EntryShape(sampled, indexed, ctas, dims, options, i, r, template[i]);
    EntryPairs(sampled, indexed, ctas, dims, options, i, r, template[i]);
    ReadableFrom(r);
    var k :| 0 <= k < |sampled[ctas[0]]| && sampled[ctas[0]][k] == r;
    assert CleanRecord(sampled[ctas[0]][k]);
  }

  /** The records of every selected CTA survive a line of text. */
  ghost predicate CleanSelected(sampled: map<int, seq<Record>>, s: Setup) {
    forall b :: b in Selected(s) ==> b in sampled && CleanRecords(sampled[b])
  }

  lemma CleanAt(sampled: map<int, seq<Record>>, s: Setup, b: int)
    requires CleanSelected(sampled, s) && b in Selected(s)
    ensures b in sampled && CleanRecords(sampled[b])
  {
    hide Selected, CleanRecords;
  }

  /** Every instruction of every CTA of the grid can be read back, whether the CTA was captured or not. */
  lemma ProfileLegible(sampled: map<int, seq<Record>>, s: Setup, p: Profile)
    requires WellSampled(sampled, Selected(s)) && ProfileOf(sampled, s) == Ok(p) && CleanSelected(sampled, s)
    ensures AllLegible(p, s.dims, s.n)
  {
    hide ProfileOf, BuildTemplate, Prepared, Legible, OrderedTemplate, IndexableAt, Indexes, CleanRecords,
      TemplateFor, Selected, WellSampled;
    forall b, i | 0 <= b < s.n && 0 <= i < |OrderedTemplate(p, b)|
      ensures Legible(OrderedTemplate(p, b)[i], b, s.dims) {
      var ctas, options := TemplateOrigin(sampled, s, p, b);
      OrderedPermutes(p, b);
      var template := TemplateFor(p, b);
      var k :| 0 <= k < |template| && template[k] == OrderedTemplate(p, b)[i];
      CleanAt(sampled, s, ctas[0]);
      BuiltLegible(sampled, Indexes(sampled, Selected(s)), ctas, s.dims, options, template, b, k);
    }
  }

  // ------------------------------------------------------------- text and capture

  /** Where the template stands for some records, its generated items are theirs, each as often. */
  lemma SameItemsAtCta(p: Profile, dims: Dims, b: int, records: seq<Record>)
    requires Reproduces(TemplateFor(p, b), b, dims, records)
    ensures multiset(ItemsAt(b, Map(EventAt(b, dims), OrderedTemplate(p, b))))
            == multiset(ItemsAt(b, Map(EventOf, records)))
  {
    hide OrderedTemplate, TemplateFor, EntryEvent, EventOf;
    OrderedPermutes(p, b);
    MapPermutation(EventAt(b, dims), OrderedTemplate(p, b), TemplateFor(p, b));
    MapPermutation(ItemFrom(b), Map(EventAt(b, dims), OrderedTemplate(p, b)), Map(EventOf, records));
  }

  /** A generated text, parsed: at each CTA of the grid the items of its ordered template, elsewhere nothing. */
  lemma TextByBlock(p: Profile, issue: map<int, Placement>, dims: Dims, n: nat, lines: seq<string>)
    requires Generated(p, issue, dims, n, lines) && AllLegible(p, dims, n)
    ensures TextItems(lines).Ok?
    ensures forall b :: 0 <= b < n ==>
              Filter(InBlock(b), TextItems(lines).value) == ItemsAt(b, Map(EventAt(b, dims), OrderedTemplate(p, b)))
    ensures forall b :: !(0 <= b < n) ==> Filter(InBlock(b), TextItems(lines).value) == []
  {
    hide OrderedTemplate, IsMerge, Written, Blocks, EntryEvent, AllLegible, TextItems;
    var out :| IsMerge(Streams(p, issue, n), out) && Written(p, dims, out, lines);
    MergePops(p, issue, n, out);
    GeneratedItems(p, dims, n, out, lines);
    forall b
      ensures 0 <= b < n ==>
                Filter(InBlock(b), TextItems(lines).value) == ItemsAt(b, Map(EventAt(b, dims), OrderedTemplate(p, b)))
      ensures !(0 <= b < n) ==> Filter(InBlock(b), TextItems(lines).value) == []
    {
      PoppedAtCta(p, issue, dims, n, out, b);
    }
  }

  lemma MultisetByBlock(a: seq<Item>, b: seq<Item>)
    requires forall k :: multiset(Filter(InBlock(k), a)) == multiset(Filter(InBlock(k), b))
    ensures multiset(a) == multiset(b)
  {
    hide Filter;
    forall x ensures multiset(a)[x] == multiset(b)[x] {
      FilterMultiset(InBlock(x.block), a, x);
      FilterMultiset(InBlock(x.block), b, x);
    }
  }

  lemma CapturedByBlock(s: seq<MemcRecord>, n: nat, found: map<int, seq<Record>>, b: int)
    requires AllFromWire(s) && SelectedLowerable(s, Blocks(n)) && Collected(s, n, found)
    ensures CaptureItems(GridPart(s, n)).Ok?
    ensures |CaptureItems(GridPart(s, n)).value| == |GridPart(s, n)|
    ensures Filter(InBlock(b), CaptureItems(GridPart(s, n)).value)
         == if 0 <= b < n && b in found then ItemsAt(b, Map(EventOf, found[b])) else []
  {
    hide CaptureItems, EventOf, GridPart, Found, AllFromWire, Blocks, Lowerable;
    GridPartLowerable(s, n);
    CapturedItems(GridPart(s, n), b);
    if 0 <= b < n {
      FoundOnGrid(s, n, b);
    } else {
      NotOnGrid(s, n, b);
      assert ItemsAt(b, Map(EventOf, [])) == [];
    }
  }

  lemma NotOnGrid(s: seq<MemcRecord>, n: nat, b: int)
    requires SelectedLowerable(GridPart(s, n), {b}) && !(0 <= b < n)
    ensures Found(GridPart(s, n), b) == []
  {
    hide Lowerable;
    var t := GridPart(s, n);
    forall i | 0 <= i < |t| ensures t[i].block != b {
      assert t[i] in t;
      FilteredFrom(OnGrid(n), s, t[i]);
    }
    NoneFound(t, b);
  }

  lemma {:induction false} NoneFound(s: seq<MemcRecord>, b: int)
    requires SelectedLowerable(s, {b}) && forall i :: 0 <= i < |s| ==> s[i].block != b
    ensures Found(s, b) == []
    decreases |s|
  {
    hide Lower, Lowerable;
    if s != [] {
      NoneFound(s[..|s| - 1], b);
    }
  }

  /** Every CTA of the grid has the lowered filter of the stream. */
  ghost predicate Collected(s: seq<MemcRecord>, n: nat, found: map<int, seq<Record>>) {
    forall b :: 0 <= b < n ==> b in found && SelectedLowerable(s, {b}) && found[b] == Found(s, b) && GoodCta(found[b])
  }

  ghost predicate ProfiledAs(sampled: map<int, seq<Record>>, s: Setup, p: Profile) {
    WellSampled(sampled, Selected(s)) && ProfileOf(sampled, s) == Ok(p)
  }

  /** Every selected CTA has the lowered filter of the stream. */
  ghost predicate SelectedCollected(s: seq<MemcRecord>, setup: Setup, found: map<int, seq<Record>>) {
    forall b :: b in Selected(setup) ==>
      b in found && SelectedLowerable(s, {b}) && found[b] == Found(s, b) && GoodCta(found[b])
  }

  /** What is known once the selected CTAs have been collected and profiled. */
  lemma Collecting(files: seq<seq<byte>>, s: Setup, gapsValidated: bool, p: Profile, captured: seq<MemcRecord>)
    returns (c: Collection)
    requires DecodeFiles(files) == Ok(captured) && ProfileFiles(files, s, gapsValidated) == Ok(p)
    ensures AllFromWire(captured) && SelectedLowerable(captured, SetOf(Selected(s)))
    ensures ProfiledAs(c.found, s, p) && SelectedCollected(captured, s, c.found)
  {
    hide DecodeFiles, Found, GoodCta, AllFromWire, Summary, Lowerable, Contiguous, Increasing, ProfileOf, Selected;
    c := Collect(files, SetOf(Selected(s)), s.complete, gapsValidated).value;
    CollectedGood(files, Selected(s), s.complete, gapsValidated, c);
    DecodedFromWire(files);
  }

  /** On a complete grid the selected CTAs are those of the grid. */
  lemma GridCollected(files: seq<seq<byte>>, s: Setup, gapsValidated: bool, p: Profile, captured: seq<MemcRecord>)
    returns (c: Collection)
    requires DecodeFiles(files) == Ok(captured) && s.complete && ProfileFiles(files, s, gapsValidated) == Ok(p)
    ensures AllFromWire(captured) && SelectedLowerable(captured, Blocks(s.n)) && Collected(captured, s.n, c.found)
    ensures ProfiledAs(c.found, s, p) && SetOf(Selected(s)) == Blocks(s.n) && SelectedCollected(captured, s, c.found)
  {
    hide DecodeFiles, Found, GoodCta, AllFromWire, Lowerable, ProfileOf, Blocks, ProfileFiles, SelectedLowerable;
    c := Collecting(files, s, gapsValidated, p, captured);
    GridSelected(c.found, s, p);
    SelectedBlocks(s);
    forall b | 0 <= b < s.n ensures b in Selected(s) {
      assert Selected(s)[b] == b;
    }
  }

  lemma SelectedBlocks(s: Setup)
    requires Selected(s) == Range(s.n)
    ensures SetOf(Selected(s)) == Blocks(s.n)
  {
  }

  lemma CleanCollected(captured: seq<MemcRecord>, s: Setup, found: map<int, seq<Record>>)
    requires AllFromWire(captured) && SelectedCollected(captured, s, found)
    requires CleanOpcodes(captured, SetOf(Selected(s)))
    ensures CleanSelected(found, s)
  {
    hide Found, AllFromWire, GoodCta, Clean, Selected, SelectedLowerable;
    forall b | b in Selected(s) ensures b in found && CleanRecords(found[b]) {
      FoundClean(captured, b);
    }
  }

  /** The text, parsed back, holds at CTA `b` exactly the events captured there, each as often. */
  ghost predicate CtaSurvives(lines: seq<string>, captured: seq<MemcRecord>, b: int) {
    && TextItems(lines).Ok? && SelectedLowerable(captured, {b})
    && multiset(Filter(InBlock(b), TextItems(lines).value)) == multiset(ItemsAt(b, Map(EventOf, Found(captured, b))))
  }

  /**
   * After any successful profile, sampled or complete, and any generation from it, the text parsed back
   * holds at every selected CTA, trained on or held out, exactly the events captured there.
   */
  lemma SelectedCtasSurvive(files: seq<seq<byte>>, s: Setup, gapsValidated: bool, p: Profile,
                            issue: map<int, Placement>, lines: seq<string>, captured: seq<MemcRecord>, b: int)
    requires DecodeFiles(files) == Ok(captured) && CleanOpcodes(captured, SetOf(Selected(s)))
    requires ProfileFiles(files, s, gapsValidated) == Ok(p) && Generated(p, issue, s.dims, s.n, lines)
    requires b in Selected(s)
    ensures CtaSurvives(lines, captured, b)
  {
    hide DecodeFiles, ProfileFiles, ProfileOf, Found, TextItems, AllFromWire, WellSampled, AllLegible,
      OrderedTemplate, EventOf, EntryEvent, GoodCta, CleanOpcodes, CleanSelected, SelectedLowerable, TemplateFor,
      Generated;
    var c := Collecting(files, s, gapsValidated, p, captured);
    CleanCollected(captured, s, c.found);
    ProfileLegible(c.found, s, p);
    TextByBlock(p, issue, s.dims, s.n, lines);
    var k :| 0 <= k < |Selected(s)| && Selected(s)[k] == b;
    ProfilePreservesMeaning(c.found, s, p, k);
    SelectedBelow(c.found, s, k);
    SameItemsAtCta(p, s.dims, b, c.found[b]);
  }

  /** The file written after any successful profile and generation, taken apart, is the generated lines. */
  lemma GeneratedFileReadsBack(files: seq<seq<byte>>, s: Setup, gapsValidated: bool, p: Profile,
                               issue: map<int, Placement>, lines: seq<string>, captured: seq<MemcRecord>)
    requires DecodeFiles(files) == Ok(captured) && CleanOpcodes(captured, SetOf(Selected(s)))
    requires ProfileFiles(files, s, gapsValidated) == Ok(p) && Generated(p, issue, s.dims, s.n, lines)
    ensures SplitLines(Joined(lines)) == lines
  {
    hide DecodeFiles, ProfileFiles, ProfileOf, Found, AllFromWire, WellSampled, AllLegible, CleanOpcodes,
      CleanSelected, SelectedLowerable, Generated, SelectedCollected, Selected;
    var c := Collecting(files, s, gapsValidated, p, captured);
    CleanCollected(captured, s, c.found);
    ProfileLegible(c.found, s, p);
    FileHoldsLines(p, issue, s.dims, s.n, lines);
  }

  lemma SelectedBelow(sampled: map<int, seq<Record>>, s: Setup, k: nat)
    requires WellSampled(sampled, Selected(s)) && ProfileOf(sampled, s).Ok? && k < |Selected(s)|
    ensures 0 <= Selected(s)[k] < s.n
  {
    hide ProfileOf, CtaCount;
    SelectionOfOk(sampled, s);
    var b := Selected(s)[k];
    if k < |s.train| {
      assert b == s.train[k];
    } else {
      assert b == s.holdout[k - |s.train|];
    }
  }

  /** Text and capture can both be read, and hold the same events of the same CTAs, each as often. */
  ghost predicate SameEvents(lines: seq<string>, s: seq<MemcRecord>) {
    TextItems(lines).Ok? && CaptureItems(s).Ok? && multiset(TextItems(lines).value) == multiset(CaptureItems(s).value)
  }

  /** A text generated from a profile that mirrors a capture of the grid holds that capture's events on the grid. */
  lemma MirrorHoldsEvents(p: Profile, issue: map<int, Placement>, dims: Dims, n: nat, lines: seq<string>,
                          whole: seq<MemcRecord>, found: map<int, seq<Record>>)
    requires Generated(p, issue, dims, n, lines) && AllLegible(p, dims, n) && Mirrors(p, dims, n, found)
    requires AllFromWire(whole) && SelectedLowerable(whole, Blocks(n)) && Collected(whole, n, found)
    ensures SameEvents(lines, GridPart(whole, n))
  {
    hide Found, TextItems, CaptureItems, GridPart, Blocks, AllLegible, OrderedTemplate, EventOf, EntryEvent,
      GoodCta, AllFromWire, Generated, SelectedLowerable, TemplateFor, AllReadable;
    TextByBlock(p, issue, dims, n, lines);
    CapturedByBlock(whole, n, found, 0);
    var generated, original := TextItems(lines).value, CaptureItems(GridPart(whole, n)).value;
    forall b ensures multiset(Filter(InBlock(b), generated)) == multiset(Filter(InBlock(b), original)) {
      CapturedByBlock(whole, n, found, b);
      if 0 <= b < n {
        SameItemsAtCta(p, dims, b, found[b]);
      }
    }
    MultisetByBlock(generated, original);
  }

  /**
   * The generated trace of a complete grid, read back, holds the captured events of the grid's CTAs: the
   * same blocks, instructions, masks, bases and active-lane offsets, each as often, in whatever order.
   */
  lemma GeneratedHoldsCapturedEvents(files: seq<seq<byte>>, s: Setup, gapsValidated: bool, p: Profile,
                                     issue: map<int, Placement>, lines: seq<string>, captured: seq<MemcRecord>)
    requires DecodeFiles(files) == Ok(captured) && CleanOpcodes(captured, SetOf(Selected(s)))
    requires s.complete && ProfileFiles(files, s, gapsValidated) == Ok(p)
    requires Generated(p, issue, s.dims, s.n, lines)
    ensures SameEvents(lines, GridPart(captured, s.n))
  {
    hide DecodeFiles, ProfileFiles, ProfileOf, GridPart, Blocks, AllLegible, AllFromWire, WellSampled, Selected,
      SetOf, Generated, CleanOpcodes, CleanSelected, Mirrors, SelectedLowerable, Collected, SelectedCollected,
      SameEvents;
    var c := GridCollected(files, s, gapsValidated, p, captured);
    CleanCollected(captured, s, c.found);
    ProfileLegible(c.found, s, p);
    CompleteMirrors(c.found, s, p);
    MirrorHoldsEvents(p, issue, s.dims, s.n, lines, captured, c.found);
  }

  /** Every record of the capture belongs to a CTA of the grid. */
  predicate AllOnGrid(s: seq<MemcRecord>, n: nat) {
    forall i :: 0 <= i < |s| ==> 0 <= s[i].block < n
  }

  lemma {:induction false} GridPartLength(s: seq<MemcRecord>, n: nat)
    ensures |GridPart(s, n)| <= |s|
    ensures |GridPart(s, n)| == |s| <==> AllOnGrid(s, n)
    ensures AllOnGrid(s, n) ==> GridPart(s, n) == s
  {
    if s != [] {
      GridPartLength(s[1..], n);
      assert s == [s[0]] + s[1..];
      if AllOnGrid(s[1..], n) && 0 <= s[0].block < n {
        assert AllOnGrid(s, n);
      }
    }
  }

  /** No CTA has more records than eight bytes can count. */
  ghost predicate CountsFit(s: seq<MemcRecord>) {
    forall b :: Count(AtBlock(b), s) < U64
  }

  lemma {:induction false} FoundCount(s: seq<MemcRecord>, b: int)
    requires SelectedLowerable(s, {b})
    ensures |Found(s, b)| == Count(AtBlock(b), s)
    decreases |s|
  {
    hide Lower, Lowerable;
    if s != [] {
      var init, r := s[..|s| - 1], s[|s| - 1];
      FoundCount(init, b);
      assert s == init + [r];
      CountAppend(AtBlock(b), init, [r]);
      assert [r][1..] == [];
    }
  }

  /** The certificate can be written out exactly when no CTA's event count overflows its eight bytes. */
  lemma FinishesExactlyWhen(d: Digests, s: seq<MemcRecord>)
    requires AllFromWire(s) && AllLowerable(s)
    ensures CaptureItems(s).Ok?
    ensures CensusOf(d, CaptureItems(s).value).Ok? <==> CountsFit(s)
  {
    hide CaptureItems, Fold, Found, AllFromWire, AllLowerable, SortedItems;
    CapturedItems(s, 0);
    var items := CaptureItems(s).value;
    forall b
      ensures b in Fold(d, items) ==> Fold(d, items)[b].count == Count(AtBlock(b), s) && 0 <= b < U64
      ensures b !in Fold(d, items) ==> Count(AtBlock(b), s) == 0
    {
      CapturedItems(s, b);
      FoundCount(s, b);
      FoldIsState(d, items, b);
      BlockInRange(s, b);
    }
  }

  lemma {:induction false} BlockInRange(s: seq<MemcRecord>, b: int)
    requires AllFromWire(s) && AllLowerable(s)
    ensures Count(AtBlock(b), s) > 0 ==> 0 <= b < U64
  {
    hide FromWire, Lower;
    if s != [] {
      BlockInRange(s[1..], b);
      assert FromWire(s[0]) && Lowerable(s[0]);
      LoweredFromWire(s[0]);
    }
  }

  /**
   * A text that holds the events which a capture has on the grid passes the audit against that capture
   * exactly when the capture is contiguous, has no CTA off the grid and no count that overflows.
   */
  lemma AuditExactlyWhen(d: Digests, n: nat, lines: seq<string>, whole: seq<MemcRecord>)
    requires SameEvents(lines, GridPart(whole, n)) && AllFromWire(whole) && SelectedLowerable(whole, Blocks(n))
    ensures AuditPasses(d, whole, lines) <==> Contiguous(whole) && AllOnGrid(whole, n) && CountsFit(whole)
  {
    hide TextItems, CaptureItems, GridPart, Fold, Finish, AllOnGrid, CountsFit, Contiguous, AllFromWire, Blocks;
    var part := GridPart(whole, n);
    var generated, original := TextItems(lines).value, CaptureItems(part).value;
    CensusIgnoresOrder(d, generated, original);
    PermutationLength(generated, original);
    GridPartLength(whole, n);
    if AllOnGrid(whole, n) {
      GridPartLowerable(whole, n);
      FinishesExactlyWhen(d, whole);
    }
    if AuditPasses(d, whole, lines) {
      CensusLines(d, whole);
    }
  }

  /**
   * Audit completeness. For a complete grid whose opcodes have no white space, once profile and generate
   * have succeeded the audit of the generated text against the capture passes exactly when the capture's
   * sequence numbers are contiguous, all of its CTAs are on the grid and no CTA's event count overflows,
   * whatever the digest functions.
   */
  lemma AuditPassesExactlyWhen(d: Digests, files: seq<seq<byte>>, s: Setup, gapsValidated: bool, p: Profile,
                               issue: map<int, Placement>, lines: seq<string>, captured: seq<MemcRecord>)
    requires DecodeFiles(files) == Ok(captured) && CleanOpcodes(captured, SetOf(Selected(s)))
    requires s.complete && ProfileFiles(files, s, gapsValidated) == Ok(p)
    requires Generated(p, issue, s.dims, s.n, lines)
    ensures AuditPasses(d, captured, lines)
       <==> Contiguous(captured) && AllOnGrid(captured, s.n) && CountsFit(captured)
  {
    hide DecodeFiles, ProfileFiles, Generated, GridPart, AllOnGrid, CountsFit, CleanOpcodes, Contiguous,
      AllFromWire, Selected, Blocks, SetOf, AuditPasses, SameEvents, Collected, SelectedCollected, ProfiledAs,
      SelectedLowerable;
    GeneratedHoldsCapturedEvents(files, s, gapsValidated, p, issue, lines, captured);
    var c := GridCollected(files, s, gapsValidated, p, captured);
    AuditExactlyWhen(d, s.n, lines, captured);
  }

  lemma CensusLines(d: Digests, captured: seq<MemcRecord>)
    requires CensusOfCapture(d, captured).Ok?
    ensures CensusOfCapture(d, captured).value.lines == |captured|
  {
    hide Fold, Finish;
  }

  ghost predicate Replayable(p: Result<Profile>, issue: map<int, Placement>, smCount: int, s: Setup) {
    p.Ok? && CanGenerate(p.value, issue, smCount, s.dims, s.n)
  }

  lemma RecordsOnGrid(s: seq<MemcRecord>, n: nat, found: map<int, seq<Record>>)
    requires Collected(s, n, found)
    ensures SomeRecord(found, n) <==> exists i :: 0 <= i < |s| && 0 <= s[i].block < n
  {
    hide Found, GoodCta, Lowerable;
    forall b | 0 <= b < n ensures found[b] != [] <==> exists i :: 0 <= i < |s| && s[i].block == b {
      FoundCount(s, b);
      CountPositive(AtBlock(b), s);
    }
    if i :| 0 <= i < |s| && 0 <= s[i].block < n {
      assert found[s[i].block] != [];
    }
  }

  lemma {:induction false} CountPositive<T>(p: T -> bool, xs: seq<T>)
    ensures Count(p, xs) > 0 <==> exists i :: 0 <= i < |xs| && p(xs[i])
  {
    if xs != [] {
      CountPositive(p, xs[1..]);
      if i :| 0 <= i < |xs| && p(xs[i]) {
        if i > 0 {
          assert xs[1..][i - 1] == xs[i];
        }
      }
    }
  }

  /**
   * Under revision r10 a complete grid that can be collected can always be profiled, and generated from
   * any issue map that covers it, unless no CTA of the grid has a record.
   */
  lemma CompleteGridAlwaysReplays(files: seq<seq<byte>>, s: Setup, gapsValidated: bool, c: Collection,
                                  issue: map<int, Placement>, smCount: int, captured: seq<MemcRecord>)
    requires DecodeFiles(files) == Ok(captured) && SelectionOk(s) && s.complete && s.uniformTables
    requires Collect(files, SetOf(Selected(s)), s.complete, gapsValidated) == Some(c)
    ensures ProfileFiles(files, s, gapsValidated).Ok?
    ensures Replayable(ProfileFiles(files, s, gapsValidated), issue, smCount, s)
       <==> IssueOk(issue, smCount, s.n) && exists i :: 0 <= i < |captured| && 0 <= captured[i].block < s.n
  {
    hide DecodeFiles, Collect, ProfileOf, WellSampled, ReadableAt, Selected, SelectionOk, Found, Collected,
      SomeRecord, CanGenerate, IssueOk, AllCtas;
    CollectedGood(files, Selected(s), s.complete, gapsValidated, c);
    CompleteProfileSucceeds(c.found, s);
    var p := ProfileOf(c.found, s).value;
    var grid := GridCollected(files, s, gapsValidated, p, captured);
    BasesNotNegative(captured, s.n, grid.found);
    assert ProfiledAs(grid.found, s, p);
    CompleteProfileGenerates(grid.found, s, p, issue, smCount);
    RecordsOnGrid(captured, s.n, grid.found);
  }

  lemma BasesNotNegative(s: seq<MemcRecord>, n: nat, found: map<int, seq<Record>>)
    requires Collected(s, n, found)
    ensures AllCtas(found, n)
  {
    hide Found, NonNegativeBases, DistinctSequences, AllReadable;
  }

  /** The one text that revision r10 makes of a complete grid's capture. */
  ghost predicate ReplayOf(files: seq<seq<byte>>, s: Setup, gapsValidated: bool, issue: map<int, Placement>,
                           lines: seq<string>) {
    hide ProfileFiles, Generated;
    ProfileFiles(files, s, gapsValidated).Ok?
      && Generated(ProfileFiles(files, s, gapsValidated).value, issue, s.dims, s.n, lines)
  }

  /**
   * The pipeline as a whole. A complete grid that can be collected, with no gap in its sequence numbers, no
   * CTA off the grid, at least one record and opcodes free of white space, is profiled, generated and
   * audited without failure by revision r10, for any issue map that covers the grid and any digest functions.
   */
  lemma CompleteGridPassesAudit(d: Digests, files: seq<seq<byte>>, s: Setup, c: Collection, issue: map<int, Placement>,
                                smCount: int, captured: seq<MemcRecord>)
    returns (lines: seq<string>)
    requires DecodeFiles(files) == Ok(captured) && captured != [] && CountsFit(captured)
    requires CleanOpcodes(captured, SetOf(Selected(s)))
    requires SelectionOk(s) && s.complete && s.uniformTables && IssueOk(issue, smCount, s.n)
    requires Collect(files, SetOf(Selected(s)), s.complete, false) == Some(c) && AllOnGrid(captured, s.n)
    ensures ReplayOf(files, s, false, issue, lines)
    ensures forall other :: ReplayOf(files, s, false, issue, other) ==> other == lines
    ensures AuditPasses(d, captured, lines)
    ensures SplitLines(Joined(lines)) == lines
  {
    hide DecodeFiles, ProfileFiles, Selected, SelectionOk, IssueOk, CanGenerate, Generated, CleanOpcodes, CountsFit,
      AuditPasses;
    CollectedContiguous(files, s, c, captured);
    hide Collect, Contiguous;
    CompleteGridAlwaysReplays(files, s, false, c, issue, smCount, captured);
    var p := ProfileFiles(files, s, false).value;
    assert 0 <= captured[0].block < s.n;
    lines := GenerationExists(p, issue, smCount, s.dims, s.n);
    forall other | ReplayOf(files, s, false, issue, other) ensures other == lines {
      GenerationUnique(p, issue, s.dims, s.n, other, lines);
    }
    AuditPassesExactlyWhen(d, files, s, false, p, issue, lines, captured);
    GeneratedFileReadsBack(files, s, false, p, issue, lines, captured);
  }

  /** Without validated gaps, only contiguous captures are collected. */
  lemma CollectedContiguous(files: seq<seq<byte>>, s: Setup, c: Collection, captured: seq<MemcRecord>)
    requires DecodeFiles(files) == Ok(captured)
    requires Collect(files, SetOf(Selected(s)), s.complete, false) == Some(c)
    ensures Contiguous(captured)
  {
    hide DecodeFiles, Contiguous, Increasing, SelectedLowerable, Summary;
  }

  // ------------------------------------------------------------------ an example

  /** One CTA that executes one global load in one lane. */
  const ONE_LOAD := WireLoad(0, 256)

  const SINGLE := Setup([0], [], true, true, true, Dims(1, 1, 1), 1)

  lemma OneLoadCollected(files: seq<seq<byte>>)
    requires DecodeFiles(files) == Ok([Render(ONE_LOAD)])
    ensures Collect(files, SetOf(Selected(SINGLE)), true, false).Some?
  {
    hide DecodeFiles, Lower, Render, FoundMap, AsyncCount;
    WireLoadLowers(0, 256);
    var s := [Render(ONE_LOAD)];
    assert Increasing(s) && Contiguous(s) && SelectedLowerable(s, SetOf(Selected(SINGLE)));
  }

  lemma FewRecordsFit(s: seq<MemcRecord>)
    requires |s| < U64
    ensures CountsFit(s)
  {
    forall b ensures Count(AtBlock(b), s) < U64 {
      CountAtMost(AtBlock(b), s);
    }
  }

  lemma OneFile(file: seq<byte>, ws: seq<Wire>)
    requires DecodeFile(file) == Ok(ws)
    ensures DecodeFiles([file]) == Ok(RenderAll(ws))
  {
    hide DecodeFile, RenderAll;
    assert [file][..0] == [];
    assert DecodeFiles([]) == Ok([]);
    assert [] + RenderAll(ws) == RenderAll(ws);
  }

  /** The premises of the theorem above can be met: a file with this one record goes through. */
  lemma OneLoadPassesAudit(d: Digests) returns (files: seq<seq<byte>>, lines: seq<string>)
    ensures DecodeFiles(files) == Ok([Render(ONE_LOAD)])
    ensures ReplayOf(files, SINGLE, false, map[0 := Placement(0, 0)], lines)
    ensures AuditPasses(d, [Render(ONE_LOAD)], lines)
  {
    hide DecodeFile, EncodeFile, Collect, AuditPasses, ReplayOf, CountsFit, WellFormed;
    WireLoadWellFormed(0, 256);
    FileRoundTrip(["LDG"], [ONE_LOAD]);
    files := [EncodeFile(["LDG"], [ONE_LOAD])];
    OneFile(files[0], [ONE_LOAD]);
    assert RenderAll([ONE_LOAD]) == [Render(ONE_LOAD)];
    OneLoadCollected(files);
    var captured := [Render(ONE_LOAD)];
    FewRecordsFit(captured);
    assert Range(1) == [0];
    BlocksAre(1, 0);
    assert Blocks(1) == {0};
    lines := CompleteGridPassesAudit(d, files, SINGLE, Collect(files, SetOf(Selected(SINGLE)), true, false).value,
                                     map[0 := Placement(0, 0)], 1, captured);
  }
}
