/** `generate`: the trace of a profiled kernel, merged over all its CTAs in order of absolute time. */
module Generate {
  import opened Common
  import opened Sequences
  import opened Order
  import opened CoordinateRules
  import opened Template
  import opened Classes
  import opened Profile
  import opened Lines
  import opened Merge

  /** Where and when a CTA starts, as issue.config has it. */
  datatype Placement = Placement(sm: int, start: int)

  // ---------------------------------------------------------------- templates

  /** A CTA's instructions in the order they are merged in. */
  function OrderedTemplate(p: Profile, b: int): seq<Entry> {
    match p
    case Uniform(template) => SortBy(AnchorKey, template)
    case Structural(_, _) => SortBy(OwnKey(b), TemplateFor(p, b))
  }

  lemma OrderedPermutes(p: Profile, b: int)
    ensures multiset(OrderedTemplate(p, b)) == multiset(TemplateFor(p, b))
    ensures |OrderedTemplate(p, b)| == |TemplateFor(p, b)|
    ensures forall i :: 0 <= i < |OrderedTemplate(p, b)| ==> OrderedTemplate(p, b)[i] in TemplateFor(p, b)
  {
    var key := if p.Uniform? then AnchorKey else OwnKey(b);
    var t := TemplateFor(p, b);
    SortByPermutes(key, t);
    assert OrderedTemplate(p, b) == SortBy(key, t);
    forall i | 0 <= i < |SortBy(key, t)| ensures SortBy(key, t)[i] in t {
      assert SortBy(key, t)[i] in SortBy(key, t);
    }
  }

  /** `timestamp_delta` */
  function TimestampDelta(e: Entry, b: int): Result<int> {
    match e.deltaByCta
    case None => Ok(e.delta)
    case Some(table) => if b in table then Ok(table[b]) else Err(MissingKey)
  }

  function WriteEntry(e: Entry, b: int, dims: Dims): Result<string> {
    var delta :- TimestampDelta(e, b);
    FormatLine(b, delta, e, dims)
  }

  function DeltaAt(b: int): Entry -> int {
    (e: Entry) => OwnDelta(e, b)
  }

  function Streams(p: Profile, issue: map<int, Placement>, n: nat): (streams: seq<Stream>)
    requires issue.Keys == Blocks(n)
    ensures |streams| == n
    ensures forall b :: 0 <= b < n ==>
              b in issue && streams[b] == Stream(issue[b].sm, issue[b].start, Map(DeltaAt(b), OrderedTemplate(p, b)))
  {
    hide Blocks, OrderedTemplate, Map;
    KeysAre(issue, n);
    seq(n, b requires 0 <= b < n => Stream(issue[b].sm, issue[b].start, Map(DeltaAt(b), OrderedTemplate(p, b))))
  }

  lemma KeysAre(issue: map<int, Placement>, n: nat)
    requires issue.Keys == Blocks(n)
    ensures forall b :: b in issue <==> 0 <= b < n
  {
    hide Blocks;
    forall b ensures b in issue <==> 0 <= b < n {
      BlocksAre(n, b);
    }
  }

  // -------------------------------------------------------------------- result

  predicate IssueOk(issue: map<int, Placement>, smCount: int, n: nat) {
    smCount > 0 && issue.Keys == Blocks(n) && forall b :: b in issue ==> 0 <= issue[b].sm < smCount
  }

  predicate TemplatesOk(p: Profile, n: nat) {
    match p
    case Uniform(template) => template != []
    case Structural(classes, classById) => GateOk(classes, classById, n)
  }

  /** Every instruction of every CTA can be written. */
  predicate AllWritable(p: Profile, dims: Dims, n: nat) {
    forall b, i :: 0 <= b < n && 0 <= i < |OrderedTemplate(p, b)| ==> Writable(p, dims, b, i)
  }

  predicate Writable(p: Profile, dims: Dims, b: int, i: nat)
    requires i < |OrderedTemplate(p, b)|
  {
    WriteEntry(OrderedTemplate(p, b)[i], b, dims).Ok?
  }

  /** When `generate` succeeds. */
  predicate CanGenerate(p: Profile, issue: map<int, Placement>, smCount: int, dims: Dims, n: nat) {
    CtaCount(dims) == n && IssueOk(issue, smCount, n) && TemplatesOk(p, n) && AllWritable(p, dims, n)
  }

  /** An entry's line can be written: it has a time at the CTA, and predicted bases that are not negative. */
  predicate EntryWritable(e: Entry, b: int, dims: Dims) {
    && (e.deltaByCta.Some? ==> b in e.deltaByCta.value)
    && PredictBases(e.rules, b, dims).Ok?
    && forall i :: 0 <= i < |e.rules| && i < |e.pairs| ==> PredictBases(e.rules, b, dims).value[i] >= 0
  }

  /**
   * Exactly what `generate` demands: a grid of n CTAs, each with a place on one of the SMs, a nonempty template
   * or a class table that partitions the grid, and lines that can all be written.
   */
  lemma GeneratesExactlyWhen(p: Profile, issue: map<int, Placement>, smCount: int, dims: Dims, n: nat)
    ensures CanGenerate(p, issue, smCount, dims, n)
       <==> && dims.x * dims.y * dims.z == n && smCount > 0
            && (forall b :: b in issue <==> 0 <= b < n)
            && (forall b :: b in issue ==> 0 <= issue[b].sm < smCount)
            && (match p
                case Uniform(template) => template != []
                case Structural(classes, classById) => WellTabled(classes, classById, n))
            && (forall b, i :: 0 <= b < n && 0 <= i < |OrderedTemplate(p, b)| ==>
                  EntryWritable(OrderedTemplate(p, b)[i], b, dims))
  {
    hide Blocks, OrderedTemplate, WellTabled, GateOk, EntryWritable, PredictBases, LineFields, Line;
    forall b ensures b in Blocks(n) <==> 0 <= b < n {
      BlocksAre(n, b);
    }
    assert issue.Keys == Blocks(n) <==> forall b :: b in issue <==> 0 <= b < n;
    if p.Structural? {
      GateAcceptsExactlyWhen(p.classes, p.classById, n);
    }
    forall b, i | 0 <= b < n && 0 <= i < |OrderedTemplate(p, b)|
      ensures Writable(p, dims, b, i) <==> EntryWritable(OrderedTemplate(p, b)[i], b, dims)
    {
      WritableIs(OrderedTemplate(p, b)[i], b, dims);
    }
  }

  lemma WritableIs(e: Entry, b: int, dims: Dims)
    ensures WriteEntry(e, b, dims).Ok? <==> EntryWritable(e, b, dims)
  {
    hide PredictBases, LineFields, Line;
  }

  /** A popped heap entry names an instruction, and `line` is how it is written. */
  predicate WrittenAs(p: Profile, dims: Dims, h: HeapEntry, line: string) {
    0 <= h.ordinal < |OrderedTemplate(p, h.block)|
    && WriteEntry(OrderedTemplate(p, h.block)[h.ordinal], h.block, dims) == Ok(line)
  }

  ghost predicate Written(p: Profile, dims: Dims, out: seq<HeapEntry>, lines: seq<string>) {
    |lines| == |out| && forall i :: 0 <= i < |out| ==> WrittenAs(p, dims, out[i], lines[i])
  }

  /** What `generate` writes: the merge of all CTAs' instructions, line by line. */
  ghost predicate Generated(p: Profile, issue: map<int, Placement>, dims: Dims, n: nat, lines: seq<string>) {
    issue.Keys == Blocks(n)
    && exists out :: IsMerge(Streams(p, issue, n), out) && Written(p, dims, out, lines)
  }

  // --------------------------------------------------------------------- loops

  /** `template_by_block` */
  method OrderTemplates(p: Profile, n: nat) returns (r: Result<map<int, seq<Entry>>>)
    ensures r.Ok? <==> TemplatesOk(p, n)
    ensures r.Ok? ==> forall b :: 0 <= b < n ==> b in r.value && r.value[b] == OrderedTemplate(p, b)
  {
    hide SortBy, GateOk, Blocks;
    match p
    case Uniform(template) =>
      var sorted := SortBy(AnchorKey, template);
      SortByPermutes(AnchorKey, template);
      if sorted == [] {
        return Err(EmptyTemplate);
      }
      forall b ensures b in Blocks(n) <==> 0 <= b < n {
        BlocksAre(n, b);
      }
      return Ok(map b | b in Blocks(n) :: sorted);
    case Structural(classes, classById) =>
      var templates := ClassGate(classes, classById, n);
      if templates.Ok? {
        forall b | 0 <= b < n ensures b in templates.value && templates.value[b] == OrderedTemplate(p, b) {
          BlocksAre(n, b);
          GatedTemplate(p, n, templates.value, b);
        }
      }
      return templates;
  }

  lemma GatedTemplate(p: Profile, n: nat, templates: map<int, seq<Entry>>, b: int)
    requires p.Structural? && GateOk(p.classes, p.classById, n) && 0 <= b < n && b in templates
    requires TakenSorted(templates, p.classes, |p.classes|)
    ensures templates[b] == OrderedTemplate(p, b)
  {
    hide SortBy, GateOk, OwnKey;
    GatePartitions(p.classes, p.classById, n, b);
    var i :| 0 <= i < |p.classes| && b in p.classes[i].ctas;
    assert HoldsCta(b)(p.classes[i]);
    var k := First(HoldsCta(b), p.classes);
    assert HoldsCta(b)(p.classes[k]) && k == i;
    var j :| 0 <= j < |p.classes[i].ctas| && p.classes[i].ctas[j] == b;
    assert TemplatesSorted(templates, p.classes[i], |p.classes[i].ctas|);
  }

  /** The delta the heap is keyed by is the CTA's own. */
  lemma TimedByOwnDelta(e: Entry, b: int)
    requires TimestampDelta(e, b).Ok?
    ensures TimestampDelta(e, b).value == OwnDelta(e, b)
  {
  }

  ghost predicate Timed(p: Profile, h: HeapEntry) {
    && 0 <= h.ordinal < |OrderedTemplate(p, h.block)|
    && TimestampDelta(OrderedTemplate(p, h.block)[h.ordinal], h.block).Ok?
  }

  ghost predicate AllTimed(p: Profile, entries: seq<HeapEntry>) {
    forall h :: h in entries ==> Timed(p, h)
  }

  ghost predicate Templates(templates: map<int, seq<Entry>>, p: Profile, n: nat) {
    forall b :: 0 <= b < n ==> b in templates && templates[b] == OrderedTemplate(p, b)
  }

  /** The heap entry the loop builds for an instruction is the one the merge asks for. */
  lemma HeapEntryIs(p: Profile, issue: map<int, Placement>, n: nat, b: int, i: nat)
    requires issue.Keys == Blocks(n) && 0 <= b < n && i < |OrderedTemplate(p, b)|
    ensures b in issue && Streams(p, issue, n)[b].deltas != [] && i < |Streams(p, issue, n)[b].deltas|
    ensures TimestampDelta(OrderedTemplate(p, b)[i], b).Ok? ==>
              HeapEntry(issue[b].start + TimestampDelta(OrderedTemplate(p, b)[i], b).value, issue[b].sm, b, i)
              == EntryFor(Streams(p, issue, n), b, i)
  {
    hide OrderedTemplate, Blocks;
    KeysAre(issue, n);
  }

  /** A delta missing from an exact table stops the run. */
  lemma Unwritable(p: Profile, dims: Dims, n: nat, b: int, i: nat)
    requires 0 <= b < n && i < |OrderedTemplate(p, b)|
    ensures TimestampDelta(OrderedTemplate(p, b)[i], b).Err? ==> !AllWritable(p, dims, n)
    ensures !Writable(p, dims, b, i) ==> !AllWritable(p, dims, n)
  {
    hide OrderedTemplate, FormatLine;
    if TimestampDelta(OrderedTemplate(p, b)[i], b).Err? {
      assert !Writable(p, dims, b, i);
    }
  }

  /** The heap before the loop: the first instruction of each CTA that has one. */
  method Heads(ghost p: Profile, templates: map<int, seq<Entry>>, issue: map<int, Placement>, ghost dims: Dims, n: nat)
    returns (r: Result<seq<HeapEntry>>)
    requires Templates(templates, p, n) && issue.Keys == Blocks(n)
    ensures r.Ok? ==> HoldsNext(r.value, Streams(p, issue, n), []) && AllTimed(p, r.value)
    ensures r.Err? ==> !AllWritable(p, dims, n)
  {
    hide OrderedTemplate, Blocks, AllWritable, HeadsBelow, HoldsNext, TimestampDelta, EntryFor;
    ghost var streams := Streams(p, issue, n);
    var entries: seq<HeapEntry> := [];
    HeadsHold(entries, streams);
    for b := 0 to n
      invariant HeadsBelow(entries, streams, b) && AllTimed(p, entries)
    {
      HeadsStep(entries, streams, b);
      if templates[b] != [] {
        var delta := TimestampDelta(templates[b][0], b);
        HeapEntryIs(p, issue, n, b, 0);
        if delta.Err? {
          Unwritable(p, dims, n, b, 0);
          return Err(delta.error);
        }
        entries := entries + [HeapEntry(issue[b].start + delta.value, issue[b].sm, b, 0)];
      }
    }
    HeadsHold(entries, streams);
    return Ok(entries);
  }

  /** The loop's state: the heap holds the next instruction of every unfinished CTA, and `lines` those popped. */
  ghost predicate MidRun(p: Profile, issue: map<int, Placement>, dims: Dims, n: nat, entries: seq<HeapEntry>,
                         out: seq<HeapEntry>, lines: seq<string>)
    requires issue.Keys == Blocks(n)
  {
    && HoldsNext(entries, Streams(p, issue, n), out) && IsRun(Streams(p, issue, n), out)
    && AllTimed(p, entries) && Written(p, dims, out, lines)
  }

  lemma Begins(p: Profile, issue: map<int, Placement>, dims: Dims, n: nat, entries: seq<HeapEntry>)
    requires issue.Keys == Blocks(n)
    requires HoldsNext(entries, Streams(p, issue, n), []) && AllTimed(p, entries)
    ensures MidRun(p, issue, dims, n, entries, [], [])
  {
    RunStarts(Streams(p, issue, n));
  }

  /** The popped entry is the merge's choice. */
  lemma Chosen(p: Profile, issue: map<int, Placement>, dims: Dims, n: nat, entries: seq<HeapEntry>, out: seq<HeapEntry>,
               lines: seq<string>, h: HeapEntry)
    requires issue.Keys == Blocks(n) && MidRun(p, issue, dims, n, entries, out, lines)
    requires h in entries && forall k :: k in entries ==> LexLeq(Key(h), Key(k))
    ensures IsChoice(Streams(p, issue, n), out, h)
    ensures 0 <= h.block < n && h.block in issue && 0 <= h.ordinal < |OrderedTemplate(p, h.block)|
            && h.sm == issue[h.block].sm
    ensures TimestampDelta(OrderedTemplate(p, h.block)[h.ordinal], h.block).Ok?
  {
    hide OrderedTemplate, Blocks, Written, IsRun, LexLess, Key, TimestampDelta, Emitted;
    HoldsNextMembers(entries, Streams(p, issue, n), out);
    NextParts(Streams(p, issue, n), out, h);
    assert Timed(p, h);
  }

  /** Writing the popped instruction and pushing its successor, if there is one, carries the state over. */
  lemma Advances(p: Profile, issue: map<int, Placement>, dims: Dims, n: nat, before: seq<HeapEntry>,
                 after: seq<HeapEntry>, out: seq<HeapEntry>, lines: seq<string>, h: HeapEntry, line: string)
    requires issue.Keys == Blocks(n) && MidRun(p, issue, dims, n, before, out, lines)
    requires h in before && IsChoice(Streams(p, issue, n), out, h) && WrittenAs(p, dims, h, line)
    requires h.ordinal + 1 < |Streams(p, issue, n)[h.block].deltas| ==>
               Timed(p, EntryFor(Streams(p, issue, n), h.block, h.ordinal + 1))
               && multiset(after)
                  == multiset(before) - multiset{h} + multiset{EntryFor(Streams(p, issue, n), h.block, h.ordinal + 1)}
    requires h.ordinal + 1 >= |Streams(p, issue, n)[h.block].deltas| ==>
               multiset(after) == multiset(before) - multiset{h}
    ensures MidRun(p, issue, dims, n, after, out + [h], lines + [line])
    ensures EmittedBelow(out, n) < EmittedBelow(out + [h], n) <= Lengths(Streams(p, issue, n))
  {
    hide OrderedTemplate, Blocks, IsRun, LexLess, Key, Emitted, HoldsNext, IsNext, EntryFor, WrittenAs, Timed,
      Streams;
    var streams := Streams(p, issue, n);
    HeapStep(before, after, streams, out, h);
    ExtendRun(streams, out, h);
    forall k | k in after ensures Timed(p, k) {
      assert k in multiset(after);
      if k in multiset(before) {
        assert k in before;
      }
    }
  }

  /** When the heap is empty the merge is complete and every instruction has been written. */
  lemma Ends(p: Profile, issue: map<int, Placement>, dims: Dims, n: nat, out: seq<HeapEntry>, lines: seq<string>)
    requires issue.Keys == Blocks(n) && MidRun(p, issue, dims, n, [], out, lines)
    ensures IsMerge(Streams(p, issue, n), out) && Written(p, dims, out, lines)
    ensures |lines| == Lengths(Streams(p, issue, n)) && AllWritable(p, dims, n)
  {
    hide OrderedTemplate, Blocks, LexLess, Key, Emitted, HoldsNext, IsNext, IsMerge, WriteEntry;
    var streams := Streams(p, issue, n);
    RunEnds([], streams, out);
    forall b, i | 0 <= b < n && 0 <= i < |OrderedTemplate(p, b)| ensures Writable(p, dims, b, i) {
      var k := EmittedSomewhere(streams, out, b, i);
      assert WrittenAs(p, dims, out[k], lines[k]);
    }
  }

  /** One turn of the loop: pops an instruction, writes it and pushes its CTA's next one. */
  method Turn(p: Profile, templates: map<int, seq<Entry>>, issue: map<int, Placement>, dims: Dims, n: nat,
              heap: MinHeap, ghost out: seq<HeapEntry>, ghost lines: seq<string>)
    returns (line: Result<string>, ghost h: HeapEntry)
    requires Templates(templates, p, n) && issue.Keys == Blocks(n)
    requires MidRun(p, issue, dims, n, heap.entries, out, lines) && heap.entries != []
    modifies heap
    ensures line.Ok? ==> MidRun(p, issue, dims, n, heap.entries, out + [h], lines + [line.value])
                         && EmittedBelow(out, n) < EmittedBelow(out + [h], n) <= Lengths(Streams(p, issue, n))
    ensures line.Err? ==> !AllWritable(p, dims, n)
  {
    hide OrderedTemplate, Blocks, AllWritable, Templates, TimestampDelta, EntryFor, MidRun, LexLess, Key, IsChoice,
      FormatLine, Written, AllTimed, Writable, HoldsNext, IsRun, Streams;
    ghost var before := heap.entries;
    var top := heap.Pop();
    h := top;
    Chosen(p, issue, dims, n, before, out, lines, top);
    TemplateOf(templates, p, n, top.block);
    var template := templates[top.block];
    line := WriteEntry(template[top.ordinal], top.block, dims);
    if line.Err? {
      Unwritten(p, dims, n, top);
      return;
    }
    HeapEntryIs(p, issue, n, top.block, top.ordinal);
    if top.ordinal + 1 < |template| {
      HeapEntryIs(p, issue, n, top.block, top.ordinal + 1);
      var delta := TimestampDelta(template[top.ordinal + 1], top.block);
      if delta.Err? {
        Unwritable(p, dims, n, top.block, top.ordinal + 1);
        return Err(delta.error), h;
      }
      heap.Push(HeapEntry(issue[top.block].start + delta.value, top.sm, top.block, top.ordinal + 1));
    }
    Advances(p, issue, dims, n, before, heap.entries, out, lines, top, line.value);
  }

  /** `generate`, from the parsed inputs on: a heap of the CTAs' next instructions, popped until it is empty. */
  method RunGenerate(p: Profile, issue: map<int, Placement>, smCount: int, dims: Dims, n: nat)
      returns (r: Result<seq<string>>)
    ensures r.Ok? <==> CanGenerate(p, issue, smCount, dims, n)
    ensures r.Ok? ==> Generated(p, issue, dims, n, r.value)
  {
    hide OrderedTemplate, Blocks, AllWritable, Templates, MidRun, TemplatesOk, IsMerge, Written, AllTimed, Streams;
    if CtaCount(dims) != n || !IssueOk(issue, smCount, n) {
      return Err(BadIssueMap);
    }
    var templates :- OrderTemplates(p, n);
    TemplatesFrom(templates, p, n);
    var heads :- Heads(p, templates, issue, dims, n);
    var heap := new MinHeap(heads);
    var lines: seq<string> := [];
    ghost var out: seq<HeapEntry> := [];
    Begins(p, issue, dims, n, heads);
    while heap.entries != []
      invariant MidRun(p, issue, dims, n, heap.entries, out, lines)
      invariant fresh(heap)
      decreases Lengths(Streams(p, issue, n)) - EmittedBelow(out, n)
    {
      var line, h := Turn(p, templates, issue, dims, n, heap, out, lines);
      if line.Err? {
        return Err(line.error);
      }
      out := out + [h];
      lines := lines + [line.value];
    }
    Ends(p, issue, dims, n, out, lines);
    assert |lines| == Lengths(Streams(p, issue, n));  // the source's final count check
    return Ok(lines);
  }

  lemma TemplatesFrom(templates: map<int, seq<Entry>>, p: Profile, n: nat)
    requires forall b :: 0 <= b < n ==> b in templates && templates[b] == OrderedTemplate(p, b)
    ensures Templates(templates, p, n)
  {
  }

  lemma TemplateOf(templates: map<int, seq<Entry>>, p: Profile, n: nat, b: int)
    requires Templates(templates, p, n) && 0 <= b < n
    ensures b in templates && templates[b] == OrderedTemplate(p, b)
  {
  }

  lemma Unwritten(p: Profile, dims: Dims, n: nat, h: HeapEntry)
    requires 0 <= h.block < n && 0 <= h.ordinal < |OrderedTemplate(p, h.block)|
    requires WriteEntry(OrderedTemplate(p, h.block)[h.ordinal], h.block, dims).Err?
    ensures !AllWritable(p, dims, n)
  {
    hide OrderedTemplate, WriteEntry;
    Unwritable(p, dims, n, h.block, h.ordinal);
  }

  /** Whatever passes the checks has a generated text. */
  lemma GenerationExists(p: Profile, issue: map<int, Placement>, smCount: int, dims: Dims, n: nat)
      returns (lines: seq<string>)
    requires CanGenerate(p, issue, smCount, dims, n)
    ensures Generated(p, issue, dims, n, lines)
  {
    hide OrderedTemplate, Blocks, TemplatesOk, IsMerge, WriteEntry;
    var streams := Streams(p, issue, n);
    var out := MergeExists(streams);
    forall i | 0 <= i < |out| ensures exists line :: WrittenAs(p, dims, out[i], line) {
      PoppedWritable(p, issue, dims, n, out, i);
    }
    lines := [];
    while |lines| < |out|
      invariant |lines| <= |out| && forall i :: 0 <= i < |lines| ==> WrittenAs(p, dims, out[i], lines[i])
    {
      var line :| WrittenAs(p, dims, out[|lines|], line);
      lines := lines + [line];
    }
    assert Written(p, dims, out, lines);
  }

  lemma PoppedWritable(p: Profile, issue: map<int, Placement>, dims: Dims, n: nat, out: seq<HeapEntry>, i: nat)
    requires issue.Keys == Blocks(n) && AllWritable(p, dims, n)
    requires IsMerge(Streams(p, issue, n), out) && i < |out|
    ensures exists line :: WrittenAs(p, dims, out[i], line)
  {
    hide OrderedTemplate, Blocks, Emitted, LexLess, Key, WriteEntry;
    var h := out[i];
    assert IsChoice(Streams(p, issue, n), out[..i], h);
    NextParts(Streams(p, issue, n), out[..i], h);
    assert Writable(p, dims, h.block, h.ordinal);
    assert WrittenAs(p, dims, h, WriteEntry(OrderedTemplate(p, h.block)[h.ordinal], h.block, dims).value);
  }

  /** There is only one generated text. */
  lemma GenerationUnique(p: Profile, issue: map<int, Placement>, dims: Dims, n: nat, a: seq<string>, b: seq<string>)
    requires Generated(p, issue, dims, n, a) && Generated(p, issue, dims, n, b)
    ensures a == b
  {
    hide OrderedTemplate, Blocks, IsMerge, WriteEntry;
    var streams := Streams(p, issue, n);
    var x :| IsMerge(streams, x) && Written(p, dims, x, a);
    var y :| IsMerge(streams, y) && Written(p, dims, y, b);
    MergeUnique(streams, x, y);
    forall i | 0 <= i < |a| ensures a[i] == b[i] {
      assert WrittenAs(p, dims, x[i], a[i]) && WrittenAs(p, dims, y[i], b[i]);
    }
  }
}
