/** The semantic certificate: per-CTA counts, sums and xors of event digests, blind to order. */
module Audit {
  import opened Common
  import opened Sequences
  import opened Arithmetic
  import opened Bits
  import opened Numerals
  import opened Varint
  import opened Lanes
  import opened Lines
  import opened Memc
  import opened MemcReader
  import opened Capture

  const SUM_MODULUS: int := U64 * U64

  /**
   * The digest functions, left uninterpreted: BLAKE2b under its "sum" and "xor" prefixes, and SHA-256
   * over the CTA-ordered certificates.
   */
  datatype Digests = Digests(sum: string -> nat, xor: string -> nat, final: seq<(int, CtaState)> -> string)

  datatype CtaState = CtaState(count: nat, summed: nat, xored: nat)

  /** One audited event and the CTA it belongs to. */
  datatype Item = Item(block: int, event: Event)

  // ------------------------------------------------------------------- events

  function LaneTexts(lanes: seq<Lane>): string {
    if lanes == [] then ""
    else "|lane=" + FormatDec(lanes[0].lane) + ":offset=" + FormatDec(lanes[0].offset) + LaneTexts(lanes[1..])
  }

  function GroupTexts(offsets: seq<seq<Lane>>, bases: seq<int>): string {
    if offsets == [] || bases == [] then ""
    else "|base=" + FormatHex(bases[0]) + LaneTexts(offsets[0]) + "|group-end" + GroupTexts(offsets[1..], bases[1..])
  }

  /** `semantic_event_bytes` */
  function EventText(e: Event): string {
    e.sig.pc + "|" + e.sig.opcode + "|" + e.sig.mask + GroupTexts(e.sig.offsets, e.bases)
  }

  function LaneSum(offsets: seq<seq<Lane>>): nat {
    if offsets == [] then 0 else |offsets[0]| + LaneSum(offsets[1..])
  }

  function LaneCount(x: Item): int {
    LaneSum(x.event.sig.offsets)
  }

  // ------------------------------------------------------------- accumulation

  const EMPTY := CtaState(0, 0, 0)

  function AddMod(s: nat, a: nat): nat {
    (s + a) % SUM_MODULUS
  }

  function Absorb(d: Digests, state: CtaState, text: string): CtaState {
    CtaState(state.count + 1, AddMod(state.summed, d.sum(text)), Xor(state.xored, d.xor(text)))
  }

  /** `semantic_accumulate` on one event. */
  function Step(d: Digests, m: map<int, CtaState>, x: Item): map<int, CtaState> {
    m[x.block := Absorb(d, if x.block in m then m[x.block] else EMPTY, EventText(x.event))]
  }

  function Fold(d: Digests, items: seq<Item>): map<int, CtaState> {
    if items == [] then map[] else Step(d, Fold(d, items[..|items| - 1]), items[|items| - 1])
  }

  lemma AddModCommutes(s: nat, a: nat, b: nat)
    ensures AddMod(AddMod(s, a), b) == AddMod(AddMod(s, b), a)
  {
    ModAdd(s + a, b, SUM_MODULUS);
    ModAdd(s + b, a, SUM_MODULUS);
  }

  lemma AbsorbCommutes(d: Digests, state: CtaState, a: string, b: string)
    ensures Absorb(d, Absorb(d, state, a), b) == Absorb(d, Absorb(d, state, b), a)
  {
    hide AddMod, Xor;
    AddModCommutes(state.summed, d.sum(a), d.sum(b));
    XorCommutes(state.xored, d.xor(a), d.xor(b));
  }

  lemma StepCommutes(d: Digests, m: map<int, CtaState>, x: Item, y: Item)
    ensures Step(d, Step(d, m, x), y) == Step(d, Step(d, m, y), x)
  {
    hide Absorb, EventText;
    if x.block == y.block {
      AbsorbCommutes(d, if x.block in m then m[x.block] else EMPTY, EventText(x.event), EventText(y.event));
    }
  }

  /** An event may as well be accumulated last. */
  lemma {:induction false} MoveToEnd(d: Digests, a: seq<Item>, x: Item, b: seq<Item>)
    ensures Fold(d, a + [x] + b) == Step(d, Fold(d, a + b), x)
    decreases |b|
  {
    hide Step;
    var whole := a + [x] + b;
    if b == [] {
      assert whole == a + [x] && whole[..|a|] == a && a + b == a;
    } else {
      var init, y := b[..|b| - 1], b[|b| - 1];
      assert whole[..|whole| - 1] == a + [x] + init && whole[|whole| - 1] == y;
      MoveToEnd(d, a, x, init);
      StepCommutes(d, Fold(d, a + init), x, y);
      assert (a + b)[..|a + b| - 1] == a + init && (a + b)[|a + b| - 1] == y;
    }
  }

  lemma FoldLast(d: Digests, a: seq<Item>)
    requires a != []
    ensures Fold(d, a) == Step(d, Fold(d, a[..|a| - 1]), a[|a| - 1])
  {
  }

  /** The certificate's state depends on the events alone, not on the order they come in. */
  lemma {:induction false} FoldIgnoresOrder(d: Digests, a: seq<Item>, b: seq<Item>)
    requires multiset(a) == multiset(b)
    ensures Fold(d, a) == Fold(d, b)
    decreases |a|
  {
    hide Step, Fold;
    PermutationLength(a, b);
    if a != [] {
      var k := PermutationLast(a, b);
      FoldIgnoresOrder(d, a[..|a| - 1], Remove(b, k));
      MoveToEnd(d, b[..k], b[k], b[k + 1..]);
      FoldLast(d, a);
    }
  }

  // ----------------------------------------------------------- closed form

  function InBlock(b: int): Item -> bool {
    (x: Item) => x.block == b
  }

  function SumOf(d: Digests, items: seq<Item>): nat {
    if items == [] then 0 else SumOf(d, items[..|items| - 1]) + d.sum(EventText(items[|items| - 1].event))
  }

  function XorOf(d: Digests, items: seq<Item>): nat {
    if items == [] then 0 else Xor(XorOf(d, items[..|items| - 1]), d.xor(EventText(items[|items| - 1].event)))
  }

  /** The state of each CTA: how many events, the sum of their digests modulo 2^128, the xor of the others. */
  lemma FoldIs(d: Digests, items: seq<Item>, b: int)
    ensures b in Fold(d, items) <==> Filter(InBlock(b), items) != []
    ensures b in Fold(d, items) ==>
              var own := Filter(InBlock(b), items);
              && Fold(d, items)[b].count == |own|
              && Fold(d, items)[b].summed == SumOf(d, own) % 0x1_0000_0000_0000_0000_0000_0000_0000_0000
              && Fold(d, items)[b].xored == XorOf(d, own)
  {
    hide Fold, Filter, SumOf, XorOf;
    FoldIsState(d, items, b);
  }

  lemma {:induction false} FoldIsState(d: Digests, items: seq<Item>, b: int)
    ensures b in Fold(d, items) <==> Filter(InBlock(b), items) != []
    ensures b in Fold(d, items) ==> Fold(d, items)[b] == StateOf(d, Filter(InBlock(b), items))
  {
    hide EventText, Absorb, SumOf, XorOf;
    if items != [] {
      var init, x := items[..|items| - 1], items[|items| - 1];
      var before := Filter(InBlock(b), init);
      FoldIsState(d, init, b);
      assert items == init + [x];
      FilterAppend(InBlock(b), init, [x]);
      FilterOne(InBlock(b), x);
      assert Fold(d, items) == Step(d, Fold(d, init), x);
      if x.block == b {
        assert Filter(InBlock(b), items) == before + [x];
        AbsorbOne(d, before, x);
        assert b in Fold(d, init) <==> before != [];
      } else {
        assert Filter(InBlock(b), items) == before + [] == before;
      }
    }
  }

  /** The closed form of one CTA's state. */
  function StateOf(d: Digests, items: seq<Item>): CtaState {
    CtaState(|items|, SumOf(d, items) % SUM_MODULUS, XorOf(d, items))
  }

  lemma AbsorbOne(d: Digests, before: seq<Item>, x: Item)
    ensures StateOf(d, before + [x])
            == Absorb(d, if before == [] then EMPTY else StateOf(d, before), EventText(x.event))
  {
    hide EventText, Xor;
    var after := before + [x];
    assert after[..|after| - 1] == before && after[|after| - 1] == x;
    assert SumOf(d, after) == SumOf(d, before) + d.sum(EventText(x.event));
    assert XorOf(d, after) == Xor(XorOf(d, before), d.xor(EventText(x.event)));
    assert StateOf(d, []) == EMPTY;
    ModAdd(SumOf(d, before), d.sum(EventText(x.event)), SUM_MODULUS);
  }

  // ------------------------------------------------------------------ finishing

  /** The items of the dictionary in ascending order of CTA. */
  ghost function SortedItems(m: map<int, CtaState>): seq<(int, CtaState)>
    decreases |m|
  {
    if m == map[] then []
    else
      var b := Least(m.Keys);
      assert |m - {b}| < |m| by { SmallerMap(m, b); }
      [(b, m[b])] + SortedItems(m - {b})
  }

  ghost function Least(s: set<int>): (b: int)
    requires s != {}
    ensures b in s && forall x :: x in s ==> b <= x
  {
    assert exists b :: b in s && forall x :: x in s ==> b <= x by {
      var a := Member(s);
      var l := LeastFrom(s, a);
    }
    var b :| b in s && forall x :: x in s ==> b <= x;
    b
  }

  lemma Member(s: set<int>) returns (a: int)
    requires s != {}
    ensures a in s
  {
    EmptyWithoutMembers(s);
    a :| a in s;
  }

  lemma EmptyWithoutMembers(s: set<int>)
    ensures (forall a :: a !in s) ==> s == {}
  {
    if forall a :: a !in s {
      assert s == {};
    }
  }

  lemma LeastFrom(s: set<int>, a: int) returns (b: int)
    requires a in s
    ensures b in s && forall x :: x in s ==> b <= x
    decreases s
  {
    b := a;
    if x :| x in s && x < a {
      b := LeastFrom(s - {a}, x);
      assert forall y :: y in s ==> y == a || y in s - {a};
    }
  }

  lemma SmallerMap(m: map<int, CtaState>, b: int)
    requires b in m
    ensures |m - {b}| < |m|
  {
    assert (m - {b}).Keys == m.Keys - {b};
    assert |(m - {b}).Keys| < |m.Keys|;
  }

  /** Block numbers and counts must fit in eight bytes. */
  ghost predicate Serializable(m: map<int, CtaState>) {
    forall b :: b in m ==> 0 <= b < U64 && m[b].count < U64
  }

  /** `semantic_finish` */
  ghost function Finish(d: Digests, m: map<int, CtaState>): Result<string> {
    if Serializable(m) then Ok(d.final(SortedItems(m))) else Err(Overflow)
  }

  /** The CTAs of the dictionary, each with its state, in strictly ascending order. */
  lemma {:induction false} SortedItemsAre(m: map<int, CtaState>)
    ensures forall i, j :: 0 <= i < j < |SortedItems(m)| ==> SortedItems(m)[i].0 < SortedItems(m)[j].0
    ensures forall b, state :: (b, state) in SortedItems(m) <==> b in m && m[b] == state
    ensures |SortedItems(m)| == |m|
    decreases |m|
  {
    hide Least;
    if m != map[] {
      var b := Least(m.Keys);
      SmallerMap(m, b);
      SortedItemsAre(m - {b});
      var rest := SortedItems(m - {b});
      forall j | 0 <= j < |rest| ensures b < rest[j].0 {
        assert rest[j] in rest && (rest[j].0, rest[j].1) == rest[j];
      }
      forall x, state ensures (x, state) in SortedItems(m) <==> x in m && m[x] == state {
        assert SortedItems(m) == [(b, m[b])] + rest;
      }
      assert |(m - {b}).Keys| == |m.Keys - {b}| && (m - {b}).Keys == m.Keys - {b};
    }
  }

  /** As many lanes are counted for a record as it has active-lane addresses. */
  lemma LaneCountIs(r: Record, x: Item)
    requires ItemOf(r) == Ok(x) && r.groups != []
    ensures LaneAddresses(r.mask, PairsOf(r.groups), Bases(r.groups)).Ok?
    ensures LaneCount(x) == |LaneAddresses(r.mask, PairsOf(r.groups), Bases(r.groups)).value|
  {
    hide LaneAddresses, GroupOffsets;
    var pairs := PairsOf(r.groups);
    SameEventSameAddresses(r.mask, pairs, pairs, Bases(r.groups));
    AddressesCounted(x.event.sig.offsets, Bases(r.groups));
  }

  lemma {:induction false} AddressesCounted(offsets: seq<seq<Lane>>, bases: seq<int>)
    requires |offsets| == |bases|
    ensures |EventAddresses(offsets, bases)| == LaneSum(offsets)
  {
    if offsets != [] {
      AddressesCounted(offsets[1..], bases[1..]);
    }
  }

  // --------------------------------------------------------------------- census

  datatype Census = Census(lines: nat, lanes: int, ctas: nat, certificate: string)

  ghost function CensusOf(d: Digests, items: seq<Item>): Result<Census> {
    var m := Fold(d, items);
    var certificate :- Finish(d, m);
    Ok(Census(|items|, Sum(LaneCount, items), |m|, certificate))
  }

  /**
   * What a census holds: the number of events, of their lanes and of their CTAs, and the final digest of the
   * states in ascending order of CTA; there is none if a CTA's number or count needs more than eight bytes.
   */
  lemma CensusIs(d: Digests, items: seq<Item>)
    ensures CensusOf(d, items).Ok?
       <==> forall b :: b in Fold(d, items) ==>
              0 <= b < 0x1_0000_0000_0000_0000 && Fold(d, items)[b].count < 0x1_0000_0000_0000_0000
    ensures CensusOf(d, items).Ok? ==>
              && CensusOf(d, items).value.lines == |items| && CensusOf(d, items).value.lanes == Sum(LaneCount, items)
              && CensusOf(d, items).value.ctas == |set x | x in items :: x.block|
              && CensusOf(d, items).value.certificate == d.final(SortedItems(Fold(d, items)))
  {
    hide Fold, SortedItems, Sum;
    FoldKeys(d, items);
  }

  lemma FoldKeys(d: Digests, items: seq<Item>)
    ensures Fold(d, items).Keys == set x | x in items :: x.block
    ensures |Fold(d, items)| == |set x | x in items :: x.block|
  {
    hide Fold, Filter;
    forall b ensures b in Fold(d, items) <==> exists x :: x in items && x.block == b {
      FoldIs(d, items, b);
      FilterNonempty(InBlock(b), items);
    }
    assert |Fold(d, items)| == |Fold(d, items).Keys|;
  }

  /** Equal multisets of events have equal censuses, for any digest functions. */
  lemma CensusIgnoresOrder(d: Digests, a: seq<Item>, b: seq<Item>)
    requires multiset(a) == multiset(b)
    ensures CensusOf(d, a) == CensusOf(d, b)
  {
    hide Finish, Fold;
    FoldIgnoresOrder(d, a, b);
    SumPermutation(LaneCount, a, b);
    PermutationLength(a, b);
  }

  function ItemOf(r: Record): Result<Item> {
    var e :- EventOf(r);
    Ok(Item(r.block, e))
  }

  /** The items of some records; fails if one of them cannot be read. */
  function Items(rs: seq<Record>): (items: Result<seq<Item>>)
    ensures items.Ok? ==> |items.value| == |rs|
  {
    if rs == [] then Ok([])
    else
      var init :- Items(rs[..|rs| - 1]);
      var last :- ItemOf(rs[|rs| - 1]);
      Ok(init + [last])
  }

  /** The records of a trace in text form, numbered line by line. */
  function ParseAll(lines: seq<string>): (rs: Result<seq<Record>>)
    ensures rs.Ok? ==> |rs.value| == |lines|
  {
    if lines == [] then Ok([])
    else
      var init :- ParseAll(lines[..|lines| - 1]);
      var last :- ParseLine(lines[|lines| - 1], |lines| - 1);
      Ok(init + [last])
  }

  /** The events of a trace in text form. */
  function TextItems(lines: seq<string>): (items: Result<seq<Item>>)
    ensures items.Ok? ==> |items.value| == |lines|
  {
    var records :- ParseAll(lines);
    Items(records)
  }

  /** `semantic_census` */
  ghost function CensusOfText(d: Digests, lines: seq<string>): Result<Census> {
    var items :- TextItems(lines);
    CensusOf(d, items)
  }

  function LowerAll(s: seq<MemcRecord>): (rs: Result<seq<Record>>)
    ensures rs.Ok? ==> |rs.value| == |s|
  {
    if s == [] then Ok([])
    else
      var init :- LowerAll(s[..|s| - 1]);
      var last :- Lower(s[|s| - 1]);
      Ok(init + [last.record])
  }

  /** The events of a capture, lowered to global traffic. */
  function CaptureItems(s: seq<MemcRecord>): (items: Result<seq<Item>>)
    ensures items.Ok? ==> |items.value| == |s|
  {
    var records :- LowerAll(s);
    Items(records)
  }

  /** `semantic_census_memc`, from the decoded records on. */
  ghost function CensusOfCapture(d: Digests, s: seq<MemcRecord>): Result<Census> {
    if !Contiguous(s) then Err(SequenceGap)
    else
      var items :- CaptureItems(s);
      CensusOf(d, items)
  }

  /** `audit`: both censuses succeed and all four quantities agree. */
  ghost predicate AuditPasses(d: Digests, captured: seq<MemcRecord>, generated: seq<string>) {
    CensusOfCapture(d, captured).Ok? && CensusOfCapture(d, captured) == CensusOfText(d, generated)
  }

  // ------------------------------------------------------------------- loops

  /** The dictionary the audit fills in place. */
  class SemanticState {
    var byBlock: map<int, CtaState>

    constructor ()
      ensures byBlock == map[]
    {
      byBlock := map[];
    }

    /** `semantic_accumulate`: enters one record and returns how many lanes it touches. */
    method Accumulate(d: Digests, r: Record) returns (lanes: Result<nat>)
      modifies this
      ensures lanes.Ok? <==> ItemOf(r).Ok?
      ensures lanes.Ok? ==> byBlock == Step(d, old(byBlock), ItemOf(r).value)
      ensures lanes.Ok? ==> lanes.value == LaneCount(ItemOf(r).value)
      ensures lanes.Err? ==> byBlock == old(byBlock)
    {
      hide EventOf, EventText, AddMod, Xor, LaneSum;
      var x :- ItemOf(r);
      var text := EventText(x.event);
      var state := if r.block in byBlock then byBlock[r.block] else EMPTY;
      state := state.(count := state.count + 1);
      state := state.(summed := AddMod(state.summed, d.sum(text)));
      state := state.(xored := Xor(state.xored, d.xor(text)));
      byBlock := byBlock[r.block := state];
      return Ok(LaneSum(x.event.sig.offsets));
    }
  }

  lemma {:induction false} ItemsFailEarly(rs: seq<Record>, k: nat)
    requires k <= |rs| && Items(rs[..k]).Err?
    ensures Items(rs).Err?
    decreases |rs|
  {
    hide ItemOf;
    if k < |rs| {
      assert rs[..|rs| - 1][..k] == rs[..k];
      ItemsFailEarly(rs[..|rs| - 1], k);
    } else {
      assert rs[..k] == rs;
    }
  }

  lemma {:induction false} ParseAllExtends(lines: seq<string>, k: nat)
    requires k <= |lines| && ParseAll(lines).Ok?
    ensures ParseAll(lines[..k]) == Ok(ParseAll(lines).value[..k])
    decreases |lines|
  {
    hide ParseLine;
    if k < |lines| {
      assert lines[..|lines| - 1][..k] == lines[..k];
      ParseAllExtends(lines[..|lines| - 1], k);
      assert ParseAll(lines).value[..k] == ParseAll(lines[..|lines| - 1]).value[..k];
    } else {
      assert lines[..k] == lines;
      assert ParseAll(lines).value[..k] == ParseAll(lines).value;
    }
  }

  /** What the loop has after some lines: their records, their items and the totals over them. */
  ghost predicate CensusSoFar(d: Digests, lines: seq<string>, records: seq<Record>, items: seq<Item>,
                              m: map<int, CtaState>, lanes: int)
  {
    && ParseAll(lines) == Ok(records) && Items(records) == Ok(items)
    && m == Fold(d, items) && lanes == Sum(LaneCount, items)
  }

  lemma CensusStep(d: Digests, lines: seq<string>, records: seq<Record>, items: seq<Item>, m: map<int, CtaState>,
                   lanes: int, line: string, r: Record, x: Item)
    requires CensusSoFar(d, lines, records, items, m, lanes)
    requires ParseLine(line, |lines|) == Ok(r) && ItemOf(r) == Ok(x)
    ensures CensusSoFar(d, lines + [line], records + [r], items + [x], Step(d, m, x), lanes + LaneCount(x))
  {
    hide ParseLine, ItemOf, Step, LaneCount;
    assert (lines + [line])[..|lines|] == lines && (records + [r])[..|records|] == records;
    assert (items + [x])[..|items|] == items;
    SumAppend(LaneCount, items, [x]);
    SumOne(LaneCount, x);
  }

  lemma BadLine(lines: seq<string>, i: nat)
    requires i < |lines| && (ParseLine(lines[i], i).Err? || ItemOf(ParseLine(lines[i], i).value).Err?)
    ensures ParseAll(lines).Err? || Items(ParseAll(lines).value).Err?
  {
    hide ParseLine, ItemOf;
    assert lines[..i + 1][..i] == lines[..i];
    if ParseAll(lines).Ok? {
      ParseAllExtends(lines, i + 1);
      var rs := ParseAll(lines).value;
      assert ParseLine(lines[i], i) == Ok(rs[i]);
      assert rs[..i + 1][i] == rs[i];
      ItemsFailEarly(rs, i + 1);
    }
  }

  /** The loop of `semantic_census` up to `semantic_finish`. */
  method CensusLoop(d: Digests, lines: seq<string>) returns (lanes: int, state: SemanticState, ok: bool)
    ensures ok <==> TextItems(lines).Ok?
    ensures ok ==> state.byBlock == Fold(d, TextItems(lines).value) && lanes == Sum(LaneCount, TextItems(lines).value)
  {
    hide ParseLine, ItemOf, Step, LaneCount, CensusSoFar;
    state := new SemanticState();
    lanes, ok := 0, true;
    ghost var records: seq<Record>, items: seq<Item> := [], [];
    CensusStart(d);
    assert lines[..0] == [];
    for i := 0 to |lines|
      invariant CensusSoFar(d, lines[..i], records, items, state.byBlock, lanes)
      invariant fresh(state)
    {
      var record := ParseMemoryLine(lines[i], i);
      if record.Err? {
        BadLine(lines, i);
        return lanes, state, false;
      }
      ghost var before := state.byBlock;
      var count := state.Accumulate(d, record.value);
      if count.Err? {
        BadLine(lines, i);
        return lanes, state, false;
      }
      ghost var x := ItemOf(record.value).value;
      assert lines[..i + 1] == lines[..i] + [lines[i]];
      CensusStep(d, lines[..i], records, items, before, lanes, lines[i], record.value, x);
      records := records + [record.value];
      items := items + [x];
      lanes := lanes + count.value;
    }
    assert lines[..|lines|] == lines;
    CensusEnd(d, lines, records, items, state.byBlock, lanes);
  }

  lemma CensusStart(d: Digests)
    ensures CensusSoFar(d, [], [], [], map[], 0)
  {
  }

  lemma CensusEnd(d: Digests, lines: seq<string>, records: seq<Record>, items: seq<Item>, m: map<int, CtaState>,
                  lanes: int)
    requires CensusSoFar(d, lines, records, items, m, lanes)
    ensures ParseAll(lines) == Ok(records) && Items(records) == Ok(items)
    ensures m == Fold(d, items) && lanes == Sum(LaneCount, items)
  {
  }

  /** The captured records can be audited: numbered without a gap, and each lowers to a readable event. */
  ghost predicate Auditable(s: seq<MemcRecord>) {
    Contiguous(s) && CaptureItems(s).Ok?
  }

  /** What the loop over a capture has after some records. */
  ghost predicate CaptureSoFar(d: Digests, done: seq<MemcRecord>, m: map<int, CtaState>, lanes: int,
                               previous: Option<int>)
  {
    && Auditable(done)
    && m == Fold(d, CaptureItems(done).value)
    && lanes == Sum(LaneCount, CaptureItems(done).value)
    && previous == LastSequence(done)
  }

  lemma CaptureItemsStep(s: seq<MemcRecord>, r: MemcRecord)
    ensures CaptureItems(s + [r]).Ok? <==> CaptureItems(s).Ok? && Lower(r).Ok? && ItemOf(Lower(r).value.record).Ok?
    ensures CaptureItems(s + [r]).Ok? ==>
              CaptureItems(s + [r]) == Ok(CaptureItems(s).value + [ItemOf(Lower(r).value.record).value])
  {
    hide Lower, ItemOf;
    assert (s + [r])[..|s|] == s;
    if LowerAll(s).Ok? && Lower(r).Ok? {
      var rs, l := LowerAll(s).value, Lower(r).value.record;
      assert (rs + [l])[..|rs|] == rs;
    }
  }

  /** The number of the last record, None when there is none. */
  function LastSequence(s: seq<MemcRecord>): Option<int> {
    if s == [] then None else Some(s[|s| - 1].sequence)
  }

  /** A record that breaks the numbering or cannot be read makes the capture unauditable. */
  lemma AuditableStep(done: seq<MemcRecord>, r: MemcRecord)
    requires Auditable(done)
    ensures Auditable(done + [r])
       <==> && (done != [] ==> r.sequence == done[|done| - 1].sequence + 1)
            && Lower(r).Ok? && ItemOf(Lower(r).value.record).Ok?
  {
    hide Lower, ItemOf, CaptureItems, Contiguous;
    CaptureItemsStep(done, r);
    if done == [] {
      assert done + [r] == [r];
      FirstRecord(r);
    } else {
      OrderStep(done, r);
    }
  }

  lemma CaptureStep(d: Digests, done: seq<MemcRecord>, m: map<int, CtaState>, lanes: int, previous: Option<int>,
                    r: MemcRecord, x: Item)
    requires CaptureSoFar(d, done, m, lanes, previous)
    requires Auditable(done + [r]) && Lower(r).Ok? && ItemOf(Lower(r).value.record) == Ok(x)
    ensures CaptureSoFar(d, done + [r], Step(d, m, x), lanes + LaneCount(x), Some(r.sequence))
  {
    hide Lower, ItemOf, Step, LaneCount, CaptureItems, Contiguous, Fold, Sum;
    CaptureItemsStep(done, r);
    var items := CaptureItems(done).value;
    assert (items + [x])[..|items|] == items;
    FoldLast(d, items + [x]);
    SumAppend(LaneCount, items, [x]);
    SumOne(LaneCount, x);
  }

  lemma {:induction false} AuditablePrefix(s: seq<MemcRecord>, k: nat)
    requires k <= |s| && Auditable(s)
    ensures Auditable(s[..k])
    decreases |s|
  {
    hide CaptureItems;
    if k < |s| {
      var init, r := s[..|s| - 1], s[|s| - 1];
      assert s == init + [r];
      CaptureItemsStep(init, r);
      assert forall i :: 0 <= i < |init| ==> init[i] == s[i];
      AuditablePrefix(init, k);
      assert init[..k] == s[..k];
    } else {
      assert s[..k] == s;
    }
  }

  /** One file's turn: enters its records one by one; refuses at the first that cannot be audited. */
  method AccumulateFile(d: Digests, state: SemanticState, records: seq<MemcRecord>, lanes0: int, previous0: Option<int>,
                        ghost done: seq<MemcRecord>)
    returns (ok: bool, lanes: int, previous: Option<int>)
    requires CaptureSoFar(d, done, state.byBlock, lanes0, previous0)
    modifies state
    ensures ok ==> CaptureSoFar(d, done + records, state.byBlock, lanes, previous)
    ensures !ok ==> !Auditable(done + records)
  {
    hide Lower, ItemOf, Step, LaneCount, CaptureSoFar, Auditable;
    ok, lanes, previous := true, lanes0, previous0;
    assert done + records[..0] == done;
    for k := 0 to |records|
      invariant CaptureSoFar(d, done + records[..k], state.byBlock, lanes, previous)
    {
      var r := records[k];
      assert done + records[..k] + [r] == done + records[..k + 1];
      assert (done + records)[..|done| + k + 1] == done + records[..k + 1];
      CaptureKnows(d, done + records[..k], state.byBlock, lanes, previous);
      AuditableStep(done + records[..k], r);
      if Auditable(done + records) {
        AuditablePrefix(done + records, |done| + k + 1);
      }
      if previous.Some? && r.sequence != previous.value + 1 {
        return false, lanes, previous;
      }
      previous := Some(r.sequence);
      var lowered := Lower(r);
      if lowered.Err? {
        return false, lanes, previous;
      }
      ghost var before := state.byBlock;
      var count := state.Accumulate(d, lowered.value.record);
      if count.Err? {
        return false, lanes, previous;
      }
      ghost var x := ItemOf(lowered.value.record).value;
      CaptureStep(d, done + records[..k], before, lanes, LastSequence(done + records[..k]), r, x);
      lanes := lanes + count.value;
    }
    assert records[..|records|] == records;
  }

  /** The loop of `semantic_census_memc` over the files of a kernel, up to `semantic_finish`. */
  method CaptureLoop(d: Digests, files: seq<seq<byte>>)
    returns (records: nat, lanes: int, state: SemanticState, ok: bool)
    ensures ok <==> DecodeFiles(files).Ok? && Auditable(DecodeFiles(files).value)
    ensures ok ==>
              var items := CaptureItems(DecodeFiles(files).value).value;
              state.byBlock == Fold(d, items) && lanes == Sum(LaneCount, items) && records == |items|
  {
    hide DecodeFile, DecodeFiles, RenderAll, CaptureSoFar, Auditable;
    state := new SemanticState();
    records, lanes, ok := 0, 0, true;
    var previous := None;
    ghost var done: seq<MemcRecord> := [];
    NothingCaptured(d);
    assert files[..0] == [];
    for i := 0 to |files|
      invariant DecodeFiles(files[..i]) == Ok(done) && records == |done|
      invariant CaptureSoFar(d, done, state.byBlock, lanes, previous)
      invariant fresh(state)
    {
      DecodeFilesStep(files, i);
      var decoded := MemcRecords(files[i]);
      if DecodeFiles(files).Ok? && Auditable(DecodeFiles(files).value) {
        DecodeFilesExtends(files, i + 1);
        var t := DecodeFiles(files[..i + 1]).value;
        AuditablePrefix(DecodeFiles(files).value, |t|);
        assert DecodeFiles(files).value[..|t|] == t;
      }
      if decoded.Err? {
        return records, lanes, state, false;
      }
      ok, lanes, previous := AccumulateFile(d, state, decoded.value, lanes, previous, done);
      if !ok {
        return records, lanes, state, false;
      }
      done, records := done + decoded.value, records + |decoded.value|;
    }
    assert files[..|files|] == files;
    CaptureKnows(d, done, state.byBlock, lanes, previous);
  }

  lemma NothingCaptured(d: Digests)
    ensures CaptureSoFar(d, [], map[], 0, None) && DecodeFiles([]) == Ok([])
  {
  }

  lemma CaptureKnows(d: Digests, done: seq<MemcRecord>, m: map<int, CtaState>, lanes: int, previous: Option<int>)
    requires CaptureSoFar(d, done, m, lanes, previous)
    ensures Auditable(done) && CaptureItems(done).Ok? && previous == LastSequence(done)
    ensures m == Fold(d, CaptureItems(done).value) && lanes == Sum(LaneCount, CaptureItems(done).value)
  {
  }
}
