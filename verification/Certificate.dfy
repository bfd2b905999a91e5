/**
 * What the audit establishes: a certificate that is equal for whatever digest functions are used determines
 * the events.
 */
module Certificate {
  import opened Common
  import opened Sequences
  import opened Numerals
  import opened Varint
  import opened Lanes
  import opened Memc
  import opened Capture
  import opened Lines
  import opened Audit
  import opened EventCode
  import opened Pipeline
  import opened Replay

  /** An event as captured or generated: one base per group, a readable mask and no bar in its pc. */
  predicate Plain(x: Item) {
    && |x.event.bases| == |x.event.sig.offsets|
    && NoBar(x.event.sig.pc) && ParseHex(x.event.sig.mask).Ok?
  }

  predicate AllPlain(items: seq<Item>) {
    forall x :: x in items ==> Plain(x)
  }

  /** Every CTA with an event has a number and a count of at most eight bytes. */
  ghost predicate Recordable(items: seq<Item>) {
    forall b :: Filter(InBlock(b), items) != [] ==> 0 <= b < U64 && |Filter(InBlock(b), items)| < U64
  }

  lemma RecordableSerializes(d: Digests, items: seq<Item>)
    ensures Serializable(Fold(d, items)) <==> Recordable(items)
  {
    hide Fold, StateOf;
    forall b
      ensures b in Fold(d, items) <==> Filter(InBlock(b), items) != []
      ensures b in Fold(d, items) ==> Fold(d, items)[b].count == |Filter(InBlock(b), items)|
    {
      StateAt(d, items, b);
    }
  }

  lemma StateAt(d: Digests, items: seq<Item>, b: int)
    ensures b in Fold(d, items) <==> Filter(InBlock(b), items) != []
    ensures b in Fold(d, items) ==> Fold(d, items)[b].count == |Filter(InBlock(b), items)|
    ensures b in Fold(d, items) ==> Fold(d, items)[b].summed == SumOf(d, Filter(InBlock(b), items)) % SUM_MODULUS
  {
    hide Fold, SumOf, XorOf;
    FoldIsState(d, items, b);
  }

  // -------------------------------------------------------------- one probe

  function Indicator(text: string): string -> nat {
    (t: string) => if t == text then 1 else 0
  }

  /** Digests that single out one event's text and one list of states. */
  function Probe(x: Item, states: seq<(int, CtaState)>): Digests {
    Digests(Indicator(EventText(x.event)), (t: string) => 0,
            (s: seq<(int, CtaState)>) => if s == states then "1" else "0")
  }

  /** Under the probe, a CTA's digest sum counts one of its events. */
  lemma {:induction false} ProbeCounts(x: Item, d: Digests, items: seq<Item>)
    requires d.sum == Indicator(EventText(x.event)) && Plain(x) && AllPlain(items)
    ensures SumOf(d, Filter(InBlock(x.block), items)) == multiset(items)[x] <= |Filter(InBlock(x.block), items)|
  {
    hide EventText, Filter, Plain;
    var p := InBlock(x.block);
    if items == [] {
      EmptyFilter(p);
    } else {
      var init, y := items[..|items| - 1], items[|items| - 1];
      assert items == init + [y] && y in items;
      assert AllPlain(init) by {
        assert forall z :: z in init ==> z in items;
      }
      ProbeCounts(x, d, init);
      FilterAppend(p, init, [y]);
      FilterOne(p, y);
      if y.block == x.block {
        SumOfLast(d, Filter(p, init), y);
        SameText(x, y);
      } else {
        assert Filter(p, items) == Filter(p, init) + [] == Filter(p, init);
      }
    }
  }

  lemma EmptyFilter(p: Item -> bool)
    ensures Filter(p, []) == []
  {
  }

  lemma SumOfLast(d: Digests, items: seq<Item>, y: Item)
    ensures SumOf(d, items + [y]) == SumOf(d, items) + d.sum(EventText(y.event))
  {
    assert (items + [y])[..|items|] == items;
  }

  lemma SameText(x: Item, y: Item)
    requires Plain(x) && Plain(y) && x.block == y.block
    ensures EventText(x.event) == EventText(y.event) <==> x == y
  {
    hide EventText, NoBar, ParseHex;
    EventTextIdentifies(x.event, y.event);
  }

  // ------------------------------------------------------------- the certificate

  /** The list of states determines the dictionary. */
  lemma {:induction false} SortedItemsIdentify(m: map<int, CtaState>, n: map<int, CtaState>)
    requires SortedItems(m) == SortedItems(n)
    ensures m == n
    decreases |m|
  {
    hide Least;
    if m == map[] || n == map[] {
      assert m == n;
    } else {
      var b := SortedItems(m)[0].0;
      assert b in m && b in n && m[b] == n[b];
      SmallerMap(m, b);
      assert SortedItems(m)[1..] == SortedItems(m - {b}) && SortedItems(n)[1..] == SortedItems(n - {b});
      SortedItemsIdentify(m - {b}, n - {b});
      assert m == (m - {b})[b := m[b]] && n == (n - {b})[b := n[b]];
    }
  }

  /** Accumulating does not look at the final digest. */
  lemma {:induction false} FoldWithoutFinal(d: Digests, e: Digests, items: seq<Item>)
    requires d.sum == e.sum && d.xor == e.xor
    ensures Fold(d, items) == Fold(e, items)
  {
    hide EventText, AddMod;
    if items != [] {
      FoldWithoutFinal(d, e, items[..|items| - 1]);
    }
  }

  lemma EqualStates(d: Digests, a: seq<Item>, b: seq<Item>, x: Item)
    requires d == Probe(x, SortedItems(Fold(Probe(x, []), a)))
    requires Recordable(a) && CensusOf(d, a) == CensusOf(d, b)
    ensures Fold(d, a) == Fold(d, b)
  {
    hide Fold, SortedItems, EventText, Recordable, Serializable;
    RecordableSerializes(d, a);
    FoldWithoutFinal(Probe(x, []), d, a);
    assert CensusOf(d, a).Ok? && CensusOf(d, a).value.certificate == d.final(SortedItems(Fold(d, a)));
    assert CensusOf(d, b).Ok? && CensusOf(d, b).value.certificate == d.final(SortedItems(Fold(d, b)));
    SortedItemsIdentify(Fold(d, a), Fold(d, b));
  }

  lemma EqualCounts(a: seq<Item>, b: seq<Item>, x: Item)
    requires AllPlain(a) && AllPlain(b) && Plain(x) && Recordable(a)
    requires forall d: Digests :: CensusOf(d, a) == CensusOf(d, b)
    ensures multiset(a)[x] == multiset(b)[x]
  {
    hide Fold, SortedItems, EventText, CensusOf, SumOf, Plain, Filter, InBlock;
    var d := Probe(x, SortedItems(Fold(Probe(x, []), a)));
    EqualStates(d, a, b, x);
    SmallSum(multiset(a)[x]);
    SmallSum(multiset(b)[x]);
    StateAt(d, a, x.block);
    StateAt(d, b, x.block);
    ProbeCounts(x, d, a);
    ProbeCounts(x, d, b);
  }

  lemma SmallSum(n: nat)
    ensures n < U64 ==> n % SUM_MODULUS == n
  {
  }

  /**
   * The certificate determines the events: two runs whose census is the same whatever the digest functions
   * hold the same events of the same CTAs, each as often; and conversely.
   */
  lemma CensusDeterminesEvents(a: seq<Item>, b: seq<Item>)
    requires AllPlain(a) && AllPlain(b) && Recordable(a)
    ensures (forall d: Digests :: CensusOf(d, a) == CensusOf(d, b)) <==> multiset(a) == multiset(b)
  {
    hide CensusOf, Plain, Recordable;
    if multiset(a) == multiset(b) {
      forall d: Digests ensures CensusOf(d, a) == CensusOf(d, b) {
        CensusIgnoresOrder(d, a, b);
      }
    }
    if forall d: Digests :: CensusOf(d, a) == CensusOf(d, b) {
      forall x ensures multiset(a)[x] == multiset(b)[x] {
        if x in a || x in b {
          EqualCounts(a, b, x);
        }
      }
    }
  }

  /** The condition on pcs is needed: a bar in one can move the border to the opcode. */
  lemma BarredPcCollides(mask: string, offsets: seq<seq<Lane>>, bases: seq<int>)
    ensures var a, b := Event(Sig("1|2", "LDG", mask, offsets), bases), Event(Sig("1", "2|LDG", mask, offsets), bases);
      a != b && EventText(a) == EventText(b)
  {
    assert "1|2" + "|" + "LDG" + "|" == "1" + "|" + "2|LDG" + "|";
  }

  // -------------------------------------------------------------------- the audit

  lemma {:induction false} CapturedPlain(s: seq<MemcRecord>)
    requires AllFromWire(s) && CaptureItems(s).Ok?
    ensures AllPlain(CaptureItems(s).value)
  {
    hide Lower, FromWire, ItemOf, CaptureItems, Plain;
    if s == [] {
      assert CaptureItems([]) == Ok([]) by { NothingRead(); }
    } else {
      var init, r := s[..|s| - 1], s[|s| - 1];
      assert s == init + [r];
      CaptureItemsStep(init, r);
      CapturedPlain(init);
      LoweredPlain(r);
    }
  }

  lemma NothingRead()
    ensures CaptureItems([]) == Ok([])
  {
  }

  lemma LoweredPlain(r: MemcRecord)
    requires FromWire(r) && Lower(r).Ok? && ItemOf(Lower(r).value.record).Ok?
    ensures Plain(ItemOf(Lower(r).value.record).value)
  {
    LoweredFromWire(r);
    hide Lower, Clean, ParseHex, FormatHex, FormatNat, RenderGroup, WellFormed, Signature;
    var w: Wire :| r == Render(w) && WellFormed([w.opcode], w);
    NumberPlain(w.pc);
    ParseFormatHex(w.mask);
  }

  /**
   * What a passed audit means. For a decoded capture and a text without bars in its pcs, the audit passes
   * for all digest functions exactly when the capture's numbers are contiguous, text and capture hold the
   * same events of the same CTAs, each as often, and CTA numbers and counts fit in eight bytes.
   */
  lemma AuditPassesForAllDigestsExactlyWhen(captured: seq<MemcRecord>, lines: seq<string>)
    requires AllFromWire(captured) && (TextItems(lines).Ok? ==> AllPlain(TextItems(lines).value))
    ensures (forall d: Digests :: AuditPasses(d, captured, lines))
       <==> Contiguous(captured) && SameEvents(lines, captured) && Recordable(CaptureItems(captured).value)
  {
    hide AllFromWire, TextItems, CaptureItems, Contiguous, AllPlain, Recordable, CensusOf, AuditPasses;
    forall d: Digests
      ensures AuditPasses(d, captured, lines)
         <==> && Contiguous(captured) && CaptureItems(captured).Ok? && TextItems(lines).Ok?
              && Recordable(CaptureItems(captured).value)
              && CensusOf(d, CaptureItems(captured).value) == CensusOf(d, TextItems(lines).value)
    {
      AuditComparesCensuses(d, captured, lines);
    }
    assert AuditPasses(NO_DIGESTS, captured, lines) ==> CaptureItems(captured).Ok? && TextItems(lines).Ok?;
    if CaptureItems(captured).Ok? && TextItems(lines).Ok? && Recordable(CaptureItems(captured).value) {
      CapturedPlain(captured);
      CensusDeterminesEvents(CaptureItems(captured).value, TextItems(lines).value);
    }
  }

  const NO_DIGESTS := Digests((t: string) => 0, (t: string) => 0, (s: seq<(int, CtaState)>) => "")

  lemma AuditComparesCensuses(d: Digests, captured: seq<MemcRecord>, lines: seq<string>)
    ensures AuditPasses(d, captured, lines)
       <==> && Contiguous(captured) && CaptureItems(captured).Ok? && TextItems(lines).Ok?
            && Recordable(CaptureItems(captured).value)
            && CensusOf(d, CaptureItems(captured).value) == CensusOf(d, TextItems(lines).value)
  {
    hide TextItems, CaptureItems, Contiguous, Recordable, Fold, SortedItems, Serializable;
    if CaptureItems(captured).Ok? {
      RecordableSerializes(d, CaptureItems(captured).value);
    }
  }
}
