/** The admission gate on CTAs that were captured but not trained on. */
module Holdout {
  import opened Common
  import opened Lanes
  import opened SlotIndex
  import opened CoordinateRules
  import opened Template
  import opened Meaning

  function CountEqual(a: seq<int>, b: seq<int>): (n: nat)
    requires |a| == |b|
    ensures n <= |a|
  {
    if a == [] then 0 else (if a[0] == b[0] then 1 else 0) + CountEqual(a[1..], b[1..])
  }

  lemma {:induction false} AllEqualIffSame(a: seq<int>, b: seq<int>)
    requires |a| == |b|
    ensures CountEqual(a, b) == |a| <==> a == b
  {
    if a != [] {
      AllEqualIffSame(a[1..], b[1..]);
      assert a == [a[0]] + a[1..] && b == [b[0]] + b[1..];
    }
  }

  /** The 32-byte sectors of some addresses. */
  function Sectors(addresses: seq<int>): set<int> {
    set a | a in addresses :: a / 32
  }

  /** A template entry as built: one rule per address group, at least one group, a readable structure. */
  /** A sector is 32 bytes long. */
  lemma SectorsAre(addresses: seq<int>, sector: int)
    ensures sector in Sectors(addresses) <==> exists a :: a in addresses && 32 * sector <= a < 32 * sector + 32
  {
  }

  predicate Shaped(e: Entry) {
    |e.rules| == |e.pairs| > 0 && Signature(e.pc, e.opcode, e.mask, e.pairs).Ok?
  }

  /** The entry has an active lane. */
  predicate HasLane(e: Entry)
    requires Shaped(e)
  {
    exists g :: 0 <= g < |e.pairs| && Signature(e.pc, e.opcode, e.mask, e.pairs).value.offsets[g] != []
  }

  lemma {:induction false} SomeAddress(offsets: seq<seq<Lane>>, bases: seq<int>)
    requires |offsets| == |bases|
    ensures EventAddresses(offsets, bases) != [] <==> exists g :: 0 <= g < |offsets| && offsets[g] != []
  {
    if offsets != [] {
      SomeAddress(offsets[1..], bases[1..]);
      if g :| 0 <= g < |offsets| && offsets[g] != [] {
        if g > 0 {
          assert offsets[1..][g - 1] == offsets[g];
        }
      }
    }
  }

  /** An indexed record carries its slot's signature. */
  lemma SlotRecordSignature(sampled: map<int, seq<Record>>, indexed: map<int, Index>, e: Entry, block: int)
    requires PreparedAt(sampled, indexed, block) && SlotRecord(indexed, block, e).Ok?
    ensures var x := SlotRecord(indexed, block, e).value;
      Readable(x) && Signature(e.pc, e.opcode, e.mask, e.pairs) == SignatureOf(x)
  {
    hide Slots, RecordAt, Signature;
    var s := EntrySlot(e).value;
    RecordAtSignature(sampled[block], s);
  }

  /** Lane addresses never fail for the captured record nor for the prediction, and are equally many. */
  lemma LanesOf(e: Entry, x: Record, predicted: seq<int>)
    requires Shaped(e) && Readable(x) && Signature(e.pc, e.opcode, e.mask, e.pairs) == SignatureOf(x)
    requires |predicted| == |e.rules|
    ensures |x.groups| == |e.pairs|
    ensures LaneAddresses(x.mask, PairsOf(x.groups), Bases(x.groups)).Ok?
    ensures LaneAddresses(e.mask, e.pairs, predicted).Ok?
    ensures |LaneAddresses(x.mask, PairsOf(x.groups), Bases(x.groups)).value|
            == |LaneAddresses(e.mask, e.pairs, predicted).value|
    ensures predicted == Bases(x.groups) ==>
              LaneAddresses(x.mask, PairsOf(x.groups), Bases(x.groups)) == LaneAddresses(e.mask, e.pairs, predicted)
    ensures LaneAddresses(e.mask, e.pairs, predicted).value != [] <==> HasLane(e)
  {
    hide LaneOffsets, LaneAddresses;
    var offsets := GroupOffsets(e.mask, e.pairs).value;
    assert GroupOffsets(x.mask, PairsOf(x.groups)) == Ok(offsets) && x.mask == e.mask;
    assert |offsets| == |e.pairs| && |PairsOf(x.groups)| == |offsets|;
    SameEventSameAddresses(e.mask, e.pairs, e.pairs, predicted);
    SameEventSameAddresses(e.mask, PairsOf(x.groups), e.pairs, Bases(x.groups));
    EventAddressCount(offsets, predicted, Bases(x.groups));
    SomeAddress(offsets, predicted);
  }

  lemma {:induction false} EventAddressCount(offsets: seq<seq<Lane>>, a: seq<int>, b: seq<int>)
    requires |offsets| == |a| == |b|
    ensures |EventAddresses(offsets, a)| == |EventAddresses(offsets, b)|
  {
    if offsets != [] {
      EventAddressCount(offsets[1..], a[1..], b[1..]);
    }
  }

  /** The counters of the holdout loop. */
  datatype Tally =
    Tally(groups: nat, exactGroups: nat, lanes: nat, exactLanes: nat, actual: set<int>, predicted: set<int>)

  /** What the counters say about the entries passed so far. */
  ghost predicate Reports(t: Tally, exact: bool, entries: bool, lanes: bool) {
    && t.exactGroups <= t.groups
    && (t.exactGroups == t.groups <==> exact)
    && (exact ==> t.exactLanes == t.lanes && t.actual == t.predicted)
    && (t.groups > 0 <==> entries)
    && (t.lanes > 0 <==> lanes)
  }

  /** One turn of the loop: scores one entry at one holdout CTA. */
  method Score(t: Tally, sampled: map<int, seq<Record>>, indexed: map<int, Index>, e: Entry, block: int, dims: Dims,
               ghost exact: bool, ghost entries: bool, ghost lanes: bool)
    returns (r: Result<Tally>)
    requires PreparedAt(sampled, indexed, block) && Shaped(e) && Reports(t, exact, entries, lanes)
    ensures r.Err? ==> !EntryExactAt(indexed, e, block, dims)
    ensures r.Ok? ==> Reports(r.value, exact && EntryExactAt(indexed, e, block, dims), true, lanes || HasLane(e))
  {
    hide EntrySlot, PredictBases, Signature, LaneAddresses, IndexOf, HasLane, Readable;
    var x :- SlotRecord(indexed, block, e);
    SlotRecordSignature(sampled, indexed, e, block);
    var predicted :- PredictEntryBases(e.rules, block, dims);
    var observed := Bases(x.groups);
    LanesOf(e, x, predicted);
    AllEqualIffSame(predicted, observed);
    var expanded := ExpandLaneAddresses(x.mask, PairsOf(x.groups), observed);
    var expandedPrediction := ExpandLaneAddresses(e.mask, e.pairs, predicted);
    var actualLanes, predictedLanes := expanded.value, expandedPrediction.value;
    AllEqualIffSame(actualLanes, predictedLanes);
    return Ok(Tally(t.groups + |observed|, t.exactGroups + CountEqual(predicted, observed),
                    t.lanes + |actualLanes|, t.exactLanes + CountEqual(actualLanes, predictedLanes),
                    t.actual + Sectors(actualLanes), t.predicted + Sectors(predictedLanes)));
  }

  /** The three gates are one: the CTAs' bases are predicted exactly, and there is something to predict. */
  ghost predicate GatePasses(indexed: map<int, Index>, template: seq<Entry>, holdout: seq<int>, dims: Dims)
    requires forall i :: 0 <= i < |template| ==> Shaped(template[i])
  {
    && (forall k :: 0 <= k < |holdout| ==> TemplateExactAt(indexed, template, holdout[k], dims))
    && holdout != [] && exists i :: 0 <= i < |template| && HasLane(template[i])
  }

  ghost predicate LaneAmong(template: seq<Entry>, n: nat)
    requires n <= |template| && forall i :: 0 <= i < |template| ==> Shaped(template[i])
  {
    exists i :: 0 <= i < n && HasLane(template[i])
  }

  /**
   * The holdout part of `profile`. It tests bases, lane addresses and sector sets one after the other;
   * the contract says that the base test alone decides.
   */
  method CheckHoldout(sampled: map<int, seq<Record>>, indexed: map<int, Index>, template: seq<Entry>, holdout: seq<int>,
                      dims: Dims)
    returns (r: Outcome)
    requires Prepared(sampled, indexed, holdout)
    requires forall i :: 0 <= i < |template| ==> Shaped(template[i])
    ensures r.Pass? <==> GatePasses(indexed, template, holdout, dims)
  {
    hide EntryExactAt, HasLane, Shaped, PreparedAt, TemplateExactAt;
    var t := Tally(0, 0, 0, 0, {}, {});
    ghost var exact, entries, lanes := true, false, false;
    for k := 0 to |holdout|
      invariant Reports(t, exact, entries, lanes)
      invariant exact <==> forall j :: 0 <= j < k ==> TemplateExactAt(indexed, template, holdout[j], dims)
      invariant entries <==> k > 0 && template != []
      invariant lanes <==> k > 0 && LaneAmong(template, |template|)
    {
      ghost var exactBefore, entriesBefore, lanesBefore := exact, entries, lanes;
      for i := 0 to |template|
        invariant Reports(t, exact, entries, lanes)
        invariant exact <==> exactBefore && forall j :: 0 <= j < i ==>
                    EntryExactAt(indexed, template[j], holdout[k], dims)
        invariant entries <==> entriesBefore || i > 0
        invariant lanes <==> lanesBefore || LaneAmong(template, i)
      {
        var next := Score(t, sampled, indexed, template[i], holdout[k], dims, exact, entries, lanes);
        if next.Err? {
          NotExact(indexed, template, i, holdout[k], dims);
          return Fail(next.error);
        }
        t := next.value;
        exact := exact && EntryExactAt(indexed, template[i], holdout[k], dims);
        entries := true;
        lanes := lanes || HasLane(template[i]);
      }
      WholeTemplate(indexed, template, holdout[k], dims);
    }
    if t.groups == 0 || t.lanes == 0 {
      return Fail(HoldoutMismatch);
    }
    if t.exactGroups != t.groups || t.exactLanes != t.lanes || t.actual != t.predicted {
      return Fail(HoldoutMismatch);
    }
    return Pass;
  }

  lemma NotExact(indexed: map<int, Index>, template: seq<Entry>, i: nat, block: int, dims: Dims)
    requires i < |template| && !EntryExactAt(indexed, template[i], block, dims)
    ensures !TemplateExactAt(indexed, template, block, dims)
  {
  }

  lemma WholeTemplate(indexed: map<int, Index>, template: seq<Entry>, block: int, dims: Dims)
    ensures TemplateExactAt(indexed, template, block, dims)
       <==> forall j :: 0 <= j < |template| ==> EntryExactAt(indexed, template[j], block, dims)
  {
  }
}
