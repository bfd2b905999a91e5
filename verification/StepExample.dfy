/**
 * Why coverage matters to a sampled profile: addresses with a step at half the z extent, sampled below the
 * step only. The profile is accepted, and wrong above the step.
 */
module StepExample {
  import opened Common
  import opened Sequences
  import opened Lanes
  import opened SlotIndex
  import opened CoordinateRules
  import opened TableRules
  import opened Coverage
  import opened Template
  import opened Meaning
  import opened Profile
  import opened Extrapolation
  import opened OneLane

  const TALL := Dims(1, 1, 6)

  /** Four bytes from plane to plane, and a hundred more in the upper half. */
  const STEP := ZHalf(0, 0, [0], 4, 3, 100)

  /** What the first three planes look like. */
  const RAMP := Affine(0, 0, 0, 4)

  lemma Plane(b: int)
    requires 0 <= b < 6
    ensures InGrid(b, TALL) && BlockCoordinates(b, TALL) == Ok(Coord(0, 0, b)) && Split(b, TALL) == Coord(0, 0, b)
  {
  }

  lemma StepAt(b: int)
    requires 0 <= b < 6
    ensures Predict(STEP, b, TALL) == Ok(4 * b + if b >= 3 then 100 else 0)
    ensures Predict(RAMP, b, TALL) == Ok(4 * b)
  {
    Plane(b);
    hide Split, InGrid;
  }

  /** Planes 0 and 1 cover the affine family, not the stepped one, which the cascade therefore does not identify. */
  lemma StepNotIdentified(points: seq<Point>)
    requires points == [Point(0, 0), Point(1, 4)]
    ensures PointsInGrid(points, TALL) && IsHalfRule(STEP, TALL)
    ensures Fits(STEP, points, TALL) && Fits(RAMP, points, TALL)
    ensures !Identifies(points, TALL, STEP) && Identifies(points, TALL, RAMP) && Covered(points, TALL, RAMP)
  {
    hide Split, InGrid, Predict, Identifies, AffineCover, HalfCover, Covered;
    Plane(0);
    Plane(1);
    StepAt(0);
    StepAt(1);
    assert PointsInGrid(points, TALL) && Fits(STEP, points, TALL) && Fits(RAMP, points, TALL);
    LowPlanes(Sites(points, TALL));
    HalfIdentifiedExactlyWhen(points, TALL, STEP);
    AffineIdentifiedExactlyWhen(points, TALL, RAMP);
    IdentifiedExactlyWhenCovered(points, TALL, RAMP);
  }

  lemma LowPlanes(s: seq<Site>)
    requires |s| == 2 && s[0].at == Coord(0, 0, 0) && s[1].at == Coord(0, 0, 1)
    ensures AffineCover(s, TALL) && !HalfCover(s, TALL)
  {
    assert AlignedWith(s[0].at, s[1].at, Z);
  }

  // ------------------------------------------------------------------ the capture

  function Load(b: int, base: int): Record {
    Access(b, "LDG", 0, base, b)
  }

  /** CTAs 0, 1 and 2 as captured. */
  function LowCapture(): map<int, seq<Record>> {
    map b | b in {0, 1, 2} :: [Load(b, 4 * b)]
  }

  /** Trained on planes 0 and 1, with plane 2 held out. */
  const SAMPLE := Setup([0, 1], [2], false, true, true, TALL, 6)

  lemma LoadReadable(b: int, base: int)
    ensures Readable(Load(b, base)) && SignatureOf(Load(b, base)) == SignatureOf(Load(0, 0))
    ensures |SigOf(Load(b, base)).offsets| == 1 && SigOf(Load(b, base)).offsets[0] != []
  {
    hide Readable, Signature;
    AccessReadable(b, "LDG", 0, base, b);
    AccessReadable(0, "LDG", 0, 0, 0);
  }

  lemma OneLoadIndexable(b: int, base: int)
    ensures Indexable([Load(b, base)])
  {
    hide Readable, Load;
    LoadReadable(b, base);
  }

  /** A CTA with one load has one slot, and it is the same for all of them. */
  lemma OneSlot(b: int, base: int, slot: Slot)
    ensures Indexable([Load(b, base)]) && Indexable([Load(0, 0)])
    ensures Slots([Load(b, base)]) == Slots([Load(0, 0)])
    ensures slot in Slots([Load(b, base)]) ==>
              RecordAt([Load(b, base)], slot) == Load(b, base) && |slot.sig.offsets| == 1
  {
    hide Readable, SignatureOf, Load, Slots, RecordAt;
    OneLoadIndexable(b, base);
    OneLoadIndexable(0, 0);
    LoadReadable(b, base);
    var rs := [Load(b, base)];
    assert Map(SignatureOf, rs) == [SignatureOf(Load(0, 0))] == Map(SignatureOf, [Load(0, 0)]);
    SameSlotsSameSignatures(rs, [Load(0, 0)]);
    if slot in Slots(rs) {
      assert RecordAt(rs, slot) in rs;
      RecordAtSignature(rs, slot);
      SlotSignature(rs, slot);
    }
  }

  lemma SlotSignature(records: seq<Record>, slot: Slot)
    requires Indexable(records) && slot in Slots(records)
    ensures Readable(RecordAt(records, slot)) && SigOf(RecordAt(records, slot)) == slot.sig
  {
    hide Slots, Signature, RecordAt, Rank;
    assert SlotOf(records, RecordAt(records, slot)) == slot;
  }

  function Ramp(): Law {
    (slot: Slot, g: nat) => RAMP
  }

  lemma LoadFollows(b: int, base: int)
    requires 0 <= b < 6 && base == 4 * b
    ensures Follows(Ramp(), [Load(0, 0)], [Load(b, base)], b, TALL)
  {
    hide Slots, Predict, RecordAt, Indexable, Split, Load;
    StepAt(b);
    OneSlot(b, base, Slot(SigOfLoad(), 0));
    forall slot, g: nat | slot in Slots([Load(0, 0)]) && g < |slot.sig.offsets|
      ensures HasBase([Load(b, base)], slot, g, Predict(Ramp()(slot, g), b, TALL))
    {
      OneSlot(b, base, slot);
      LoadBase(b, base);
    }
  }

  function SigOfLoad(): Sig {
    LoadReadable(0, 0);
    SigOf(Load(0, 0))
  }

  lemma LoadBase(b: int, base: int)
    ensures |Load(b, base).groups| == 1 && Load(b, base).groups[0].base == base
  {
  }

  lemma LowAt(b: int)
    requires 0 <= b <= 2
    ensures b in LowCapture() && LowCapture()[b] == [Load(b, 4 * b)]
    ensures WellSampledAt(LowCapture(), b) && AllReadable(LowCapture()[b]) && Indexable(LowCapture()[b])
  {
    hide Readable, Load;
    LoadReadable(b, 4 * b);
    LoadBase(b, 4 * b);
    OneLoadIndexable(b, 4 * b);
  }

  lemma LowSelection()
    ensures SelectionOk(SAMPLE) && Selected(SAMPLE) == [0, 1, 2]
  {
    assert Selected(SAMPLE) == [0, 1, 2];
  }

  lemma LowSelected()
    ensures SelectionOk(SAMPLE) && Selected(SAMPLE) == [0, 1, 2]
    ensures WellSampled(LowCapture(), [0, 1, 2]) && ReadableAt(LowCapture(), [0, 1, 2])
    ensures IndexableAt(LowCapture(), [0, 1, 2])
  {
    hide AllReadable, Indexable, WellSampledAt, LowCapture, SelectionOk, Selected;
    LowSelection();
    LowAt(0);
    LowAt(1);
    LowAt(2);
  }

  lemma AtSlot(records: seq<Record>, slot: Slot)
    requires Indexable(records) && slot in Slots(records)
    ensures slot in IndexOf(records).bySlot && IndexOf(records).bySlot[slot] == RecordAt(records, slot)
  {
    hide Slots, RecordAt, Indexable, SlotOf;
  }

  lemma LowTraining(indexed: map<int, Index>, slot: Slot, g: nat)
    requires IndexableAt(LowCapture(), [0, 1, 2]) && indexed == Indexes(LowCapture(), [0, 1, 2])
    requires Indexable([Load(0, 0)]) && slot in Slots([Load(0, 0)]) && g < |slot.sig.offsets|
    ensures SlotEverywhere(indexed, [0, 1], slot, g)
    ensures Points(indexed, [0, 1], slot, g) == [Point(0, 0), Point(1, 4)]
  {
    hide Slots, RecordAt, Indexable, SlotOf, IndexOf, Load, LowCapture, Indexes, IndexableAt;
    IndexedAt(indexed, 0, slot);
    IndexedAt(indexed, 1, slot);
    LoadBase(0, 0);
    LoadBase(1, 4);
    OneSlot(0, 0, slot);
    TwoPoints(indexed, slot, g, 4);
  }

  lemma TwoPoints(indexed: map<int, Index>, slot: Slot, g: nat, base: int)
    requires 0 in indexed && slot in indexed[0].bySlot && indexed[0].bySlot[slot] == Load(0, 0)
    requires 1 in indexed && slot in indexed[1].bySlot && indexed[1].bySlot[slot] == Load(1, base)
    requires g == 0 && |Load(0, 0).groups| == |Load(1, base).groups| == 1
    requires Load(0, 0).groups[0].base == 0 && Load(1, base).groups[0].base == base
    ensures SlotEverywhere(indexed, [0, 1], slot, g)
    ensures Points(indexed, [0, 1], slot, g) == [Point(0, 0), Point(1, base)]
  {
    hide Load;
    assert [0, 1][0] == 0 && [0, 1][1] == 1;
  }

  lemma IndexedAt(indexed: map<int, Index>, b: int, slot: Slot)
    requires IndexableAt(LowCapture(), [0, 1, 2]) && indexed == Indexes(LowCapture(), [0, 1, 2]) && 0 <= b <= 1
    requires Indexable([Load(0, 0)]) && slot in Slots([Load(0, 0)])
    ensures b in indexed && slot in indexed[b].bySlot && indexed[b].bySlot[slot] == Load(b, 4 * b)
  {
    hide Slots, RecordAt, Indexable, SlotOf, IndexOf, Load, LowCapture, Indexes, IndexableAt, AllReadable,
      WellSampledAt;
    LowAt(b);
    OneSlot(b, 4 * b, slot);
    AtSlot([Load(b, 4 * b)], slot);
    assert [0, 1, 2][b] == b;
    IndexOfCta(LowCapture(), [0, 1, 2], b);
  }

  lemma IndexOfCta(sampled: map<int, seq<Record>>, ctas: seq<int>, b: int)
    requires IndexableAt(sampled, ctas) && b in ctas
    ensures b in sampled && Indexable(sampled[b])
    ensures b in Indexes(sampled, ctas) && Indexes(sampled, ctas)[b] == IndexOf(sampled[b])
  {
    hide Indexable, IndexOf;
  }

  lemma LowLaw()
    ensures LawSampled(Ramp(), LowCapture(), SAMPLE)
  {
    hide Slots, Indexable, Predict, Load, Follows, LowCapture, Indexes, TrainingIdentifies;
    LowSelected();
    LowAt(0);
    LowAt(1);
    LowAt(2);
    LoadFollows(0, 0);
    LoadFollows(1, 4);
    LoadFollows(2, 8);
    LowTrains(Indexes(LowCapture(), [0, 1, 2]));
  }

  lemma LowTrains(indexed: map<int, Index>)
    requires IndexableAt(LowCapture(), [0, 1, 2]) && indexed == Indexes(LowCapture(), [0, 1, 2])
    ensures TrainingIdentifies(Ramp(), [Load(0, 0)], indexed, [0, 1], TALL, Options(true, false))
  {
    hide Slots, RecordAt, Indexable, Predict, Covered, Load, LowCapture, Indexes, Points, SlotEverywhere;
    OneSlot(0, 0, Slot(SigOfLoad(), 0));
    forall slot, g: nat | slot in Slots([Load(0, 0)]) && g < |slot.sig.offsets|
      ensures SlotEverywhere(indexed, [0, 1], slot, g)
      ensures Identified(Points(indexed, [0, 1], slot, g), TALL, Options(true, false), Ramp()(slot, g))
    {
      LowTraining(indexed, slot, g);
      StepNotIdentified(Points(indexed, [0, 1], slot, g));
    }
  }

  lemma Different(template: seq<Entry>, b: int, dims: Dims, r: Record, q: Record)
    requires Reproduces(template, b, dims, [r]) && Readable(r) && Bases(r.groups) != Bases(q.groups)
    ensures !Reproduces(template, b, dims, [q])
    ensures |template| == 1 && PredictBases(template[0].rules, b, dims) == Ok(Bases(r.groups))
  {
    hide Signature, PredictBases;
    var events := Map(EventAt(b, dims), template);
    assert Map(EventOf, [r]) == [EventOf(r)] && Map(EventOf, [q]) == [EventOf(q)];
    PermutationLength(events, [EventOf(r)]);
    assert events[0] in events;
    assert EventOf(r) != EventOf(q);
    assert multiset([EventOf(r)])[EventOf(r)] == 1 && multiset([EventOf(q)])[EventOf(r)] == 0;
  }

  /**
   * The profile of the stepped kernel's low planes passes the base gate at the held-out plane 2. Its template
   * stands for the true load there, and not at plane 3, where it predicts base 12 and the truth is 112.
   */
  lemma UncoveredStepIsAdmitted() returns (p: Profile)
    ensures WellSampled(LowCapture(), Selected(SAMPLE)) && ProfileOf(LowCapture(), SAMPLE) == Ok(p) && p.Uniform?
    ensures Predict(STEP, 2, TALL) == Ok(8) && Reproduces(p.template, 2, TALL, [Load(2, 8)])
    ensures Predict(STEP, 3, TALL) == Ok(112) && !Reproduces(p.template, 3, TALL, [Load(3, 112)])
    ensures |p.template| == 1 && PredictBases(p.template[0].rules, 3, TALL) == Ok([12])
  {
    hide ProfileOf, LawSampled, Follows, Reproduces, Slots, Indexable, Predict, Readable, LowCapture, PredictBases;
    LowSelected();
    LowLaw();
    LowTouches();
    LawSampleIsProfiled(Ramp(), LowCapture(), SAMPLE);
    p := ProfileOf(LowCapture(), SAMPLE).value;
    LowAt(0);
    LoadFollows(2, 8);
    LoadFollows(3, 12);
    SampledProfileExtrapolates(Ramp(), LowCapture(), SAMPLE, p, 2, [Load(2, 8)]);
    SampledProfileExtrapolates(Ramp(), LowCapture(), SAMPLE, p, 3, [Load(3, 12)]);
    StepAt(2);
    StepAt(3);
    LoadReadable(3, 12);
    assert Bases(Load(3, 12).groups) == [12] && Bases(Load(3, 112).groups) == [112];
    Different(p.template, 3, TALL, Load(3, 12), Load(3, 112));
  }

  lemma LowTouches()
    ensures 0 in LowCapture() && Touches(LowCapture()[0])
  {
    hide Readable, Signature;
    LoadReadable(0, 0);
    assert LaneIn(LowCapture()[0][0], 0);
  }
}
