/** The sampled mode as a whole: profile a few CTAs, generate the grid, audit against a capture of all of it. */
module SampledReplay {
  import opened Common
  import opened Sequences
  import opened Numerals
  import opened Bits
  import opened Varint
  import opened Memc
  import opened Lanes
  import opened Capture
  import opened SlotIndex
  import opened CoordinateRules
  import opened Meaning
  import opened Classes
  import opened Profile
  import opened Generate
  import opened Schedule
  import opened Extrapolation
  import opened Lines
  import opened TraceFile
  import opened Audit
  import opened Pipeline
  import opened Replay

  // --------------------------------------------------- captured records have lanes

  lemma ThirtyTwo()
    ensures Two(32) == MASK32 + 1
  {
    assert Two(8) == 256;
    assert Two(16) == 256 * 256 by { TwoSum(8, 8); }
    assert Two(32) == 65536 * 65536 by { TwoSum(16, 16); }
  }

  /** A captured record has an active lane: its mask is not zero and has 32 bits. */
  lemma LoweredHasLane(r: MemcRecord)
    requires FromWire(r) && Lower(r).Ok?
    ensures LaneIn(Lower(r).value.record, 0)
  {
    LoweredFromWire(r);
    hide Lower, FormatHex, RenderGroup, WellFormedGroup, Clean, Readable, LaneIn, NonNegative;
    var w: Wire :| r == Render(w) && WellFormed([w.opcode], w);
    MaskedLane(w.mask, Lower(r).value.record);
  }

  lemma MaskedLane(mask: nat, x: Record)
    requires Readable(x) && x.groups != [] && x.mask == FormatHex(mask) && 0 < mask <= MASK32
    ensures LaneIn(x, 0)
  {
    hide ParseHex, FormatHex, Bit, Strides, OffsetsFrom, Two;
    ParseFormatHex(mask);
    ThirtyTwo();
    var i := SomeBit(mask, 32);
    var offsets := SigOf(x).offsets;
    assert LaneOffsets(x.mask, PairsOf(x.groups)[0]) == Ok(offsets[0]);
    var strides := Strides(PairsOf(x.groups)[0]).value;
    OffsetsAre(mask, strides, 0, 0, Lane(i, Distance(strides, i)));
  }

  lemma {:induction false} FoundLanes(s: seq<MemcRecord>, b: int)
    requires AllFromWire(s) && SelectedLowerable(s, {b})
    ensures forall k :: 0 <= k < |Found(s, b)| ==> LaneIn(Found(s, b)[k], 0)
    decreases |s|
  {
    hide Lower, FromWire, LaneIn;
    if s != [] {
      var n := |s| - 1;
      FoundLanes(s[..n], b);
      if s[n].block == b {
        assert Lowerable(s[n]) && FromWire(s[n]);
        LoweredHasLane(s[n]);
      }
    }
  }

  lemma FoundTouches(s: seq<MemcRecord>, b: int)
    requires AllFromWire(s) && SelectedLowerable(s, {b}) && Found(s, b) != []
    ensures Touches(Found(s, b))
  {
    hide Found, LaneIn;
    FoundLanes(s, b);
    assert LaneIn(Found(s, b)[0], 0);
  }

  // ----------------------------------------------------------- the grid and the law

  /** Every CTA of the grid, as a capture of all of it has it, follows the law. */
  ghost predicate GridFollows(law: Law, anchor: seq<Record>, found: map<int, seq<Record>>, n: nat, dims: Dims) {
    forall b :: 0 <= b < n ==> b in found && Follows(law, anchor, found[b], b, dims)
  }

  /** A sampled profile mirrors a grid that follows the law it was trained on. */
  lemma SampledMirrors(law: Law, sampled: map<int, seq<Record>>, s: Setup, p: Profile, found: map<int, seq<Record>>)
    requires WellSampled(sampled, Selected(s)) && ProfileOf(sampled, s) == Ok(p) && !s.complete
    requires LawSampled(law, sampled, s) && GridFollows(law, sampled[s.train[0]], found, s.n, s.dims)
    ensures Mirrors(p, s.dims, s.n, found)
  {
    var anchor := sampled[s.train[0]];
    hide ProfileOf, LawSampled, Follows, Reproduces, TemplateFor, WellSampled, Selected;
    forall b | 0 <= b < s.n
      ensures b in found && AllReadable(found[b]) && Reproduces(TemplateFor(p, b), b, s.dims, found[b])
    {
      FollowsReadable(law, anchor, found[b], b, s.dims);
      SampledProfileExtrapolates(law, sampled, s, p, b, found[b]);
    }
  }

  lemma FollowsReadable(law: Law, anchor: seq<Record>, records: seq<Record>, b: int, dims: Dims)
    requires Follows(law, anchor, records, b, dims)
    ensures AllReadable(records)
  {
    hide Slots, Predict;
  }

  /** The profile's setup, the capture it was taken from and the law it was trained on. */
  ghost predicate SampledFrom(law: Law, files: seq<seq<byte>>, s: Setup, gapsValidated: bool, captured: seq<MemcRecord>,
                              c: Collection)
  {
    && DecodeFiles(files) == Ok(captured) && CleanOpcodes(captured, SetOf(Selected(s))) && !s.complete
    && Collect(files, SetOf(Selected(s)), false, gapsValidated) == Some(c) && LawSampled(law, c.found, s)
  }

  /** A capture of the whole grid, gaps allowed, whose CTAs follow the law. */
  ghost predicate GridFrom(law: Law, s: Setup, c: Collection, files: seq<seq<byte>>, whole: seq<MemcRecord>,
                           w: Collection) {
    && DecodeFiles(files) == Ok(whole) && Collect(files, Blocks(s.n), true, true) == Some(w)
    && s.train != [] && s.train[0] in c.found && GridFollows(law, c.found[s.train[0]], w.found, s.n, s.dims)
  }

  lemma SampleCollected(law: Law, files: seq<seq<byte>>, s: Setup, gapsValidated: bool, captured: seq<MemcRecord>,
                        c: Collection)
    requires SampledFrom(law, files, s, gapsValidated, captured, c)
    ensures WellSampled(c.found, Selected(s)) && ReadableAt(c.found, Selected(s)) && AllFromWire(captured)
    ensures SelectedCollected(captured, s, c.found) && CleanSelected(c.found, s)
    ensures ProfileFiles(files, s, gapsValidated) == ProfileOf(c.found, s)
  {
    hide DecodeFiles, Found, GoodCta, AllFromWire, Collect, Lowerable, ProfileOf, LawSampled, Clean;
    CollectedGood(files, Selected(s), false, gapsValidated, c);
    DecodedFromWire(files);
    CleanCollected(captured, s, c.found);
  }

  lemma WholeCollected(law: Law, s: Setup, c: Collection, files: seq<seq<byte>>, whole: seq<MemcRecord>, w: Collection)
    requires GridFrom(law, s, c, files, whole, w)
    ensures AllFromWire(whole) && SelectedLowerable(whole, Blocks(s.n)) && Collected(whole, s.n, w.found)
    ensures AllCtas(w.found, s.n)
  {
    hide DecodeFiles, Found, AllFromWire, Summary, Lowerable, Contiguous, Increasing, GridFollows, NonNegativeBases,
      DistinctSequences, AllReadable;
    CollectedGood(files, Range(s.n), true, true, w);
    DecodedFromWire(files);
    forall b | 0 <= b < s.n ensures b in Range(s.n) {
      assert Range(s.n)[b] == b;
    }
  }

  /**
   * The audit of a sampled profile's text. If the sampled CTAs follow the kernel's law and the training CTAs
   * single it out, the text generated for the whole grid passes the audit against a capture of a grid that
   * follows the law exactly when that capture is contiguous, stays on the grid and has no count that overflows.
   */
  lemma SampledAuditPassesExactlyWhen(d: Digests, law: Law, files: seq<seq<byte>>, s: Setup, gapsValidated: bool,
                                      captured: seq<MemcRecord>, c: Collection, p: Profile, issue: map<int, Placement>,
                                      lines: seq<string>, gridFiles: seq<seq<byte>>, whole: seq<MemcRecord>,
                                      w: Collection)
    requires SampledFrom(law, files, s, gapsValidated, captured, c)
    requires GridFrom(law, s, c, gridFiles, whole, w)
    requires ProfileFiles(files, s, gapsValidated) == Ok(p) && Generated(p, issue, s.dims, s.n, lines)
    ensures AuditPasses(d, whole, lines) <==> Contiguous(whole) && AllOnGrid(whole, s.n) && CountsFit(whole)
  {
    hide DecodeFiles, ProfileFiles, ProfileOf, GridPart, AllOnGrid, CountsFit, Contiguous, AllFromWire, Selected,
      Blocks, AuditPasses, SameEvents, Collected, SelectedCollected, SelectedLowerable, LawSampled, Follows,
      AllLegible, Generated, Mirrors, CleanSelected, CleanOpcodes, WellSampled, ReadableAt, Collect;
    SampleCollected(law, files, s, gapsValidated, captured, c);
    WholeCollected(law, s, c, gridFiles, whole, w);
    ProfileLegible(c.found, s, p);
    SampledMirrors(law, c.found, s, p, w.found);
    MirrorHoldsEvents(p, issue, s.dims, s.n, lines, whole, w.found);
    AuditExactlyWhen(d, s.n, lines, whole);
  }

  /**
   * The sampled pipeline as a whole. A sample of a kernel whose addresses follow a law that the training CTAs
   * single out is accepted by `profile` with its held-out CTAs, generated for the whole grid to one text, and
   * that text passes the audit against a gap-free capture of all CTAs, most of which were never profiled.
   */
  lemma SampledGridPassesAudit(d: Digests, law: Law, files: seq<seq<byte>>, s: Setup, gapsValidated: bool,
                               captured: seq<MemcRecord>, c: Collection, issue: map<int, Placement>, smCount: int,
                               gridFiles: seq<seq<byte>>, whole: seq<MemcRecord>, w: Collection)
    returns (lines: seq<string>)
    requires SampledFrom(law, files, s, gapsValidated, captured, c) && SelectionOk(s) && IssueOk(issue, smCount, s.n)
    requires GridFrom(law, s, c, gridFiles, whole, w)
    requires Contiguous(whole) && AllOnGrid(whole, s.n) && CountsFit(whole)
    ensures ReplayOf(files, s, gapsValidated, issue, lines)
    ensures forall other :: ReplayOf(files, s, gapsValidated, issue, other) ==> other == lines
    ensures AuditPasses(d, whole, lines)
    ensures SplitLines(Joined(lines)) == lines
  {
    hide DecodeFiles, ProfileFiles, ProfileOf, AllOnGrid, CountsFit, Contiguous, AllFromWire, Blocks, AuditPasses,
      Collected, SelectedLowerable, LawSampled, Follows, Generated, CtaCount, Mirrors, CleanSelected, CleanOpcodes,
      WellSampled, ReadableAt, Collect, IssueOk, Touches, Writable, OrderedTemplate;
    SampleCollected(law, files, s, gapsValidated, captured, c);
    WholeCollected(law, s, c, gridFiles, whole, w);
    AnchorTouches(law, files, s, gapsValidated, captured, c);
    LawSampleIsProfiled(law, c.found, s);
    var p := ProfileOf(c.found, s).value;
    SampledMirrors(law, c.found, s, p, w.found);
    TrainBelow(s);
    forall b, i | 0 <= b < s.n && 0 <= i < |OrderedTemplate(p, b)| ensures Writable(p, s.dims, b, i) {
      MirrorWrites(c.found, s, p, w.found, b, i);
    }
    lines := GenerationExists(p, issue, smCount, s.dims, s.n);
    forall other | ReplayOf(files, s, gapsValidated, issue, other) ensures other == lines {
      GenerationUnique(p, issue, s.dims, s.n, other, lines);
    }
    SampledAuditPassesExactlyWhen(d, law, files, s, gapsValidated, captured, c, p, issue, lines, gridFiles, whole, w);
    GeneratedFileReadsBack(files, s, gapsValidated, p, issue, lines, captured);
  }

  /** The sampling scan admits no CTA without records, and records have lanes. */
  lemma AnchorTouches(law: Law, files: seq<seq<byte>>, s: Setup, gapsValidated: bool, captured: seq<MemcRecord>,
                      c: Collection)
    requires SampledFrom(law, files, s, gapsValidated, captured, c) && SelectionOk(s)
    requires SelectedCollected(captured, s, c.found) && AllFromWire(captured)
    ensures s.train[0] in c.found && Touches(c.found[s.train[0]])
  {
    hide DecodeFiles, Found, AllFromWire, Lowerable, LawSampled, GoodCta, Touches, Contiguous, Increasing, CtaCount,
      CleanOpcodes, AsyncCount, GapEvents, Absent;
    var b := s.train[0];
    assert Selected(s)[0] == b;
    assert b in Selected(s);
    FoundTouches(captured, b);
  }
}
