/** Capture, profile, generate and audit together. */
module Pipeline {
  import opened Common
  import opened Sequences
  import opened Numerals
  import opened Varint
  import opened Memc
  import opened Lanes
  import opened Capture
  import opened SlotIndex
  import opened Profile
  import opened Lines
  import opened Schedule

  // --------------------------------------------------- what decoding guarantees

  /** The record is the rendering of something well formed on the wire. */
  ghost predicate FromWire(r: MemcRecord) {
    exists w: Wire :: r == Render(w) && WellFormed([w.opcode], w)
  }

  ghost predicate AllFromWire(s: seq<MemcRecord>) {
    forall i :: 0 <= i < |s| ==> FromWire(s[i])
  }

  lemma RenderedFromWire(opcodes: seq<string>, w: Wire)
    requires WellFormed(opcodes, w)
    ensures FromWire(Render(w))
  {
    hide GroupsOk, Render;
    assert WellFormed([w.opcode], w);
  }

  lemma {:induction false} DecodedFromWire(files: seq<seq<byte>>)
    requires DecodeFiles(files).Ok?
    ensures AllFromWire(DecodeFiles(files).value)
    decreases |files|
  {
    hide DecodeFile, DecodeHeader, WellFormed, Render, FromWire;
    if files != [] {
      var last := files[|files| - 1];
      DecodedFromWire(files[..|files| - 1]);
      DecodedWellFormed(last);
      var opcodes, ws := DecodeHeader(last).value.value, DecodeFile(last).value;
      forall i | 0 <= i < |ws| ensures FromWire(RenderAll(ws)[i]) {
        assert WellFormed(opcodes, ws[i]);
        RenderedFromWire(opcodes, ws[i]);
      }
    }
  }

  lemma {:induction false} RunsGiveStrides(runs: seq<Run>)
    requires RunsOk(runs)
    ensures Strides(Pairs(runs)).Ok? && |Strides(Pairs(runs)).value| == RunTotal(runs)
  {
    hide ParseStride, FormatStride;
    if runs != [] {
      ParseFormatStride(runs[0]);
      assert Pairs(runs)[1..] == Pairs(runs[1..]);
      RunsGiveStrides(runs[1..]);
    }
  }

  lemma {:induction false} GroupOffsetsSucceed(mask: string, groups: seq<seq<string>>)
    requires forall g :: 0 <= g < |groups| ==> LaneOffsets(mask, groups[g]).Ok?
    ensures GroupOffsets(mask, groups).Ok?
  {
    hide LaneOffsets;
    if groups != [] {
      GroupOffsetsSucceed(mask, groups[1..]);
    }
  }

  /** Every rendered group has a readable stride list and a base that is not negative. */
  lemma GroupLanes(mask: nat, g: WireGroup)
    requires WellFormedGroup(mask, g)
    ensures LaneOffsets(FormatHex(mask), RenderGroup(mask, g).pairs).Ok? && RenderGroup(mask, g).base >= 0
  {
    hide ParseHex, OffsetsFrom, Strides, FormatHex;
    ParseFormatHex(mask);
    RunsGiveStrides(g.runs);
  }

  /** What lowering leaves of a decoded record is complete and readable. */
  lemma LoweredFromWire(r: MemcRecord)
    requires FromWire(r) && Lower(r).Ok?
    ensures var x := Lower(r).value.record;
      && Readable(x) && x.groups != [] && NonNegative(Bases(x.groups))
      && x.block == r.block && x.sequence == r.sequence && x.opcode == r.opcode && x.pc == r.pc && x.mask == r.mask
      && 0 <= r.block <= MASK32 && Clean(r.pc) && Clean(r.mask)
  {
    hide Lower, ParseHex, LaneOffsets, FormatHex, Clean, RenderGroup, WellFormedGroup;
    var w: Wire :| r == Render(w) && WellFormed([w.opcode], w);
    var x := Lower(r).value.record;
    ParseFormatHex(w.mask);
    LowerKeepsGlobalGroups(r, w.mask, Lower(r).value);
    HexClean(w.pc);
    HexClean(w.mask);
    forall g | 0 <= g < |x.groups| ensures LaneOffsets(x.mask, PairsOf(x.groups)[g]).Ok? && Bases(x.groups)[g] >= 0 {
      var k := KeptGroup(r, w.mask, g);
      GroupLanes(w.mask, w.groups[k]);
    }
    GroupOffsetsSucceed(x.mask, PairsOf(x.groups));
  }

  lemma KeptGroup(r: MemcRecord, mask: nat, g: nat) returns (k: nat)
    requires Lower(r).Ok? && ParseHex(r.mask) == Ok(mask) && mask != 0 && g < |Lower(r).value.record.groups|
    ensures k < |r.groups| && Lower(r).value.record.groups[g] == Strip(r.groups[k])
  {
    LowerKeepsGlobalGroups(r, mask, Lower(r).value);
    hide Lower, ParseHex, IsGlobal;
    var p := (x: MemcGroup) => IsGlobal(mask, x);
    var kept := Filter(p, r.groups);
    assert Lower(r).value.record.groups == Map(Strip, kept);
    assert kept[g] in kept;
    FilteredFrom(p, r.groups, kept[g]);
    k :| 0 <= k < |r.groups| && r.groups[k] == kept[g];
  }

  // ------------------------------------------------------------ collected CTAs

  ghost predicate RisingBelow(records: seq<Record>, bound: int) {
    && (forall i :: 0 <= i < |records| ==> records[i].sequence <= bound)
    && (forall i, j :: 0 <= i < j < |records| ==> records[i].sequence < records[j].sequence)
  }

  /** A collected CTA's records keep the stream's sequence order, and each is a lowered record of the stream. */
  lemma {:induction false} FoundRises(s: seq<MemcRecord>, b: int)
    requires Increasing(s) && SelectedLowerable(s, {b})
    ensures RisingBelow(Found(s, b), if s == [] then 0 else s[|s| - 1].sequence)
    decreases |s|
  {
    hide Lower;
    if s != [] {
      var n := |s| - 1;
      assert forall i :: 0 <= i < n ==> s[..n][i] == s[i];
      FoundRises(s[..n], b);
      if n > 0 {
        assert s[n - 1].sequence < s[n].sequence;
      }
      if s[n].block == b {
        assert Lowerable(s[n]);
        LoweredSequence(s[n]);
      }
    }
  }

  lemma LoweredSequence(r: MemcRecord)
    requires Lower(r).Ok?
    ensures Lower(r).value.record.sequence == r.sequence && Lower(r).value.record.block == r.block
  {
    hide ParseHex, IsGlobal, IsShared;
  }

  predicate SoundRecord(x: Record, b: int) {
    Readable(x) && x.groups != [] && NonNegative(Bases(x.groups)) && x.block == b
  }

  lemma {:induction false} FoundSound(s: seq<MemcRecord>, b: int)
    requires AllFromWire(s) && SelectedLowerable(s, {b})
    ensures forall k :: 0 <= k < |Found(s, b)| ==> SoundRecord(Found(s, b)[k], b)
    decreases |s|
  {
    hide Lower, FromWire, Readable;
    if s != [] {
      var n := |s| - 1;
      FoundSound(s[..n], b);
      if s[n].block == b {
        assert Lowerable(s[n]) && FromWire(s[n]);
        LoweredFromWire(s[n]);
      }
    }
  }

  ghost predicate GoodCta(records: seq<Record>) {
    DistinctSequences(records) && AllReadable(records) && NonNegativeBases(records)
    && forall i :: 0 <= i < |records| ==> records[i].groups != []
  }

  lemma FoundGood(s: seq<MemcRecord>, b: int)
    requires AllFromWire(s) && Increasing(s) && SelectedLowerable(s, {b})
    ensures GoodCta(Found(s, b))
  {
    hide Lower, FromWire, Readable, Found;
    FoundRises(s, b);
    FoundSound(s, b);
    var records := Found(s, b);
    forall k | 0 <= k < |records|
      ensures Readable(records[k]) && records[k].groups != [] && NonNegative(Bases(records[k].groups)) {
      assert SoundRecord(records[k], b);
    }
  }

  /** Every collected CTA, straight from the decoder, is fit to be profiled. */
  lemma CollectedGood(files: seq<seq<byte>>, selected: seq<int>, allowEmpty: bool, gapsValidated: bool, c: Collection)
    requires Collect(files, SetOf(selected), allowEmpty, gapsValidated) == Some(c)
    ensures WellSampled(c.found, selected) && ReadableAt(c.found, selected)
    ensures DecodeFiles(files).Ok?
    ensures forall b :: b in selected ==>
              && SelectedLowerable(DecodeFiles(files).value, {b})
              && b in c.found && c.found[b] == Found(DecodeFiles(files).value, b) && GoodCta(c.found[b])
  {
    hide DecodeFiles, Lower, AsyncCount, GapEvents, Absent, Found, AllFromWire, AllReadable, NonNegativeBases,
      Lowerable, Contiguous;
    var s := DecodeFiles(files).value;
    DecodedFromWire(files);
    forall b | b in selected
      ensures SelectedLowerable(s, {b}) && b in c.found && c.found[b] == Found(s, b) && GoodCta(c.found[b])
    {
      FoundGood(s, b);
    }
    forall i | 0 <= i < |selected| ensures WellSampledAt(c.found, selected[i]) && AllReadable(c.found[selected[i]]) {
      assert selected[i] in selected;
    }
  }

  /** `profile` on capture files. */
  ghost function ProfileFiles(files: seq<seq<byte>>, s: Setup, gapsValidated: bool): Result<Profile> {
    hide Collect, WellSampled, ReadableAt, GoodCta, SelectedLowerable, ProfileOf, Selected, SetOf, Found;
    match Collect(files, SetOf(Selected(s)), s.complete, gapsValidated)
    case None => Err(SequenceGap)
    case Some(c) =>
      CollectedGood(files, Selected(s), s.complete, gapsValidated, c);
      ProfileOf(c.found, s)
  }
}
