/** The simplest memory access, one lane wide, on the wire and as a record: what the examples are made of. */
module OneLane {
  import opened Common
  import opened Numerals
  import opened Bits
  import opened Lanes
  import opened Memc
  import opened Capture

  function Access(block: int, opcode: string, timestamp: int, base: int, sequence: int): Record {
    Record(block, FormatHex(16), opcode, FormatHex(1), timestamp, [Group(base, [FormatStride(Run(4, 31))])], sequence)
  }

  /** Its structure depends on the opcode alone, and has one lane. */
  lemma AccessReadable(block: int, opcode: string, timestamp: int, base: int, sequence: int)
    ensures Readable(Access(block, opcode, timestamp, base, sequence))
    ensures SignatureOf(Access(block, opcode, timestamp, base, sequence)) == SignatureOf(Access(0, opcode, 0, 0, 0))
    ensures var sig := SigOf(Access(block, opcode, timestamp, base, sequence));
      sig.opcode == opcode && |sig.offsets| == 1 && sig.offsets[0] != []
  {
    hide ParseHex, ParseStride, FormatHex, FormatStride, OffsetsFrom;
    var r := Access(block, opcode, timestamp, base, sequence);
    var run := FormatStride(Run(4, 31));
    ParseFormatHex(1);
    ParseFormatStride(Run(4, 31));
    assert PairsOf(r.groups) == [[run]] && [[run]][1..] == [] && [run][1..] == [];
    assert Strides([run]) == Ok(Repeat(4, 31) + []);
    assert LaneOffsets(r.mask, [run]) == Ok(OffsetsFrom(1, Strides([run]).value, 0, 0));
    assert GroupOffsets(r.mask, [[run]][1..]) == Ok([]);
    assert PairsOf(Access(0, opcode, 0, 0, 0).groups) == PairsOf(r.groups);
    OffsetsAre(1, Strides([run]).value, 0, 0, Lane(0, 0));
  }

  /** A global load in lane 0 by CTA `b`, captured as number `b`. */
  function WireLoad(b: nat, base: nat): Wire {
    Wire(b, b, 16, "LDG", 1, 0, 0, 0, 1, 0, [WireGroup(1, 0, 0, base, [Run(4, 31)])])
  }

  lemma OneBit()
    ensures Or(1, 0) == 1 && And(1, 0) == 0 && And(0, 0) == 0 && AndNot(1, 1) == 0
  {
    assert Or(0, 0) == 0 && AndNot(0, 0) == 0;
  }

  lemma WireLoadWellFormed(b: nat, base: nat)
    requires b <= MASK32 && base <= MASK32
    ensures WellFormed(["LDG"], WireLoad(b, base)) && OpcodesOk(["LDG"])
  {
    hide And, Or, AndNot;
    OneBit();
    assert [Run(4, 31)][1..] == [];
    assert RunTotal([Run(4, 31)]) == 31;
  }

  /** Captured and lowered it is the record above. */
  lemma WireLoadLowers(b: nat, base: nat)
    ensures Lowerable(Render(WireLoad(b, base)))
    ensures Lower(Render(WireLoad(b, base))).value.record == Access(b, "LDG", 0, base, b)
  {
    hide And, Or, AndNot, ParseHex, FormatHex, FormatStride;
    OneBit();
    ParseFormatHex(1);
    var r := Render(WireLoad(b, base));
    assert IsGlobal(1, r.groups[0]);
    assert Pairs([Run(4, 31)]) == [FormatStride(Run(4, 31))];
    assert Lower(r).value.record.groups == [Group(base, [FormatStride(Run(4, 31))])];
  }
}
