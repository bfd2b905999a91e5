/** The capture format on a literal file: two records, byte by byte. */
module LiteralCapture {
  import opened Common
  import opened Numerals
  import opened Bits
  import opened Varint
  import opened Memc
  import opened OneLane

  const COPY: Wire := Wire(1, 2, 3, "LDGSTS", 1, 5, 6, 7, 8, 9,
                           [WireGroup(1, 0, 0, 10, [Run(4, 31)]), WireGroup(0, 0, 1, 7, [Run(-4, 31)])])

  const LOAD: Wire := Wire(2, 1, 3, "LDG", 1, 8, 0, 0, 1, 20, [WireGroup(1, 0, 0, 60, [Run(0, 31)])])

  const NAMES := ["LDGSTS", "LDG"]

  lemma OneByte(n: nat, rest: seq<byte>)
    ensures n < 128 ==> PutUvar(n, rest) == [n] + rest
  {
  }

  lemma SmallDelta(prior: nat, target: nat)
    requires prior < 1000 && target < 1000
    ensures Delta(prior, target) == target - prior
  {
  }

  lemma OneRun(stride: int, count: nat, rest: seq<byte>)
    requires -64 <= stride < 64 && count < 128
    ensures PutRuns([Run(stride, count)], rest) == [Zigzag(stride), count] + rest
  {
    hide PutSvar, PutUvar;
    assert [Run(stride, count)][1..] == [];
    OneByte(count, rest);
    SignedByte(stride, [count] + rest);
    assert [Zigzag(stride)] + ([count] + rest) == [Zigzag(stride), count] + rest;
  }

  /** A group of one run in one address space, its base close to the one before. */
  lemma OneGroup(mask: nat, base: nat, g: WireGroup, tag: nat, rest: seq<byte>)
    requires |g.runs| == 1 && -64 <= g.runs[0].stride < 64 && g.runs[0].count < 128
    requires base < 1000 && g.base < 1000 && -64 <= g.base - base < 64
    requires forall s :: PutSpaces(mask, g, s) == PutUvar(tag, s)
    requires tag < 128
    ensures PutGroups(mask, base, [g], rest)
         == [tag, Zigzag(g.base - base), 1, Zigzag(g.runs[0].stride), g.runs[0].count] + rest
  {
    hide PutSvar, PutUvar, PutRuns, PutSpaces, Zigzag, Delta;
    assert [g][1..] == [] && g.runs == [Run(g.runs[0].stride, g.runs[0].count)];
    var runs := [Zigzag(g.runs[0].stride), g.runs[0].count];
    OneRun(g.runs[0].stride, g.runs[0].count, rest);
    OneByte(1, runs + rest);
    SmallDelta(base, g.base);
    SignedByte(g.base - base, [1] + (runs + rest));
    var tail := [Zigzag(g.base - base)] + ([1] + (runs + rest));
    OneByte(tag, tail);
    assert [tag] + tail == [tag, Zigzag(g.base - base), 1] + runs + rest;
  }

  lemma SignedByte(n: int, rest: seq<byte>)
    requires -64 <= n < 64
    ensures PutSvar(n, rest) == [Zigzag(n)] + rest
  {
    OneByte(Zigzag(n), rest);
  }

  /** The fields of a record before its groups, all of them small. */
  lemma SmallRecord(opcodes: seq<string>, at: Running, w: Wire, id: nat, rest: seq<byte>)
    requires w.opcode in opcodes && Position(opcodes, w.opcode) == id < 128
    requires at.cta < 1000 && at.pc < 1000 && at.clock < 1000 && w.cta < 1000 && w.pc < 1000 && w.clock < 1000
    requires -64 <= w.cta - at.cta < 64 && -64 <= w.pc - at.pc < 64 && -64 <= w.clock - at.clock < 64
    requires w.sequence < 128 && w.mask < 128 && |w.groups| < 128 && w.sm < 128 && w.warp < 128
    requires w.fn < 128 && w.fullClock < 128
    ensures PutRecord(opcodes, at, w, rest)
         == [w.sequence, Zigzag(w.cta - at.cta), Zigzag(w.pc - at.pc), id, w.mask, Zigzag(w.clock - at.clock),
             |w.groups|, w.sm, w.warp, w.fn, w.fullClock] + PutGroups(w.mask, at.base, w.groups, rest)
  {
    hide PutSvar, PutUvar, PutGroups, Zigzag, Delta, Position;
    var groups := PutGroups(w.mask, at.base, w.groups, rest);
    SmallIssue(at, w, groups);
    var s1 := [Zigzag(w.clock - at.clock), |w.groups|, w.sm, w.warp, w.fn, w.fullClock] + groups;
    OneByte(w.mask, s1);
    var s2 := [w.mask] + s1;
    OneByte(id, s2);
    var s3 := [id] + s2;
    SmallDelta(at.pc, w.pc);
    SignedByte(w.pc - at.pc, s3);
    var s4 := [Zigzag(w.pc - at.pc)] + s3;
    SmallDelta(at.cta, w.cta);
    SignedByte(w.cta - at.cta, s4);
    var s5 := [Zigzag(w.cta - at.cta)] + s4;
    OneByte(w.sequence, s5);
    assert [w.sequence] + s5
        == [w.sequence, Zigzag(w.cta - at.cta), Zigzag(w.pc - at.pc), id, w.mask, Zigzag(w.clock - at.clock),
            |w.groups|, w.sm, w.warp, w.fn, w.fullClock] + groups;
  }

  lemma SmallIssue(at: Running, w: Wire, rest: seq<byte>)
    requires at.clock < 1000 && w.clock < 1000 && -64 <= w.clock - at.clock < 64
    requires |w.groups| < 128 && w.sm < 128 && w.warp < 128 && w.fn < 128 && w.fullClock < 128
    ensures PutIssue(at, w, rest)
         == [Zigzag(w.clock - at.clock), |w.groups|, w.sm, w.warp, w.fn, w.fullClock] + rest
  {
    hide PutSvar, PutUvar, Zigzag, Delta;
    var s1 := [w.fullClock] + rest;
    OneByte(w.fullClock, rest);
    OneByte(w.fn, s1);
    var s2 := [w.fn] + s1;
    OneByte(w.warp, s2);
    var s3 := [w.warp] + s2;
    OneByte(w.sm, s3);
    var s4 := [w.sm] + s3;
    OneByte(|w.groups|, s4);
    var s5 := [|w.groups|] + s4;
    SmallDelta(at.clock, w.clock);
    SignedByte(w.clock - at.clock, s5);
    assert [Zigzag(w.clock - at.clock)] + s5
        == [Zigzag(w.clock - at.clock), |w.groups|, w.sm, w.warp, w.fn, w.fullClock] + rest;
  }

  lemma CopyBytes(rest: seq<byte>)
    ensures PutRecord(NAMES, START, COPY, rest)
         == [1, 4, 6, 0, 1, 10, 2, 6, 7, 8, 9, 1, 20, 1, 8, 31, 3, 5, 1, 7, 31] + rest
  {
    hide PutRecord, PutGroups, PutSpaces;
    var a, b := COPY.groups[0], COPY.groups[1];
    SmallRecord(NAMES, START, COPY, 0, rest);
    forall s ensures PutSpaces(1, a, s) == PutUvar(1, s) && PutSpaces(1, b, s) == PutUvar(3, s) {
      TagsOf(s);
    }
    OneGroup(1, 10, b, 3, rest);
    TwoGroups(1, 0, a, b, 1, [3, 5, 1, 7, 31], rest);
    assert COPY.groups == [a, b];
  }

  lemma TagsOf(s: seq<byte>)
    ensures PutSpaces(1, COPY.groups[0], s) == PutUvar(1, s) && PutSpaces(1, COPY.groups[1], s) == PutUvar(3, s)
    ensures PutSpaces(1, LOAD.groups[0], s) == PutUvar(1, s)
  {
  }

  lemma TwoGroups(mask: nat, base: nat, a: WireGroup, b: WireGroup, tag: nat, second: seq<byte>, rest: seq<byte>)
    requires |a.runs| == 1 && -64 <= a.runs[0].stride < 64 && a.runs[0].count < 128
    requires base < 1000 && a.base < 1000 && -64 <= a.base - base < 64 && tag < 128
    requires forall s :: PutSpaces(mask, a, s) == PutUvar(tag, s)
    requires PutGroups(mask, a.base, [b], rest) == second + rest
    ensures PutGroups(mask, base, [a, b], rest)
         == [tag, Zigzag(a.base - base), 1, Zigzag(a.runs[0].stride), a.runs[0].count] + second + rest
  {
    hide PutSvar, PutUvar, PutRuns, PutSpaces, Zigzag, Delta;
    OneGroup(mask, base, a, tag, second + rest);
    assert [a, b][1..] == [b] && [a][1..] == [];
    assert PutGroups(mask, base, [a, b], rest) == PutGroups(mask, base, [a], second + rest);
  }

  lemma LoadBytes()
    ensures PutRecord(NAMES, After(COPY), LOAD, []) == [2, 1, 0, 1, 1, 6, 1, 0, 0, 1, 20, 1, 106, 1, 0, 31]
  {
    hide PutRecord, PutGroups, PutSpaces;
    assert NAMES[1..] == ["LDG"] && Position(NAMES, "LDG") == 1;
    SmallRecord(NAMES, After(COPY), LOAD, 1, []);
    forall s ensures PutSpaces(1, LOAD.groups[0], s) == PutUvar(1, s) {
      TagsOf(s);
    }
    OneGroup(1, 7, LOAD.groups[0], 1, []);
  }

  lemma NameTexts()
    ensures AsciiText("LDG") && AsciiText("LDGSTS")
    ensures Bytes("LDG") == [76, 68, 71] && Bytes("LDGSTS") == [76, 68, 71, 83, 84, 83]
  {
    hide Bytes;
    assert |Bytes("LDG")| == 3 && |Bytes("LDGSTS")| == 6;
  }

  lemma NameBytes(rest: seq<byte>)
    ensures NamesOk(NAMES) && PutOpcodes(NAMES, rest) == [6, 76, 68, 71, 83, 84, 83, 3, 76, 68, 71] + rest
  {
    hide PutUvar, Bytes;
    NameTexts();
    OneByte(3, [76, 68, 71] + rest);
    var last := [3, 76, 68, 71] + rest;
    assert [3] + ([76, 68, 71] + rest) == last;
    OneByte(6, [76, 68, 71, 83, 84, 83] + last);
    var names: seq<string> := ["LDG"];
    assert NAMES[1..] == names && names[1..] == [];
    assert PutOpcodes(names, rest) == last;
    assert [6] + ([76, 68, 71, 83, 84, 83] + last) == [6, 76, 68, 71, 83, 84, 83, 3, 76, 68, 71] + rest;
  }

  lemma LiteralsWellFormed()
    ensures OpcodesOk(NAMES) && AllWellFormed(NAMES, [COPY, LOAD])
  {
    hide And, Or, AndNot;
    OneBit();
    assert Or(0, 0) == 0 && Or(0, 1) == 1 && And(0, 1) == 0 by { ZeroAndOne(); }
    assert [Run(4, 31)][1..] == [] && [Run(-4, 31)][1..] == [] && [Run(0, 31)][1..] == [];
    assert RunTotal([Run(4, 31)]) == RunTotal([Run(-4, 31)]) == RunTotal([Run(0, 31)]) == 31;
    assert NAMES[0] == "LDGSTS" && NAMES[1] == "LDG";
  }

  lemma ZeroAndOne()
    ensures Or(0, 0) == 0 && Or(0, 1) == 1 && And(0, 1) == 0
  {
    assert And(0, 0) == 0;
  }

  /** The magic line, version 3, two opcodes, and every field of the two records in its place. */
  const FILE: seq<byte> :=
    [72, 89, 70, 77, 69, 77, 67, 49, 10] + [3, 2]
    + [6, 76, 68, 71, 83, 84, 83, 3, 76, 68, 71]
    + [1, 4, 6, 0, 1, 10, 2, 6, 7, 8, 9, 1, 20, 1, 8, 31, 3, 5, 1, 7, 31]
    + [2, 1, 0, 1, 1, 6, 1, 0, 0, 1, 20, 1, 106, 1, 0, 31]

  /** These bytes are read as these two records. */
  lemma LiteralFile()
    ensures DecodeFile(FILE) == Ok([COPY, LOAD])
  {
    hide PutRecord, DecodeFile, PutOpcodes, PutUvar, WellFormed;
    LiteralsWellFormed();
    LoadBytes();
    var load := [2, 1, 0, 1, 1, 6, 1, 0, 0, 1, 20, 1, 106, 1, 0, 31];
    var copy := [1, 4, 6, 0, 1, 10, 2, 6, 7, 8, 9, 1, 20, 1, 8, 31, 3, 5, 1, 7, 31];
    var names := [6, 76, 68, 71, 83, 84, 83, 3, 76, 68, 71];
    CopyBytes(load);
    NameBytes(copy + load);
    var ws: seq<Wire> := [COPY, LOAD];
    assert ws[1..] == [LOAD] && ws[1..][1..] == [];
    assert PutRecords(NAMES, After(COPY), ws[1..]) == load;
    assert PutRecords(NAMES, START, ws) == copy + load;
    OneByte(2, names + (copy + load));
    OneByte(3, [2] + (names + (copy + load)));
    FilePieces([72, 89, 70, 77, 69, 77, 67, 49, 10], names, copy, load);
    FileRoundTrip(NAMES, ws);
  }

  lemma FilePieces(magic: seq<byte>, names: seq<byte>, copy: seq<byte>, load: seq<byte>)
    ensures magic + ([3] + ([2] + (names + (copy + load)))) == magic + [3, 2] + names + copy + load
  {
    assert [3] + ([2] + (names + (copy + load))) == [3, 2] + (names + (copy + load));
  }

  /** Seven bits a byte, the low ones first. */
  lemma LiteralVarint(rest: seq<byte>)
    ensures PutUvar(300, rest) == [172, 2] + rest && Uvar([172, 2] + rest) == Ok(Parsed(300, rest))
  {
    hide Uvar;
    OneByte(2, rest);
    UvarRoundTrip(300, rest);
    assert [172] + ([2] + rest) == [172, 2] + rest;
  }
}
