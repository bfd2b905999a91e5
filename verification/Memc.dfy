/**
 * The MEMCv3 capture format. `DecodeFile` is the reader's result as a function of the bytes,
 * `EncodeFile` a specification encoder for the same format. The reader itself is in MemcReader.dfy.
 */
module Memc {
  import opened Common
  import opened Numerals
  import opened Varint
  import opened Bits
  import opened Sequences

  const MASK32: int := 0xFFFF_FFFF

  /** One address group as it stands in the file: three space masks, a base and 31 lane strides. */
  datatype WireGroup = WireGroup(globalMask: nat, localMask: nat, sharedMask: nat, base: nat, runs: seq<Run>)

  datatype Wire = Wire(
    sequence: nat, cta: nat, pc: nat, opcode: string, mask: nat, clock: nat,
    sm: nat, warp: nat, fn: nat, fullClock: nat, groups: seq<WireGroup>)

  /** The running values that later records are coded against. */
  datatype Running = Running(cta: nat, pc: nat, clock: nat, base: nat)

  const START := Running(0, 0, 0, 0)

  // --------------------------------------------------------- well-formed data

  /** Address spaces do not overlap and stay inside the active mask. */
  predicate SpacesOk(mask: nat, g: WireGroup) {
    && AndNot(Or(Or(g.globalMask, g.localMask), g.sharedMask), mask) == 0
    && And(g.globalMask, g.localMask) == 0
    && And(g.globalMask, g.sharedMask) == 0
    && And(g.localMask, g.sharedMask) == 0
  }

  function RunTotal(runs: seq<Run>): nat {
    if runs == [] then 0 else runs[0].count + RunTotal(runs[1..])
  }

  predicate RunsOk(runs: seq<Run>) {
    forall i :: 0 <= i < |runs| ==> 1 <= runs[i].count <= 31 && -I64 <= runs[i].stride < I64
  }

  predicate WellFormedGroup(mask: nat, g: WireGroup) {
    && g.globalMask < U64 && g.localMask < U64 && g.sharedMask < U64 && g.base < U64
    && SpacesOk(mask, g)
    && 1 <= |g.runs| <= 31 && RunsOk(g.runs) && RunTotal(g.runs) == 31
  }

  predicate GroupsOk(mask: nat, groups: seq<WireGroup>) {
    forall i :: 0 <= i < |groups| ==> WellFormedGroup(mask, groups[i])
  }

  predicate WellFormed(opcodes: seq<string>, w: Wire) {
    && w.sequence < U64 && w.cta <= MASK32 && w.pc <= MASK32 && w.clock <= MASK32
    && w.opcode in opcodes
    && 0 < w.mask <= MASK32
    && w.sm <= MASK32 && w.warp <= MASK32 && 0 < w.fn <= MASK32 && w.fullClock < U64
    && 1 <= |w.groups| <= 2
    && GroupsOk(w.mask, w.groups)
  }

  predicate AllWellFormed(opcodes: seq<string>, ws: seq<Wire>) {
    forall i :: 0 <= i < |ws| ==> WellFormed(opcodes, ws[i])
  }

  predicate AsciiText(t: string) {
    forall i :: 0 <= i < |t| ==> t[i] as int < 128
  }

  predicate OpcodeOk(o: string) {
    1 <= |o| <= 4096 && AsciiText(o)
  }

  predicate NamesOk(opcodes: seq<string>) {
    forall i :: 0 <= i < |opcodes| ==> OpcodeOk(opcodes[i])
  }

  predicate OpcodesOk(opcodes: seq<string>) {
    1 <= |opcodes| <= 10000 && NamesOk(opcodes)
  }

  // ------------------------------------------------------------------ decoder

  /** An accumulator plus a signed delta, cut to 64 bits. */
  function Wrap(n: int): nat {
    n % U64
  }

  datatype Identity = Identity(sequence: nat, cta: nat, pc: nat, opcode: string, mask: nat)

  function DecodeIdentity(opcodes: seq<string>, at: Running, s: seq<byte>): (r: Result<Parsed<Identity>>)
    ensures r.Ok? ==> |r.value.rest| < |s|
  {
    var sequence :- Uvar(s);
    var cta :- Svar(sequence.rest);
    var pc :- Svar(cta.rest);
    var id :- Uvar(pc.rest);
    var mask :- Uvar(id.rest);
    var _ :- Need(id.value < |opcodes|);
    var _ :- Need(0 < mask.value <= MASK32);
    Ok(Parsed(
      Identity(sequence.value, Wrap(at.cta + cta.value), Wrap(at.pc + pc.value), opcodes[id.value], mask.value),
      mask.rest))
  }

  function Need(condition: bool): Result<()> {
    if condition then Ok(()) else Err(BadRecordField)
  }

  datatype Issue = Issue(clock: nat, references: nat, sm: nat, warp: nat, fn: nat, fullClock: nat)

  function DecodeIssue(id: Identity, at: Running, s: seq<byte>): (r: Result<Parsed<Issue>>)
    ensures r.Ok? ==> |r.value.rest| <= |s| && 1 <= r.value.value.references <= 2
  {
    var clock :- Svar(s);
    var references :- Uvar(clock.rest);
    var _ :- Need(1 <= references.value <= 2);
    var sm :- Uvar(references.rest);
    var warp :- Uvar(sm.rest);
    var func :- Uvar(warp.rest);
    var full :- Uvar(func.rest);
    var now := Wrap(at.clock + clock.value);
    var _ :- Need(
      && id.cta <= MASK32 && id.pc <= MASK32 && now <= MASK32
      && sm.value <= MASK32 && warp.value <= MASK32 && 0 < func.value <= MASK32);
    Ok(Parsed(Issue(now, references.value, sm.value, warp.value, func.value, full.value), full.rest))
  }

  /** The space masks of one group: spelled out under tag 4, otherwise all or nothing. */
  function DecodeSpaces(mask: nat, s: seq<byte>): (r: Result<Parsed<WireGroup>>)
    requires mask < U64
    ensures r.Ok? ==> |r.value.rest| <= |s| && SpacesOk(mask, r.value.value)
    ensures r.Ok? ==> var g := r.value.value;
                      g.globalMask < U64 && g.localMask < U64 && g.sharedMask < U64 && g.base == 0 && g.runs == []
  {
    var tag :- Uvar(s);
    if tag.value > 4 then Err(BadSpaceMasks)
    else
      var p :- if tag.value == 4 then DecodeMasks(tag.rest) else Ok(Parsed(
        WireGroup(if tag.value == 1 then mask else 0, if tag.value == 2 then mask else 0,
                  if tag.value == 3 then mask else 0, 0, []), tag.rest));
      if SpacesOk(mask, p.value) then Ok(p) else Err(BadSpaceMasks)
  }

  function DecodeMasks(s: seq<byte>): (r: Result<Parsed<WireGroup>>)
    ensures r.Ok? ==> |r.value.rest| <= |s|
    ensures r.Ok? ==> var g := r.value.value;
                      g.globalMask < U64 && g.localMask < U64 && g.sharedMask < U64 && g.base == 0 && g.runs == []
  {
    var global :- Uvar(s);
    var local :- Uvar(global.rest);
    var shared :- Uvar(local.rest);
    Ok(Parsed(WireGroup(global.value, local.value, shared.value, 0, []), shared.rest))
  }

  /** The stride runs from lane number `lanes` on. */
  function DecodeRuns(s: seq<byte>, count: nat, lanes: nat): (r: Result<Parsed<seq<Run>>>)
    ensures r.Ok? ==> |r.value.rest| <= |s| && |r.value.value| == count
  {
    if count == 0 then Ok(Parsed([], s))
    else
      var stride :- Svar(s);
      var run :- Uvar(stride.rest);
      if !(1 <= run.value <= 31 && lanes + run.value <= 32) then Err(BadStridePairs)
      else
        var tail :- DecodeRuns(run.rest, count - 1, lanes + run.value);
        Ok(Parsed([Run(stride.value, run.value)] + tail.value, tail.rest))
  }

  lemma {:induction false} DecodedRunsOk(s: seq<byte>, count: nat, lanes: nat)
    ensures DecodeRuns(s, count, lanes).Ok? ==> RunsOk(DecodeRuns(s, count, lanes).value.value)
    decreases count
  {
    hide Uvar, Svar;
    if count > 0 && DecodeRuns(s, count, lanes).Ok? {
      var run := Uvar(Svar(s).value.rest).value;
      DecodedRunsOk(run.rest, count - 1, lanes + run.value);
    }
  }

  function DecodeGroup(mask: nat, base: nat, s: seq<byte>): (r: Result<Parsed<WireGroup>>)
    requires mask < U64
    ensures r.Ok? ==> |r.value.rest| <= |s| && WellFormedGroup(mask, r.value.value)
  {
    var spaces :- DecodeSpaces(mask, s);
    var delta :- Svar(spaces.rest);
    var count :- Uvar(delta.rest);
    if !(1 <= count.value <= 31) then Err(BadStridePairs)
    else
      var runs :- DecodeRuns(count.rest, count.value, 1);
      DecodedRunsOk(count.rest, count.value, 1);
      if 1 + RunTotal(runs.value) != 32 then Err(BadStridePairs)
      else Ok(Parsed(spaces.value.(base := Wrap(base + delta.value), runs := runs.value), runs.rest))
  }

  lemma NoGroupsOk(mask: nat)
    ensures GroupsOk(mask, [])
  {
  }

  lemma GroupsOkFront(mask: nat, g: WireGroup, groups: seq<WireGroup>)
    requires WellFormedGroup(mask, g) && GroupsOk(mask, groups)
    ensures GroupsOk(mask, [g] + groups)
  {
    hide WellFormedGroup;
  }

  function DecodeGroups(mask: nat, base: nat, n: nat, s: seq<byte>): (r: Result<Parsed<seq<WireGroup>>>)
    requires mask < U64
    ensures r.Ok? ==> |r.value.rest| <= |s| && |r.value.value| == n && GroupsOk(mask, r.value.value)
    decreases n
  {
    hide GroupsOk, WellFormedGroup, DecodeGroup;
    NoGroupsOk(mask);
    if n == 0 then Ok(Parsed([], s))
    else
      var g :- DecodeGroup(mask, base, s);
      var tail :- DecodeGroups(mask, g.value.base, n - 1, g.rest);
      GroupsOkFront(mask, g.value, tail.value);
      Ok(Parsed([g.value] + tail.value, tail.rest))
  }

  function DecodeRecord(opcodes: seq<string>, at: Running, s: seq<byte>): (r: Result<Parsed<Wire>>)
    ensures r.Ok? ==> |r.value.rest| < |s| && WellFormed(opcodes, r.value.value)
  {
    var id :- DecodeIdentity(opcodes, at, s);
    var issue :- DecodeIssue(id.value, at, id.rest);
    IdentityRange(opcodes, at, s);
    var groups :- DecodeGroups(id.value.mask, at.base, issue.value.references, issue.rest);
    IssueRange(id.value, at, id.rest);
    Ok(Parsed(Assemble(id.value, issue.value, groups.value), groups.rest))
  }

  function Assemble(id: Identity, issue: Issue, groups: seq<WireGroup>): Wire {
    Wire(id.sequence, id.cta, id.pc, id.opcode, id.mask, issue.clock,
         issue.sm, issue.warp, issue.fn, issue.fullClock, groups)
  }

  lemma IdentityRange(opcodes: seq<string>, at: Running, s: seq<byte>)
    ensures var r := DecodeIdentity(opcodes, at, s);
            r.Ok? ==> var id := r.value.value;
                      id.sequence < U64 && id.opcode in opcodes && 0 < id.mask <= MASK32
  {
    hide Uvar, Svar, Wrap;
  }

  lemma IssueRange(id: Identity, at: Running, s: seq<byte>)
    ensures var r := DecodeIssue(id, at, s);
            r.Ok? ==> var i := r.value.value;
                      && id.cta <= MASK32 && id.pc <= MASK32 && i.clock <= MASK32
                      && i.sm <= MASK32 && i.warp <= MASK32 && 0 < i.fn <= MASK32 && i.fullClock < U64
  {
    hide Uvar, Svar, Wrap;
  }

  /** The running values after a record: its own, and the base of its last group. */
  function After(w: Wire): Running
    requires w.groups != []
  {
    Running(w.cta, w.pc, w.clock, w.groups[|w.groups| - 1].base)
  }

  /** Records up to the end of the file, which may only fall between two records. */
  function DecodeRecords(opcodes: seq<string>, at: Running, s: seq<byte>): (r: Result<seq<Wire>>)
    ensures r.Ok? ==> AllWellFormed(opcodes, r.value)
    decreases |s|
  {
    hide WellFormed;
    if s == [] then Ok([])
    else
      var w :- DecodeRecord(opcodes, at, s);
      var tail :- DecodeRecords(opcodes, After(w.value), w.rest);
      Ok([w.value] + tail)
  }

  predicate Ascii(s: seq<byte>) {
    forall i :: 0 <= i < |s| ==> s[i] < 128
  }

  function Text(s: seq<byte>): (t: string)
    requires Ascii(s)
    ensures |t| == |s| && forall i :: 0 <= i < |s| ==> t[i] as int == s[i]
  {
    seq(|s|, i requires 0 <= i < |s| => s[i] as char)
  }

  function DecodeOpcodes(s: seq<byte>, n: nat): (r: Result<Parsed<seq<string>>>)
    ensures r.Ok? ==> |r.value.rest| <= |s| && |r.value.value| == n
    ensures r.Ok? ==> NamesOk(r.value.value)
  {
    if n == 0 then Ok(Parsed([], s))
    else
      var length :- Uvar(s);
      var k, body := length.value, length.rest;
      if !(1 <= k <= 4096 && k <= |body| && Ascii(body[..k])) then Err(BadOpcodeTable)
      else
        var tail :- DecodeOpcodes(body[k..], n - 1);
        Ok(Parsed([Text(body[..k])] + tail.value, tail.rest))
  }

  const MAGIC: seq<byte> := [72, 89, 70, 77, 69, 77, 67, 49, 10]

  function DecodeHeader(s: seq<byte>): (r: Result<Parsed<seq<string>>>)
    ensures r.Ok? ==> OpcodesOk(r.value.value)
  {
    if !(|s| >= 9 && s[..9] == MAGIC) then Err(BadMagic)
    else
      var version :- Uvar(s[9..]);
      if version.value != 3 then Err(BadVersion)
      else
        var count :- Uvar(version.rest);
        if !(1 <= count.value <= 10000) then Err(BadOpcodeTable)
        else DecodeOpcodes(count.rest, count.value)
  }

  /** Everything `memc_records` yields for one file. */
  function DecodeFile(s: seq<byte>): (r: Result<seq<Wire>>) {
    var header :- DecodeHeader(s);
    DecodeRecords(header.value, START, header.rest)
  }

  // ------------------------------------------------------------------ encoder

  /** The signed 64-bit delta that carries `prior` to `target` modulo 2^64. */
  function Delta(prior: nat, target: nat): (d: int)
    ensures -I64 <= d < I64
    ensures target < U64 ==> Wrap(prior + d) == target
  {
    var d := (target - prior) % U64;
    DeltaWraps(prior, target);
    if d >= I64 then d - U64 else d
  }

  lemma DeltaWraps(prior: nat, target: nat)
    ensures var d := (target - prior) % U64;
            target < U64 ==> (prior + d) % U64 == target && (prior + (d - U64)) % U64 == target
  {
    var d := (target - prior) % U64;
    var q := (target - prior) / U64;
    assert target - prior == q * U64 + d;
    if target < U64 {
      assert prior + d == target + (-q) * U64;
      assert prior + (d - U64) == target + (-q - 1) * U64;
      ModCancel(target, -q);
      ModCancel(target, -q - 1);
    }
  }

  lemma ModCancel(n: int, k: int)
    requires 0 <= n < U64
    ensures (n + k * U64) % U64 == n
  {
  }

  function Position(opcodes: seq<string>, o: string): (k: nat)
    requires o in opcodes
    ensures k < |opcodes| && opcodes[k] == o
  {
    if opcodes[0] == o then 0 else 1 + Position(opcodes[1..], o)
  }

  function PutRuns(runs: seq<Run>, rest: seq<byte>): seq<byte> {
    if runs == [] then rest
    else PutSvar(runs[0].stride, PutUvar(runs[0].count, PutRuns(runs[1..], rest)))
  }

  function PutSpaces(mask: nat, g: WireGroup, rest: seq<byte>): seq<byte> {
    if g.globalMask == mask && g.localMask == 0 && g.sharedMask == 0 then PutUvar(1, rest)
    else if g.globalMask == 0 && g.localMask == mask && g.sharedMask == 0 then PutUvar(2, rest)
    else if g.globalMask == 0 && g.localMask == 0 && g.sharedMask == mask then PutUvar(3, rest)
    else if g.globalMask == 0 && g.localMask == 0 && g.sharedMask == 0 then PutUvar(0, rest)
    else PutUvar(4, PutUvar(g.globalMask, PutUvar(g.localMask, PutUvar(g.sharedMask, rest))))
  }

  function PutGroups(mask: nat, base: nat, groups: seq<WireGroup>, rest: seq<byte>): seq<byte>
    decreases |groups|
  {
    if groups == [] then rest
    else
      var g := groups[0];
      PutSpaces(mask, g, PutSvar(Delta(base, g.base), PutUvar(|g.runs|, PutRuns(g.runs,
        PutGroups(mask, g.base, groups[1..], rest)))))
  }

  function PutIssue(at: Running, w: Wire, rest: seq<byte>): seq<byte> {
    PutSvar(Delta(at.clock, w.clock), PutUvar(|w.groups|, PutUvar(w.sm, PutUvar(w.warp,
      PutUvar(w.fn, PutUvar(w.fullClock, rest))))))
  }

  function PutRecord(opcodes: seq<string>, at: Running, w: Wire, rest: seq<byte>): (s: seq<byte>)
    requires w.opcode in opcodes
    ensures s != []
  {
    PutUvar(w.sequence, PutSvar(Delta(at.cta, w.cta), PutSvar(Delta(at.pc, w.pc),
      PutUvar(Position(opcodes, w.opcode), PutUvar(w.mask,
        PutIssue(at, w, PutGroups(w.mask, at.base, w.groups, rest)))))))
  }

  function PutRecords(opcodes: seq<string>, at: Running, ws: seq<Wire>): seq<byte>
    requires AllWellFormed(opcodes, ws)
    decreases |ws|
  {
    if ws == [] then []
    else
      PutRecord(opcodes, at, ws[0], PutRecords(opcodes, After(ws[0]), ws[1..]))
  }

  function Bytes(o: string): (s: seq<byte>)
    requires AsciiText(o)
    ensures |s| == |o| && forall i :: 0 <= i < |o| ==> s[i] == o[i] as int
  {
    if o == [] then []
    else
      [o[0] as int] + Bytes(o[1..])
  }

  function PutOpcodes(opcodes: seq<string>, rest: seq<byte>): seq<byte>
    requires NamesOk(opcodes)
  {
    if opcodes == [] then rest
    else
      PutUvar(|opcodes[0]|, Bytes(opcodes[0]) + PutOpcodes(opcodes[1..], rest))
  }

  function EncodeFile(opcodes: seq<string>, ws: seq<Wire>): seq<byte>
    requires OpcodesOk(opcodes) && AllWellFormed(opcodes, ws)
  {
    MAGIC + PutUvar(3, PutUvar(|opcodes|, PutOpcodes(opcodes, PutRecords(opcodes, START, ws))))
  }

  // --------------------------------------------------------------- round trip

  lemma {:induction false} RunsRoundTrip(runs: seq<Run>, lanes: nat, rest: seq<byte>)
    requires RunsOk(runs) && lanes + RunTotal(runs) <= 32
    ensures DecodeRuns(PutRuns(runs, rest), |runs|, lanes) == Ok(Parsed(runs, rest))
  {
    hide Uvar, Svar, PutUvar, PutSvar;
    if runs != [] {
      var tail := PutRuns(runs[1..], rest);
      SvarRoundTrip(runs[0].stride, PutUvar(runs[0].count, tail));
      UvarRoundTrip(runs[0].count, tail);
      RunsRoundTrip(runs[1..], lanes + runs[0].count, rest);
      assert runs == [runs[0]] + runs[1..];
    }
  }

  lemma SpacesRoundTrip(mask: nat, g: WireGroup, rest: seq<byte>)
    requires 0 < mask <= MASK32 && WellFormedGroup(mask, g)
    ensures DecodeSpaces(mask, PutSpaces(mask, g, rest)) == Ok(Parsed(g.(base := 0, runs := []), rest))
  {
    hide Uvar, Svar, PutUvar, PutSvar;
    UvarRoundTrip(0, rest);
    UvarRoundTrip(1, rest);
    UvarRoundTrip(2, rest);
    UvarRoundTrip(3, rest);
    UvarRoundTrip(g.sharedMask, rest);
    var s1 := PutUvar(g.sharedMask, rest);
    UvarRoundTrip(g.localMask, s1);
    var s2 := PutUvar(g.localMask, s1);
    UvarRoundTrip(g.globalMask, s2);
    UvarRoundTrip(4, PutUvar(g.globalMask, s2));
    assert SpacesOk(mask, g.(base := 0, runs := []));
  }

  lemma GroupRoundTrip(mask: nat, base: nat, g: WireGroup, rest: seq<byte>)
    requires 0 < mask <= MASK32 && WellFormedGroup(mask, g)
    ensures DecodeGroup(mask, base,
              PutSpaces(mask, g, PutSvar(Delta(base, g.base), PutUvar(|g.runs|, PutRuns(g.runs, rest)))))
         == Ok(Parsed(g, rest))
  {
    hide Uvar, Svar, PutUvar, PutSvar;
    var runs := PutRuns(g.runs, rest);
    RunsRoundTrip(g.runs, 1, rest);
    UvarRoundTrip(|g.runs|, runs);
    SvarRoundTrip(Delta(base, g.base), PutUvar(|g.runs|, runs));
    SpacesRoundTrip(mask, g, PutSvar(Delta(base, g.base), PutUvar(|g.runs|, runs)));
  }

  lemma DecodeGroupsStep(mask: nat, base: nat, s: seq<byte>, g: WireGroup, tail: seq<byte>, groups: seq<WireGroup>,
                         rest: seq<byte>)
    requires mask < U64 && DecodeGroup(mask, base, s) == Ok(Parsed(g, tail))
    requires DecodeGroups(mask, g.base, |groups|, tail) == Ok(Parsed(groups, rest))
    ensures DecodeGroups(mask, base, |groups| + 1, s) == Ok(Parsed([g] + groups, rest))
  {
    hide DecodeGroup, WellFormedGroup;
  }

  lemma {:induction false} GroupsRoundTrip(mask: nat, base: nat, groups: seq<WireGroup>, rest: seq<byte>)
    requires 0 < mask <= MASK32 && GroupsOk(mask, groups)
    ensures DecodeGroups(mask, base, |groups|, PutGroups(mask, base, groups, rest)) == Ok(Parsed(groups, rest))
    decreases |groups|
  {
    hide Uvar, Svar, PutUvar, PutSvar, DecodeGroup, PutSpaces, PutRuns, WellFormedGroup, Delta;
    if groups != [] {
      var g, tail := groups[0], PutGroups(mask, groups[0].base, groups[1..], rest);
      GroupRoundTrip(mask, base, g, tail);
      GroupsRoundTrip(mask, g.base, groups[1..], rest);
      DecodeGroupsStep(mask, base, PutGroups(mask, base, groups, rest), g, tail, groups[1..], rest);
      assert groups == [g] + groups[1..];
    }
  }

  lemma IssueRoundTrip(opcodes: seq<string>, id: Identity, at: Running, w: Wire, rest: seq<byte>)
    requires WellFormed(opcodes, w) && id.cta == w.cta && id.pc == w.pc
    ensures DecodeIssue(id, at, PutIssue(at, w, rest))
         == Ok(Parsed(Issue(w.clock, |w.groups|, w.sm, w.warp, w.fn, w.fullClock), rest))
  {
    hide Uvar, Svar, PutUvar, PutSvar, Wrap, Delta;
    var s1 := PutUvar(w.fullClock, rest);
    var s2 := PutUvar(w.fn, s1);
    var s3 := PutUvar(w.warp, s2);
    var s4 := PutUvar(w.sm, s3);
    var s5 := PutUvar(|w.groups|, s4);
    UvarRoundTrip(w.fullClock, rest);
    UvarRoundTrip(w.fn, s1);
    UvarRoundTrip(w.warp, s2);
    UvarRoundTrip(w.sm, s3);
    UvarRoundTrip(|w.groups|, s4);
    SvarRoundTrip(Delta(at.clock, w.clock), s5);
  }

  lemma IdentityRoundTrip(opcodes: seq<string>, at: Running, w: Wire, rest: seq<byte>)
    requires WellFormed(opcodes, w) && |opcodes| <= 10000
    ensures DecodeIdentity(opcodes, at,
              PutUvar(w.sequence, PutSvar(Delta(at.cta, w.cta), PutSvar(Delta(at.pc, w.pc),
                PutUvar(Position(opcodes, w.opcode), PutUvar(w.mask, rest))))))
         == Ok(Parsed(Identity(w.sequence, w.cta, w.pc, w.opcode, w.mask), rest))
  {
    hide Uvar, Svar, PutUvar, PutSvar, Wrap, Delta, Position;
    var k := Position(opcodes, w.opcode);
    var s1 := PutUvar(w.mask, rest);
    var s2 := PutUvar(k, s1);
    var s3 := PutSvar(Delta(at.pc, w.pc), s2);
    var s4 := PutSvar(Delta(at.cta, w.cta), s3);
    UvarRoundTrip(w.mask, rest);
    UvarRoundTrip(k, s1);
    SvarRoundTrip(Delta(at.pc, w.pc), s2);
    SvarRoundTrip(Delta(at.cta, w.cta), s3);
    UvarRoundTrip(w.sequence, s4);
  }

  lemma RecordRoundTrip(opcodes: seq<string>, at: Running, w: Wire, rest: seq<byte>)
    requires WellFormed(opcodes, w) && |opcodes| <= 10000
    ensures DecodeRecord(opcodes, at, PutRecord(opcodes, at, w, rest)) == Ok(Parsed(w, rest))
  {
    hide Uvar, Svar, PutUvar, PutSvar;
    var groups := PutGroups(w.mask, at.base, w.groups, rest);
    var id := Identity(w.sequence, w.cta, w.pc, w.opcode, w.mask);
    IdentityRoundTrip(opcodes, at, w, PutIssue(at, w, groups));
    IssueRoundTrip(opcodes, id, at, w, groups);
    GroupsRoundTrip(w.mask, at.base, w.groups, rest);
  }

  lemma {:induction false} RecordsRoundTrip(opcodes: seq<string>, at: Running, ws: seq<Wire>)
    requires |opcodes| <= 10000 && AllWellFormed(opcodes, ws)
    ensures DecodeRecords(opcodes, at, PutRecords(opcodes, at, ws)) == Ok(ws)
    decreases |ws|
  {
    hide PutRecord, DecodeRecord, After;
    if ws != [] {
      var rest := PutRecords(opcodes, After(ws[0]), ws[1..]);
      RecordRoundTrip(opcodes, at, ws[0], rest);
      RecordsRoundTrip(opcodes, After(ws[0]), ws[1..]);
      assert ws == [ws[0]] + ws[1..];
    }
  }

  lemma {:induction false} OpcodesRoundTrip(opcodes: seq<string>, rest: seq<byte>)
    requires NamesOk(opcodes)
    ensures DecodeOpcodes(PutOpcodes(opcodes, rest), |opcodes|) == Ok(Parsed(opcodes, rest))
  {
    hide Uvar, Svar, PutUvar, PutSvar;
    if opcodes != [] {
      var o, tail := opcodes[0], PutOpcodes(opcodes[1..], rest);
      UvarRoundTrip(|o|, Bytes(o) + tail);
      var body := Bytes(o) + tail;
      assert body[..|o|] == Bytes(o) && body[|o|..] == tail;
      assert Text(Bytes(o)) == o;
      OpcodesRoundTrip(opcodes[1..], rest);
      assert opcodes == [o] + opcodes[1..];
    }
  }

  /** Decoding the encoding of any well-formed records gives those records back. */
  lemma FileRoundTrip(opcodes: seq<string>, ws: seq<Wire>)
    requires OpcodesOk(opcodes) && AllWellFormed(opcodes, ws)
    ensures DecodeFile(EncodeFile(opcodes, ws)) == Ok(ws)
  {
    hide Uvar, Svar, PutUvar, PutSvar;
    var records := PutRecords(opcodes, START, ws);
    var table := PutOpcodes(opcodes, records);
    var s := EncodeFile(opcodes, ws);
    assert s[..9] == MAGIC && s[9..] == PutUvar(3, PutUvar(|opcodes|, table));
    UvarRoundTrip(3, PutUvar(|opcodes|, table));
    UvarRoundTrip(|opcodes|, table);
    OpcodesRoundTrip(opcodes, records);
    RecordsRoundTrip(opcodes, START, ws);
  }

  /** Whatever the decoder accepts is well formed over the file's own opcode table. */
  lemma DecodedWellFormed(s: seq<byte>)
    requires DecodeFile(s).Ok?
    ensures DecodeHeader(s).Ok?
    ensures AllWellFormed(DecodeHeader(s).value.value, DecodeFile(s).value)
  {
  }

  /** The spaces are disjoint and stay inside the active mask: lane by lane. */
  lemma SpacesOkIs(mask: nat, g: WireGroup)
    ensures SpacesOk(mask, g)
       <==> forall lane: nat ::
              var (a, b, c) := (Bit(g.globalMask, lane), Bit(g.localMask, lane), Bit(g.sharedMask, lane));
              (a || b || c ==> Bit(mask, lane)) && !(a && b) && !(a && c) && !(b && c)
  {
    hide Bit, And, AndNot, Or;
    NoCommonBit(g.globalMask, g.localMask);
    NoCommonBit(g.globalMask, g.sharedMask);
    NoCommonBit(g.localMask, g.sharedMask);
    NoBitOutside(Or(Or(g.globalMask, g.localMask), g.sharedMask), mask);
    forall lane: nat
      ensures Bit(Or(Or(g.globalMask, g.localMask), g.sharedMask), lane)
         <==> Bit(g.globalMask, lane) || Bit(g.localMask, lane) || Bit(g.sharedMask, lane)
    {
      OrBit(g.globalMask, g.localMask, lane);
      OrBit(Or(g.globalMask, g.localMask), g.sharedMask, lane);
    }
  }

  /** The field ranges of a record, written out: 32-bit fields, 64-bit fields, and one or two groups. */
  lemma WellFormedIs(opcodes: seq<string>, w: Wire)
    ensures WellFormed(opcodes, w)
       <==> && w.sequence < 0x1_0000_0000_0000_0000 && w.fullClock < 0x1_0000_0000_0000_0000
            && w.cta < 0x1_0000_0000 && w.pc < 0x1_0000_0000 && w.clock < 0x1_0000_0000
            && 0 < w.mask < 0x1_0000_0000 && w.sm < 0x1_0000_0000 && w.warp < 0x1_0000_0000
            && 0 < w.fn < 0x1_0000_0000 && w.opcode in opcodes && (|w.groups| == 1 || |w.groups| == 2)
            && forall k :: 0 <= k < |w.groups| ==> GroupInRange(w.mask, w.groups[k])
  {
    hide WellFormedGroup, GroupInRange;
    forall k | 0 <= k < |w.groups|
      ensures WellFormedGroup(w.mask, w.groups[k]) <==> GroupInRange(w.mask, w.groups[k])
    {
      GroupInRangeIs(w.mask, w.groups[k]);
    }
  }

  /** 64-bit masks and base, disjoint spaces, and 1 to 31 runs of 1 to 31 lanes each that make up 31 lanes. */
  ghost predicate GroupInRange(mask: nat, g: WireGroup) {
    && g.base < 0x1_0000_0000_0000_0000 && SpacesOk(mask, g)
    && g.globalMask < 0x1_0000_0000_0000_0000 && g.localMask < 0x1_0000_0000_0000_0000
    && g.sharedMask < 0x1_0000_0000_0000_0000
    && 1 <= |g.runs| <= 31 && Sum((r: Run) => r.count, g.runs) == 31
    && forall k :: 0 <= k < |g.runs| ==>
         1 <= g.runs[k].count <= 31 && -0x8000_0000_0000_0000 <= g.runs[k].stride < 0x8000_0000_0000_0000
  }

  lemma GroupInRangeIs(mask: nat, g: WireGroup)
    ensures WellFormedGroup(mask, g) <==> GroupInRange(mask, g)
  {
    hide SpacesOk;
    RunTotalIs(g.runs);
  }

  lemma {:induction false} RunTotalIs(runs: seq<Run>)
    ensures RunTotal(runs) == Sum((r: Run) => r.count, runs)
  {
    if runs != [] {
      RunTotalIs(runs[1..]);
    }
  }

  // ---------------------------------------------------------------- rendering

  datatype MemcGroup = MemcGroup(
    base: int, pairs: seq<string>, globalMask: nat, localMask: nat, sharedMask: nat, unknownMask: nat)

  /** A decoded record as the rest of the tool sees it: numbers turned into trace tokens. */
  datatype MemcRecord = MemcRecord(
    block: int, pc: string, opcode: string, mask: string, timestamp: int, groups: seq<MemcGroup>,
    sequence: int, sm: nat, warp: nat, fn: nat, relativeClock: nat)

  function Pairs(runs: seq<Run>): (pairs: seq<string>)
    ensures |pairs| == |runs|
    ensures forall i :: 0 <= i < |runs| ==> pairs[i] == FormatStride(runs[i])
  {
    seq(|runs|, i requires 0 <= i < |runs| => FormatStride(runs[i]))
  }

  function Unknown(mask: nat, g: WireGroup): nat {
    AndNot(mask, Or(Or(g.globalMask, g.localMask), g.sharedMask))
  }

  function RenderGroup(mask: nat, g: WireGroup): MemcGroup {
    MemcGroup(g.base, Pairs(g.runs), g.globalMask, g.localMask, g.sharedMask, Unknown(mask, g))
  }

  function Render(w: Wire): MemcRecord {
    MemcRecord(w.cta, FormatHex(w.pc), w.opcode, FormatHex(w.mask), w.fullClock,
               seq(|w.groups|, i requires 0 <= i < |w.groups| => RenderGroup(w.mask, w.groups[i])),
               w.sequence, w.sm, w.warp, w.fn, w.clock)
  }

  function RenderAll(ws: seq<Wire>): (rs: seq<MemcRecord>)
    ensures |rs| == |ws| && forall i :: 0 <= i < |ws| ==> rs[i] == Render(ws[i])
  {
    seq(|ws|, i requires 0 <= i < |ws| => Render(ws[i]))
  }

  /** Each active lane lies in exactly one of the four spaces; an inactive lane in none. */
  lemma SpacesPartitionMask(mask: nat, g: WireGroup, lane: nat)
    requires SpacesOk(mask, g)
    ensures var (a, b, c, d) := (Bit(g.globalMask, lane), Bit(g.localMask, lane), Bit(g.sharedMask, lane),
                                 Bit(Unknown(mask, g), lane));
            && (Bit(mask, lane) <==> a || b || c || d)
            && !(a && b) && !(a && c) && !(a && d) && !(b && c) && !(b && d) && !(c && d)
  {
    var named := Or(Or(g.globalMask, g.localMask), g.sharedMask);
    OrBit(g.globalMask, g.localMask, lane);
    OrBit(Or(g.globalMask, g.localMask), g.sharedMask, lane);
    AndNotBit(named, mask, lane);
    AndNotBit(mask, named, lane);
    AndBit(g.globalMask, g.localMask, lane);
    AndBit(g.globalMask, g.sharedMask, lane);
    AndBit(g.localMask, g.sharedMask, lane);
    ZeroBit(lane);
  }

  /** What an address group of a yielded record holds of the group on the wire. */
  ghost predicate CarriesGroup(x: MemcGroup, mask: nat, g: WireGroup) {
    && x.base == g.base
    && x.globalMask == g.globalMask && x.localMask == g.localMask && x.sharedMask == g.sharedMask
    && (forall lane: nat :: Bit(x.unknownMask, lane) <==>
          Bit(mask, lane) && !Bit(g.globalMask, lane) && !Bit(g.localMask, lane) && !Bit(g.sharedMask, lane))
    && |x.pairs| == |g.runs|
    && forall k :: 0 <= k < |g.runs| ==> ParseStride(x.pairs[k]) == Ok(g.runs[k])
  }

  /** What a yielded record holds of the record on the wire, field by field. */
  ghost predicate Carries(x: MemcRecord, w: Wire) {
    && x.block == w.cta && x.sequence == w.sequence && x.timestamp == w.fullClock && x.opcode == w.opcode
    && x.pc == FormatHex(w.pc) && ParseHex(x.pc) == Ok(w.pc)
    && x.mask == FormatHex(w.mask) && ParseHex(x.mask) == Ok(w.mask)
    && x.sm == w.sm && x.warp == w.warp && x.fn == w.fn && x.relativeClock == w.clock
    && |x.groups| == |w.groups|
    && forall k :: 0 <= k < |w.groups| ==> CarriesGroup(x.groups[k], w.mask, w.groups[k])
  }

  lemma RenderedGroupCarries(mask: nat, g: WireGroup)
    requires RunsOk(g.runs)
    ensures CarriesGroup(RenderGroup(mask, g), mask, g)
  {
    hide Bit, Or, AndNot, ParseStride, FormatStride;
    var named := Or(Or(g.globalMask, g.localMask), g.sharedMask);
    forall lane: nat
      ensures Bit(Unknown(mask, g), lane) <==>
        Bit(mask, lane) && !Bit(g.globalMask, lane) && !Bit(g.localMask, lane) && !Bit(g.sharedMask, lane)
    {
      OrBit(g.globalMask, g.localMask, lane);
      OrBit(Or(g.globalMask, g.localMask), g.sharedMask, lane);
      AndNotBit(mask, named, lane);
    }
    forall k | 0 <= k < |g.runs| ensures ParseStride(Pairs(g.runs)[k]) == Ok(g.runs[k]) {
      ParseFormatStride(g.runs[k]);
    }
  }

  /** Every well-formed record on the wire is yielded with all its fields. */
  lemma RenderedCarries(opcodes: seq<string>, ws: seq<Wire>)
    requires AllWellFormed(opcodes, ws)
    ensures forall i :: 0 <= i < |ws| ==> Carries(RenderAll(ws)[i], ws[i])
  {
    hide FormatHex, ParseHex, CarriesGroup, RenderGroup, WellFormedGroup;
    forall i | 0 <= i < |ws| ensures Carries(Render(ws[i]), ws[i]) {
      ParseFormatHex(ws[i].pc);
      ParseFormatHex(ws[i].mask);
      forall k | 0 <= k < |ws[i].groups|
        ensures CarriesGroup(RenderGroup(ws[i].mask, ws[i].groups[k]), ws[i].mask, ws[i].groups[k])
      {
        RunsOfGroup(ws[i].mask, ws[i].groups[k]);
        RenderedGroupCarries(ws[i].mask, ws[i].groups[k]);
      }
    }
  }

  lemma RunsOfGroup(mask: nat, g: WireGroup)
    requires WellFormedGroup(mask, g)
    ensures RunsOk(g.runs)
  {
  }

  /** What the records of an encoded file hold: the fields they were encoded from. */
  lemma EncodedFileCarries(opcodes: seq<string>, ws: seq<Wire>)
    requires OpcodesOk(opcodes) && AllWellFormed(opcodes, ws)
    ensures var r := DecodeFile(EncodeFile(opcodes, ws));
      r.Ok? && |r.value| == |ws| && forall i :: 0 <= i < |ws| ==> Carries(RenderAll(r.value)[i], ws[i])
  {
    hide DecodeFile, EncodeFile, Carries, OpcodesOk;
    FileRoundTrip(opcodes, ws);
    RenderedCarries(opcodes, ws);
  }
}
