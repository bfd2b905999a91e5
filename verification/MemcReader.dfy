/** `memc_records`: the decoding loops, run over an open file, with their running accumulators. */
module MemcReader {
  import opened Common
  import opened Numerals
  import opened Varint
  import opened Memc

  /** A list read element by element, of which `done` is already there. */
  function Prepend<T>(done: seq<T>, tail: Result<Parsed<seq<T>>>): Result<Parsed<seq<T>>> {
    match tail
    case Ok(p) => Ok(Parsed(done + p.value, p.rest))
    case Err(e) => Err(e)
  }

  lemma PrependOne<T>(done: seq<T>, x: T, tail: Result<Parsed<seq<T>>>)
    ensures Prepend(done, Prepend([x], tail)) == Prepend(done + [x], tail)
  {
    if tail.Ok? {
      assert done + ([x] + tail.value.value) == (done + [x]) + tail.value.value;
    }
  }

  lemma PrependNone<T>(tail: Result<Parsed<seq<T>>>)
    ensures Prepend([], tail) == tail
  {
    if tail.Ok? {
      assert [] + tail.value.value == tail.value.value;
    }
  }

  lemma PrependEnd<T>(done: seq<T>, rest: seq<byte>)
    ensures Prepend(done, Ok(Parsed([], rest))) == Ok(Parsed(done, rest))
  {
    assert done + [] == done;
  }

  lemma RunsStep(s: seq<byte>, count: nat, lanes: nat, done: seq<Run>)
    requires count > 0
    ensures match Svar(s)
            case Err(e) => Prepend(done, DecodeRuns(s, count, lanes)) == Err(e)
            case Ok(stride) =>
              match Uvar(stride.rest)
              case Err(e) => Prepend(done, DecodeRuns(s, count, lanes)) == Err(e)
              case Ok(run) =>
                Prepend(done, DecodeRuns(s, count, lanes)) ==
                if 1 <= run.value <= 31 && lanes + run.value <= 32 then
                  Prepend(done + [Run(stride.value, run.value)], DecodeRuns(run.rest, count - 1, lanes + run.value))
                else Err(BadStridePairs)
  {
    hide Svar, Uvar;
    var stride := Svar(s);
    if stride.Ok? {
      var run := Uvar(stride.value.rest);
      if run.Ok? {
        PrependOne(done, Run(stride.value.value, run.value.value),
                   DecodeRuns(run.value.rest, count - 1, lanes + run.value.value));
      }
    }
  }

  method ReadRuns(stream: ByteStream, count: nat) returns (r: Result<seq<Run>>)
    requires stream.Valid()
    modifies stream
    ensures stream.Valid()
    ensures Reads(r, stream.Rest(), DecodeRuns(old(stream.Rest()), count, 1))
  {
    hide Uvar, Svar, Prepend;
    var pairs, lanes, i := [], 1, 0;
    ghost var whole := DecodeRuns(stream.Rest(), count, 1);
    PrependNone(whole);
    while i < count
      invariant 0 <= i <= count && stream.Valid() && lanes >= 1
      invariant Prepend(pairs, DecodeRuns(stream.Rest(), count - i, lanes)) == whole
    {
      RunsStep(stream.Rest(), count - i, lanes, pairs);
      var stride :- stream.ReadSvar();
      var run :- stream.ReadUvar();
      if !(1 <= run <= 31 && lanes + run <= 32) {
        return Err(BadStridePairs);
      }
      pairs := pairs + [Run(stride, run)];
      lanes := lanes + run;
      i := i + 1;
    }
    PrependEnd(pairs, stream.Rest());
    return Ok(pairs);
  }

  method ReadSpaces(stream: ByteStream, mask: nat) returns (r: Result<WireGroup>)
    requires stream.Valid() && mask < U64
    modifies stream
    ensures stream.Valid()
    ensures Reads(r, stream.Rest(), DecodeSpaces(mask, old(stream.Rest())))
  {
    hide Uvar, SpacesOk;
    var tag :- stream.ReadUvar();
    if tag > 4 {
      return Err(BadSpaceMasks);
    }
    var g: WireGroup;
    if tag == 4 {
      var global :- stream.ReadUvar();
      var local :- stream.ReadUvar();
      var shared :- stream.ReadUvar();
      g := WireGroup(global, local, shared, 0, []);
    } else {
      g := WireGroup(if tag == 1 then mask else 0, if tag == 2 then mask else 0, if tag == 3 then mask else 0, 0, []);
    }
    if !SpacesOk(mask, g) {
      return Err(BadSpaceMasks);
    }
    return Ok(g);
  }

  lemma GroupsStep(mask: nat, base: nat, n: nat, s: seq<byte>, done: seq<WireGroup>)
    requires n > 0 && mask < U64
    ensures match DecodeGroup(mask, base, s)
            case Err(e) => Prepend(done, DecodeGroups(mask, base, n, s)) == Err(e)
            case Ok(g) =>
              Prepend(done, DecodeGroups(mask, base, n, s))
              == Prepend(done + [g.value], DecodeGroups(mask, g.value.base, n - 1, g.rest))
  {
    hide DecodeGroup, WellFormedGroup;
    var g := DecodeGroup(mask, base, s);
    if g.Ok? {
      PrependOne(done, g.value.value, DecodeGroups(mask, g.value.value.base, n - 1, g.value.rest));
    }
  }

  method ReadGroup(stream: ByteStream, mask: nat, base: nat) returns (r: Result<WireGroup>)
    requires stream.Valid() && mask < U64
    modifies stream
    ensures stream.Valid()
    ensures Reads(r, stream.Rest(), DecodeGroup(mask, base, old(stream.Rest())))
  {
    hide Uvar, Svar, DecodeSpaces, DecodeRuns, SpacesOk, Wrap;
    var spaces :- ReadSpaces(stream, mask);
    var delta :- stream.ReadSvar();
    var count :- stream.ReadUvar();
    if !(1 <= count <= 31) {
      return Err(BadStridePairs);
    }
    var runs :- ReadRuns(stream, count);
    if 1 + RunTotal(runs) != 32 {
      return Err(BadStridePairs);
    }
    return Ok(spaces.(base := Wrap(base + delta), runs := runs));
  }

  method ReadGroups(stream: ByteStream, mask: nat, base0: nat, n: nat) returns (r: Result<seq<WireGroup>>)
    requires stream.Valid() && mask < U64
    modifies stream
    ensures stream.Valid()
    ensures Reads(r, stream.Rest(), DecodeGroups(mask, base0, n, old(stream.Rest())))
  {
    hide DecodeGroup, Prepend, WellFormedGroup, GroupsOk;
    var groups, base, i := [], base0, 0;
    ghost var whole := DecodeGroups(mask, base0, n, stream.Rest());
    PrependNone(whole);
    while i < n
      invariant 0 <= i <= n && stream.Valid() && base >= 0
      invariant Prepend(groups, DecodeGroups(mask, base, n - i, stream.Rest())) == whole
    {
      GroupsStep(mask, base, n - i, stream.Rest(), groups);
      var g :- ReadGroup(stream, mask, base);
      groups := groups + [g];
      base := g.base;
      i := i + 1;
    }
    PrependEnd(groups, stream.Rest());
    return Ok(groups);
  }

  method ReadIdentity(stream: ByteStream, opcodes: seq<string>, at: Running) returns (r: Result<Identity>)
    requires stream.Valid()
    modifies stream
    ensures stream.Valid()
    ensures Reads(r, stream.Rest(), DecodeIdentity(opcodes, at, old(stream.Rest())))
  {
    hide Uvar, Svar, Wrap;
    var sequence :- stream.ReadUvar();
    var cta :- stream.ReadSvar();
    var pc :- stream.ReadSvar();
    var id :- stream.ReadUvar();
    var mask :- stream.ReadUvar();
    if !(id < |opcodes| && 0 < mask <= MASK32) {
      return Err(BadRecordField);
    }
    return Ok(Identity(sequence, Wrap(at.cta + cta), Wrap(at.pc + pc), opcodes[id], mask));
  }

  method ReadIssue(stream: ByteStream, id: Identity, at: Running) returns (r: Result<Issue>)
    requires stream.Valid()
    modifies stream
    ensures stream.Valid()
    ensures Reads(r, stream.Rest(), DecodeIssue(id, at, old(stream.Rest())))
  {
    hide Uvar, Svar, Wrap;
    var delta :- stream.ReadSvar();
    var clock := Wrap(at.clock + delta);
    var references :- stream.ReadUvar();
    if !(references == 1 || references == 2) {
      return Err(BadRecordField);
    }
    var sm :- stream.ReadUvar();
    var warp :- stream.ReadUvar();
    var fn :- stream.ReadUvar();
    var full :- stream.ReadUvar();
    if !(id.cta <= MASK32 && id.pc <= MASK32 && clock <= MASK32 && sm <= MASK32 && warp <= MASK32 && 0 < fn <= MASK32) {
      return Err(BadRecordField);
    }
    return Ok(Issue(clock, references, sm, warp, fn, full));
  }

  method ReadRecord(stream: ByteStream, opcodes: seq<string>, at: Running) returns (r: Result<Wire>)
    requires stream.Valid()
    modifies stream
    ensures stream.Valid()
    ensures Reads(r, stream.Rest(), DecodeRecord(opcodes, at, old(stream.Rest())))
  {
    hide DecodeIdentity, DecodeIssue, DecodeGroups, GroupsOk;
    ghost var s := stream.Rest();
    var id :- ReadIdentity(stream, opcodes, at);
    IdentityRange(opcodes, at, s);
    var issue :- ReadIssue(stream, id, at);
    var groups :- ReadGroups(stream, id.mask, at.base, issue.references);
    return Ok(Assemble(id, issue, groups));
  }

  method ReadOpcodes(stream: ByteStream, n: nat) returns (r: Result<seq<string>>)
    requires stream.Valid()
    modifies stream
    ensures stream.Valid()
    ensures Reads(r, stream.Rest(), DecodeOpcodes(old(stream.Rest()), n))
  {
    hide Uvar, NamesOk;
    var opcodes, i := [], 0;
    ghost var whole := DecodeOpcodes(stream.Rest(), n);
    PrependNone(whole);
    while i < n
      invariant 0 <= i <= n && stream.Valid()
      invariant Prepend(opcodes, DecodeOpcodes(stream.Rest(), n - i)) == whole
    {
      var length :- stream.ReadUvar();
      ghost var body := stream.Rest();
      if !(1 <= length <= 4096) {
        return Err(BadOpcodeTable);
      }
      var raw := stream.Read(length);
      if !(|raw| == length && Ascii(raw)) {
        return Err(BadOpcodeTable);
      }
      assert raw == body[..length] && stream.Rest() == body[length..];
      PrependOne(opcodes, Text(raw), DecodeOpcodes(stream.Rest(), n - i - 1));
      opcodes := opcodes + [Text(raw)];
      i := i + 1;
    }
    PrependEnd(opcodes, stream.Rest());
    return Ok(opcodes);
  }

  method ReadHeader(stream: ByteStream) returns (r: Result<seq<string>>)
    requires stream.Valid()
    modifies stream
    ensures stream.Valid()
    ensures Reads(r, stream.Rest(), DecodeHeader(old(stream.Rest())))
  {
    hide Uvar, DecodeOpcodes, NamesOk;
    var magic := stream.Read(9);
    if magic != MAGIC {
      return Err(BadMagic);
    }
    var version :- stream.ReadUvar();
    if version != 3 {
      return Err(BadVersion);
    }
    var count :- stream.ReadUvar();
    if !(1 <= count <= 10000) {
      return Err(BadOpcodeTable);
    }
    r := ReadOpcodes(stream, count);
  }

  lemma DecodeRecordsStep(opcodes: seq<string>, at: Running, s: seq<byte>, done: seq<Wire>)
    requires s != []
    ensures match DecodeRecord(opcodes, at, s)
            case Ok(p) =>
              && p.value.groups != []
              && Append(done, DecodeRecords(opcodes, at, s))
                 == Append(done + [p.value], DecodeRecords(opcodes, After(p.value), p.rest))
            case Err(e) => Append(done, DecodeRecords(opcodes, at, s)) == Err(e)
  {
    hide DecodeRecord;
    match DecodeRecord(opcodes, at, s)
    case Err(_) =>
    case Ok(p) =>
      var tail := DecodeRecords(opcodes, After(p.value), p.rest);
      if tail.Ok? {
        assert done + ([p.value] + tail.value) == (done + [p.value]) + tail.value;
      }
  }

  lemma FileCarries(data: seq<byte>)
    requires DecodeFile(data).Ok?
    ensures var ws := DecodeFile(data).value;
      forall i :: 0 <= i < |ws| ==> Carries(RenderAll(ws)[i], ws[i])
  {
    hide DecodeFile, Carries;
    DecodedWellFormed(data);
    RenderedCarries(DecodeHeader(data).value.value, DecodeFile(data).value);
  }

  /** `memc_records`, exhausted: every record of the file with its tokens, or the first error. */
  method MemcRecords(data: seq<byte>) returns (r: Result<seq<MemcRecord>>)
    ensures DecodeFile(data).Ok? ==> r == Ok(RenderAll(DecodeFile(data).value))
    ensures DecodeFile(data).Err? ==> r == Err(DecodeFile(data).error)
    ensures r.Ok? ==> var ws := DecodeFile(data).value;
              |r.value| == |ws| && forall i :: 0 <= i < |ws| ==> Carries(r.value[i], ws[i])
  {
    hide DecodeRecord, DecodeHeader, WellFormed, Carries;
    if DecodeFile(data).Ok? {
      FileCarries(data);
    }
    var stream := new ByteStream(data);
    var opcodes :- ReadHeader(stream);
    var at, records := START, [];
    ghost var wires: seq<Wire> := [];
    ghost var whole := DecodeRecords(opcodes, START, stream.Rest());
    assert Append(wires, whole) == whole by {
      if whole.Ok? {
        assert [] + whole.value == whole.value;
      }
    }
    while true
      invariant stream.Valid() && fresh(stream)
      invariant records == RenderAll(wires)
      invariant Append(wires, DecodeRecords(opcodes, at, stream.Rest())) == whole
      decreases |stream.Rest()|
    {
      var end := stream.AtEnd();
      if end {
        assert wires + [] == wires;
        return Ok(records);
      }
      DecodeRecordsStep(opcodes, at, stream.Rest(), wires);
      var w :- ReadRecord(stream, opcodes, at);
      records := records + [Render(w)];
      wires := wires + [w];
      at := After(w);
    }
  }
}
