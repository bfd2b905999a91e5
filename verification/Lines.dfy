/** The text lines of a generated trace, and the parser that reads them back. */
module Lines {
  import opened Common
  import opened Numerals
  import opened Lanes
  import opened CoordinateRules
  import opened Template

  // --------------------------------------------------------------- white space

  /** White space, as `str.split` sees it in ASCII text. */
  predicate IsSpace(c: char) {
    9 <= c as int <= 13 || 28 <= c as int <= 32
  }

  predicate NoSpace(t: string) {
    forall i :: 0 <= i < |t| ==> !IsSpace(t[i])
  }

  /** A field that survives being written to a line and split out of it again. */
  predicate Clean(t: string) {
    t != "" && NoSpace(t)
  }

  function TokenEnd(s: string): (k: nat)
    ensures k <= |s| && NoSpace(s[..k]) && (k < |s| ==> IsSpace(s[k]))
  {
    if s == "" || IsSpace(s[0]) then 0
    else
      var k := TokenEnd(s[1..]);
      assert s[..k + 1] == [s[0]] + s[1..][..k];
      k + 1
  }

  /** `str.split()` */
  function Tokens(s: string): (fields: seq<string>)
    ensures forall i :: 0 <= i < |fields| ==> Clean(fields[i])
    decreases |s|
  {
    if s == "" then []
    else if IsSpace(s[0]) then Tokens(s[1..])
    else
      var k := TokenEnd(s);
      [s[..k]] + Tokens(s[k..])
  }

  /** The fields joined by single spaces, then a space and a newline. */
  function Line(fields: seq<string>): string {
    if fields == [] then "\n" else fields[0] + " " + Line(fields[1..])
  }

  lemma {:induction false} TokenEndAt(t: string, rest: string)
    requires NoSpace(t) && rest != "" && IsSpace(rest[0])
    ensures TokenEnd(t + rest) == |t|
  {
    if t != "" {
      assert (t + rest)[1..] == t[1..] + rest;
      TokenEndAt(t[1..], rest);
    } else {
      assert t + rest == rest;
    }
  }

  lemma TokenStep(s: string, key: string, t: string)
    requires Clean(key) && s == key + (" " + t) && TokenEnd(s) == |key|
    ensures Tokens(s) == [key] + Tokens(t)
  {
    assert s[..|key|] == key && s[|key|..] == " " + t;
    assert (" " + t)[1..] == t;
  }

  lemma {:induction false} TokensOfLine(fields: seq<string>)
    requires forall i :: 0 <= i < |fields| ==> Clean(fields[i])
    ensures Tokens(Line(fields)) == fields
  {
    if fields == [] {
      assert Tokens("\n") == Tokens("\n"[1..]);
    } else {
      hide TokenEnd, Tokens;
      var t, rest := fields[0], Line(fields[1..]);
      assert Line(fields) == t + (" " + rest);
      TokenEndAt(t, " " + rest);
      TokenStep(Line(fields), t, rest);
      TokensOfLine(fields[1..]);
      assert fields == [t] + fields[1..];
    }
  }

  // ------------------------------------------------------------------- writing

  /** The fields of the address groups; bases and stride tokens are paired off as far as both go. */
  function GroupFields(bases: seq<int>, pairs: seq<seq<string>>): seq<string> {
    if bases == [] || pairs == [] then []
    else ["0x" + FormatHex(bases[0]), FormatHex(|pairs[0]|)] + pairs[0] + GroupFields(bases[1..], pairs[1..])
  }

  function LineFields(block: int, timestamp: int, e: Entry, bases: seq<int>): seq<string> {
    [FormatHex(block), e.pc, e.opcode, e.mask, FormatHex(timestamp), FormatHex(|e.pairs|)] + GroupFields(bases, e.pairs)
  }

  /** `format_generated_line` */
  function FormatLine(block: int, timestamp: int, e: Entry, dims: Dims): Result<string> {
    var bases :- PredictBases(e.rules, block, dims);
    if exists i :: 0 <= i < |bases| && i < |e.pairs| && bases[i] < 0 then Err(NegativeBase)
    else Ok(Line(LineFields(block, timestamp, e, bases)))
  }

  // ------------------------------------------------------------------- reading

  datatype Taken = Taken(groups: seq<Group>, rest: seq<string>)

  /** One address group at the front of the fields. */
  function ParseGroup(fields: seq<string>): Result<Taken> {
    if |fields| < 2 then Err(MalformedLine)
    else
      var base :- ParseHex(fields[0]);
      var count :- ParseHex(fields[1]);
      if count > |fields| - 2 then Err(MalformedLine)
      else if !StridesReadable(fields[2..2 + count]) then Err(BadNumber)
      else Ok(Taken([Group(base, fields[2..2 + count])], fields[2 + count..]))
  }

  function ParseGroups(fields: seq<string>, count: nat): Result<Taken> {
    if count == 0 then Ok(Taken([], fields))
    else
      var head :- ParseGroup(fields);
      var tail :- ParseGroups(head.rest, count - 1);
      Ok(Taken(head.groups + tail.groups, tail.rest))
  }

  /** Result of `parse_memory_line`. */
  function ParseLine(line: string, sequence: int): Result<Record> {
    var f := Tokens(line);
    if |f| < 8 then Err(MalformedLine)
    else
      var block :- ParseHex(f[0]);
      var timestamp :- ParseHex(f[4]);
      var count :- ParseHex(f[5]);
      var taken :- ParseGroups(f[6..], count);
      if taken.rest != [] then Err(MalformedLine)
      else Ok(Record(block, f[1], f[2], f[3], timestamp, taken.groups, sequence))
  }

  /** The fields begin with an address group: base, number of stride tokens and the tokens. */
  predicate SpellsOne(fields: seq<string>, g: Group) {
    var n := |g.pairs|;
    && |fields| >= 2 + n
    && ParseHex(fields[0]) == Ok(g.base) && ParseHex(fields[1]) == Ok(n)
    && fields[2..2 + n] == g.pairs && StridesReadable(g.pairs)
  }

  /** The fields spell these groups, one after the other. */
  ghost predicate Spells(fields: seq<string>, groups: seq<Group>)
    decreases |groups|
  {
    if groups == [] then fields == []
    else SpellsOne(fields, groups[0]) && Spells(fields[2 + |groups[0].pairs|..], groups[1..])
  }

  lemma GroupSpelt(fields: seq<string>, g: Group)
    ensures SpellsOne(fields, g) ==>
              2 + |g.pairs| <= |fields| && ParseGroup(fields) == Ok(Taken([g], fields[2 + |g.pairs|..]))
    ensures ParseGroup(fields).Ok? && ParseGroup(fields).value.groups == [g] ==> SpellsOne(fields, g)
  {
    hide ParseHex, StridesReadable;
  }

  lemma OneGroup(fields: seq<string>)
    ensures ParseGroup(fields).Ok? ==> |ParseGroup(fields).value.groups| == 1
  {
    hide ParseHex, StridesReadable;
  }

  lemma {:induction false} SpeltIsRead(fields: seq<string>, groups: seq<Group>)
    requires Spells(fields, groups)
    ensures ParseGroups(fields, |groups|) == Ok(Taken(groups, []))
    decreases |groups|
  {
    hide ParseGroup, SpellsOne;
    if groups != [] {
      GroupSpelt(fields, groups[0]);
      SpeltIsRead(fields[2 + |groups[0].pairs|..], groups[1..]);
      assert groups == [groups[0]] + groups[1..];
    }
  }

  lemma {:induction false} ReadIsSpelt(fields: seq<string>, count: nat)
    requires ParseGroups(fields, count).Ok? && ParseGroups(fields, count).value.rest == []
    ensures |ParseGroups(fields, count).value.groups| == count
    ensures Spells(fields, ParseGroups(fields, count).value.groups)
    decreases count
  {
    hide ParseGroup, SpellsOne;
    if count > 0 {
      var head := ParseGroup(fields).value;
      OneGroup(fields);
      GroupSpelt(fields, head.groups[0]);
      assert head.groups == [head.groups[0]];
      ReadIsSpelt(head.rest, count - 1);
      var tail := ParseGroups(head.rest, count - 1).value;
      assert (head.groups + tail.groups)[1..] == tail.groups;
    }
  }

  /**
   * Exactly which lines are read, and as what: at least eight fields; block, time and number of groups in
   * hexadecimal; pc, opcode and mask as they stand; and the groups, with nothing left over.
   */
  lemma LineReadsExactlyWhen(line: string, sequence: int, r: Record)
    ensures ParseLine(line, sequence) == Ok(r)
       <==> var f := Tokens(line);
            && |f| >= 8 && r.sequence == sequence
            && ParseHex(f[0]) == Ok(r.block) && f[1] == r.pc && f[2] == r.opcode && f[3] == r.mask
            && ParseHex(f[4]) == Ok(r.timestamp) && ParseHex(f[5]) == Ok(|r.groups|) && Spells(f[6..], r.groups)
  {
    hide Tokens, ParseHex, ParseGroups, Spells;
    var f := Tokens(line);
    if |f| >= 8 && ParseHex(f[5]).Ok? {
      var taken := ParseGroups(f[6..], ParseHex(f[5]).value);
      if taken.Ok? && taken.value.rest == [] {
        ReadIsSpelt(f[6..], ParseHex(f[5]).value);
      }
      if Spells(f[6..], r.groups) {
        SpeltIsRead(f[6..], r.groups);
      }
    }
  }

  /** Groups read so far, followed by what the rest of the fields yields. */
  function Onward(done: seq<Group>, tail: Result<Taken>): Result<Taken> {
    match tail
    case Ok(t) => Ok(Taken(done + t.groups, t.rest))
    case Err(e) => Err(e)
  }

  lemma GroupsStep(done: seq<Group>, fields: seq<string>, count: nat)
    requires count > 0
    ensures Onward(done, ParseGroups(fields, count))
         == match ParseGroup(fields)
            case Err(e) => Err(e)
            case Ok(head) => Onward(done + head.groups, ParseGroups(head.rest, count - 1))
  {
    hide ParseGroup;
    var head := ParseGroup(fields);
    if head.Ok? {
      var tail := ParseGroups(head.value.rest, count - 1);
      if tail.Ok? {
        assert done + (head.value.groups + tail.value.groups) == (done + head.value.groups) + tail.value.groups;
      }
    }
  }

  /** One turn of the loop over address groups, reading at `cursor`. */
  method ReadGroup(fields: seq<string>, cursor0: nat) returns (r: Result<Group>, cursor: nat)
    requires cursor0 <= |fields|
    ensures cursor0 <= cursor <= |fields|
    ensures r.Ok? ==> ParseGroup(fields[cursor0..]) == Ok(Taken([r.value], fields[cursor..]))
    ensures r.Err? ==> ParseGroup(fields[cursor0..]) == Err(r.error)
  {
    hide ParseHex, ParseStride;
    cursor := cursor0;
    ghost var rest := fields[cursor0..];
    if cursor + 1 >= |fields| {
      return Err(MalformedLine), cursor;
    }
    assert rest[0] == fields[cursor0] && rest[1] == fields[cursor0 + 1];
    var base := ParseHex(fields[cursor]);
    if base.Err? {
      return Err(base.error), cursor;
    }
    cursor := cursor + 1;
    var count := ParseHex(fields[cursor]);
    if count.Err? {
      return Err(count.error), cursor;
    }
    cursor := cursor + 1;
    if cursor + count.value > |fields| {
      return Err(MalformedLine), cursor;
    }
    var pairs := fields[cursor..cursor + count.value];
    assert rest[2..2 + count.value] == pairs && rest[2 + count.value..] == fields[cursor + count.value..];
    cursor := cursor + count.value;
    for i := 0 to |pairs|
      invariant forall k :: 0 <= k < i ==> ParseStride(pairs[k]).Ok?
    {
      if ParseStride(pairs[i]).Err? {
        assert !StridesReadable(rest[2..2 + count.value]);
        return Err(BadNumber), cursor;
      }
    }
    return Ok(Group(base.value, pairs)), cursor;
  }

  /** `parse_memory_line` */
  method ParseMemoryLine(line: string, sequence: int) returns (r: Result<Record>)
    ensures r == ParseLine(line, sequence)
  {
    hide Tokens, ParseHex, ParseGroup, Onward;
    var fields := Tokens(line);
    if |fields| < 8 {
      return Err(MalformedLine);
    }
    var block :- ParseHex(fields[0]);
    var timestamp :- ParseHex(fields[4]);
    var count :- ParseHex(fields[5]);
    var cursor, groups := 6, [];
    ghost var whole := ParseGroups(fields[6..], count);
    OnwardEnds(groups, whole);
    for i := 0 to count
      invariant 6 <= cursor <= |fields|
      invariant Onward(groups, ParseGroups(fields[cursor..], count - i)) == whole
    {
      GroupsStep(groups, fields[cursor..], count - i);
      var group, next := ReadGroup(fields, cursor);
      if group.Err? {
        return Err(group.error);
      }
      cursor := next;
      groups := groups + [group.value];
    }
    OnwardEnds(groups, Ok(Taken([], fields[cursor..])));
    if cursor != |fields| {
      assert fields[cursor..] != [];
      return Err(MalformedLine);
    }
    return Ok(Record(block, fields[1], fields[2], fields[3], timestamp, groups, sequence));
  }

  lemma OnwardEnds(done: seq<Group>, tail: Result<Taken>)
    ensures Onward([], tail) == tail
    ensures tail.Ok? && tail.value.groups == [] ==> Onward(done, tail) == Ok(Taken(done, tail.value.rest))
  {
    if tail.Ok? {
      assert [] + tail.value.groups == tail.value.groups;
      assert done + [] == done;
    }
  }

  // --------------------------------------------------------------- round trip

  function GroupsFrom(bases: seq<int>, pairs: seq<seq<string>>): (g: seq<Group>)
    requires |bases| == |pairs|
    ensures |g| == |bases| && forall i :: 0 <= i < |g| ==> g[i] == Group(bases[i], pairs[i])
  {
    seq(|bases|, i requires 0 <= i < |bases| => Group(bases[i], pairs[i]))
  }

  predicate PairsReadable(pairs: seq<seq<string>>) {
    forall i :: 0 <= i < |pairs| ==> StridesReadable(pairs[i])
  }

  predicate NonNegative(bases: seq<int>) {
    forall i :: 0 <= i < |bases| ==> bases[i] >= 0
  }

  lemma GroupRoundTrip(base: nat, pairs: seq<string>, rest: seq<string>)
    requires StridesReadable(pairs)
    ensures ParseGroup(["0x" + FormatHex(base), FormatHex(|pairs|)] + pairs + rest)
         == Ok(Taken([Group(base, pairs)], rest))
  {
    hide ParseHex, FormatHex, StridesReadable;
    var fields, n := ["0x" + FormatHex(base), FormatHex(|pairs|)] + pairs + rest, |pairs|;
    assert fields[0] == "0x" + FormatHex(base) && fields[1] == FormatHex(n);
    assert fields[2..2 + n] == pairs && fields[2 + n..] == rest;
    ParseFormatHex(base);
    ParseFormatHex(n);
  }

  lemma {:induction false} GroupsRoundTrip(bases: seq<int>, pairs: seq<seq<string>>)
    requires |bases| == |pairs| && NonNegative(bases) && PairsReadable(pairs)
    ensures ParseGroups(GroupFields(bases, pairs), |bases|) == Ok(Taken(GroupsFrom(bases, pairs), []))
  {
    hide FormatHex, ParseGroup, StridesReadable;
    if bases == [] {
      assert GroupsFrom(bases, pairs) == [];
    } else {
      GroupRoundTrip(bases[0], pairs[0], GroupFields(bases[1..], pairs[1..]));
      GroupsRoundTrip(bases[1..], pairs[1..]);
      assert GroupsFrom(bases, pairs) == [Group(bases[0], pairs[0])] + GroupsFrom(bases[1..], pairs[1..]);
    }
  }

  lemma HexClean(n: nat)
    ensures Clean(FormatHex(n)) && Clean("0x" + FormatHex(n))
  {
    var s := FormatHex(n);
    forall i | 0 <= i < |s| ensures !IsSpace(s[i]) {
      assert DigitValue(s[i]) < 16;
    }
  }

  lemma StrideClean(token: string)
    requires ParseStride(token).Ok?
    ensures Clean(token)
  {
    hide ParseStride;
    StrideTokenChars(token);
    forall i | 0 <= i < |token| ensures !IsSpace(token[i]) {
      assert DecChar(token[i]) || token[i] == ':';
    }
  }

  predicate AllClean(fields: seq<string>) {
    forall i :: 0 <= i < |fields| ==> Clean(fields[i])
  }

  lemma {:induction false} GroupFieldsClean(bases: seq<int>, pairs: seq<seq<string>>)
    requires |bases| == |pairs| && NonNegative(bases) && PairsReadable(pairs)
    ensures AllClean(GroupFields(bases, pairs)) && |GroupFields(bases, pairs)| >= 2 * |bases|
  {
    hide ParseStride, FormatHex, Clean;
    if bases != [] {
      GroupFieldsClean(bases[1..], pairs[1..]);
      HexClean(bases[0]);
      HexClean(|pairs[0]|);
      forall i | 0 <= i < |pairs[0]| ensures Clean(pairs[0][i]) {
        StrideClean(pairs[0][i]);
      }
    }
  }

  /** The record a generated line stands for. */
  function RecordFor(block: int, timestamp: int, e: Entry, bases: seq<int>, sequence: int): Record
    requires |bases| == |e.pairs|
  {
    Record(block, e.pc, e.opcode, e.mask, timestamp, GroupsFrom(bases, e.pairs), sequence)
  }

  lemma ParseFields(line: string, f: seq<string>, sequence: int, block: nat, timestamp: nat, groups: seq<Group>)
    requires Tokens(line) == f && |f| >= 8
    requires ParseHex(f[0]) == Ok(block) && ParseHex(f[4]) == Ok(timestamp) && ParseHex(f[5]) == Ok(|groups|)
    requires ParseGroups(f[6..], |groups|) == Ok(Taken(groups, []))
    ensures ParseLine(line, sequence) == Ok(Record(block, f[1], f[2], f[3], timestamp, groups, sequence))
  {
    hide Tokens, ParseHex, ParseGroups;
  }

  lemma LineParses(block: nat, timestamp: nat, e: Entry, bases: seq<int>, sequence: int)
    requires |bases| == |e.pairs| > 0 && NonNegative(bases) && PairsReadable(e.pairs)
    requires Clean(e.pc) && Clean(e.opcode) && Clean(e.mask)
    ensures ParseLine(Line(LineFields(block, timestamp, e, bases)), sequence)
         == Ok(RecordFor(block, timestamp, e, bases, sequence))
  {
    hide Tokens, Line, Clean, ParseHex, FormatHex, ParseGroups, GroupFields, PairsReadable;
    var f := LineFields(block, timestamp, e, bases);
    GroupFieldsClean(bases, e.pairs);
    HexClean(block);
    HexClean(timestamp);
    HexClean(|e.pairs|);
    TokensOfLine(f);
    ParseFormatHex(block);
    ParseFormatHex(timestamp);
    ParseFormatHex(|e.pairs|);
    GroupsRoundTrip(bases, e.pairs);
    assert f[6..] == GroupFields(bases, e.pairs);
    ParseFields(Line(f), f, sequence, block, timestamp, GroupsFrom(bases, e.pairs));
  }

  lemma {:induction false} ParsedFieldsClean(line: string, sequence: int)
    requires ParseLine(line, sequence).Ok?
    ensures Clean(ParseLine(line, sequence).value.pc) && Clean(ParseLine(line, sequence).value.opcode)
    ensures Clean(ParseLine(line, sequence).value.mask)
  {
    hide ParseHex, ParseGroups;
  }

  /**
   * A generated line reads back as the block, the fields, the time, the predicted bases and the stride
   * tokens it was written from, exactly when its three verbatim fields are nonempty and free of white space.
   */
  lemma LineRoundTrip(block: nat, timestamp: nat, e: Entry, dims: Dims, line: string, sequence: int)
    requires |e.rules| == |e.pairs| > 0 && PairsReadable(e.pairs) && FormatLine(block, timestamp, e, dims) == Ok(line)
    ensures PredictBases(e.rules, block, dims).Ok?
    ensures ParseLine(line, sequence)
            == Ok(RecordFor(block, timestamp, e, PredictBases(e.rules, block, dims).value, sequence))
       <==> Clean(e.pc) && Clean(e.opcode) && Clean(e.mask)
  {
    hide Tokens, Line, Clean, ParseHex, FormatHex, ParseGroups, GroupFields, PairsReadable, LineFields, ParseLine,
      PredictBases;
    var bases := PredictBases(e.rules, block, dims).value;
    if Clean(e.pc) && Clean(e.opcode) && Clean(e.mask) {
      LineParses(block, timestamp, e, bases, sequence);
    }
    if ParseLine(line, sequence).Ok? {
      ParsedFieldsClean(line, sequence);
    }
  }
}
