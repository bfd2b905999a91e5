/** issue.config: which SM each CTA runs on and when it starts, as text and back. */
module IssueMap {
  import opened Common
  import opened Sequences
  import opened Order
  import opened Numerals
  import opened Classes
  import opened Lines
  import opened Merge
  import opened Generate

  // ------------------------------------------------------- the tuples of a line

  function DigitAt(c: char): bool {
    '0' <= c <= '9'
  }

  function HexOrX(c: char): bool {
    DigitValue(c) < 16 || c == 'x'
  }

  /** Length of the longest prefix in a character class. */
  function Span(p: char -> bool, s: string): (k: nat)
    ensures k <= |s| && (forall i :: 0 <= i < k ==> p(s[i])) && (k < |s| ==> !p(s[k]))
  {
    if s == "" || !p(s[0]) then 0 else 1 + Span(p, s[1..])
  }

  datatype Field = Field(text: string, rest: string)

  /** A nonempty run of the class, closed by `stop`. */
  function TakeField(p: char -> bool, s: string, stop: char): (f: Option<Field>)
    ensures f.Some? ==> |f.value.rest| < |s|
  {
    var k := Span(p, s);
    if 0 < k < |s| && s[k] == stop then Some(Field(s[..k], s[k + 1..])) else None
  }

  datatype Match = Match(kernel: string, block: string, start: string)

  datatype Found = Found(tuple: Match, rest: string)

  /** A match at the front of `s`: two decimal fields and one of hexadecimal digits or x, in parentheses. */
  function MatchAt(s: string): (m: Option<Found>)
    ensures m.Some? ==> |m.value.rest| < |s|
  {
    if s == "" || s[0] != '(' then None
    else match TakeField(DigitAt, s[1..], ',')
         case None => None
         case Some(kernel) =>
           match TakeField(DigitAt, kernel.rest, ',')
           case None => None
           case Some(block) =>
             match TakeField(HexOrX, block.rest, ')')
             case None => None
             case Some(start) => Some(Found(Match(kernel.text, block.text, start.text), start.rest))
  }

  /** All matches of the pattern, from left to right, without overlap. */
  function FindAll(s: string): seq<Match>
    decreases |s|
  {
    if s == "" then []
    else match MatchAt(s)
         case Some(f) => [f.tuple] + FindAll(f.rest)
         case None => FindAll(s[1..])
  }

  // -------------------------------------------------------------------- reading

  /** One matched tuple, entered into the map if it is of the kernel asked for. */
  function Enter(mapping: map<int, Placement>, m: Match, sm: int, kernel: int): Result<map<int, Placement>> {
    var kid :- ParseNat(m.kernel, 10);
    var block :- ParseNat(m.block, 10);
    var start :- ParseHex(m.start);
    if kid != kernel then Ok(mapping)
    else if block in mapping then Err(BadIssueMap)
    else Ok(mapping[block := Placement(sm, start)])
  }

  /**
   * A tuple's turn: its three numbers must be readable; one of another kernel is passed over, a CTA that has a
   * place already is an error, and otherwise the CTA is placed.
   */
  lemma EnterExactlyWhen(mapping: map<int, Placement>, m: Match, sm: int, kernel: int, after: map<int, Placement>)
    ensures Enter(mapping, m, sm, kernel) == Ok(after)
       <==> && ParseNat(m.kernel, 10).Ok? && ParseNat(m.block, 10).Ok? && ParseHex(m.start).Ok?
            && if ParseNat(m.kernel, 10).value != kernel then after == mapping
               else ParseNat(m.block, 10).value !in mapping
                    && after == mapping[ParseNat(m.block, 10).value := Placement(sm, ParseHex(m.start).value)]
  {
    hide ParseNat, ParseHex;
  }

  function EnterAll(mapping: map<int, Placement>, ms: seq<Match>, sm: int, kernel: int): Result<map<int, Placement>> {
    if ms == [] then Ok(mapping)
    else
      var before :- EnterAll(mapping, ms[..|ms| - 1], sm, kernel);
      Enter(before, ms[|ms| - 1], sm, kernel)
  }

  const COUNT_PREFIX := "-trace_issued_sms_num "
  const SM_PREFIX := "-trace_issued_sm_id_"

  predicate StartsWith(s: string, prefix: string) {
    |prefix| <= |s| && s[..|prefix|] == prefix
  }

  lemma PrefixInFirstToken(line: string)
    requires StartsWith(line, SM_PREFIX)
    ensures |SM_PREFIX| <= TokenEnd(line)
  {
    assert NoSpace(SM_PREFIX);
    assert forall i :: 0 <= i < |SM_PREFIX| ==> line[i] == line[..|SM_PREFIX|][i];
  }

  datatype Config = Config(smCount: Option<int>, mapping: map<int, Placement>)

  /** What one line of the file does. */
  function ReadLine(c: Config, line: string, kernel: int): Result<Config> {
    if StartsWith(line, COUNT_PREFIX) then
      var fields := Tokens(line);
      if |fields| < 2 then Err(BadIssueMap)
      else
        var count :- ParseDec(fields[1]);
        Ok(c.(smCount := Some(count)))
    else if !StartsWith(line, SM_PREFIX) then Ok(c)
    else
      PrefixInFirstToken(line);
      var sm :- ParseDec(line[|SM_PREFIX|..TokenEnd(line)]);
      var mapping :- EnterAll(c.mapping, FindAll(line), sm, kernel);
      Ok(c.(mapping := mapping))
  }

  function ReadLines(lines: seq<string>, kernel: int): Result<Config> {
    if lines == [] then Ok(Config(None, map[]))
    else
      var c :- ReadLines(lines[..|lines| - 1], kernel);
      ReadLine(c, lines[|lines| - 1], kernel)
  }

  datatype Issues = Issues(smCount: int, mapping: map<int, Placement>)

  /** Result of `parse_issue_config`. */
  function ReadIssues(lines: seq<string>, kernel: int): Result<Issues> {
    var c :- ReadLines(lines, kernel);
    if c.smCount.Some? && c.smCount.value > 0 then Ok(Issues(c.smCount.value, c.mapping)) else Err(BadIssueMap)
  }

  lemma {:induction false} EnterAllFailsEarly(mapping: map<int, Placement>, ms: seq<Match>, sm: int, kernel: int,
                                              k: nat)
    requires k <= |ms| && EnterAll(mapping, ms[..k], sm, kernel).Err?
    ensures EnterAll(mapping, ms, sm, kernel) == EnterAll(mapping, ms[..k], sm, kernel)
    decreases |ms|
  {
    hide Enter;
    if k < |ms| {
      assert ms[..|ms| - 1][..k] == ms[..k];
      EnterAllFailsEarly(mapping, ms[..|ms| - 1], sm, kernel, k);
    } else {
      assert ms[..k] == ms;
    }
  }

  lemma {:induction false} ReadLinesFailsEarly(lines: seq<string>, kernel: int, k: nat)
    requires k <= |lines| && ReadLines(lines[..k], kernel).Err?
    ensures ReadLines(lines, kernel) == ReadLines(lines[..k], kernel)
    decreases |lines|
  {
    hide ReadLine;
    if k < |lines| {
      assert lines[..|lines| - 1][..k] == lines[..k];
      ReadLinesFailsEarly(lines[..|lines| - 1], kernel, k);
    } else {
      assert lines[..k] == lines;
    }
  }

  /** The tuples of one line, entered one by one. */
  method EnterMatches(before: map<int, Placement>, ms: seq<Match>, sm: int, kernel: int)
    returns (r: Result<map<int, Placement>>)
    ensures r == EnterAll(before, ms, sm, kernel)
  {
    hide Enter;
    var mapping := before;
    for i := 0 to |ms|
      invariant EnterAll(before, ms[..i], sm, kernel) == Ok(mapping)
    {
      assert ms[..i + 1][..i] == ms[..i];
      var next := Enter(mapping, ms[i], sm, kernel);
      if next.Err? {
        EnterAllFailsEarly(before, ms, sm, kernel, i + 1);
        return Err(next.error);
      }
      mapping := next.value;
    }
    assert ms[..|ms|] == ms;
    return Ok(mapping);
  }

  /** `parse_issue_config` */
  method ParseIssueConfig(lines: seq<string>, kernel: int) returns (r: Result<Issues>)
    ensures r == ReadIssues(lines, kernel)
  {
    hide EnterAll, FindAll, Tokens, TokenEnd, ParseDec, StartsWith;
    var c := Config(None, map[]);
    for i := 0 to |lines|
      invariant ReadLines(lines[..i], kernel) == Ok(c)
    {
      assert lines[..i + 1][..i] == lines[..i];
      if ReadLine(c, lines[i], kernel).Err? {
        ReadLinesFailsEarly(lines, kernel, i + 1);
      }
      var line := lines[i];
      if StartsWith(line, COUNT_PREFIX) {
        var fields := Tokens(line);
        if |fields| < 2 {
          return Err(BadIssueMap);
        }
        var count :- ParseDec(fields[1]);
        c := c.(smCount := Some(count));
      } else if StartsWith(line, SM_PREFIX) {
        PrefixInFirstToken(line);
        var sm :- ParseDec(line[|SM_PREFIX|..TokenEnd(line)]);
        var mapping :- EnterMatches(c.mapping, FindAll(line), sm, kernel);
        c := c.(mapping := mapping);
      }
    }
    assert lines[..|lines|] == lines;
    if c.smCount.None? || c.smCount.value <= 0 {
      return Err(BadIssueMap);
    }
    return Ok(Issues(c.smCount.value, c.mapping));
  }

  // -------------------------------------------------------------------- writing

  function TupleText(kernel: nat, block: int, start: int): string {
    "(" + FormatDec(kernel) + "," + FormatDec(block) + "," + FormatHex(start) + ")"
  }

  /** The rows' tuples, each after a comma. */
  function RowsText(kernel: nat, rows: seq<int>, issue: map<int, Placement>): string
    requires forall i :: 0 <= i < |rows| ==> rows[i] in issue
  {
    if rows == [] then ""
    else "," + TupleText(kernel, rows[0], issue[rows[0]].start) + RowsText(kernel, rows[1..], issue)
  }

  function OnSm(issue: map<int, Placement>, sm: int): int -> bool {
    (b: int) => b in issue && issue[b].sm == sm
  }

  function StartKey(issue: map<int, Placement>): int -> seq<int> {
    (b: int) => if b in issue then [issue[b].start, b] else [0, b]
  }

  /** The CTAs of one SM by start time, then by number. */
  function Rows(issue: map<int, Placement>, n: nat, sm: int): (rows: seq<int>)
    ensures forall b :: b in rows <==> 0 <= b < n && b in issue && issue[b].sm == sm
    ensures forall i :: 0 <= i < |rows| ==> rows[i] in issue
    ensures Distinct(rows)
  {
    var on := Filter(OnSm(issue, sm), Range(n));
    RowsAre(issue, n, sm);
    SortBy(StartKey(issue), on)
  }

  lemma RowsAre(issue: map<int, Placement>, n: nat, sm: int)
    ensures var rows := SortBy(StartKey(issue), Filter(OnSm(issue, sm), Range(n)));
      && (forall b :: b in rows <==> 0 <= b < n && b in issue && issue[b].sm == sm)
      && (forall i :: 0 <= i < |rows| ==> rows[i] in issue) && Distinct(rows)
  {
    hide SortBy;
    var on := Filter(OnSm(issue, sm), Range(n));
    var rows := SortBy(StartKey(issue), on);
    FilterMembers(OnSm(issue, sm), Range(n));
    FilterDistinct(OnSm(issue, sm), Range(n));
    SortByPermutes(StartKey(issue), on);
    PermutationDistinct(on, rows);
    forall b ensures b in rows <==> 0 <= b < n && b in issue && issue[b].sm == sm {
      if 0 <= b < n {
        assert Range(n)[b] == b;
      }
    }
    forall i | 0 <= i < |rows| ensures rows[i] in issue {
      assert rows[i] in rows;
    }
  }

  /** Within a row, start times ascend, and equal ones go by CTA number. */
  lemma RowsByStart(issue: map<int, Placement>, n: nat, sm: int, i: nat, j: nat)
    requires i < j < |Rows(issue, n, sm)|
    ensures var (a, b) := (Rows(issue, n, sm)[i], Rows(issue, n, sm)[j]);
      issue[a].start < issue[b].start || (issue[a].start == issue[b].start && a < b)
  {
    hide SortBy, LexLess, Filter;
    var rows := Rows(issue, n, sm);
    SortBySorts(StartKey(issue), Filter(OnSm(issue, sm), Range(n)));
    var a, b := rows[i], rows[j];
    assert LexLeq([issue[a].start, a], [issue[b].start, b]);
    LexStep(issue[b].start, [b], issue[a].start, [a]);
    LexStep(b, [], a, []);
    assert [issue[a].start] + [a] == [issue[a].start, a] && [issue[b].start] + [b] == [issue[b].start, b];
    assert [a] + [] == [a] && [b] + [] == [b];
    LexIrreflexive([]);
  }

  function SmLine(issue: map<int, Placement>, n: nat, kernel: nat, sm: nat): string {
    RowLine(issue, kernel, sm, Rows(issue, n, sm))
  }

  function RowLine(issue: map<int, Placement>, kernel: nat, sm: nat, rows: seq<int>): string
    requires forall i :: 0 <= i < |rows| ==> rows[i] in issue
  {
    SM_PREFIX + FormatDec(sm) + " " + FormatDec(|rows|) + RowsText(kernel, rows, issue)
  }

  function SmLines(issue: map<int, Placement>, n: nat, kernel: nat, count: nat): seq<string> {
    if count == 0 then [] else SmLines(issue, n, kernel, count - 1) + [SmLine(issue, n, kernel, count - 1)]
  }

  function Rule(): (s: string)
    ensures |s| == 84 && forall i :: 0 <= i < |s| ==> s[i] == '#'
  {
    seq(84, _ => '#')
  }

  function Header(smCount: nat): seq<string> {
    [Rule(), "", COUNT_PREFIX + FormatDec(smCount)]
  }

  /** The issue.config that `generate` writes. */
  function IssueText(issue: map<int, Placement>, n: nat, kernel: nat, smCount: nat): seq<string> {
    Header(smCount) + SmLines(issue, n, kernel, smCount)
  }

  /** The CTAs of each SM among the first `b`. */
  ghost predicate BySm(bySm: map<int, seq<int>>, issue: map<int, Placement>, b: nat) {
    forall sm :: (if sm in bySm then bySm[sm] else []) == Filter(OnSm(issue, sm), Range(b))
  }

  lemma BySmStep(bySm: map<int, seq<int>>, issue: map<int, Placement>, b: nat)
    requires BySm(bySm, issue, b) && b in issue
    ensures BySm(bySm[issue[b].sm := (if issue[b].sm in bySm then bySm[issue[b].sm] else []) + [b]], issue, b + 1)
  {
    hide Filter;
    var next := bySm[issue[b].sm := (if issue[b].sm in bySm then bySm[issue[b].sm] else []) + [b]];
    forall sm ensures (if sm in next then next[sm] else []) == Filter(OnSm(issue, sm), Range(b + 1)) {
      FilterRangeStep(OnSm(issue, sm), b);
      assert (if sm in bySm then bySm[sm] else []) == Filter(OnSm(issue, sm), Range(b));
    }
  }

  /** The part of `generate` that regroups the map by SM and writes each SM's row. */
  method WriteIssueConfig(issue: map<int, Placement>, smCount: nat, n: nat, kernel: nat) returns (lines: seq<string>)
    requires issue.Keys == Blocks(n)
    ensures lines == IssueText(issue, n, kernel, smCount)
  {
    hide Filter, SortBy, Blocks, RowLine, BySm, Rows, Header;
    var bySm: map<int, seq<int>> := map[];
    KeysAre(issue, n);
    NoneBySm(issue);
    for b := 0 to n
      invariant BySm(bySm, issue, b)
    {
      BySmStep(bySm, issue, b);
      bySm := bySm[issue[b].sm := (if issue[b].sm in bySm then bySm[issue[b].sm] else []) + [b]];
    }
    lines := Header(smCount);
    for sm := 0 to smCount
      invariant lines == Header(smCount) + SmLines(issue, n, kernel, sm)
    {
      var rows := SortBy(StartKey(issue), if sm in bySm then bySm[sm] else []);
      BySmAt(bySm, issue, n, sm);
      lines := lines + [RowLine(issue, kernel, sm, rows)];
    }
  }

  lemma NoneBySm(issue: map<int, Placement>)
    ensures BySm(map[], issue, 0)
  {
  }

  lemma BySmAt(bySm: map<int, seq<int>>, issue: map<int, Placement>, b: nat, sm: int)
    requires BySm(bySm, issue, b)
    ensures SortBy(StartKey(issue), if sm in bySm then bySm[sm] else []) == Rows(issue, b, sm)
  {
    hide Filter, SortBy;
  }

  // ----------------------------------------------------------------- round trip

  lemma {:induction false} SpanOf(p: char -> bool, a: string, rest: string)
    requires forall i :: 0 <= i < |a| ==> p(a[i])
    requires rest != "" && !p(rest[0])
    ensures Span(p, a + rest) == |a|
  {
    if a == "" {
      assert a + rest == rest;
    } else {
      assert (a + rest)[1..] == a[1..] + rest;
      SpanOf(p, a[1..], rest);
    }
  }

  lemma FieldOf(p: char -> bool, a: string, stop: char, rest: string)
    requires a != "" && (forall i :: 0 <= i < |a| ==> p(a[i])) && !p(stop)
    ensures TakeField(p, a + ([stop] + rest), stop) == Some(Field(a, rest))
  {
    var s := a + ([stop] + rest);
    SpanOf(p, a, [stop] + rest);
    assert s[..|a|] == a && s[|a|] == stop && s[|a| + 1..] == rest;
  }

  lemma DecText(n: nat)
    ensures FormatDec(n) != "" && (forall i :: 0 <= i < |FormatDec(n)| ==> DigitAt(FormatDec(n)[i]))
    ensures ParseNat(FormatDec(n), 10) == Ok(n)
  {
    ParseFormatNat(n, 10);
    var s := FormatDec(n);
    forall i | 0 <= i < |s| ensures DigitAt(s[i]) {
      assert DigitValue(s[i]) < 10;
    }
  }

  lemma HexText(n: nat)
    ensures FormatHex(n) != "" && (forall i :: 0 <= i < |FormatHex(n)| ==> HexOrX(FormatHex(n)[i]))
    ensures ParseHex(FormatHex(n)) == Ok(n)
  {
    ParseFormatHex(n);
  }

  function MatchOf(kernel: nat, issue: map<int, Placement>): int -> Match {
    (b: int) => Match(FormatDec(kernel), FormatDec(b), FormatHex(if b in issue then issue[b].start else 0))
  }

  /** The pattern finds a written tuple, whatever follows it. */
  lemma MatchTuple(kernel: nat, block: nat, start: nat, rest: string)
    ensures MatchAt(TupleText(kernel, block, start) + rest)
         == Some(Found(Match(FormatDec(kernel), FormatDec(block), FormatHex(start)), rest))
  {
    hide FormatDec, FormatHex, TakeField, DigitAt, HexOrX;
    var k, b, t := FormatDec(kernel), FormatDec(block), FormatHex(start);
    DecText(kernel);
    DecText(block);
    HexText(start);
    CommaStops();
    FieldOf(DigitAt, k, ',', b + ([','] + (t + ([')'] + rest))));
    FieldOf(DigitAt, b, ',', t + ([')'] + rest));
    FieldOf(HexOrX, t, ')', rest);
    var s := TupleText(kernel, block, start) + rest;
    assert s == ['('] + (k + ([','] + (b + ([','] + (t + ([')'] + rest))))));
    assert s[1..] == k + ([','] + (b + ([','] + (t + ([')'] + rest)))));
  }

  lemma CommaStops()
    ensures !DigitAt(',') && !HexOrX(')')
  {
  }

  lemma {:induction false} FindSkips(a: string, rest: string)
    requires forall i :: 0 <= i < |a| ==> a[i] != '('
    ensures FindAll(a + rest) == FindAll(rest)
  {
    hide TakeField;
    if a == "" {
      assert a + rest == rest;
    } else {
      assert (a + rest)[1..] == a[1..] + rest;
      assert MatchAt(a + rest) == None;
      FindSkips(a[1..], rest);
    }
  }

  lemma {:induction false} FindRows(kernel: nat, rows: seq<int>, issue: map<int, Placement>)
    requires forall i :: 0 <= i < |rows| ==> rows[i] in issue && rows[i] >= 0 && issue[rows[i]].start >= 0
    ensures FindAll(RowsText(kernel, rows, issue)) == Map(MatchOf(kernel, issue), rows)
  {
    hide TupleText, MatchAt, FindAll, MatchOf;
    if rows == [] {
      assert Map(MatchOf(kernel, issue), rows) == [];
      FindNothing();
    } else {
      var b := rows[0];
      var tuple, tail := TupleText(kernel, b, issue[b].start), RowsText(kernel, rows[1..], issue);
      assert RowsText(kernel, rows, issue) == "," + (tuple + tail);
      FindSkips(",", tuple + tail);
      FindOne(kernel, b, issue, tail);
      FindRows(kernel, rows[1..], issue);
      assert Map(MatchOf(kernel, issue), rows) == [MatchOf(kernel, issue)(b)] + Map(MatchOf(kernel, issue), rows[1..]);
    }
  }

  lemma FindNothing()
    ensures FindAll("") == []
  {
  }

  lemma FindOne(kernel: nat, b: nat, issue: map<int, Placement>, tail: string)
    requires b in issue && issue[b].start >= 0
    ensures FindAll(TupleText(kernel, b, issue[b].start) + tail) == [MatchOf(kernel, issue)(b)] + FindAll(tail)
  {
    hide MatchAt, FormatDec, FormatHex;
    MatchTuple(kernel, b, issue[b].start, tail);
  }

  /** The map after entering some rows. */
  function WithRows(mapping: map<int, Placement>, rows: seq<int>, issue: map<int, Placement>): map<int, Placement>
    requires forall i :: 0 <= i < |rows| ==> rows[i] in issue
  {
    map b | b in mapping.Keys + SetOf(rows) :: if b in rows then issue[b] else mapping[b]
  }

  lemma EnterOne(mapping: map<int, Placement>, kernel: nat, issue: map<int, Placement>, b: int, sm: int, asked: int)
    requires b in issue && b >= 0 && issue[b].start >= 0 && issue[b].sm == sm && b !in mapping
    ensures Enter(mapping, MatchOf(kernel, issue)(b), sm, asked)
         == Ok(if kernel == asked then mapping[b := issue[b]] else mapping)
  {
    hide FormatDec, FormatHex, ParseNat, ParseHex;
    DecText(kernel);
    DecText(b);
    HexText(issue[b].start);
  }

  lemma {:induction false} EnterRows(mapping: map<int, Placement>, kernel: nat, issue: map<int, Placement>,
                                     rows: seq<int>, sm: int, asked: int)
    requires Distinct(rows) && forall i :: 0 <= i < |rows| ==>
               && rows[i] in issue && rows[i] >= 0 && rows[i] !in mapping
               && issue[rows[i]].start >= 0 && issue[rows[i]].sm == sm
    ensures EnterAll(mapping, Map(MatchOf(kernel, issue), rows), sm, asked)
         == Ok(if kernel == asked then WithRows(mapping, rows, issue) else mapping)
    decreases |rows|
  {
    hide MatchOf, Enter;
    if rows == [] {
      assert Map(MatchOf(kernel, issue), rows) == [];
      assert WithRows(mapping, rows, issue) == mapping;
    } else {
      var init, b := rows[..|rows| - 1], rows[|rows| - 1];
      EnterRows(mapping, kernel, issue, init, sm, asked);
      assert rows == init + [b];
      EnterLast(mapping, kernel, issue, init, b, sm, asked);
    }
  }

  lemma EnterLast(mapping: map<int, Placement>, kernel: nat, issue: map<int, Placement>, init: seq<int>, b: int,
                  sm: int, asked: int)
    requires forall i :: 0 <= i < |init| ==> init[i] in issue
    requires b in issue && b >= 0 && issue[b].start >= 0 && issue[b].sm == sm && b !in mapping && b !in init
    requires EnterAll(mapping, Map(MatchOf(kernel, issue), init), sm, asked)
          == Ok(if kernel == asked then WithRows(mapping, init, issue) else mapping)
    ensures EnterAll(mapping, Map(MatchOf(kernel, issue), init + [b]), sm, asked)
         == Ok(if kernel == asked then WithRows(mapping, init + [b], issue) else mapping)
  {
    hide MatchOf, Enter, WithRows;
    var ms := Map(MatchOf(kernel, issue), init + [b]);
    assert ms[..|init|] == Map(MatchOf(kernel, issue), init);
    WithRow(mapping, init, issue, b);
    EnterOne(if kernel == asked then WithRows(mapping, init, issue) else mapping, kernel, issue, b, sm, asked);
  }

  lemma WithRow(mapping: map<int, Placement>, init: seq<int>, issue: map<int, Placement>, b: int)
    requires (forall i :: 0 <= i < |init| ==> init[i] in issue) && b in issue
    ensures WithRows(mapping, init + [b], issue) == WithRows(mapping, init, issue)[b := issue[b]]
    ensures b in WithRows(mapping, init, issue) <==> b in mapping || b in init
  {
  }

  /** The part of the map that lies on the SMs below `count`. */
  function Below(issue: map<int, Placement>, count: int): map<int, Placement> {
    map b | b in issue && issue[b].sm < count :: issue[b]
  }

  lemma BelowEnds(issue: map<int, Placement>, count: int)
    ensures (forall b :: b in issue ==> issue[b].sm >= 0) ==> Below(issue, 0) == map[]
    ensures (forall b :: b in issue ==> issue[b].sm < count) ==> Below(issue, count) == issue
  {
    var none, all := Below(issue, 0), Below(issue, count);
    if forall b :: b in issue ==> issue[b].sm >= 0 {
      assert forall b :: b !in none;
      assert none == map[];
    }
    if forall b :: b in issue ==> issue[b].sm < count {
      assert all.Keys == issue.Keys;
      assert all == issue;
    }
  }

  lemma RowsExtend(issue: map<int, Placement>, n: nat, sm: nat)
    requires issue.Keys == Blocks(n) && forall b :: b in issue ==> issue[b].sm >= 0
    ensures forall i :: 0 <= i < |Rows(issue, n, sm)| ==> Rows(issue, n, sm)[i] !in Below(issue, sm)
    ensures WithRows(Below(issue, sm), Rows(issue, n, sm), issue) == Below(issue, sm + 1)
  {
    hide Blocks, Rows;
    KeysAre(issue, n);
    var rows := Rows(issue, n, sm);
    forall i | 0 <= i < |rows| ensures rows[i] !in Below(issue, sm) {
      assert rows[i] in rows;
    }
  }

  /** The first field of an SM's line is its prefix and its number. */
  lemma SmLineKey(sm: nat, tail: string)
    ensures var line := SM_PREFIX + FormatDec(sm) + " " + tail;
      !StartsWith(line, COUNT_PREFIX) && StartsWith(line, SM_PREFIX)
      && |SM_PREFIX| <= TokenEnd(line) && line[|SM_PREFIX|..TokenEnd(line)] == FormatDec(sm)
  {
    hide FormatDec;
    var key := SM_PREFIX + FormatDec(sm);
    var line := key + " " + tail;
    DecText(sm);
    DigitsPlain(FormatDec(sm));
    assert line == key + (" " + tail);
    assert line[..|SM_PREFIX|] == SM_PREFIX;
    assert NoSpace(SM_PREFIX);
    assert line[16] == '_' && COUNT_PREFIX[16] == 's';
    TokenEndAt(key, " " + tail);
    assert line[|SM_PREFIX|..|key|] == FormatDec(sm);
  }

  /** The tuples found on an SM's line are those of its rows. */
  lemma SmLineTuples(issue: map<int, Placement>, n: nat, kernel: nat, sm: nat)
    requires forall b :: b in issue ==> issue[b].start >= 0
    ensures FindAll(SmLine(issue, n, kernel, sm)) == Map(MatchOf(kernel, issue), Rows(issue, n, sm))
  {
    hide Rows, FindAll, RowsText, FormatDec, MatchOf;
    var rows := Rows(issue, n, sm);
    var before := SM_PREFIX + FormatDec(sm) + " " + FormatDec(|rows|);
    DecText(sm);
    DecText(|rows|);
    DigitsPlain(FormatDec(sm));
    DigitsPlain(FormatDec(|rows|));
    FindSkips(before, RowsText(kernel, rows, issue));
    forall i | 0 <= i < |rows| ensures rows[i] in issue && rows[i] >= 0 && issue[rows[i]].start >= 0 {
      assert rows[i] in rows;
    }
    FindRows(kernel, rows, issue);
  }

  lemma DigitsPlain(s: string)
    requires forall i :: 0 <= i < |s| ==> DigitAt(s[i])
    ensures NoSpace(s) && forall i :: 0 <= i < |s| ==> s[i] != '('
  {
  }

  lemma SmLineIs(issue: map<int, Placement>, n: nat, kernel: nat, sm: nat)
    ensures SmLine(issue, n, kernel, sm) == SM_PREFIX + FormatDec(sm) + " "
         + (FormatDec(|Rows(issue, n, sm)|) + RowsText(kernel, Rows(issue, n, sm), issue))
  {
    hide Rows, RowsText, FormatDec;
  }

  lemma ReadSmLine(issue: map<int, Placement>, n: nat, kernel: nat, sm: nat, c: Config, asked: int)
    requires issue.Keys == Blocks(n) && forall b :: b in issue ==> issue[b].start >= 0 && issue[b].sm >= 0
    requires c.mapping == if kernel == asked then Below(issue, sm) else map[]
    ensures ReadLine(c, SmLine(issue, n, kernel, sm), asked)
         == Ok(c.(mapping := if kernel == asked then Below(issue, sm + 1) else map[]))
  {
    hide Blocks, Rows, RowsText, FindAll, SmLine, TokenEnd, StartsWith, MatchOf, WithRows, EnterAll, FormatDec,
      ParseDec, Below;
    var rows := Rows(issue, n, sm);
    SmLineKey(sm, FormatDec(|rows|) + RowsText(kernel, rows, issue));
    SmLineIs(issue, n, kernel, sm);
    SmLineTuples(issue, n, kernel, sm);
    ParseFormatDec(sm);
    RowsExtend(issue, n, sm);
    forall i | 0 <= i < |rows|
      ensures rows[i] in issue && rows[i] >= 0 && issue[rows[i]].start >= 0 && issue[rows[i]].sm == sm {
      assert rows[i] in rows;
    }
    EnterRows(c.mapping, kernel, issue, rows, sm, asked);
  }

  lemma ReadHeader(smCount: nat, asked: int)
    ensures ReadLines(Header(smCount), asked) == Ok(Config(Some(smCount), map[]))
  {
    hide FormatDec, ParseDec, Tokens, EnterAll, FindAll;
    var header, empty := Header(smCount), Config(None, map[]);
    DecText(smCount);
    DigitsPlain(FormatDec(smCount));
    CountFields(FormatDec(smCount));
    ParseFormatDec(smCount);
    assert header[2][..|COUNT_PREFIX|] == COUNT_PREFIX;
    assert Rule()[0] != '-' && COUNT_PREFIX[0] == '-' && SM_PREFIX[0] == '-';
    assert ReadLine(empty, Rule(), asked) == Ok(empty) && ReadLine(empty, "", asked) == Ok(empty);
    assert header[..2] == [Rule(), ""] && [Rule(), ""][..1] == [Rule()];
    assert ReadLines([Rule()], asked) == Ok(empty);
    assert ReadLines([Rule(), ""], asked) == Ok(empty);
  }

  lemma CountKey(t: string)
    ensures Clean("-trace_issued_sms_num")
    ensures COUNT_PREFIX + t == "-trace_issued_sms_num" + (" " + t)
  {
    assert COUNT_PREFIX == "-trace_issued_sms_num" + " ";
  }

  lemma CountFields(t: string)
    requires Clean(t)
    ensures Tokens(COUNT_PREFIX + t) == ["-trace_issued_sms_num", t]
  {
    hide Tokens, TokenEnd, Clean;
    var key := "-trace_issued_sms_num";
    CountKey(t);
    TokenEndAt(key, " " + t);
    LastToken(t);
    TokenStep(COUNT_PREFIX + t, key, t);
  }

  lemma LastToken(t: string)
    requires Clean(t)
    ensures Tokens(t) == [t]
  {
    assert TokenEnd(t) == |t|;
    assert t[..|t|] == t && t[|t|..] == "";
  }

  lemma {:induction false} ReadSmLines(issue: map<int, Placement>, n: nat, kernel: nat, header: seq<string>,
                                       smCount: nat, count: nat, asked: int)
    requires issue.Keys == Blocks(n) && forall b :: b in issue ==> issue[b].start >= 0 && issue[b].sm >= 0
    requires ReadLines(header, asked) == Ok(Config(Some(smCount), map[]))
    ensures ReadLines(header + SmLines(issue, n, kernel, count), asked)
         == Ok(Config(Some(smCount), if kernel == asked then Below(issue, count) else map[]))
  {
    hide Blocks, ReadLine, SmLine;
    var lines := header + SmLines(issue, n, kernel, count);
    if count == 0 {
      assert lines == header;
      BelowEnds(issue, 0);
    } else {
      ReadSmLines(issue, n, kernel, header, smCount, count - 1, asked);
      var init := header + SmLines(issue, n, kernel, count - 1);
      assert lines[..|lines| - 1] == init && lines[|lines| - 1] == SmLine(issue, n, kernel, count - 1);
      var c := Config(Some(smCount), if kernel == asked then Below(issue, count - 1) else map[]);
      ReadSmLine(issue, n, kernel, count - 1, c, asked);
    }
  }

  /**
   * The issue.config that `generate` writes reads back as the SM count and the map it was written from,
   * and as an empty map for any other kernel.
   */
  lemma IssueRoundTrip(issue: map<int, Placement>, smCount: nat, n: nat, kernel: nat, asked: int)
    requires IssueOk(issue, smCount, n) && forall b :: b in issue ==> issue[b].start >= 0
    ensures ReadIssues(IssueText(issue, n, kernel, smCount), asked)
         == Ok(Issues(smCount, if asked == kernel then issue else map[]))
  {
    hide Blocks, SmLines, ReadLines;
    ReadHeader(smCount, asked);
    ReadSmLines(issue, n, kernel, Header(smCount), smCount, smCount, asked);
    BelowEnds(issue, smCount);
  }
}
