/**
 * app.config: revision r10 indexes the whole file once and keeps the index in a cache; revision r2 scans
 * the file for one kernel. On which files the two agree.
 */
module AppConfig {
  import opened Common
  import opened Sequences
  import opened Arithmetic
  import opened Numerals
  import opened Lines
  import opened IssueMap

  const KERNEL := "-kernel_"

  datatype Property = Property(key: string, value: string)

  /** `str.strip` */
  function Strip(s: string): string
    decreases |s|
  {
    if s == "" then ""
    else if IsSpace(s[0]) then Strip(s[1..])
    else if IsSpace(s[|s| - 1]) then Strip(s[..|s| - 1])
    else s
  }

  // ------------------------------------------------------------ one line, indexed

  /** Stripping takes away white space at both ends, all of it, and nothing else. */
  lemma {:induction false} StripIs(s: string) returns (i: nat, j: nat)
    ensures i <= j <= |s| && Strip(s) == s[i..j]
    ensures (forall k :: 0 <= k < i ==> IsSpace(s[k])) && forall k :: j <= k < |s| ==> IsSpace(s[k])
    ensures i < j ==> !IsSpace(s[i]) && !IsSpace(s[j - 1])
    ensures i == j ==> i == |s|
    decreases |s|
  {
    hide IsSpace;
    i, j := 0, |s|;
    if s != "" && IsSpace(s[0]) {
      i, j := StripIs(s[1..]);
      assert s[1..][i..j] == s[i + 1..j + 1] && forall k :: 0 < k < |s| ==> s[k] == s[1..][k - 1];
      i, j := i + 1, j + 1;
    } else if s != "" && IsSpace(s[|s| - 1]) {
      i, j := StripIs(s[..|s| - 1]);
      assert s[..|s| - 1][i..j] == s[i..j];
    } else {
      assert s[0..|s|] == s;
    }
  }

  /** The line starts with the kernel prefix, a number and an underscore. */
  predicate Numbered(line: string) {
    StartsWith(line, KERNEL) && Closed(line[|KERNEL|..])
  }

  predicate Closed(rest: string) {
    0 < Span(DigitAt, rest) < |rest| && rest[Span(DigitAt, rest)] == '_'
  }

  /** The digits of the kernel number. */
  function Digits(line: string): string
    requires Numbered(line)
  {
    var rest := line[|KERNEL|..];
    rest[..Span(DigitAt, rest)]
  }

  /** What follows the underscore. */
  function Tail(line: string): string
    requires Numbered(line)
  {
    var rest := line[|KERNEL|..];
    rest[Span(DigitAt, rest) + 1..]
  }

  /** Revision r10: the prefix, a number, an underscore, a key without white space, and the rest as the value. */
  function IndexedAt(line: string, kernel: nat): Option<Property> {
    if !Numbered(line) || TokenEnd(Tail(line)) == 0 || DigitsValue(Digits(line), 10) != kernel then None
    else
      var k := TokenEnd(Tail(line));
      Some(Property(Tail(line)[..k], Strip(Tail(line)[k..])))
  }

  // ------------------------------------------------------------- one line, direct

  function Prefix(kernel: nat): string {
    KERNEL + FormatDec(kernel) + "_"
  }

  /** Revision r2: the fixed prefix, then the key up to the first space. */
  function DirectAt(line: string, kernel: nat): Option<Property> {
    if !StartsWith(line, Prefix(kernel)) then None
    else
      var rest := line[|Prefix(kernel)|..];
      var k := FirstIndex(' ', rest);
      Some(Property(rest[..k], if k < |rest| then Strip(rest[k + 1..]) else ""))
  }

  // ------------------------------------------------------------------- agreement

  predicate NoLeadingZero(digits: string) {
    |digits| == 1 || (digits != "" && digits[0] != '0')
  }

  /** The key is not empty, and what ends it is a space or the end of the line. */
  predicate KeyOk(tail: string) {
    var k := TokenEnd(tail);
    k > 0 && (k == |tail| || tail[k] == ' ')
  }

  /**
   * A numbered line must have a number without leading zeros and a key closed by a space or the line's
   * end; failing the first it must have no key at all.
   */
  predicate Regular(line: string) {
    Numbered(line) ==> if NoLeadingZero(Digits(line)) then KeyOk(Tail(line)) else TokenEnd(Tail(line)) == 0
  }

  lemma DigitOf(c: char)
    requires DigitAt(c)
    ensures DigitValue(c) < 10 && DigitChar(DigitValue(c)) == c
  {
  }

  lemma {:induction false} NonZeroLead(n: nat)
    ensures n > 0 ==> FormatNat(n, 10)[0] != '0'
    ensures NoLeadingZero(FormatNat(n, 10))
  {
    if n >= 10 {
      NonZeroLead(n / 10);
    }
  }

  /** Numbers without leading zeros are written back as they were. */
  lemma {:induction false} WrittenBack(s: string)
    requires s != "" && (forall i :: 0 <= i < |s| ==> DigitAt(s[i])) && NoLeadingZero(s)
    ensures FormatNat(DigitsValue(s, 10), 10) == s
    ensures s[0] != '0' ==> DigitsValue(s, 10) > 0
    decreases |s|
  {
    var init, c := s[..|s| - 1], s[|s| - 1];
    DigitOf(c);
    var d := DigitValue(c);
    assert s == init + [c];
    if init == "" {
      assert DigitsValue(init, 10) == 0;
      assert DigitsValue(s, 10) == d;
    } else {
      WrittenBack(init);
      var high := DigitsValue(init, 10);
      assert DigitsValue(s, 10) == high * 10 + d;
      DivUnique(high * 10 + d, 10, high, d);
    }
  }

  /** The fixed prefix matches exactly when the line's number is this one and has no leading zeros. */
  lemma PrefixMatches(line: string, kernel: nat)
    ensures StartsWith(line, Prefix(kernel)) <==>
      Numbered(line) && NoLeadingZero(Digits(line)) && DigitsValue(Digits(line), 10) == kernel
    ensures StartsWith(line, Prefix(kernel)) ==> line[|Prefix(kernel)|..] == Tail(line)
  {
    hide FormatNat, DigitsValue;
    var digits := FormatDec(kernel);
    DecText(kernel);
    NonZeroLead(kernel);
    DigitsOfFormatNat(kernel, 10);
    if StartsWith(line, Prefix(kernel)) {
      PrefixNumbered(line, kernel);
    }
    if Numbered(line) && NoLeadingZero(Digits(line)) && DigitsValue(Digits(line), 10) == kernel {
      WrittenBack(Digits(line));
      assert Digits(line) == digits;
      assert line[..|Prefix(kernel)|] == Prefix(kernel);
    }
  }

  lemma PrefixNumbered(line: string, kernel: nat)
    requires StartsWith(line, Prefix(kernel))
    ensures Numbered(line) && Digits(line) == FormatDec(kernel) && Tail(line) == line[|Prefix(kernel)|..]
  {
    hide FormatDec;
    var digits := FormatDec(kernel);
    DecText(kernel);
    var after := line[|Prefix(kernel)|..];
    assert line == Prefix(kernel) + after;
    assert line[..|KERNEL|] == KERNEL;
    var rest := line[|KERNEL|..];
    assert rest == digits + ("_" + after);
    SpanOf(DigitAt, digits, "_" + after);
    assert rest[..|digits|] == digits && rest[|digits| + 1..] == after;
  }

  lemma StripSpace(s: string)
    requires s != "" && IsSpace(s[0])
    ensures Strip(s) == Strip(s[1..])
  {
  }

  lemma FirstSpace(tail: string)
    ensures FirstIndex(' ', tail) >= TokenEnd(tail)
    ensures TokenEnd(tail) < |tail| && tail[TokenEnd(tail)] == ' ' ==> FirstIndex(' ', tail) == TokenEnd(tail)
    ensures TokenEnd(tail) == |tail| ==> FirstIndex(' ', tail) == |tail|
    ensures TokenEnd(tail) < |tail| && tail[TokenEnd(tail)] != ' ' ==> FirstIndex(' ', tail) > TokenEnd(tail)
  {
    var k := TokenEnd(tail);
    assert forall i :: 0 <= i < k ==> tail[i] == tail[..k][i];
  }

  /** For a number without leading zeros, both readings agree exactly when the key is closed properly. */
  lemma SameProperty(line: string)
    requires Numbered(line) && NoLeadingZero(Digits(line))
    ensures IndexedAt(line, DigitsValue(Digits(line), 10)) == DirectAt(line, DigitsValue(Digits(line), 10))
            <==> KeyOk(Tail(line))
  {
    hide Numbered, Digits, Tail, FirstIndex, TokenEnd, Strip, DigitsValue;
    var kernel, tail := DigitsValue(Digits(line), 10), Tail(line);
    PrefixMatches(line, kernel);
    FirstSpace(tail);
    var k, f := TokenEnd(tail), FirstIndex(' ', tail);
    if k < |tail| {
      StripSpace(tail[k..]);
      assert tail[k..][1..] == tail[k + 1..];
    } else {
      assert tail[k..] == "";
      NothingToStrip();
    }
    if f > k {
      assert |tail[..f]| != |tail[..k]|;
    }
  }

  lemma NothingToStrip()
    ensures Strip("") == ""
  {
  }

  /** One line is read alike for every kernel exactly when it is regular. */
  lemma LineAgreesExactlyWhen(line: string)
    ensures (forall kernel: nat :: IndexedAt(line, kernel) == DirectAt(line, kernel)) <==> Regular(line)
  {
    hide Numbered, Digits, Tail, FirstIndex, TokenEnd, Strip, DigitsValue, StartsWith, NoLeadingZero, Prefix;
    forall kernel: nat
      ensures !Numbered(line) || DigitsValue(Digits(line), 10) != kernel ==>
                IndexedAt(line, kernel) == None == DirectAt(line, kernel)
      ensures Numbered(line) && !NoLeadingZero(Digits(line)) ==> DirectAt(line, kernel) == None
    {
      PrefixMatches(line, kernel);
    }
    if Numbered(line) {
      var own := DigitsValue(Digits(line), 10);
      if NoLeadingZero(Digits(line)) {
        SameProperty(line);
      } else {
        assert DirectAt(line, own) == None;
      }
    }
  }

  /** A number written with a leading zero: the index files the line under kernel 7, the scan for 7 misses it. */
  lemma LeadingZeroIsMissed()
    ensures IndexedAt("-kernel_07_id 1", 7).Some? && DirectAt("-kernel_07_id 1", 7) == None
  {
    hide Strip, FormatDec, DigitsValue;
    var line, rest := "-kernel_07_id 1", "07_id 1";
    assert line == KERNEL + rest && line[|KERNEL|..] == rest && line[..|KERNEL|] == KERNEL;
    LeadingZero(rest);
    TokenEndAt("id", " 1");
    assert "id" + " 1" == "id 1";
    PrefixMatches(line, 7);
  }

  lemma LeadingZero(rest: string)
    requires rest == "07_id 1"
    ensures Closed(rest) && rest[..Span(DigitAt, rest)] == "07" && rest[Span(DigitAt, rest) + 1..] == "id 1"
    ensures DigitsValue("07", 10) == 7
  {
    assert rest == "07" + "_id 1";
    SpanOf(DigitAt, "07", "_id 1");
    DigitsValueAppend("", '0', 10);
    DigitsValueAppend("0", '7', 10);
    assert "" + ['0'] == "0" && "0" + ['7'] == "07";
  }

  // ------------------------------------------------------------------ whole files

  /** A kernel's lines in file order, and the last value of each of its keys. */
  datatype Section = Section(lines: seq<string>, values: map<string, string>)

  const ABSENT := Section([], map[])

  function Add(s: Section, line: string, p: Option<Property>): Section {
    match p
    case None => s
    case Some(property) => Section(s.lines + [line], s.values[property.key := property.value])
  }

  /** Revision r2's scan for one kernel. */
  function Direct(lines: seq<string>, kernel: nat): Section {
    if lines == [] then ABSENT
    else Add(Direct(lines[..|lines| - 1], kernel), lines[|lines| - 1], DirectAt(lines[|lines| - 1], kernel))
  }

  function At(index: map<nat, Section>, kernel: nat): Section {
    if kernel in index then index[kernel] else ABSENT
  }

  /** One line entered into revision r10's index. */
  function Enlist(index: map<nat, Section>, line: string): map<nat, Section> {
    if !Numbered(line) || TokenEnd(Tail(line)) == 0 then index
    else
      var kernel := DigitsValue(Digits(line), 10);
      index[kernel := Add(At(index, kernel), line, IndexedAt(line, kernel))]
  }

  function Index(lines: seq<string>): map<nat, Section> {
    if lines == [] then map[] else Enlist(Index(lines[..|lines| - 1]), lines[|lines| - 1])
  }

  predicate AllRegular(lines: seq<string>) {
    forall i :: 0 <= i < |lines| ==> Regular(lines[i])
  }

  lemma {:induction false} RegularFileAgrees(lines: seq<string>, kernel: nat)
    requires AllRegular(lines)
    ensures At(Index(lines), kernel) == Direct(lines, kernel)
    decreases |lines|
  {
    hide Regular, IndexedAt, DirectAt, Numbered, Digits, Tail, TokenEnd, DigitsValue;
    if lines != [] {
      var init, line := lines[..|lines| - 1], lines[|lines| - 1];
      RegularFileAgrees(init, kernel);
      LineAgreesExactlyWhen(line);
      EnlistAt(Index(init), line, kernel);
    }
  }

  /** A line stands in a kernel's section exactly when it is read as one of that kernel's. */
  lemma {:induction false} LinesOf(lines: seq<string>, kernel: nat, line: string)
    ensures line in At(Index(lines), kernel).lines <==> line in lines && IndexedAt(line, kernel).Some?
    ensures line in Direct(lines, kernel).lines <==> line in lines && DirectAt(line, kernel).Some?
    decreases |lines|
  {
    hide IndexedAt, DirectAt, Numbered, Digits, Tail, TokenEnd, DigitsValue;
    if lines != [] {
      var init, last := lines[..|lines| - 1], lines[|lines| - 1];
      LinesOf(init, kernel, line);
      EnlistAt(Index(init), last, kernel);
      assert lines == init + [last];
    }
  }

  function IsOf(kernel: nat): string -> bool {
    (line: string) => DirectAt(line, kernel).Some?
  }

  /** A kernel's section holds its lines in the order of the file. */
  lemma {:induction false} DirectLines(lines: seq<string>, kernel: nat)
    ensures Direct(lines, kernel).lines == Filter(IsOf(kernel), lines)
    decreases |lines|
  {
    hide DirectAt, Filter;
    if lines == [] {
      FilterNone(IsOf(kernel), lines);
    } else {
      var init, last := lines[..|lines| - 1], lines[|lines| - 1];
      assert lines == init + [last];
      DirectLines(init, kernel);
      FilterAppend(IsOf(kernel), init, [last]);
      FilterOne(IsOf(kernel), last);
      if !IsOf(kernel)(last) {
        assert Filter(IsOf(kernel), lines) == Filter(IsOf(kernel), init) + [] == Filter(IsOf(kernel), init);
      }
    }
  }

  /** ... and for each key the value of the last line that has it. */
  lemma {:induction false} LastValue(lines: seq<string>, kernel: nat, i: nat)
    requires i < |lines| && DirectAt(lines[i], kernel).Some?
    requires forall j :: i < j < |lines| && DirectAt(lines[j], kernel).Some? ==>
               DirectAt(lines[j], kernel).value.key != DirectAt(lines[i], kernel).value.key
    ensures var property := DirectAt(lines[i], kernel).value;
      property.key in Direct(lines, kernel).values && Direct(lines, kernel).values[property.key] == property.value
    decreases |lines|
  {
    hide DirectAt;
    if i < |lines| - 1 {
      var init := lines[..|lines| - 1];
      assert init[i] == lines[i] && forall j :: 0 <= j < |init| ==> init[j] == lines[j];
      LastValue(init, kernel, i);
    }
  }

  /** A key has a value in a kernel's section exactly when some line gives it one. */
  lemma {:induction false} KeysOf(lines: seq<string>, kernel: nat, key: string)
    ensures key in At(Index(lines), kernel).values
       <==> exists i ::
              0 <= i < |lines| && IndexedAt(lines[i], kernel).Some? && IndexedAt(lines[i], kernel).value.key == key
    ensures key in Direct(lines, kernel).values
       <==> exists i ::
              0 <= i < |lines| && DirectAt(lines[i], kernel).Some? && DirectAt(lines[i], kernel).value.key == key
    decreases |lines|
  {
    hide IndexedAt, DirectAt, Numbered, Digits, Tail, TokenEnd, DigitsValue;
    if lines != [] {
      var init, last := lines[..|lines| - 1], lines[|lines| - 1];
      KeysOf(init, kernel, key);
      EnlistAt(Index(init), last, kernel);
      assert forall i :: 0 <= i < |init| ==> init[i] == lines[i];
    }
  }

  /** Keys of the index have no white space in them. */
  lemma IndexedKeyPlain(line: string, kernel: nat)
    requires IndexedAt(line, kernel).Some?
    ensures NoSpace(IndexedAt(line, kernel).value.key)
  {
    hide Numbered, Digits, Tail, DigitsValue, Strip;
  }

  /** What gives an irregular line away: its text, or the white space in its key, shows on one side only. */
  lemma IrregularShows(line: string)
    requires !Regular(line)
    ensures Numbered(line)
    ensures var own := DigitsValue(Digits(line), 10);
      (IndexedAt(line, own).Some? != DirectAt(line, own).Some?)
      || (DirectAt(line, own).Some? && !NoSpace(DirectAt(line, own).value.key))
  {
    hide Digits, Tail, FirstIndex, TokenEnd, Strip, DigitsValue, StartsWith, NoLeadingZero, Prefix;
    var own, tail := DigitsValue(Digits(line), 10), Tail(line);
    PrefixMatches(line, own);
    if NoLeadingZero(Digits(line)) && TokenEnd(tail) > 0 {
      FirstSpace(tail);
      var k, f := TokenEnd(tail), FirstIndex(' ', tail);
      assert f > k && IsSpace(tail[k]);
      assert tail[..f][k] == tail[k];
    }
  }

  lemma IrregularDiffers(lines: seq<string>, i: nat)
    requires i < |lines| && !Regular(lines[i])
    ensures exists kernel: nat :: At(Index(lines), kernel) != Direct(lines, kernel)
  {
    hide IndexedAt, DirectAt, Numbered, Digits, Tail, DigitsValue, Regular, Index, Direct, At;
    var line := lines[i];
    IrregularShows(line);
    var own := DigitsValue(Digits(line), 10);
    LinesOf(lines, own, line);
    if At(Index(lines), own) == Direct(lines, own) {
      var key := DirectAt(line, own).value.key;
      KeysOf(lines, own, key);
      var j :| 0 <= j < |lines| && IndexedAt(lines[j], own).Some? && IndexedAt(lines[j], own).value.key == key;
      IndexedKeyPlain(lines[j], own);
      assert false;
    }
  }

  /** The index holds under every kernel number what the scan for it finds, exactly when all lines are regular. */
  lemma IndexRefinesScan(lines: seq<string>)
    ensures (forall kernel: nat :: At(Index(lines), kernel) == Direct(lines, kernel)) <==> AllRegular(lines)
  {
    hide Index, Direct, At, Regular;
    if AllRegular(lines) {
      forall kernel: nat ensures At(Index(lines), kernel) == Direct(lines, kernel) {
        RegularFileAgrees(lines, kernel);
      }
    } else {
      var i :| 0 <= i < |lines| && !Regular(lines[i]);
      IrregularDiffers(lines, i);
    }
  }

  lemma EnlistAt(index: map<nat, Section>, line: string, kernel: nat)
    ensures At(Enlist(index, line), kernel) == Add(At(index, kernel), line, IndexedAt(line, kernel))
  {
    hide Numbered, Digits, Tail, TokenEnd, DigitsValue, Strip;
  }

  /** The checks both revisions make on what they found. */
  function Checked(s: Section): Result<Section> {
    if s.lines == [] then Err(MissingKey)
    else if Has(s, "kernel_name") && Has(s, "grid_size") && Has(s, "block_size") && Has(s, "llama_phase") then Ok(s)
    else Err(MissingKey)
  }

  /** Some line, and a nonempty value for each of the four fields the tool needs. */
  lemma CheckedExactlyWhen(s: Section)
    ensures Checked(s).Ok?
       <==> s.lines != [] && forall key :: key in ["kernel_name", "grid_size", "block_size", "llama_phase"] ==>
              key in s.values && s.values[key] != ""
    ensures Checked(s).Ok? ==> Checked(s).value == s
  {
    var keys := ["kernel_name", "grid_size", "block_size", "llama_phase"];
    assert keys[0] in keys && keys[1] in keys && keys[2] in keys && keys[3] in keys;
  }

  predicate Has(s: Section, key: string) {
    key in s.values && s.values[key] != ""
  }

  /** `app_kernel_lines` of revision r2 */
  method ScanKernel(lines: seq<string>, kernel: nat) returns (r: Result<Section>)
    ensures r == Checked(Direct(lines, kernel))
  {
    hide DirectAt;
    var s := ABSENT;
    for i := 0 to |lines|
      invariant s == Direct(lines[..i], kernel)
    {
      assert lines[..i + 1][..i] == lines[..i];
      s := Add(s, lines[i], DirectAt(lines[i], kernel));
    }
    assert lines[..|lines|] == lines;
    return Checked(s);
  }

  /** The module-wide cache of revision r10, from a file's identity to its index. */
  class ConfigCache<Key(==, !new)> {
    var indexes: map<Key, map<nat, Section>>

    constructor ()
      ensures indexes == map[]
    {
      indexes := map[];
    }

    /** Every cached index is that of the file it is stored under. */
    ghost predicate Valid(contents: Key -> seq<string>)
      reads this
    {
      forall key :: key in indexes ==> indexes[key] == Index(contents(key))
    }

    /**
     * `app_kernel_lines` of revision r10, for files whose identity determines their content: over any
     * series of queries its sections are those of a scan, for all kernels, exactly when the file is regular.
     */
    method KernelLines(key: Key, lines: seq<string>, kernel: nat, ghost contents: Key -> seq<string>)
      returns (r: Result<Section>)
      requires Valid(contents) && contents(key) == lines
      modifies this
      ensures Valid(contents) && indexes == old(indexes)[key := Index(lines)]
      ensures r == Checked(At(Index(lines), kernel))
      ensures (forall k: nat :: At(indexes[key], k) == Direct(lines, k)) <==> AllRegular(lines)
      ensures AllRegular(lines) ==> r == Checked(Direct(lines, kernel))
    {
      hide Enlist, Direct, Checked, AllRegular, At;
      if key !in indexes {
        var index: map<nat, Section> := map[];
        for i := 0 to |lines|
          invariant index == Index(lines[..i])
          invariant indexes == old(indexes)
        {
          assert lines[..i + 1][..i] == lines[..i];
          index := Enlist(index, lines[i]);
        }
        assert lines[..|lines|] == lines;
        indexes := indexes[key := index];
      }
      IndexRefinesScan(lines);
      return Checked(At(indexes[key], kernel));
    }
  }
}
