/** The file formats on literal files: what is written for given values, character by character. */
module LiteralFiles {
  import opened Common
  import opened Sequences
  import opened Order
  import opened Numerals
  import opened Lanes
  import opened CoordinateRules
  import opened Template
  import opened Classes
  import opened Generate
  import opened Lines
  import opened IssueMap
  import opened Audit
  import opened EventCode

  /** White space in ASCII text: tab to carriage return, the four separators, and the space. */
  lemma LiteralSpaces(c: char)
    ensures IsSpace(c) <==> c as int in {9, 10, 11, 12, 13, 28, 29, 30, 31, 32}
  {
  }

  // -------------------------------------------------------------------- numbers

  lemma HexDigits(n: nat)
    requires n < 16
    ensures FormatHex(n) == [LOWER[n]] && FormatDec(n) == if n < 10 then [LOWER[n]] else FormatNat(n, 10)
  {
    FormatNatStep(n, 16);
    FormatNatStep(n, 10);
  }

  /** Hexadecimal is written in lower case without leading zeros, decimal with a sign only if negative. */
  lemma LiteralNumbers()
    ensures FormatHex(500) == "1f4" && FormatHex(31) == "1f" && FormatHex(264) == "108"
    ensures FormatDec(31) == "31" && FormatDec(-4) == "-4"
    ensures FormatStride(Run(4, 31)) == "4:31"
  {
    FormatNatStep(1, 16);
    FormatNatStep(31, 16);
    FormatNatStep(500, 16);
    FormatNatStep(16, 16);
    FormatNatStep(264, 16);
    FormatNatStep(3, 10);
    FormatNatStep(31, 10);
    FormatNatStep(4, 10);
    assert "1" + "f" == "1f" && "1f" + "4" == "1f4" && "1" + "0" == "10" && "10" + "8" == "108" && "3" + "1" == "31";
    assert "-" + "4" == "-4" && "4" + ":" + "31" == "4:31";
  }

  /** Reading takes either case and an optional prefix in hexadecimal. */
  lemma LiteralHex()
    ensures ParseHex("1F") == Ok(31) && ParseHex("0X1f") == Ok(31) && ParseHex("0xfF") == Ok(255)
    ensures ParseHex("") == Err(BadNumber) && ParseHex("0x") == Err(BadNumber) && ParseHex("g") == Err(BadNumber)
  {
    hide DigitsValue;
    TwoDigits('1', 'F', 16);
    TwoDigits('1', 'f', 16);
    TwoDigits('f', 'F', 16);
    assert "1F" == ['1', 'F'] && "0X1f"[2..] == ['1', 'f'] && "0xfF"[2..] == ['f', 'F'];
    assert "0x"[2..] == "" && !HasHexPrefix("") && !HasHexPrefix("g") && !HasHexPrefix("1F");
    assert DigitValue("g"[0]) == 16;
  }

  /** ... and an optional sign in decimal. */
  lemma LiteralDec()
    ensures ParseDec("7") == Ok(7) && ParseDec("+7") == Ok(7) && ParseDec("-7") == Ok(-7)
  {
    DigitsValueAppend("", '7', 10);
    NoDigits(10);
    assert "" + ['7'] == "7" && "+7"[1..] == "7" && "-7"[1..] == "7";
    assert DigitsValue("7", 10) == 7 && DigitValue('7') == 7;
    assert ParseNat("7", 10) == Ok(7);
    assert !Signed("7") && Signed("+7") && Signed("-7");
  }

  lemma TwoDigits(a: char, b: char, base: nat)
    ensures DigitsValue([a, b], base) == Shift(Shift(0, base, DigitValue(a)), base, DigitValue(b))
  {
    NoDigits(base);
    DigitsValueAppend([], a, base);
    DigitsValueAppend([a], b, base);
    assert [] + [a] == [a] && [a] + [b] == [a, b];
  }

  // ----------------------------------------------------------------- issue.config

  /** Three CTAs on two SMs; CTA 1 starts before CTA 0. */
  const THREE: map<int, Placement> := map[0 := Placement(0, 31), 1 := Placement(0, 10), 2 := Placement(1, 0)]

  lemma RowsOfThree()
    ensures Rows(THREE, 3, 0) == [1, 0] && Rows(THREE, 3, 1) == [2]
  {
    assert Range(3) == [0, 1, 2] && [0, 1, 2][1..] == [1, 2] && [1, 2][1..] == [2] && [2][1..] == [];
    var on := OnSm(THREE, 0);
    assert Filter(on, [2]) == [] && Filter(on, [1, 2]) == [1] && Filter(on, [0, 1, 2]) == [0, 1];
    assert [0, 1][1..] == [1] && [1][1..] == [];
    var key := StartKey(THREE);
    assert SortBy(key, [1]) == [1];
    assert key(0) == [31, 0] && key(1) == [10, 1];
    assert InsertBy(key, 0, [1]) == [1] + InsertBy(key, 0, []);
    var other := OnSm(THREE, 1);
    assert Filter(other, [2]) == [2] && Filter(other, [1, 2]) == [2] && Filter(other, [0, 1, 2]) == [2];
    assert SortBy(StartKey(THREE), [2]) == [2];
  }

  lemma TupleIs(kernel: nat, block: int, start: int, k: char, b: char, text: string)
    requires FormatDec(kernel) == [k] && FormatDec(block) == [b] && FormatHex(start) == text
    ensures TupleText(kernel, block, start) == ['(', k, ',', b, ','] + text + [')']
  {
    hide FormatHex, FormatDec;
  }

  lemma Tuples()
    ensures TupleText(5, 1, 10) == "(5,1,a)" && TupleText(5, 0, 31) == "(5,0,1f)" && TupleText(5, 2, 0) == "(5,2,0)"
  {
    hide FormatHex, FormatDec, TupleText;
    LiteralNumbers();
    HexDigits(0);
    HexDigits(1);
    HexDigits(2);
    HexDigits(5);
    HexDigits(10);
    TupleIs(5, 1, 10, '5', '1', "a");
    TupleIs(5, 0, 31, '5', '0', "1f");
    TupleIs(5, 2, 0, '5', '2', "0");
  }

  lemma RowTexts()
    ensures RowsText(5, [1, 0], THREE) == ",(5,1,a),(5,0,1f)" && RowsText(5, [2], THREE) == ",(5,2,0)"
  {
    hide TupleText;
    Tuples();
    assert [1, 0][1..] == [0] && [0][1..] == [] && [2][1..] == [];
    assert RowsText(5, [0], THREE) == "," + "(5,0,1f)" + "";
    assert RowsText(5, [1, 0], THREE) == "," + "(5,1,a)" + RowsText(5, [0], THREE);
  }

  lemma RowLines()
    ensures SmLine(THREE, 3, 5, 0) == "-trace_issued_sm_id_0 2,(5,1,a),(5,0,1f)"
    ensures SmLine(THREE, 3, 5, 1) == "-trace_issued_sm_id_1 1,(5,2,0)"
  {
    hide FormatDec, Rows, RowsText, RowLine;
    RowsOfThree();
    RowTexts();
    FirstRowLine();
    SecondRowLine();
  }

  lemma FirstRowLine()
    requires RowsText(5, [1, 0], THREE) == ",(5,1,a),(5,0,1f)"
    ensures RowLine(THREE, 5, 0, [1, 0]) == "-trace_issued_sm_id_0 2,(5,1,a),(5,0,1f)"
  {
    hide FormatDec, RowsText, FormatHex;
    HexDigits(0);
    HexDigits(2);
    assert SM_PREFIX + "0" == "-trace_issued_sm_id_0";
    assert "-trace_issued_sm_id_0" + " " + "2" == "-trace_issued_sm_id_0 2";
    assert RowLine(THREE, 5, 0, [1, 0]) == "-trace_issued_sm_id_0 2" + ",(5,1,a),(5,0,1f)";
  }

  lemma SecondRowLine()
    requires RowsText(5, [2], THREE) == ",(5,2,0)"
    ensures RowLine(THREE, 5, 1, [2]) == "-trace_issued_sm_id_1 1,(5,2,0)"
  {
    hide FormatDec, RowsText, FormatHex;
    HexDigits(1);
    assert SM_PREFIX + "1" == "-trace_issued_sm_id_1";
    assert "-trace_issued_sm_id_1" + " " + "1" == "-trace_issued_sm_id_1 1";
    assert RowLine(THREE, 5, 1, [2]) == "-trace_issued_sm_id_1 1" + ",(5,2,0)";
  }

  /** The characters of a tuple's fields: decimal digits, and hexadecimal digits of either case and x. */
  lemma LiteralFieldChars(c: char)
    ensures DigitAt(c) <==> c in "0123456789"
    ensures HexOrX(c) <==> c in "0123456789abcdefABCDEFx"
  {
    var digits, letters := "0123456789", "0123456789abcdefABCDEFx";
    if DigitAt(c) {
      assert digits[c as int - '0' as int] == c && letters[c as int - '0' as int] == c;
    } else if 'a' <= c <= 'f' {
      assert letters[10 + c as int - 'a' as int] == c;
    } else if 'A' <= c <= 'F' {
      assert letters[16 + c as int - 'A' as int] == c;
    } else if c == 'x' {
      assert letters[22] == c;
    }
  }

  /** The issue.config of these CTAs for kernel 5, as it is written and read. */
  lemma LiteralIssueConfig()
    ensures var lines := [IssueMap.Rule(), "", "-trace_issued_sms_num 2", "-trace_issued_sm_id_0 2,(5,1,a),(5,0,1f)",
                          "-trace_issued_sm_id_1 1,(5,2,0)"];
      IssueText(THREE, 3, 5, 2) == lines && ReadIssues(lines, 5) == Ok(Issues(2, THREE))
  {
    hide FormatDec, SmLine, ReadIssues;
    RowLines();
    HexDigits(2);
    assert COUNT_PREFIX + "2" == "-trace_issued_sms_num 2";
    assert Header(2) == [IssueMap.Rule(), "", "-trace_issued_sms_num 2"];
    assert SmLines(THREE, 3, 5, 1) == [] + [SmLine(THREE, 3, 5, 0)] == [SmLine(THREE, 3, 5, 0)];
    assert SmLines(THREE, 3, 5, 2) == [SmLine(THREE, 3, 5, 0), SmLine(THREE, 3, 5, 1)];
    forall b ensures b in Blocks(3) <==> 0 <= b < 3 {
      BlocksAre(3, b);
    }
    assert THREE.Keys == Blocks(3);
    assert IssueText(THREE, 3, 5, 2) == Header(2) + [SmLine(THREE, 3, 5, 0), SmLine(THREE, 3, 5, 1)];
    IssueMap.IssueRoundTrip(THREE, 2, 3, 5, 5);
  }

  // ------------------------------------------------------------------- trace lines

  /** An instruction 500 after the first one, whose base rises by four from CTA to CTA. */
  const LATE_LOAD := Entry(0, "10", "LDG", "3", [["4:31"]], 0, [Flat(256, 4)], 500, None)

  lemma LateLoadFields()
    ensures LineFields(2, 500, LATE_LOAD, [264]) == ["2", "10", "LDG", "3", "1f4", "1", "0x108", "1", "4:31"]
  {
    hide FormatHex;
    LiteralNumbers();
    HexDigits(1);
    HexDigits(2);
    var pairs: seq<seq<string>> := [["4:31"]];
    assert [264][1..] == [] && pairs[1..] == [] && "0x" + "108" == "0x108";
    assert GroupFields([264], pairs) == ["0x108", "1"] + ["4:31"] + [];
  }

  lemma LateLoadBases(dims: Dims)
    ensures PredictBases(LATE_LOAD.rules, 2, dims) == Ok([264])
  {
    var rules := LATE_LOAD.rules;
    assert |rules| == 1 && rules[0] == Flat(256, 4) && rules[..0] == [];
    assert Predict(rules[0], 2, dims) == Ok(264);
    var init := PredictBases(rules[..0], 2, dims);
    assert init.value == [] && init.value + [264] == [264];
  }

  /** The fields are followed by a space each, and the line by a newline. */
  lemma LiteralLine()
    ensures Line(["a", "bc"]) == "a bc \n"
  {
    assert ["a", "bc"][1..] == ["bc"] && ["bc"][1..] == [];
    assert Line(["bc"]) == "bc" + " " + "\n" == "bc \n";
    assert "a" + " " + "bc \n" == "a bc \n";
  }

  /** What is written for this instruction at CTA 2: its time field is its distance from the first one. */
  lemma LiteralEntry(dims: Dims)
    ensures WriteEntry(LATE_LOAD, 2, dims)
         == Ok(Line(["2", "10", "LDG", "3", "1f4", "1", "0x108", "1", "4:31"]))
  {
    hide PredictBases, LineFields, Line;
    LateLoadBases(dims);
    LateLoadFields();
  }

  // ------------------------------------------------------------- names and event texts

  lemma LiteralClassIds()
    ensures ClassId(0) == "class-00" && ClassId(7) == "class-07" && ClassId(12) == "class-12"
  {
    FormatNatStep(0, 10);
    FormatNatStep(7, 10);
    FormatNatStep(1, 10);
    FormatNatStep(12, 10);
    assert "1" + "2" == "12" && "class-" + "0" + "0" == "class-00" && "class-" + "0" + "7" == "class-07";
    assert "class-" + "" + "12" == "class-12";
  }

  lemma LiteralParts()
    ensures GroupParts([[Lane(0, 0), Lane(1, -4)]], [264])
         == ["base=108", "lane=0:offset=0", "lane=1:offset=-4", "group-end"]
  {
    hide FormatHex, FormatDec;
    LiteralNumbers();
    HexDigits(0);
    HexDigits(1);
    var lanes := [Lane(0, 0), Lane(1, -4)];
    assert LanePart(lanes[0]) == "lane=" + "0" + ":offset=" + "0" == "lane=0:offset=0";
    assert LanePart(lanes[1]) == "lane=" + "1" + ":offset=" + "-4" == "lane=1:offset=-4";
    hide LanePart;
    assert LaneParts(lanes) == ["lane=0:offset=0", "lane=1:offset=-4"];
    PartsOfGroup(lanes);
  }

  lemma PartsOfGroup(lanes: seq<Lane>)
    requires FormatHex(264) == "108"
    ensures GroupParts([lanes], [264]) == ["base=108"] + LaneParts(lanes) + ["group-end"]
  {
    hide FormatHex, LaneParts;
    var groups: seq<seq<Lane>> := [lanes];
    assert groups[1..] == [] && [264][1..] == [];
    assert "base=" + "108" == "base=108";
    assert GroupParts(groups, [264]) == ["base=108"] + (LaneParts(lanes) + (["group-end"] + []));
  }

  /** The parts between the bars of the text that an event of two lanes is digested as. */
  lemma LiteralEvent()
    ensures EventCode.Split(EventText(Event(Sig("10", "LDG", "3", [[Lane(0, 0), Lane(1, -4)]]), [264])))
         == ["10", "LDG", "3", "base=108", "lane=0:offset=0", "lane=1:offset=-4", "group-end"]
  {
    hide EventText, EventCode.Split, GroupParts;
    var e := Event(Sig("10", "LDG", "3", [[Lane(0, 0), Lane(1, -4)]]), [264]);
    LiteralParts();
    LiteralMask();
    EventSplits(e);
    SplitPlain("LDG");
  }

  lemma LiteralMask()
    ensures ParseHex("3") == Ok(3)
  {
    NoDigits(16);
    DigitsValueAppend("", '3', 16);
    assert "" + ['3'] == "3" && DigitsValue("3", 16) == 3;
  }
}
