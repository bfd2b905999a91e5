/** A trace as one file: the lines written one after the other, and taken apart again at the newlines. */
module TraceFile {
  import opened Common
  import opened Numerals
  import opened CoordinateRules
  import opened Template
  import opened Lines

  const NEWLINE: char := '\n'

  /** What `generate` writes to its file. */
  function Joined(lines: seq<string>): string {
    if lines == [] then "" else lines[0] + Joined(lines[1..])
  }

  /** The lines of a file, as iterating over it yields them: each up to and including a newline. */
  function SplitLines(text: string): (lines: seq<string>)
    decreases |text|
  {
    var k := FirstIndex(NEWLINE, text);
    if text == "" then []
    else if k == |text| then [text]
    else [text[..k + 1]] + SplitLines(text[k + 1..])
  }

  /** Ends in a newline and has no other. */
  predicate OneLine(line: string) {
    line != "" && FirstIndex(NEWLINE, line) == |line| - 1
  }

  predicate Ended(line: string) {
    line != "" && line[|line| - 1] == NEWLINE
  }

  predicate NoNewline(t: string) {
    forall i :: 0 <= i < |t| ==> t[i] != NEWLINE
  }

  /** Nothing is lost or invented by taking a file apart. */
  lemma {:induction false} JoinSplitLines(text: string)
    ensures Joined(SplitLines(text)) == text
    decreases |text|
  {
    var k := FirstIndex(NEWLINE, text);
    if k == |text| {
      assert [text][1..] == [] && text + "" == text;
    } else {
      JoinSplitLines(text[k + 1..]);
      var lines := SplitLines(text);
      assert lines[1..] == SplitLines(text[k + 1..]);
      assert text == text[..k + 1] + text[k + 1..];
    }
  }

  lemma {:induction false} SplitPieces(text: string)
    ensures forall i :: 0 <= i < |SplitLines(text)| && Ended(SplitLines(text)[i]) ==> OneLine(SplitLines(text)[i])
    decreases |text|
  {
    var k := FirstIndex(NEWLINE, text);
    if k < |text| {
      SplitPieces(text[k + 1..]);
      FirstIndexIs(text[..k + 1], k);
      var lines := SplitLines(text);
      assert lines[1..] == SplitLines(text[k + 1..]);
      forall i | 0 <= i < |lines| && Ended(lines[i]) ensures OneLine(lines[i]) {
        if i > 0 {
          assert lines[i] == lines[1..][i - 1];
        }
      }
    }
  }

  lemma FirstIndexIs(s: string, k: nat)
    requires k < |s| && s[k] == NEWLINE && NoNewline(s[..k])
    ensures FirstIndex(NEWLINE, s) == k
  {
    assert forall j :: 0 <= j < k ==> s[j] == s[..k][j];
  }

  /** Written lines come back from the file exactly when none of them has a newline inside. */
  lemma {:induction false} SplitJoinedLines(lines: seq<string>)
    requires forall i :: 0 <= i < |lines| ==> Ended(lines[i])
    ensures SplitLines(Joined(lines)) == lines <==> forall i :: 0 <= i < |lines| ==> OneLine(lines[i])
  {
    if forall i :: 0 <= i < |lines| ==> OneLine(lines[i]) {
      SplitOneLines(lines);
    }
    SplitPieces(Joined(lines));
  }

  lemma {:induction false} SplitOneLines(lines: seq<string>)
    requires forall i :: 0 <= i < |lines| ==> OneLine(lines[i])
    ensures SplitLines(Joined(lines)) == lines
  {
    if lines != [] {
      var line, rest := lines[0], Joined(lines[1..]);
      var text := line + rest;
      assert text[..|line|] == line && text[|line|..] == rest;
      assert text[..|line| - 1] == line[..|line| - 1];
      FirstIndexIs(text, |line| - 1);
      SplitOneLines(lines[1..]);
    }
  }

  /** A line of fields has one newline exactly when no field has any. */
  lemma {:induction false} LineIsOneLine(fields: seq<string>)
    ensures Ended(Line(fields))
    ensures OneLine(Line(fields)) <==> forall i :: 0 <= i < |fields| ==> NoNewline(fields[i])
  {
    if fields != [] {
      hide NoNewline, FirstIndex;
      var t, rest := fields[0], Line(fields[1..]);
      LineIsOneLine(fields[1..]);
      assert Line(fields) == (t + " ") + rest;
      SpacedField(t, rest);
      assert forall i :: 0 < i < |fields| ==> fields[i] == fields[1..][i - 1];
    }
  }

  lemma SpacedField(t: string, rest: string)
    requires Ended(rest)
    ensures Ended((t + " ") + rest)
    ensures OneLine((t + " ") + rest) <==> NoNewline(t) && OneLine(rest)
  {
    hide FirstIndex;
    assert forall i :: 0 <= i < |t| ==> (t + " ")[i] == t[i];
    FirstIndexAfter(t + " ", rest);
  }

  lemma {:induction false} FirstIndexAfter(t: string, rest: string)
    ensures NoNewline(t) ==> FirstIndex(NEWLINE, t + rest) == |t| + FirstIndex(NEWLINE, rest)
    ensures !NoNewline(t) ==> FirstIndex(NEWLINE, t + rest) < |t|
  {
    if t == "" {
      assert t + rest == rest;
    } else {
      assert (t + rest)[1..] == t[1..] + rest;
      FirstIndexAfter(t[1..], rest);
      if NoNewline(t[1..]) && t[0] != NEWLINE {
        assert forall i :: 0 < i < |t| ==> t[i] == t[1..][i - 1];
      }
    }
  }

  lemma CleanHasNoNewline(t: string)
    requires Clean(t)
    ensures NoNewline(t)
  {
    assert IsSpace(NEWLINE);
  }

  /** A generated line is one line of the file exactly when its three verbatim fields have no newline in them. */
  lemma GeneratedLineIsOneLine(block: nat, timestamp: nat, e: Entry, dims: Dims, line: string)
    requires |e.rules| == |e.pairs| && PairsReadable(e.pairs) && FormatLine(block, timestamp, e, dims) == Ok(line)
    ensures Ended(line)
    ensures OneLine(line) <==> NoNewline(e.pc) && NoNewline(e.opcode) && NoNewline(e.mask)
  {
    hide Line, Clean, FormatHex, GroupFields, PairsReadable, PredictBases, OneLine, Ended, NoNewline;
    var bases := PredictBases(e.rules, block, dims).value;
    var fields, groups := LineFields(block, timestamp, e, bases), GroupFields(bases, e.pairs);
    LineIsOneLine(fields);
    GroupFieldsClean(bases, e.pairs);
    HexClean(block);
    HexClean(timestamp);
    HexClean(|e.pairs|);
    forall i | 0 <= i < |fields| && i != 1 && i != 2 && i != 3 ensures NoNewline(fields[i]) {
      assert Clean(fields[i]) by {
        if i >= 6 {
          assert fields[i] == groups[i - 6];
        }
      }
      CleanHasNoNewline(fields[i]);
    }
    assert fields[1] == e.pc && fields[2] == e.opcode && fields[3] == e.mask;
  }
}
