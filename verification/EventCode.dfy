/** The text an event is digested as: it tells the events apart, so the certificate covers all of them. */
module EventCode {
  import opened Sequences
  import opened Numerals
  import opened Lanes
  import opened Audit

  /** The parts of a text between its bars. */
  function Split(s: string): (parts: seq<string>)
    ensures parts != []
    decreases |s|
  {
    var k := FirstIndex('|', s);
    if k == |s| then [s] else [s[..k]] + Split(s[k + 1..])
  }

  function Join(parts: seq<string>): string {
    if parts == [] then ""
    else if |parts| == 1 then parts[0]
    else parts[0] + "|" + Join(parts[1..])
  }

  lemma {:induction false} JoinSplit(s: string)
    ensures Join(Split(s)) == s
    decreases |s|
  {
    var k := FirstIndex('|', s);
    if k < |s| {
      JoinSplit(s[k + 1..]);
      assert Split(s)[1..] == Split(s[k + 1..]);
      assert s == s[..k] + "|" + s[k + 1..];
    }
  }

  predicate NoBar(s: string) {
    forall i :: 0 <= i < |s| ==> s[i] != '|'
  }

  lemma FirstBar(a: string, b: string)
    requires NoBar(a)
    ensures FirstIndex('|', a + "|" + b) == |a|
  {
    var s := a + "|" + b;
    assert s[|a|] == '|' && forall i :: 0 <= i < |a| ==> s[i] == a[i];
  }

  lemma SplitFirst(a: string, b: string)
    requires NoBar(a)
    ensures Split(a + "|" + b) == [a] + Split(b)
  {
    var s := a + "|" + b;
    FirstBar(a, b);
    assert s[..|a|] == a && s[|a| + 1..] == b;
  }

  lemma SplitPlain(t: string)
    requires NoBar(t)
    ensures Split(t) == [t]
  {
    assert FirstIndex('|', t) == |t|;
  }

  lemma {:induction false} SplitBar(a: string, b: string)
    ensures Split(a + "|" + b) == Split(a) + Split(b)
    decreases |a|
  {
    hide Split;
    var k := FirstIndex('|', a);
    assert NoBar(a[..k]);
    if k == |a| {
      assert a[..k] == a;
      SplitFirst(a, b);
      SplitPlain(a);
    } else {
      var head, rest := a[..k], a[k + 1..];
      SplitBar(rest, b);
      assert a == head + "|" + rest;
      assert a + "|" + b == head + "|" + (rest + "|" + b);
      SplitFirst(head, rest + "|" + b);
      SplitFirst(head, rest);
    }
  }

  // --------------------------------------------------------- the parts of an event

  /** Each part after a bar. */
  function Bars(parts: seq<string>): string {
    if parts == [] then "" else "|" + parts[0] + Bars(parts[1..])
  }

  predicate NoBars(parts: seq<string>) {
    forall i :: 0 <= i < |parts| ==> NoBar(parts[i])
  }

  lemma {:induction false} SplitBars(head: string, parts: seq<string>)
    requires NoBars(parts)
    ensures Split(head + Bars(parts)) == Split(head) + parts
    decreases |parts|
  {
    hide Split;
    if parts == [] {
      assert head + Bars(parts) == head;
    } else {
      var next := head + "|" + parts[0];
      assert head + Bars(parts) == next + Bars(parts[1..]);
      SplitBars(next, parts[1..]);
      SplitBar(head, parts[0]);
      SplitPlain(parts[0]);
      assert Split(head) + [parts[0]] + parts[1..] == Split(head) + parts;
    }
  }

  function LanePart(x: Lane): string {
    "lane=" + FormatDec(x.lane) + ":offset=" + FormatDec(x.offset)
  }

  function LaneParts(lanes: seq<Lane>): (parts: seq<string>)
    ensures |parts| == |lanes| && forall i :: 0 <= i < |lanes| ==> parts[i] == LanePart(lanes[i])
  {
    seq(|lanes|, i requires 0 <= i < |lanes| => LanePart(lanes[i]))
  }

  function GroupParts(offsets: seq<seq<Lane>>, bases: seq<int>): seq<string>
    requires |offsets| == |bases|
  {
    if offsets == [] then []
    else
      ["base=" + FormatHex(bases[0])]
      + (LaneParts(offsets[0]) + (["group-end"] + GroupParts(offsets[1..], bases[1..])))
  }

  lemma {:induction false} BarsAppend(a: seq<string>, b: seq<string>)
    ensures Bars(a + b) == Bars(a) + Bars(b)
  {
    if a == [] {
      assert a + b == b;
    } else {
      BarsAppend(a[1..], b);
      assert (a + b)[1..] == a[1..] + b;
      Associate("|" + a[0], Bars(a[1..]), Bars(b));
    }
  }

  lemma {:induction false} LaneTextsAreBars(lanes: seq<Lane>)
    ensures LaneTexts(lanes) == Bars(LaneParts(lanes))
  {
    hide FormatDec;
    if lanes != [] {
      LaneTextsAreBars(lanes[1..]);
      assert LaneParts(lanes)[1..] == LaneParts(lanes[1..]);
      assert "|" + LanePart(lanes[0]) == "|lane=" + FormatDec(lanes[0].lane) + ":offset=" + FormatDec(lanes[0].offset);
    }
  }

  lemma {:induction false} GroupTextsAreBars(offsets: seq<seq<Lane>>, bases: seq<int>)
    requires |offsets| == |bases|
    ensures GroupTexts(offsets, bases) == Bars(GroupParts(offsets, bases))
  {
    hide FormatHex, LaneTexts, LaneParts, Bars;
    if offsets == [] {
      NoParts();
    } else {
      var base, lanes := "base=" + FormatHex(bases[0]), LaneParts(offsets[0]);
      var rest := GroupParts(offsets[1..], bases[1..]);
      GroupTextsAreBars(offsets[1..], bases[1..]);
      LaneTextsAreBars(offsets[0]);
      BarsAppend([base], lanes + (["group-end"] + rest));
      BarsAppend(lanes, ["group-end"] + rest);
      BarsAppend(["group-end"], rest);
      OnePart(base);
      OnePart("group-end");
    }
  }

  lemma NoParts()
    ensures Bars([]) == ""
  {
  }

  lemma OnePart(t: string)
    ensures Bars([t]) == "|" + t
  {
    assert [t][1..] == [];
  }

  // ----------------------------------------------------------------- telling apart

  lemma DecInjective(m: int, n: int)
    ensures FormatDec(m) == FormatDec(n) ==> m == n
  {
    ParseFormatDec(m);
    ParseFormatDec(n);
  }

  lemma HexInjective(m: int, n: int)
    ensures FormatHex(m) == FormatHex(n) ==> m == n
  {
    var a, b := if m < 0 then -m else m, if n < 0 then -n else n;
    DigitsOfFormatNat(a, 16);
    DigitsOfFormatNat(b, 16);
    MinusIsNoDigit(FormatNat(a, 16));
    MinusIsNoDigit(FormatNat(b, 16));
    if FormatHex(m) == FormatHex(n) {
      assert (m < 0) == (n < 0);
      if m < 0 {
        assert FormatHex(m)[1..] == FormatNat(a, 16) && FormatHex(n)[1..] == FormatNat(b, 16);
      }
    }
  }

  lemma MinusIsNoDigit(s: string)
    requires s != "" && AllDigits(s, 16)
    ensures s[0] != '-' && NoBar(s)
  {
    assert DigitValue('-') == 16 && DigitValue('|') == 16;
  }

  lemma NumberPlain(n: int)
    ensures NoBar(FormatDec(n)) && NoBar(FormatHex(n))
    ensures forall i :: 0 <= i < |FormatDec(n)| ==> FormatDec(n)[i] != ':'
  {
    var a := if n < 0 then -n else n;
    MinusIsNoDigit(FormatNat(a, 16));
    var s := FormatNat(a, 10);
    assert DigitValue('|') == 16 && DigitValue(':') == 16;
    forall i | 0 <= i < |s| ensures s[i] != '|' && s[i] != ':' {
      assert DigitValue(s[i]) < 10;
    }
  }

  lemma LanePartInjective(x: Lane, y: Lane)
    ensures LanePart(x) == LanePart(y) ==> x == y
  {
    hide FormatDec;
    if LanePart(x) == LanePart(y) {
      var a, b := FormatDec(x.lane), FormatDec(y.lane);
      NumberPlain(x.lane);
      NumberPlain(y.lane);
      AfterColon(a, ":offset=" + FormatDec(x.offset), b, ":offset=" + FormatDec(y.offset), LanePart(x));
      assert ":offset=" + FormatDec(x.offset) == ":offset=" + FormatDec(y.offset);
      assert (":offset=" + FormatDec(x.offset))[8..] == FormatDec(x.offset);
      assert (":offset=" + FormatDec(y.offset))[8..] == FormatDec(y.offset);
      DecInjective(x.lane, y.lane);
      DecInjective(x.offset, y.offset);
    }
  }

  /** Two numbers followed by a colon and more, with the same text, are the same. */
  lemma AfterColon(a: string, r: string, b: string, t: string, s: string)
    requires s == "lane=" + a + r == "lane=" + b + t
    requires r != "" && r[0] == ':' && t != "" && t[0] == ':'
    requires forall i :: 0 <= i < |a| ==> a[i] != ':'
    requires forall i :: 0 <= i < |b| ==> b[i] != ':'
    ensures a == b && r == t
  {
    assert s[5..] == a + r && s[5..] == b + t;
    assert (a + r)[|a|] == ':' && (b + t)[|b|] == ':';
    assert forall i :: 0 <= i < |a| ==> (a + r)[i] == a[i];
    assert forall i :: 0 <= i < |b| ==> (b + t)[i] == b[i];
    assert |a| == |b|;
    assert a == (a + r)[..|a|] && b == (b + t)[..|b|];
    assert r == (a + r)[|a|..] && t == (b + t)[|b|..];
  }

  lemma FirstPart(a: seq<Lane>, r: seq<string>)
    ensures (LaneParts(a) + (["group-end"] + r))[0] == "group-end" <==> a == []
  {
    hide FormatDec;
    var s := LaneParts(a) + (["group-end"] + r);
    if a != [] {
      assert s[0] == LanePart(a[0]) && s[0][0] == 'l' && "group-end"[0] == 'g';
    }
  }

  /** Lane parts up to the end mark, and what follows, are determined by their sequence. */
  lemma {:induction false} LanesUpToEnd(a: seq<Lane>, r: seq<string>, b: seq<Lane>, t: seq<string>)
    requires LaneParts(a) + (["group-end"] + r) == LaneParts(b) + (["group-end"] + t)
    ensures a == b && r == t
    decreases |a|
  {
    hide FormatDec, LanePart;
    var s := LaneParts(a) + (["group-end"] + r);
    FirstPart(a, r);
    FirstPart(b, t);
    if a == [] {
      assert s[1..] == r && s[1..] == t;
    } else {
      assert s[0] == LanePart(a[0]) == LanePart(b[0]);
      LanePartInjective(a[0], b[0]);
      assert s[1..] == LaneParts(a[1..]) + (["group-end"] + r);
      assert s[1..] == LaneParts(b[1..]) + (["group-end"] + t);
      LanesUpToEnd(a[1..], r, b[1..], t);
      assert a == [a[0]] + a[1..] && b == [b[0]] + b[1..];
    }
  }

  lemma {:induction false} GroupPartsInjective(o: seq<seq<Lane>>, x: seq<int>, p: seq<seq<Lane>>, y: seq<int>)
    requires |o| == |x| && |p| == |y| && GroupParts(o, x) == GroupParts(p, y)
    ensures o == p && x == y
    decreases |o|
  {
    hide FormatHex, LaneParts;
    if o != [] && p != [] {
      var s := GroupParts(o, x);
      var r, t := GroupParts(o[1..], x[1..]), GroupParts(p[1..], y[1..]);
      assert s[0] == "base=" + FormatHex(x[0]) == "base=" + FormatHex(y[0]);
      assert s[0][5..] == FormatHex(x[0]) == FormatHex(y[0]);
      HexInjective(x[0], y[0]);
      assert s[1..] == LaneParts(o[0]) + (["group-end"] + r) == LaneParts(p[0]) + (["group-end"] + t);
      LanesUpToEnd(o[0], r, p[0], t);
      GroupPartsInjective(o[1..], x[1..], p[1..], y[1..]);
      assert o == [o[0]] + o[1..] && p == [p[0]] + p[1..] && x == [x[0]] + x[1..] && y == [y[0]] + y[1..];
    }
  }

  /** A part of an address group: none of them can be mistaken for a mask. */
  predicate Marked(t: string) {
    |t| > 4 && (t[4] == '=' || t[0] == 'g')
  }

  lemma {:induction false} GroupPartsMarked(offsets: seq<seq<Lane>>, bases: seq<int>)
    requires |offsets| == |bases|
    ensures NoBars(GroupParts(offsets, bases))
    ensures forall i :: 0 <= i < |GroupParts(offsets, bases)| ==> Marked(GroupParts(offsets, bases)[i])
  {
    hide FormatHex, FormatDec;
    if offsets != [] {
      GroupPartsMarked(offsets[1..], bases[1..]);
      NumberPlain(bases[0]);
      BasePart(FormatHex(bases[0]));
      assert Marked("group-end") && NoBar("group-end");
      forall i | 0 <= i < |offsets[0]| ensures Marked(LaneParts(offsets[0])[i]) && NoBar(LaneParts(offsets[0])[i]) {
        LanePartPlain(offsets[0][i]);
      }
    }
  }

  lemma BasePart(t: string)
    requires NoBar(t)
    ensures Marked("base=" + t) && NoBar("base=" + t)
  {
  }

  lemma LanePartPlain(x: Lane)
    ensures Marked(LanePart(x)) && NoBar(LanePart(x))
  {
    hide FormatDec;
    NumberPlain(x.lane);
    NumberPlain(x.offset);
    assert LanePart(x)[4] == '=';
    assert NoBar("lane=") && NoBar(":offset=");
  }

  lemma MaskPlain(mask: string)
    requires ParseHex(mask).Ok?
    ensures NoBar(mask) && !Marked(mask)
  {
    assert DigitValue('|') == 16 && DigitValue('=') == 16 && DigitValue('g') == 16;
    var digits := if HasHexPrefix(mask) then mask[2..] else mask;
    forall i | 0 <= i < |mask| ensures mask[i] != '|' && mask[i] != '=' && mask[i] != 'g' {
      if HasHexPrefix(mask) && i >= 2 {
        assert mask[i] == digits[i - 2];
      }
    }
  }

  lemma MarkedAfter(a: seq<string>, m: string, s: seq<string>, j: nat)
    requires forall i :: 0 <= i < |s| ==> Marked(s[i])
    ensures |a| < j < |a + [m] + s| ==> Marked((a + [m] + s)[j])
  {
  }

  /** Sequences that end in an unmarked part and marked ones split there in only one way. */
  lemma SplitAtMask(a: seq<string>, m: string, s: seq<string>, b: seq<string>, n: string, t: seq<string>)
    requires a + [m] + s == b + [n] + t && !Marked(m) && !Marked(n)
    requires forall i :: 0 <= i < |s| ==> Marked(s[i])
    requires forall i :: 0 <= i < |t| ==> Marked(t[i])
    ensures a == b && m == n && s == t
  {
    hide Marked;
    var w := a + [m] + s;
    assert w[|a|] == m && w[|b|] == n;
    MarkedAfter(a, m, s, |b|);
    MarkedAfter(b, n, t, |a|);
    assert |a| == |b|;
    assert a == w[..|a|] && b == w[..|b|] && s == w[|a| + 1..] && t == w[|b| + 1..];
  }

  lemma EventSplits(e: Event)
    requires |e.bases| == |e.sig.offsets| && NoBar(e.sig.pc) && ParseHex(e.sig.mask).Ok?
    ensures Split(EventText(e))
            == [e.sig.pc] + (Split(e.sig.opcode) + [e.sig.mask] + GroupParts(e.sig.offsets, e.bases))
  {
    hide Split, GroupTexts, GroupParts, ParseHex;
    var pc, opcode, mask := e.sig.pc, e.sig.opcode, e.sig.mask;
    var parts := GroupParts(e.sig.offsets, e.bases);
    GroupTextsAreBars(e.sig.offsets, e.bases);
    GroupPartsMarked(e.sig.offsets, e.bases);
    MaskPlain(mask);
    var tail := opcode + "|" + mask;
    assert EventText(e) == pc + "|" + (tail + Bars(parts));
    SplitBar(pc, tail + Bars(parts));
    SplitBars(tail, parts);
    SplitBar(opcode, mask);
    SplitPlain(pc);
    SplitPlain(mask);
  }

  /**
   * Different events are digested as different texts, whatever characters their opcodes have: pc, opcode,
   * mask, bases and active-lane offsets all enter the certificate.
   */
  lemma EventTextIdentifies(a: Event, b: Event)
    requires |a.bases| == |a.sig.offsets| && NoBar(a.sig.pc) && ParseHex(a.sig.mask).Ok?
    requires |b.bases| == |b.sig.offsets| && NoBar(b.sig.pc) && ParseHex(b.sig.mask).Ok?
    ensures EventText(a) == EventText(b) ==> a == b
  {
    hide Split, EventText, GroupParts, ParseHex, Marked;
    if EventText(a) == EventText(b) {
      EventSplits(a);
      EventSplits(b);
      var s, t := GroupParts(a.sig.offsets, a.bases), GroupParts(b.sig.offsets, b.bases);
      var x, y := Split(a.sig.opcode) + [a.sig.mask] + s, Split(b.sig.opcode) + [b.sig.mask] + t;
      assert ([a.sig.pc] + x)[0] == ([b.sig.pc] + y)[0] && ([a.sig.pc] + x)[1..] == x && ([b.sig.pc] + y)[1..] == y;
      GroupPartsMarked(a.sig.offsets, a.bases);
      GroupPartsMarked(b.sig.offsets, b.bases);
      MaskPlain(a.sig.mask);
      MaskPlain(b.sig.mask);
      SplitAtMask(Split(a.sig.opcode), a.sig.mask, s, Split(b.sig.opcode), b.sig.mask, t);
      JoinSplit(a.sig.opcode);
      JoinSplit(b.sig.opcode);
      GroupPartsInjective(a.sig.offsets, a.bases, b.sig.offsets, b.bases);
    }
  }
}
