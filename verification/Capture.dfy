/** Lowering of captured records to global traffic, and the scan that collects the selected CTAs. */
module Capture {
  import opened Common
  import opened Numerals
  import opened Varint
  import opened Sequences
  import opened Lanes
  import opened Memc
  import opened MemcReader

  // ----------------------------------------------------------------- lowering

  predicate IsGlobal(mask: nat, g: MemcGroup) {
    g.globalMask == mask && g.localMask == 0 && g.sharedMask == 0 && g.unknownMask == 0
  }

  predicate IsShared(mask: nat, g: MemcGroup) {
    g.sharedMask == mask && g.globalMask == 0 && g.localMask == 0 && g.unknownMask == 0
  }

  function GlobalIn(mask: nat): MemcGroup -> bool {
    (g: MemcGroup) => IsGlobal(mask, g)
  }

  function SharedIn(mask: nat): MemcGroup -> bool {
    (g: MemcGroup) => IsShared(mask, g)
  }

  predicate IsAsyncCopy(opcode: string) {
    |opcode| >= 6 && opcode[..6] == "LDGSTS"
  }

  function Strip(g: MemcGroup): Group {
    Group(g.base, g.pairs)
  }

  datatype Lowered = Lowered(record: Record, async: bool, discarded: nat)

  function WithGroups(r: MemcRecord, groups: seq<MemcGroup>): Record {
    Record(r.block, r.pc, r.opcode, r.mask, r.timestamp, Map(Strip, groups), r.sequence)
  }

  /** `lower_memc_record_to_global` */
  function Lower(r: MemcRecord): Result<Lowered> {
    var mask :- ParseHex(r.mask);
    if forall i :: 0 <= i < |r.groups| ==> IsGlobal(mask, r.groups[i]) then
      Ok(Lowered(WithGroups(r, r.groups), false, 0))
    else if !IsAsyncCopy(r.opcode) || |r.groups| != 2 then Err(MixedSpaces)
    else
      var global := Filter(GlobalIn(mask), r.groups);
      var shared := Filter(SharedIn(mask), r.groups);
      if |global| == 1 && |shared| == 1 then Ok(Lowered(WithGroups(r, [global[0]]), true, 1))
      else Err(MixedSpaces)
  }

  lemma {:induction false} FilterAll<T>(p: T -> bool, xs: seq<T>)
    requires forall i :: 0 <= i < |xs| ==> p(xs[i])
    ensures Filter(p, xs) == xs
  {
    if xs != [] {
      FilterAll(p, xs[1..]);
      assert xs == [xs[0]] + xs[1..];
    }
  }

  /**
   * An accepted record with a nonzero mask keeps exactly its full-mask global groups, in order;
   * whatever it loses is a full-mask shared group, and only an async copy loses one.
   */
  lemma LowerKeepsGlobalGroups(r: MemcRecord, mask: nat, l: Lowered)
    requires Lower(r) == Ok(l) && ParseHex(r.mask) == Ok(mask) && mask != 0
    ensures l.record == WithGroups(r, Filter(GlobalIn(mask), r.groups))
    ensures |r.groups| == |l.record.groups| + l.discarded
    ensures l.discarded == if l.async then 1 else 0
    ensures l.async ==> IsAsyncCopy(r.opcode)
    ensures r.groups != [] ==> l.record.groups != []
    ensures forall i :: 0 <= i < |r.groups| ==> IsGlobal(mask, r.groups[i]) || (l.async && IsShared(mask, r.groups[i]))
  {
    hide ParseHex;
    var p, q := GlobalIn(mask), SharedIn(mask);
    if forall i :: 0 <= i < |r.groups| ==> IsGlobal(mask, r.groups[i]) {
      FilterAll(p, r.groups);
    } else {
      var a, b := r.groups[0], r.groups[1];
      assert r.groups == [a, b];
      FilterPair(p, a, b);
      FilterPair(q, a, b);
      assert p(a) != p(b) && q(a) != q(b) && !(p(a) && q(a)) && !(p(b) && q(b));
    }
  }

  lemma FilterPair<T>(p: T -> bool, a: T, b: T)
    ensures Filter(p, [a, b]) == (if p(a) then [a] else []) + (if p(b) then [b] else [])
  {
    assert [a, b][1..] == [b];
    assert Filter(p, [b]) == (if p(b) then [b] else []) + Filter(p, []);
  }

  /** All active lanes lie in one address space, and none in the other three. */
  predicate OnlyIn(mask: nat, space: nat, a: nat, b: nat, c: nat) {
    space == mask && a == 0 && b == 0 && c == 0
  }

  predicate GlobalAt(mask: nat, groups: seq<MemcGroup>, k: nat)
    requires k < |groups|
  {
    var g := groups[k];
    OnlyIn(mask, g.globalMask, g.localMask, g.sharedMask, g.unknownMask)
  }

  predicate SharedAt(mask: nat, groups: seq<MemcGroup>, k: nat)
    requires k < |groups|
  {
    var g := groups[k];
    OnlyIn(mask, g.sharedMask, g.globalMask, g.localMask, g.unknownMask)
  }

  predicate WhollyGlobal(mask: nat, groups: seq<MemcGroup>) {
    forall k :: 0 <= k < |groups| ==> GlobalAt(mask, groups, k)
  }

  /** Of two groups exactly one is wholly global and exactly one wholly shared. */
  predicate CopyPair(mask: nat, groups: seq<MemcGroup>) {
    && |groups| == 2
    && (GlobalAt(mask, groups, 0) <==> !GlobalAt(mask, groups, 1))
    && (SharedAt(mask, groups, 0) <==> !SharedAt(mask, groups, 1))
  }

  /** If some lane is active, these are two different groups. */
  lemma CopyPairIs(mask: nat, groups: seq<MemcGroup>)
    requires mask != 0
    ensures CopyPair(mask, groups)
       <==> && |groups| == 2
            && ((GlobalAt(mask, groups, 0) && SharedAt(mask, groups, 1))
                || (SharedAt(mask, groups, 0) && GlobalAt(mask, groups, 1)))
  {
  }

  lemma PlacesAre(mask: nat, groups: seq<MemcGroup>, k: nat)
    requires k < |groups|
    ensures IsGlobal(mask, groups[k]) <==> GlobalAt(mask, groups, k)
    ensures IsShared(mask, groups[k]) <==> SharedAt(mask, groups, k)
  {
  }

  lemma WhollyGlobalIs(mask: nat, groups: seq<MemcGroup>)
    ensures WhollyGlobal(mask, groups) <==> forall i :: 0 <= i < |groups| ==> IsGlobal(mask, groups[i])
  {
    hide IsGlobal, GlobalAt;
    forall k | 0 <= k < |groups| ensures IsGlobal(mask, groups[k]) <==> GlobalAt(mask, groups, k) {
      PlacesAre(mask, groups, k);
    }
  }

  /**
   * What is accepted: a readable mask, and either wholly global traffic, or an LDGSTS with one wholly global
   * and one wholly shared group.
   */
  lemma LowersExactlyWhen(r: MemcRecord)
    ensures Lower(r).Ok?
       <==> && ParseHex(r.mask).Ok?
            && (WhollyGlobal(ParseHex(r.mask).value, r.groups)
                || (|r.opcode| >= 6 && r.opcode[..6] == ['L', 'D', 'G', 'S', 'T', 'S']
                    && CopyPair(ParseHex(r.mask).value, r.groups)))
  {
    hide ParseHex, Filter;
    if ParseHex(r.mask).Ok? {
      WhollyGlobalIs(ParseHex(r.mask).value, r.groups);
    }
    if ParseHex(r.mask).Ok? && |r.groups| == 2 {
      var mask := ParseHex(r.mask).value;
      var a, b := r.groups[0], r.groups[1];
      assert r.groups == [a, b];
      FilterPair(GlobalIn(mask), a, b);
      FilterPair(SharedIn(mask), a, b);
      PlacesAre(mask, r.groups, 0);
      PlacesAre(mask, r.groups, 1);
      hide OnlyIn, IsGlobal, IsShared;
      assert GlobalIn(mask)(a) == GlobalAt(mask, r.groups, 0) && GlobalIn(mask)(b) == GlobalAt(mask, r.groups, 1);
      assert SharedIn(mask)(a) == SharedAt(mask, r.groups, 0) && SharedIn(mask)(b) == SharedAt(mask, r.groups, 1);
    }
  }

  /** What an accepted record keeps, field by field: everything but the groups of a copy that are not global. */
  lemma LoweredFields(r: MemcRecord, l: Lowered)
    requires Lower(r) == Ok(l)
    ensures var x := l.record;
      && x.block == r.block && x.pc == r.pc && x.opcode == r.opcode && x.mask == r.mask
      && x.timestamp == r.timestamp && x.sequence == r.sequence
    ensures var mask, x := ParseHex(r.mask).value, l.record;
      if WhollyGlobal(mask, r.groups) then
        && !l.async && l.discarded == 0 && |x.groups| == |r.groups|
        && forall k :: 0 <= k < |r.groups| ==> x.groups[k] == Group(r.groups[k].base, r.groups[k].pairs)
      else
        && l.async && l.discarded == 1 && |r.groups| == 2 && |x.groups| == 1
        && forall k :: 0 <= k < 2 && GlobalAt(mask, r.groups, k) ==>
             x.groups[0] == Group(r.groups[k].base, r.groups[k].pairs)
  {
    hide ParseHex, Filter;
    var mask := ParseHex(r.mask).value;
    WhollyGlobalIs(mask, r.groups);
    if !WhollyGlobal(mask, r.groups) {
      var a, b := r.groups[0], r.groups[1];
      assert r.groups == [a, b];
      FilterPair(GlobalIn(mask), a, b);
      PlacesAre(mask, r.groups, 0);
      PlacesAre(mask, r.groups, 1);
    }
  }

  // --------------------------------------------------------- sequence numbers

  function GapEvents(s: seq<MemcRecord>): nat {
    if |s| < 2 then 0
    else GapEvents(s[..|s| - 1]) + if s[|s| - 1].sequence != s[|s| - 2].sequence + 1 then 1 else 0
  }

  /** How many numbers between the first and the last are absent. */
  function Absent(s: seq<MemcRecord>): int {
    if |s| < 2 then 0
    else Absent(s[..|s| - 1]) + (s[|s| - 1].sequence - s[|s| - 2].sequence - 1)
  }

  predicate Increasing(s: seq<MemcRecord>) {
    forall i :: 0 < i < |s| ==> s[i - 1].sequence < s[i].sequence
  }

  predicate Contiguous(s: seq<MemcRecord>) {
    forall i :: 0 < i < |s| ==> s[i].sequence == s[i - 1].sequence + 1
  }

  /** Every number from first to last is either a record's or counted as absent. */
  lemma {:induction false} SequenceConservation(s: seq<MemcRecord>)
    requires s != []
    ensures s[|s| - 1].sequence - s[0].sequence + 1 == |s| + Absent(s)
    ensures Increasing(s) ==> Absent(s) >= GapEvents(s)
    ensures GapEvents(s) == 0 <==> Contiguous(s)
  {
    if |s| >= 2 {
      var t := s[..|s| - 1];
      SequenceConservation(t);
      assert forall i :: 0 <= i < |t| ==> t[i] == s[i];
      if Contiguous(t) && s[|s| - 1].sequence == s[|s| - 2].sequence + 1 {
        assert Contiguous(s);
      }
      if Increasing(s) {
        assert Increasing(t);
        assert s[|s| - 2].sequence < s[|s| - 1].sequence;
      }
      if Contiguous(s) {
        assert Contiguous(t);
      }
    }
  }

  // --------------------------------------------------------------- collection

  predicate Lowerable(r: MemcRecord) {
    Lower(r).Ok?
  }

  predicate SelectedLowerable(s: seq<MemcRecord>, selected: set<int>) {
    forall i :: 0 <= i < |s| && s[i].block in selected ==> Lowerable(s[i])
  }

  /** One CTA's records: the whole stream filtered by block, in order, lowered. */
  function Found(s: seq<MemcRecord>, block: int): seq<Record>
    requires SelectedLowerable(s, {block})
  {
    if s == [] then []
    else
      var last := s[|s| - 1];
      Found(s[..|s| - 1], block) + if last.block == block then [Lower(last).value.record] else []
  }

  function AsyncCount(s: seq<MemcRecord>, selected: set<int>): nat
    requires SelectedLowerable(s, selected)
  {
    if s == [] then 0
    else
      var last := s[|s| - 1];
      AsyncCount(s[..|s| - 1], selected) + if last.block in selected && Lower(last).value.async then 1 else 0
  }

  datatype Collection = Collection(
    found: map<int, seq<Record>>, records: nat, asyncRecords: nat, discardedGroups: nat,
    first: Option<int>, last: Option<int>, gapEvents: nat, absent: int)

  function FoundMap(s: seq<MemcRecord>, selected: set<int>): map<int, seq<Record>>
    requires SelectedLowerable(s, selected)
  {
    map b | b in selected :: Found(s, b)
  }

  function Summary(s: seq<MemcRecord>, selected: set<int>): Collection
    requires SelectedLowerable(s, selected)
  {
    Collection(FoundMap(s, selected), |s|, AsyncCount(s, selected), AsyncCount(s, selected),
               if s == [] then None else Some(s[0].sequence), if s == [] then None else Some(s[|s| - 1].sequence),
               GapEvents(s), Absent(s))
  }

  /** What `collect_ctas_memc` demands of the records of all files, taken together. */
  predicate Collectable(s: seq<MemcRecord>, selected: set<int>, allowEmpty: bool, gapsValidated: bool) {
    && Increasing(s)
    && (gapsValidated || Contiguous(s))
    && SelectedLowerable(s, selected)
    && (allowEmpty || forall b :: b in selected ==> Found(s, b) != [])
  }

  /** The decoded records of the rotated files, one after the other. */
  function DecodeFiles(files: seq<seq<byte>>): Result<seq<MemcRecord>> {
    if files == [] then Ok([])
    else
      var init :- DecodeFiles(files[..|files| - 1]);
      var last :- DecodeFile(files[|files| - 1]);
      Ok(init + RenderAll(last))
  }

  lemma {:induction false} DecodeFilesPrefix(files: seq<seq<byte>>, k: nat)
    requires k <= |files| && DecodeFiles(files[..k]).Err?
    ensures DecodeFiles(files).Err?
    decreases |files|
  {
    if k < |files| {
      assert files[..|files| - 1][..k] == files[..k];
      DecodeFilesPrefix(files[..|files| - 1], k);
    } else {
      assert files[..k] == files;
    }
  }

  function Collect(files: seq<seq<byte>>, selected: set<int>, allowEmpty: bool,
                   gapsValidated: bool): Option<Collection> {
    match DecodeFiles(files)
    case Err(_) => None
    case Ok(s) => if Collectable(s, selected, allowEmpty, gapsValidated) then Some(Summary(s, selected)) else None
  }

  function AtBlock(b: int): MemcRecord -> bool {
    (r: MemcRecord) => r.block == b
  }

  function LoweredRecord(): MemcRecord -> Record {
    (r: MemcRecord) => if Lower(r).Ok? then Lower(r).value.record else WithGroups(r, [])
  }

  /** A CTA's list is the lowered filter of the whole stream. */
  lemma {:induction false} FoundIs(s: seq<MemcRecord>, b: int)
    requires SelectedLowerable(s, {b})
    ensures Found(s, b) == Map(LoweredRecord(), Filter(AtBlock(b), s))
    decreases |s|
  {
    hide Lower, Filter;
    if s != [] {
      var init, r := s[..|s| - 1], s[|s| - 1];
      assert s == init + [r];
      FoundIs(init, b);
      FilterAppend(AtBlock(b), init, [r]);
      FilterOne(AtBlock(b), r);
      if r.block == b {
        assert Lowerable(r);
      } else {
        assert Filter(AtBlock(b), s) == Filter(AtBlock(b), init) + [] == Filter(AtBlock(b), init);
      }
    } else {
      FilterNone(AtBlock(b), s);
    }
  }

  predicate GapAt(s: seq<MemcRecord>, i: int) {
    0 < i < |s| && s[i].sequence != s[i - 1].sequence + 1
  }

  /** Where a number is not its predecessor's successor. */
  function Gaps(s: seq<MemcRecord>): set<int> {
    set i | 0 < i < |s| && GapAt(s, i)
  }

  lemma {:induction false} GapEventsAre(s: seq<MemcRecord>)
    ensures GapEvents(s) == |Gaps(s)|
  {
    if |s| < 2 {
      assert Gaps(s) == {};
    } else {
      var n, t := |s| - 1, s[..|s| - 1];
      GapEventsAre(t);
      assert forall i :: i < n ==> (GapAt(s, i) <==> GapAt(t, i));
      assert GapAt(s, n) <==> s[n].sequence != s[n - 1].sequence + 1;
      assert Gaps(s) == Gaps(t) + if GapAt(s, n) then {n} else {};
    }
  }

  predicate IsCopy(r: MemcRecord, selected: set<int>) {
    r.block in selected && ParseHex(r.mask).Ok? && !WhollyGlobal(ParseHex(r.mask).value, r.groups)
  }

  /** The records of selected CTAs that are not wholly global. */
  function Copies(s: seq<MemcRecord>, selected: set<int>): set<int> {
    set i | 0 <= i < |s| && IsCopy(s[i], selected)
  }

  lemma CopyLowered(r: MemcRecord, selected: set<int>)
    requires r.block in selected ==> Lowerable(r)
    ensures IsCopy(r, selected) <==> r.block in selected && Lower(r).value.async
  {
    if r.block in selected {
      LoweredFields(r, Lower(r).value);
    }
  }

  lemma {:induction false} AsyncCountIs(s: seq<MemcRecord>, selected: set<int>)
    requires SelectedLowerable(s, selected)
    ensures AsyncCount(s, selected) == |Copies(s, selected)|
  {
    hide Lower, IsCopy;
    if s == [] {
      assert Copies(s, selected) == {};
    } else {
      var n, t := |s| - 1, s[..|s| - 1];
      AsyncCountIs(t, selected);
      if s[n].block in selected {
        assert Lowerable(s[n]);
      }
      CopyLowered(s[n], selected);
      assert Copies(s, selected) == Copies(t, selected) + if IsCopy(s[n], selected) then {n} else {};
    }
  }

  lemma FoundStep(s: seq<MemcRecord>, r: MemcRecord, b: int)
    requires SelectedLowerable(s, {b}) && (r.block == b ==> Lowerable(r))
    ensures SelectedLowerable(s + [r], {b})
    ensures Found(s + [r], b) == Found(s, b) + if r.block == b then [Lower(r).value.record] else []
  {
    hide Lower;
    assert (s + [r])[..|s + [r]| - 1] == s;
  }

  function AddFound(found: map<int, seq<Record>>, block: int, r: Record): map<int, seq<Record>>
    requires block in found
  {
    found[block := found[block] + [r]]
  }

  lemma FoundMapStep(s: seq<MemcRecord>, r: MemcRecord, selected: set<int>)
    requires SelectedLowerable(s, selected) && (r.block in selected ==> Lowerable(r))
    ensures SelectedLowerable(s + [r], selected)
    ensures FoundMap(s + [r], selected)
         == if r.block in selected then AddFound(FoundMap(s, selected), r.block, Lower(r).value.record)
            else FoundMap(s, selected)
  {
    hide Lower, Found;
    SelectedExtends(s, r, selected);
    var after, before := FoundMap(s + [r], selected), FoundMap(s, selected);
    var expected := if r.block in selected then AddFound(before, r.block, Lower(r).value.record) else before;
    assert after.Keys == expected.Keys;
    forall b | b in selected ensures after[b] == expected[b] {
      FoundStep(s, r, b);
    }
  }

  lemma AsyncStep(s: seq<MemcRecord>, r: MemcRecord, selected: set<int>)
    requires SelectedLowerable(s + [r], selected) && SelectedLowerable(s, selected)
    requires r.block in selected ==> Lowerable(r)
    ensures AsyncCount(s + [r], selected)
         == AsyncCount(s, selected) + if r.block in selected && Lower(r).value.async then 1 else 0
  {
    hide Lower;
    assert (s + [r])[..|s + [r]| - 1] == s;
    assert (s + [r])[|s|] == r;
  }

  lemma CountersStep(s: seq<MemcRecord>, r: MemcRecord)
    requires s != []
    ensures GapEvents(s + [r]) == GapEvents(s) + if r.sequence != s[|s| - 1].sequence + 1 then 1 else 0
    ensures Absent(s + [r]) == Absent(s) + (r.sequence - s[|s| - 1].sequence - 1)
  {
    assert (s + [r])[..|s + [r]| - 1] == s;
  }

  lemma OrderStep(s: seq<MemcRecord>, r: MemcRecord)
    requires s != []
    ensures Increasing(s + [r]) <==> Increasing(s) && s[|s| - 1].sequence < r.sequence
    ensures Contiguous(s + [r]) <==> Contiguous(s) && s[|s| - 1].sequence + 1 == r.sequence
  {
    var t := s + [r];
    assert forall i :: 0 <= i < |s| ==> t[i] == s[i];
    assert t[|s|] == r && t[|s| - 1] == s[|s| - 1];
    if Increasing(t) {
      assert t[|s| - 1].sequence < t[|s|].sequence;
    }
    if Contiguous(t) {
      assert t[|s|].sequence == t[|s| - 1].sequence + 1;
    }
  }

  /** A prefix the scan cannot get past spoils the whole stream. */
  lemma PrefixMustBeCollectable(s: seq<MemcRecord>, k: nat, selected: set<int>, allowEmpty: bool, gapsValidated: bool)
    requires k <= |s| && Collectable(s, selected, allowEmpty, gapsValidated)
    ensures Collectable(s[..k], selected, true, gapsValidated)
  {
    var t := s[..k];
    assert forall i :: 0 <= i < k ==> t[i] == s[i];
  }

  lemma DecodeFilesExtends(files: seq<seq<byte>>, k: nat)
    requires k <= |files| && DecodeFiles(files).Ok?
    ensures DecodeFiles(files[..k]).Ok? && DecodeFiles(files[..k]).value <= DecodeFiles(files).value
    decreases |files|
  {
    hide DecodeFile;
    if k < |files| {
      assert files[..|files| - 1][..k] == files[..k];
      DecodeFilesExtends(files[..|files| - 1], k);
    } else {
      assert files[..k] == files;
    }
  }

  /** The scan's running totals describe the records `done` seen so far. */
  ghost predicate Tracks(c: Collection, done: seq<MemcRecord>, selected: set<int>, gapsValidated: bool) {
    Collectable(done, selected, true, gapsValidated) && c == Summary(done, selected)
  }

  lemma AsyncDiscards(r: MemcRecord)
    requires Lower(r).Ok?
    ensures Lower(r).value.discarded == if Lower(r).value.async then 1 else 0
  {
    hide ParseHex;
  }

  lemma TracksWhat(c: Collection, done: seq<MemcRecord>, selected: set<int>, gapsValidated: bool)
    requires Tracks(c, done, selected, gapsValidated)
    ensures c.found.Keys == selected
    ensures c.last == if done == [] then None else Some(done[|done| - 1].sequence)
  {
  }

  lemma FirstRecord(r: MemcRecord)
    ensures Increasing([r]) && Contiguous([r])
    ensures GapEvents([]) == 0 == GapEvents([r]) && Absent([]) == 0 == Absent([r])
  {
  }

  /** One turn of the scan's inner loop; None when the source raises. */
  method Take(c: Collection, r: MemcRecord, selected: set<int>, gapsValidated: bool, ghost done: seq<MemcRecord>)
    returns (next: Option<Collection>)
    requires Tracks(c, done, selected, gapsValidated)
    ensures next.Some? ==> Tracks(next.value, done + [r], selected, gapsValidated)
    ensures next.None? ==> !Collectable(done + [r], selected, true, gapsValidated)
  {
    hide Lower, Increasing, Contiguous, GapEvents, Absent, AsyncCount, FoundMap;
    TracksWhat(c, done, selected, gapsValidated);
    var gapEvents, absent, first := c.gapEvents, c.absent, c.first;
    assert (done + [r])[|done|] == r;
    if done == [] {
      assert done + [r] == [r];
      FirstRecord(r);
    } else {
      CountersStep(done, r);
      OrderStep(done, r);
    }
    match c.last {
      case Some(previous) =>
        if r.sequence <= previous {
          return None;
        }
        if r.sequence != previous + 1 {
          if !gapsValidated {
            return None;
          }
          gapEvents := gapEvents + 1;
          absent := absent + (r.sequence - previous - 1);
        }
      case None =>
        first := Some(r.sequence);
    }
    if r.block !in selected {
      FoundMapStep(done, r, selected);
      AsyncStep(done, r, selected);
      next := Some(c.(records := c.records + 1, first := first, last := Some(r.sequence),
                      gapEvents := gapEvents, absent := absent));
    } else {
      match Lower(r) {
        case Err(_) =>
          assert !Lowerable((done + [r])[|done|]);
          return None;
        case Ok(l) =>
          SelectedExtends(done, r, selected);
          FoundMapStep(done, r, selected);
          AsyncStep(done, r, selected);
          AsyncDiscards(r);
          var async := if l.async then 1 else 0;
          next := Some(Collection(c.found[r.block := c.found[r.block] + [l.record]], c.records + 1,
                                  c.asyncRecords + async, c.discardedGroups + l.discarded,
                                  first, Some(r.sequence), gapEvents, absent));
      }
    }
  }

  lemma SelectedExtends(s: seq<MemcRecord>, r: MemcRecord, selected: set<int>)
    requires SelectedLowerable(s, selected) && (r.block in selected ==> Lowerable(r))
    ensures SelectedLowerable(s + [r], selected)
  {
    hide Lowerable;
  }

  /** The scan of one file's records. */
  method TakeAll(c0: Collection, records: seq<MemcRecord>, selected: set<int>, gapsValidated: bool,
                 ghost before: seq<MemcRecord>)
    returns (r: Option<Collection>)
    requires Tracks(c0, before, selected, gapsValidated)
    ensures r.Some? ==> Tracks(r.value, before + records, selected, gapsValidated)
    ensures r.None? ==>
              exists k :: 0 <= k <= |records| && !Collectable(before + records[..k], selected, true, gapsValidated)
  {
    hide Tracks, Collectable;
    var c := c0;
    assert before + records[..0] == before;
    for k := 0 to |records|
      invariant Tracks(c, before + records[..k], selected, gapsValidated)
    {
      assert (before + records[..k]) + [records[k]] == before + records[..k + 1];
      var next := Take(c, records[k], selected, gapsValidated, before + records[..k]);
      if next.None? {
        return None;
      }
      c := next.value;
    }
    assert records[..|records|] == records;
    return Some(c);
  }

  /** `collect_ctas_memc` */
  method CollectCtas(files: seq<seq<byte>>, selected: set<int>, allowEmpty: bool, gapsValidated: bool)
    returns (r: Option<Collection>)
    ensures r == Collect(files, selected, allowEmpty, gapsValidated)
  {
    hide DecodeFile, DecodeFiles, RenderAll, Tracks, Collect, Collectable;
    var c := Collection(map b | b in selected :: [], 0, 0, 0, None, None, 0, 0);
    ghost var done: seq<MemcRecord> := [];
    TracksNothing(selected, gapsValidated);
    assert files[..0] == [];
    for i := 0 to |files|
      invariant DecodeFiles(files[..i]) == Ok(done)
      invariant Tracks(c, done, selected, gapsValidated)
    {
      DecodeFilesStep(files, i);
      var records := MemcRecords(files[i]);
      if records.Err? {
        Undecodable(files, i + 1, selected, allowEmpty, gapsValidated);
        return None;
      }
      var next := TakeAll(c, records.value, selected, gapsValidated, done);
      if next.None? {
        ghost var k :|
          0 <= k <= |records.value| && !Collectable(done + records.value[..k], selected, true, gapsValidated);
        Rejected(files, i + 1, done + records.value[..k], selected, allowEmpty, gapsValidated);
        return None;
      }
      c, done := next.value, done + records.value;
    }
    assert files[..|files|] == files;
    Finished(files, c, selected, allowEmpty, gapsValidated);
    if !allowEmpty && exists b :: b in selected && c.found[b] == [] {
      return None;
    }
    return Some(c);
  }

  lemma Undecodable(files: seq<seq<byte>>, k: nat, selected: set<int>, allowEmpty: bool, gapsValidated: bool)
    requires k <= |files| && DecodeFiles(files[..k]).Err?
    ensures Collect(files, selected, allowEmpty, gapsValidated) == None
  {
    DecodeFilesPrefix(files, k);
  }

  lemma TracksNothing(selected: set<int>, gapsValidated: bool)
    ensures Tracks(Collection(map b | b in selected :: [], 0, 0, 0, None, None, 0, 0), [], selected, gapsValidated)
    ensures DecodeFiles([]) == Ok([])
  {
    assert FoundMap([], selected) == map b | b in selected :: [];
  }

  lemma DecodeFilesStep(files: seq<seq<byte>>, i: nat)
    requires i < |files| && DecodeFiles(files[..i]).Ok?
    ensures DecodeFile(files[i]).Ok? ==>
              DecodeFiles(files[..i + 1]) == Ok(DecodeFiles(files[..i]).value + RenderAll(DecodeFile(files[i]).value))
    ensures DecodeFile(files[i]).Err? ==> DecodeFiles(files[..i + 1]).Err?
  {
    hide DecodeFile;
    assert files[..i + 1][..i] == files[..i];
  }

  lemma Finished(files: seq<seq<byte>>, c: Collection, selected: set<int>, allowEmpty: bool, gapsValidated: bool)
    requires DecodeFiles(files).Ok? && Tracks(c, DecodeFiles(files).value, selected, gapsValidated)
    ensures c.found.Keys == selected
    ensures Collect(files, selected, allowEmpty, gapsValidated)
         == if !allowEmpty && exists b :: b in selected && c.found[b] == [] then None else Some(c)
  {
    hide DecodeFiles, Lower, GapEvents, Absent, AsyncCount;
    var s := DecodeFiles(files).value;
    assert forall b :: b in selected ==> c.found[b] == Found(s, b);
  }

  lemma Rejected(files: seq<seq<byte>>, k: nat, t: seq<MemcRecord>, selected: set<int>, allowEmpty: bool,
                 gapsValidated: bool)
    requires k <= |files| && DecodeFiles(files[..k]).Ok? && t <= DecodeFiles(files[..k]).value
    requires !Collectable(t, selected, true, gapsValidated)
    ensures Collect(files, selected, allowEmpty, gapsValidated) == None
  {
    hide DecodeFile, Collectable;
    if DecodeFiles(files).Ok? {
      DecodeFilesExtends(files, k);
      var s := DecodeFiles(files).value;
      assert t == s[..|t|];
      if Collectable(s, selected, allowEmpty, gapsValidated) {
        PrefixMustBeCollectable(s, |t|, selected, allowEmpty, gapsValidated);
      }
    }
  }

  /**
   * The totals the scan reports about any nonempty run it accepts: no number between the first and
   * the last goes unaccounted for, a zero gap count means contiguity, the shared groups dropped are as
   * many as the async copies lowered, and each CTA's list is the lowered filter of the whole stream.
   */
  lemma CollectionAccounting(files: seq<seq<byte>>, selected: set<int>, allowEmpty: bool, gapsValidated: bool,
                             c: Collection, s: seq<MemcRecord>)
    requires Collect(files, selected, allowEmpty, gapsValidated) == Some(c)
    requires DecodeFiles(files) == Ok(s) && s != []
    ensures c.records == |s| && c.first == Some(s[0].sequence) && c.last == Some(s[|s| - 1].sequence)
    ensures c.last.value - c.first.value + 1 == c.records + c.absent
    ensures c.gapEvents == |Gaps(s)| && (c.gapEvents == 0 <==> Contiguous(s)) && (c.gapEvents == 0 <==> c.absent == 0)
    ensures SelectedLowerable(s, selected) && c.discardedGroups == c.asyncRecords == |Copies(s, selected)|
    ensures c.found.Keys == selected
    ensures forall b :: b in selected ==> c.found[b] == Map(LoweredRecord(), Filter(AtBlock(b), s))
  {
    hide DecodeFiles, Lower, AsyncCount, GapEvents, Gaps, Copies, Found, Filter;
    SequenceConservation(s);
    GapEventsAre(s);
    AsyncCountIs(s, selected);
    forall b | b in selected ensures Found(s, b) == Map(LoweredRecord(), Filter(AtBlock(b), s)) {
      FoundIs(s, b);
    }
    if Contiguous(s) {
      AbsentZero(s);
    }
  }

  /**
   * What the scan accepts: files that decode, numbers that rise, by one each unless gaps are validated, records
   * of the selected CTAs that can be lowered, and each of these CTAs present unless empty ones are allowed.
   */
  lemma CollectsExactlyWhen(files: seq<seq<byte>>, selected: set<int>, allowEmpty: bool, gapsValidated: bool,
                            s: seq<MemcRecord>)
    requires DecodeFiles(files) == Ok(s)
    ensures Collect(files, selected, allowEmpty, gapsValidated).Some?
       <==> && (forall i :: 0 < i < |s| ==> s[i - 1].sequence < s[i].sequence)
            && (gapsValidated || forall i :: 0 < i < |s| ==> s[i].sequence == s[i - 1].sequence + 1)
            && (forall i :: 0 <= i < |s| && s[i].block in selected ==> Lower(s[i]).Ok?)
            && (allowEmpty || forall b :: b in selected ==> exists i :: 0 <= i < |s| && s[i].block == b)
  {
    hide DecodeFiles, Lower, Found, AsyncCount;
    if SelectedLowerable(s, selected) {
      forall b | b in selected
        ensures SelectedLowerable(s, {b}) && (Found(s, b) != [] <==> exists i :: 0 <= i < |s| && s[i].block == b)
      {
        FoundIs(s, b);
        FilterNonempty(AtBlock(b), s);
      }
    }
  }

  lemma {:induction false} AbsentZero(s: seq<MemcRecord>)
    requires Contiguous(s)
    ensures Absent(s) == 0
  {
    if |s| >= 2 {
      var t := s[..|s| - 1];
      assert forall i :: 0 <= i < |t| ==> t[i] == s[i];
      AbsentZero(t);
    }
  }
}
