/** The sampled pipeline on a concrete kernel: six CTAs with one load each, of which three are captured. */
module SampledExample {
  import opened Common
  import opened Sequences
  import opened Varint
  import opened Memc
  import opened Capture
  import opened Classes
  import opened Profile
  import opened Generate
  import opened Extrapolation
  import opened Lines
  import opened TraceFile
  import opened Audit
  import opened Replay
  import opened SampledReplay
  import opened OneLane
  import opened StepExample

  /** The loads of the first `n` CTAs: four bytes from plane to plane. */
  function RampWires(n: nat): seq<Wire> {
    seq(n, i requires 0 <= i < n => WireLoad(i, 4 * i))
  }

  function RampCapture(n: nat): (s: seq<MemcRecord>)
    ensures |s| == n && forall i :: 0 <= i < n ==> s[i] == Render(WireLoad(i, 4 * i))
  {
    RenderAll(RampWires(n))
  }

  lemma RampFile(n: nat) returns (files: seq<seq<byte>>)
    requires n <= 6
    ensures DecodeFiles(files) == Ok(RampCapture(n))
  {
    hide EncodeFile, DecodeFile, WellFormed, OpcodesOk, WireLoad;
    forall i | 0 <= i < n ensures WellFormed(["LDG"], WireLoad(i, 4 * i)) {
      WireLoadWellFormed(i, 4 * i);
    }
    WireLoadWellFormed(0, 0);
    FileRoundTrip(["LDG"], RampWires(n));
    files := [EncodeFile(["LDG"], RampWires(n))];
    OneFile(files[0], RampWires(n));
  }

  lemma RampRecord(i: nat)
    ensures var r := Render(WireLoad(i, 4 * i));
      r.block == i && r.sequence == i && r.opcode == "LDG" && Lowerable(r) && Lower(r).value.record == Load(i, 4 * i)
  {
    hide Lower;
    WireLoadLowers(i, 4 * i);
  }

  lemma RampRecords(n: nat)
    ensures Increasing(RampCapture(n)) && Contiguous(RampCapture(n))
    ensures forall i :: 0 <= i < n ==>
              var r := RampCapture(n)[i];
              r.block == i && r.opcode == "LDG" && Lowerable(r)
  {
    hide Lowerable, Render, WireLoad;
    forall i | 0 <= i < n
      ensures var r := RampCapture(n)[i];
        r.block == i && r.sequence == i && r.opcode == "LDG" && Lowerable(r)
    {
      RampRecord(i);
    }
  }

  lemma {:induction false} RampFound(n: nat, b: int)
    ensures SelectedLowerable(RampCapture(n), {b})
    ensures Found(RampCapture(n), b) == if 0 <= b < n then [Load(b, 4 * b)] else []
  {
    hide Lower, Load, Render, WireLoad;
    RampRecords(n);
    if n > 0 {
      RampFound(n - 1, b);
      RampRecord(n - 1);
      var s := RampCapture(n);
      assert s == RampCapture(n - 1) + [s[n - 1]];
      FoundStep(RampCapture(n - 1), s[n - 1], b);
    }
  }

  lemma RampCollected(files: seq<seq<byte>>, n: nat, selected: set<int>, allowEmpty: bool, gapsValidated: bool)
    requires DecodeFiles(files) == Ok(RampCapture(n)) && forall b :: b in selected ==> 0 <= b < n
    ensures var c := Collect(files, selected, allowEmpty, gapsValidated);
      && c.Some? && c.value.found.Keys == selected
      && forall b :: b in selected ==> c.value.found[b] == [Load(b, 4 * b)]
  {
    hide DecodeFiles, Increasing, Contiguous, Lower, RampCapture, Load, Found, AsyncCount, GapEvents, Absent;
    RampRecords(n);
    forall b | b in selected
      ensures SelectedLowerable(RampCapture(n), {b}) && Found(RampCapture(n), b) == [Load(b, 4 * b)]
    {
      RampFound(n, b);
    }
    assert SelectedLowerable(RampCapture(n), selected);
  }

  lemma CleanLoad()
    ensures Clean("LDG")
  {
  }

  /** The sample: CTAs 0, 1 and 2, in a capture of their own. */
  lemma RampSampled(files: seq<seq<byte>>, c: Collection)
    requires DecodeFiles(files) == Ok(RampCapture(3))
    requires Collect(files, SetOf(Selected(SAMPLE)), false, false) == Some(c)
    ensures c.found == LowCapture()
    ensures SampledFrom(Ramp(), files, SAMPLE, false, RampCapture(3), c)
  {
    hide DecodeFiles, Collect, RampCapture, LawSampled, Load, SelectionOk, Clean, Lowerable;
    LowSelection();
    assert SetOf([0, 1, 2]) == {0, 1, 2};
    RampCollected(files, 3, {0, 1, 2}, false, false);
    assert c.found == LowCapture();
    LowLaw();
    RampRecords(3);
    CleanLoad();
  }

  /** The grid: all six CTAs. */
  lemma RampGrid(files: seq<seq<byte>>, c: Collection, w: Collection)
    requires DecodeFiles(files) == Ok(RampCapture(6)) && c.found == LowCapture()
    requires Collect(files, Blocks(6), true, true) == Some(w)
    ensures GridFrom(Ramp(), SAMPLE, c, files, RampCapture(6), w)
  {
    hide DecodeFiles, Collect, RampCapture, Load, Follows, Blocks;
    forall b ensures b in Blocks(6) <==> 0 <= b < 6 {
      BlocksAre(6, b);
    }
    RampCollected(files, 6, Blocks(6), true, true);
    LowAt(0);
    forall b | 0 <= b < 6 ensures b in w.found && Follows(Ramp(), c.found[0], w.found[b], b, TALL) {
      LoadFollows(b, 4 * b);
    }
  }

  /** All CTAs on SM 0, from time 0 on. */
  function AllAtOnce(): map<int, Placement> {
    map b | b in Blocks(6) :: Placement(0, 0)
  }

  /** Sample and grid are these captures, and the text made from the sample passes the audit against the grid. */
  ghost predicate RampAudited(d: Digests, sample: seq<seq<byte>>, grid: seq<seq<byte>>, lines: seq<string>) {
    hide DecodeFiles, ReplayOf, AuditPasses, SplitLines, Joined;
    && DecodeFiles(sample) == Ok(RampCapture(3)) && DecodeFiles(grid) == Ok(RampCapture(6))
    && ReplayOf(sample, SAMPLE, false, AllAtOnce(), lines) && SplitLines(Joined(lines)) == lines
    && AuditPasses(d, RampCapture(6), lines)
  }

  /**
   * The premises of the theorem on sampled grids can be met: a capture of three of the kernel's CTAs is
   * profiled and generated, and the text passes the audit against a capture of all six.
   */
  lemma RampSamplePassesAudit(d: Digests) returns (sample: seq<seq<byte>>, grid: seq<seq<byte>>, lines: seq<string>)
    ensures RampAudited(d, sample, grid, lines)
  {
    hide DecodeFiles, Collect, RampCapture, SampledFrom, GridFrom, SelectionOk, Lowerable, Contiguous, AuditPasses,
      ReplayOf, CountsFit, SplitLines, Joined, Blocks;
    sample := RampFile(3);
    grid := RampFile(6);
    var c, w := RampCollections(sample, grid);
    RampRecords(6);
    FewRecordsFit(RampCapture(6));
    LowSelection();
    lines := SampledGridPassesAudit(d, Ramp(), sample, SAMPLE, false, RampCapture(3), c, AllAtOnce(), 1, grid,
                                    RampCapture(6), w);
  }

  lemma RampCollections(sample: seq<seq<byte>>, grid: seq<seq<byte>>) returns (c: Collection, w: Collection)
    requires DecodeFiles(sample) == Ok(RampCapture(3)) && DecodeFiles(grid) == Ok(RampCapture(6))
    ensures SampledFrom(Ramp(), sample, SAMPLE, false, RampCapture(3), c)
    ensures GridFrom(Ramp(), SAMPLE, c, grid, RampCapture(6), w)
  {
    hide DecodeFiles, Collect, RampCapture, SampledFrom, GridFrom, SelectionOk, Blocks;
    LowSelection();
    assert SetOf([0, 1, 2]) == {0, 1, 2};
    RampCollected(sample, 3, {0, 1, 2}, false, false);
    c := Collect(sample, {0, 1, 2}, false, false).value;
    RampSampled(sample, c);
    forall b ensures b in Blocks(6) <==> 0 <= b < 6 {
      BlocksAre(6, b);
    }
    RampCollected(grid, 6, Blocks(6), true, true);
    w := Collect(grid, Blocks(6), true, true).value;
    RampGrid(grid, c, w);
  }
}
