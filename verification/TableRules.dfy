/** The two wider coordinate families: a categorical y table, and a y table with one step at half the z extent. */
module TableRules {
  import opened Common
  import opened Sequences
  import opened CoordinateRules

  // ------------------------------------------------------------ the y column

  function Column(anchor: Coord, y: int): Coord {
    Coord(anchor.x, y, anchor.z)
  }

  function StandsAt(c: Coord): Site -> bool {
    (s: Site) => s.at == c
  }

  /** For y = 0, 1, ..., n-1 the first training address at the anchor's x and z. */
  function YAddresses(s: seq<Site>, n: nat): (r: Result<seq<int>>)
    requires s != []
    ensures r.Ok? ==> |r.value| == n
  {
    if n == 0 then Ok([])
    else
      var init :- YAddresses(s, n - 1);
      var k := First(StandsAt(Column(s[0].at, n - 1)), s);
      if k == -1 then Err(MissingTrainingCta) else Ok(init + [s[k].address])
  }

  ghost predicate CoversY(s: seq<Site>, n: int)
    requires s != []
  {
    forall y :: 0 <= y < n ==> exists i :: 0 <= i < |s| && s[i].at == Column(s[0].at, y)
  }

  lemma {:induction false} YAddressesNeed(s: seq<Site>, n: nat)
    requires s != [] && YAddresses(s, n).Ok?
    ensures CoversY(s, n)
  {
    if n > 0 {
      YAddressesNeed(s, n - 1);
      var k := First(StandsAt(Column(s[0].at, n - 1)), s);
      assert s[k].at == Column(s[0].at, n - 1);
    }
  }

  /** The column read off is the rule's own column, for any rule through the training CTAs. */
  lemma {:induction false} YAddressesFind(s: seq<Site>, n: nat, rule: Rule, dims: Dims)
    requires s != [] && CoversY(s, n) && n <= dims.y
    requires SitesInRange(s, dims) && OnCoordinates(rule, dims) && Matches(rule, s, dims)
    ensures InRange(s[0].at, dims)
    ensures YAddresses(s, n).Ok?
    ensures forall y :: 0 <= y < n ==> YAddresses(s, n).value[y] == Value(rule, Column(s[0].at, y), dims)
  {
    hide Value;
    assert InRange(s[0].at, dims);
    if n > 0 {
      YAddressesFind(s, n - 1, rule, dims);
      var p := StandsAt(Column(s[0].at, n - 1));
      var i :| 0 <= i < |s| && s[i].at == Column(s[0].at, n - 1);
      assert p(s[i]);
      var k := First(p, s);
      assert p(s[k]);
      assert Value(rule, s[k].at, dims) == s[k].address;
    }
  }

  function Offsets(ys: seq<int>, at: nat): (o: seq<int>)
    requires at < |ys|
    ensures |o| == |ys| && forall y :: 0 <= y < |ys| ==> o[y] == ys[y] - ys[at]
  {
    seq(|ys|, y requires 0 <= y < |ys| => ys[y] - ys[at])
  }

  // ------------------------------------------------------------------ y table

  function TableThrough(anchor: Site, sx: int, ys: seq<int>, sz: int): (rule: Rule)
    requires 0 <= anchor.at.y < |ys|
    ensures rule.YTable? && |rule.yOffsets| == |ys|
  {
    var o := Offsets(ys, anchor.at.y);
    YTable(anchor.address - sx * anchor.at.x - sz * anchor.at.z - o[anchor.at.y], sx, o, sz)
  }

  /** `fit_affine_x_y_table_z` */
  function FitTable(points: seq<Point>, dims: Dims): Result<Rule> {
    if |points| < 2 then Err(TooFewPoints)
    else if !PointsInGrid(points, dims) then Err(OutsideGrid)
    else
      var s := Sites(points, dims);
      assert InGrid(points[0].block, dims) && InRange(s[0].at, dims);
      var sx :- AxisStride(s, dims, X);
      var sz :- AxisStride(s, dims, Z);
      var ys :- YAddresses(s, dims.y);
      var rule := TableThrough(s[0], sx, ys, sz);
      if Matches(rule, s, dims) then Ok(rule) else Err(DoesNotFit)
  }

  ghost predicate TableCover(s: seq<Site>, dims: Dims) {
    s != [] && HasAligned(s, dims, X) && HasAligned(s, dims, Z) && CoversY(s, dims.y)
  }

  lemma TableFromColumn(rule: Rule, dims: Dims, anchor: Coord, c: Coord)
    requires OnCoordinates(rule, dims) && rule.YTable? && InRange(c, dims) && InRange(anchor, dims)
    ensures Value(rule, c, dims)
         == Value(rule, Column(anchor, c.y), dims) + rule.xStride * (c.x - anchor.x) + rule.zStride * (c.z - anchor.z)
  {
  }

  lemma TableStrides(rule: Rule, s: seq<Site>, dims: Dims)
    requires s != [] && SitesInRange(s, dims) && OnCoordinates(rule, dims) && rule.YTable? && Matches(rule, s, dims)
    ensures StrideHolds(s, X, rule.xStride) && StrideHolds(s, Z, rule.zStride)
  {
    forall i, axis: Axis | 0 < i < |s| && axis != Y && AlignedWith(s[0].at, s[i].at, axis)
      ensures s[i].address - s[0].address
           == (if axis.X? then rule.xStride else rule.zStride) * (On(s[i].at, axis) - On(s[0].at, axis))
    {
      assert Value(rule, s[i].at, dims) == s[i].address && Value(rule, s[0].at, dims) == s[0].address;
      var a, b := s[0].at, s[i].at;
      assert On(a, X) == a.x && On(a, Y) == a.y && On(a, Z) == a.z;
      assert On(b, X) == b.x && On(b, Y) == b.y && On(b, Z) == b.z;
    }
  }

  lemma SameColumn(r: Rule, t: Rule, s: seq<Site>, dims: Dims, y: int)
    requires s != [] && SitesInRange(s, dims) && CoversY(s, dims.y) && 0 <= y < dims.y
    requires OnCoordinates(r, dims) && OnCoordinates(t, dims) && Matches(r, s, dims) && Matches(t, s, dims)
    ensures InRange(Column(s[0].at, y), dims)
    ensures Value(r, Column(s[0].at, y), dims) == Value(t, Column(s[0].at, y), dims)
  {
    hide Value;
    assert InRange(s[0].at, dims);
    var i :| 0 <= i < |s| && s[i].at == Column(s[0].at, y);
    assert Value(r, s[i].at, dims) == s[i].address == Value(t, s[i].at, dims);
  }

  /** Given coverage, all y-table rules through the training CTAs are the same on the whole grid. */
  lemma TableUnique(r: Rule, t: Rule, s: seq<Site>, dims: Dims, c: Coord)
    requires SitesInRange(s, dims) && TableCover(s, dims) && InRange(c, dims)
    requires OnCoordinates(r, dims) && OnCoordinates(t, dims) && r.YTable? && t.YTable?
    requires Matches(r, s, dims) && Matches(t, s, dims)
    ensures Value(r, c, dims) == Value(t, c, dims)
  {
    hide Value, HasAligned, StrideHolds;
    assert InRange(s[0].at, dims);
    TableStrides(r, s, dims);
    TableStrides(t, s, dims);
    StrideTerm(s, dims, X, r.xStride, t.xStride, c);
    StrideTerm(s, dims, Z, r.zStride, t.zStride, c);
    SameColumn(r, t, s, dims, c.y);
    TableFromColumn(r, dims, s[0].at, c);
    TableFromColumn(t, dims, s[0].at, c);
  }

  lemma TableThroughColumn(s: seq<Site>, dims: Dims, sx: int, ys: seq<int>, sz: int, c: Coord)
    requires s != [] && SitesInRange(s, dims) && InRange(c, dims) && |ys| == dims.y
    requires InRange(s[0].at, dims) && ys[s[0].at.y] == s[0].address
    ensures Value(TableThrough(s[0], sx, ys, sz), c, dims)
         == ys[c.y] + sx * (c.x - s[0].at.x) + sz * (c.z - s[0].at.z)
  {
  }

  /** The y-table fitter succeeds whenever coverage holds and some y-table rule fits. */
  lemma FitTableFinds(points: seq<Point>, dims: Dims, t: Rule)
    requires |points| >= 2 && PointsInGrid(points, dims)
    requires OnCoordinates(t, dims) && t.YTable? && Fits(t, points, dims) && TableCover(Sites(points, dims), dims)
    ensures FitTable(points, dims).Ok?
  {
    hide Value, HasAligned, StrideHolds, AxisStride, Predict, YAddresses, TableThrough, InRange;
    var s := Sites(points, dims);
    assert InRange(s[0].at, dims);
    MatchesIsFits(t, points, dims);
    TableStrides(t, s, dims);
    AxisStrideFinds(s, dims, X, t.xStride);
    AxisStrideFinds(s, dims, Z, t.zStride);
    ZeroStrideHolds(s, dims, X, t.xStride);
    ZeroStrideHolds(s, dims, Z, t.zStride);
    CoordInRange(s[0].at, dims);
    YAddressesFind(s, dims.y, t, dims);
    var sx, sz, ys := AxisStride(s, dims, X).value, AxisStride(s, dims, Z).value, YAddresses(s, dims.y).value;
    assert Column(s[0].at, s[0].at.y) == s[0].at;
    assert ys[s[0].at.y] == s[0].address;
    var rule := TableThrough(s[0], sx, ys, sz);
    forall i | 0 <= i < |s| ensures Value(rule, s[i].at, dims) == s[i].address {
      var c := s[i].at;
      assert InRange(c, dims);
      CoordInRange(c, dims);
      StrideTerm(s, dims, X, sx, t.xStride, c);
      StrideTerm(s, dims, Z, sz, t.zStride, c);
      TableThroughColumn(s, dims, sx, ys, sz, c);
      TableFromColumn(t, dims, s[0].at, c);
      assert Value(t, c, dims) == s[i].address;
    }
  }

  lemma CoordInRange(c: Coord, dims: Dims)
    requires InRange(c, dims)
    ensures 0 <= c.x < dims.x && 0 <= c.y < dims.y && 0 <= c.z < dims.z
  {
  }

  lemma FitTableSound(points: seq<Point>, dims: Dims)
    requires FitTable(points, dims).Ok?
    ensures PointsInGrid(points, dims) && |points| >= 2
    ensures FitTable(points, dims).value.YTable? && OnCoordinates(FitTable(points, dims).value, dims)
    ensures Fits(FitTable(points, dims).value, points, dims)
    ensures TableCover(Sites(points, dims), dims)
  {
    hide Value, HasAligned, AxisStride, Predict, YAddresses;
    var s := Sites(points, dims);
    AxisStrideNeeds(s, dims, X);
    AxisStrideNeeds(s, dims, Z);
    assert InRange(s[0].at, dims);
    YAddressesNeed(s, dims.y);
    MatchesIsFits(FitTable(points, dims).value, points, dims);
  }

  // ---------------------------------------------------------- half partition

  function Half(dims: Dims): int {
    (dims.z + 1) / 2
  }

  function InLowerHalf(anchor: Coord, dims: Dims): Site -> bool {
    (s: Site) => 0 < s.at.z < Half(dims) && s.at.x == anchor.x && s.at.y == anchor.y
  }

  function InUpperHalf(anchor: Coord, dims: Dims): Site -> bool {
    (s: Site) => s.at.z >= Half(dims) && s.at.x == anchor.x && s.at.y == anchor.y
  }

  function HalfThrough(anchor: Site, dims: Dims, sx: int, ys: seq<int>, sz: int, sp: int): (rule: Rule)
    requires 0 <= anchor.at.y < |ys|
    ensures rule.ZHalf? && |rule.yOffsets| == |ys| && rule.partition == Half(dims)
  {
    var o := Offsets(ys, anchor.at.y);
    ZHalf(anchor.address - sx * anchor.at.x - o[anchor.at.y], sx, o, sz, Half(dims), sp)
  }

  function LowerStride(s: seq<Site>, dims: Dims): Result<int>
    requires s != []
  {
    var k := First(InLowerHalf(s[0].at, dims), s[1..]);
    if k == -1 then Err(MissingTrainingCta) else Slope(s[k + 1].at.z, s[k + 1].address - s[0].address)
  }

  function UpperStep(s: seq<Site>, dims: Dims, sz: int): Result<int>
    requires s != []
  {
    var k := First(InUpperHalf(s[0].at, dims), s);
    if k == -1 then Err(MissingTrainingCta) else Ok(s[k].address - s[0].address - sz * s[k].at.z)
  }

  /** `fit_affine_x_y_table_z_half_partition` */
  function FitHalf(points: seq<Point>, dims: Dims): Result<Rule> {
    if dims.z < 4 then Err(TooFewPoints)
    else if points == [] then Err(TooFewPoints)
    else if !PointsInGrid(points, dims) then Err(OutsideGrid)
    else
      var s := Sites(points, dims);
      assert InGrid(points[0].block, dims) && InRange(s[0].at, dims);
      if s[0].at.z != 0 then Err(MissingTrainingCta)
      else
        var sx :- AxisStride(s, dims, X);
        var sz :- LowerStride(s, dims);
        var sp :- UpperStep(s, dims, sz);
        var ys :- YAddresses(s, dims.y);
        var rule := HalfThrough(s[0], dims, sx, ys, sz, sp);
        if Matches(rule, s, dims) then Ok(rule) else Err(DoesNotFit)
  }

  ghost predicate HalfCover(s: seq<Site>, dims: Dims) {
    && s != [] && dims.z >= 4 && s[0].at.z == 0
    && HasAligned(s, dims, X) && CoversY(s, dims.y)
    && (exists i :: 0 < i < |s| && InLowerHalf(s[0].at, dims)(s[i]))
    && (exists i :: 0 <= i < |s| && InUpperHalf(s[0].at, dims)(s[i]))
  }

  predicate IsHalfRule(rule: Rule, dims: Dims) {
    rule.ZHalf? && |rule.yOffsets| == dims.y && rule.partition == Half(dims)
  }

  lemma HalfFromColumn(rule: Rule, dims: Dims, anchor: Coord, c: Coord)
    requires dims.z >= 4 && IsHalfRule(rule, dims) && InRange(c, dims) && InRange(anchor, dims) && anchor.z == 0
    ensures Value(rule, c, dims)
         == Value(rule, Column(anchor, c.y), dims) + rule.xStride * (c.x - anchor.x) + rule.zStride * c.z
            + if c.z >= Half(dims) then rule.partitionStride else 0
  {
  }

  lemma HalfXStride(rule: Rule, s: seq<Site>, dims: Dims)
    requires s != [] && SitesInRange(s, dims) && IsHalfRule(rule, dims) && Matches(rule, s, dims)
    ensures StrideHolds(s, X, rule.xStride)
  {
    forall i | 0 < i < |s| && AlignedWith(s[0].at, s[i].at, X)
      ensures s[i].address - s[0].address == rule.xStride * (On(s[i].at, X) - On(s[0].at, X))
    {
      assert Value(rule, s[i].at, dims) == s[i].address && Value(rule, s[0].at, dims) == s[0].address;
      var a, b := s[0].at, s[i].at;
      assert On(a, X) == a.x && On(a, Y) == a.y && On(a, Z) == a.z;
      assert On(b, X) == b.x && On(b, Y) == b.y && On(b, Z) == b.z;
    }
  }

  /** What a half-partition rule says about the training CTAs above the anchor. */
  lemma HalfAboveAnchor(rule: Rule, s: seq<Site>, dims: Dims, i: nat)
    requires s != [] && SitesInRange(s, dims) && IsHalfRule(rule, dims) && Matches(rule, s, dims)
    requires dims.z >= 4 && s[0].at.z == 0 && i < |s|
    ensures InLowerHalf(s[0].at, dims)(s[i]) ==> s[i].address - s[0].address == rule.zStride * s[i].at.z
    ensures InUpperHalf(s[0].at, dims)(s[i]) ==>
              s[i].address - s[0].address == rule.zStride * s[i].at.z + rule.partitionStride
  {
    hide Value;
    assert Value(rule, s[i].at, dims) == s[i].address && Value(rule, s[0].at, dims) == s[0].address;
    assert InRange(s[0].at, dims) && InRange(s[i].at, dims);
    HalfFromColumn(rule, dims, s[0].at, s[i].at);
    HalfFromColumn(rule, dims, s[0].at, s[0].at);
    assert Column(s[0].at, s[0].at.y) == s[0].at;
  }

  /** Coverage pins down the z stride and the step. */
  lemma HalfStrides(rule: Rule, s: seq<Site>, dims: Dims)
    requires SitesInRange(s, dims) && HalfCover(s, dims) && IsHalfRule(rule, dims) && Matches(rule, s, dims)
    ensures LowerStride(s, dims) == Ok(rule.zStride)
    ensures UpperStep(s, dims, rule.zStride) == Ok(rule.partitionStride)
  {
    hide Value, HasAligned, CoversY, Matches, Slope;
    var p, q := InLowerHalf(s[0].at, dims), InUpperHalf(s[0].at, dims);
    var i :| 0 < i < |s| && p(s[i]);
    assert p(s[1..][i - 1]);
    var k := First(p, s[1..]);
    assert s[1..][k] == s[k + 1];
    HalfAboveAnchor(rule, s, dims, k + 1);
    SlopeOfMultiple(s[k + 1].at.z, rule.zStride);
    var j :| 0 <= j < |s| && q(s[j]);
    HalfAboveAnchor(rule, s, dims, First(q, s));
  }

  /** Given coverage, all half-partition rules through the training CTAs are the same on the whole grid. */
  lemma HalfUnique(r: Rule, t: Rule, s: seq<Site>, dims: Dims, c: Coord)
    requires SitesInRange(s, dims) && HalfCover(s, dims) && InRange(c, dims)
    requires IsHalfRule(r, dims) && IsHalfRule(t, dims) && Matches(r, s, dims) && Matches(t, s, dims)
    ensures Value(r, c, dims) == Value(t, c, dims)
  {
    HalfXStride(r, s, dims);
    HalfXStride(t, s, dims);
    HalfStrides(r, s, dims);
    HalfStrides(t, s, dims);
    hide Value, HasAligned, StrideHolds, LowerStride, UpperStep;
    assert InRange(s[0].at, dims);
    StrideTerm(s, dims, X, r.xStride, t.xStride, c);
    SameColumn(r, t, s, dims, c.y);
    HalfFromColumn(r, dims, s[0].at, c);
    HalfFromColumn(t, dims, s[0].at, c);
  }

  lemma HalfThroughColumn(s: seq<Site>, dims: Dims, sx: int, ys: seq<int>, sz: int, sp: int, c: Coord)
    requires s != [] && SitesInRange(s, dims) && InRange(c, dims) && |ys| == dims.y
    requires InRange(s[0].at, dims) && ys[s[0].at.y] == s[0].address
    ensures Value(HalfThrough(s[0], dims, sx, ys, sz, sp), c, dims)
         == ys[c.y] + sx * (c.x - s[0].at.x) + sz * c.z + if c.z >= Half(dims) then sp else 0
  {
  }

  /** The half-partition fitter succeeds whenever coverage holds and some such rule fits. */
  lemma FitHalfFinds(points: seq<Point>, dims: Dims, t: Rule)
    requires points != [] && PointsInGrid(points, dims)
    requires IsHalfRule(t, dims) && Fits(t, points, dims) && HalfCover(Sites(points, dims), dims)
    ensures FitHalf(points, dims).Ok?
  {
    hide Value, HasAligned, StrideHolds, AxisStride, Predict, YAddresses, HalfThrough, InRange, LowerStride,
      UpperStep;
    var s := Sites(points, dims);
    assert InRange(s[0].at, dims);
    MatchesIsFits(t, points, dims);
    HalfXStride(t, s, dims);
    AxisStrideFinds(s, dims, X, t.xStride);
    ZeroStrideHolds(s, dims, X, t.xStride);
    HalfStrides(t, s, dims);
    CoordInRange(s[0].at, dims);
    YAddressesFind(s, dims.y, t, dims);
    var sx, ys := AxisStride(s, dims, X).value, YAddresses(s, dims.y).value;
    var sz, sp := t.zStride, t.partitionStride;
    assert Column(s[0].at, s[0].at.y) == s[0].at;
    assert ys[s[0].at.y] == s[0].address;
    var rule := HalfThrough(s[0], dims, sx, ys, sz, sp);
    forall i | 0 <= i < |s| ensures Value(rule, s[i].at, dims) == s[i].address {
      var c := s[i].at;
      assert InRange(c, dims);
      CoordInRange(c, dims);
      StrideTerm(s, dims, X, sx, t.xStride, c);
      HalfThroughColumn(s, dims, sx, ys, sz, sp, c);
      HalfFromColumn(t, dims, s[0].at, c);
      assert Value(t, c, dims) == s[i].address;
    }
  }

  lemma FitHalfSound(points: seq<Point>, dims: Dims)
    requires FitHalf(points, dims).Ok?
    ensures PointsInGrid(points, dims) && points != []
    ensures IsHalfRule(FitHalf(points, dims).value, dims) && Fits(FitHalf(points, dims).value, points, dims)
    ensures HalfCover(Sites(points, dims), dims)
  {
    hide Value, HasAligned, AxisStride, Predict, YAddresses, CoversY;
    var s := Sites(points, dims);
    AxisStrideNeeds(s, dims, X);
    assert InRange(s[0].at, dims);
    YAddressesNeed(s, dims.y);
    var k := First(InLowerHalf(s[0].at, dims), s[1..]);
    assert s[1..][k] == s[k + 1];
    MatchesIsFits(FitHalf(points, dims).value, points, dims);
  }

  // -------------------------------------------------------------- containment

  /** The same rule written in the wider family. */
  function AsTable(r: Rule, dims: Dims): Rule
    requires r.Affine? && dims.y > 0
  {
    YTable(r.intercept, r.xStride, seq(dims.y, y => r.yStride * y), r.zStride)
  }

  function AsHalf(r: Rule, dims: Dims): Rule
    requires r.YTable?
  {
    ZHalf(r.intercept, r.xStride, r.yOffsets, r.zStride, Half(dims), 0)
  }

  lemma AffineInTable(r: Rule, dims: Dims, c: Coord)
    requires r.Affine? && InRange(c, dims)
    ensures OnCoordinates(AsTable(r, dims), dims) && Value(AsTable(r, dims), c, dims) == Value(r, c, dims)
  {
  }

  lemma TableInHalf(r: Rule, dims: Dims, c: Coord)
    requires r.YTable? && OnCoordinates(r, dims) && InRange(c, dims)
    ensures IsHalfRule(AsHalf(r, dims), dims) && Value(AsHalf(r, dims), c, dims) == Value(r, c, dims)
  {
  }

  /** Coverage demanded by a family implies the coverage demanded by the narrower ones. */
  lemma CoverageIsNested(s: seq<Site>, dims: Dims)
    requires SitesInRange(s, dims)
    ensures HalfCover(s, dims) ==> TableCover(s, dims)
    ensures TableCover(s, dims) ==> AffineCover(s, dims)
  {
    if HalfCover(s, dims) {
      var i :| 0 < i < |s| && InLowerHalf(s[0].at, dims)(s[i]);
      assert AlignedWith(s[0].at, s[i].at, Z);
    }
    if TableCover(s, dims) && dims.y != 1 {
      assert InRange(s[0].at, dims);
      var y := if s[0].at.y == 0 then 1 else 0;
      var i :| 0 <= i < |s| && s[i].at == Column(s[0].at, y);
      assert AlignedWith(s[0].at, s[i].at, Y);
    }
  }
}
