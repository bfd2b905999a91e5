/** Address rules over grid coordinates, and the fitters that identify them from training CTAs. */
module CoordinateRules {
  import opened Common
  import opened Sequences
  import opened Arithmetic

  datatype Dims = Dims(x: int, y: int, z: int)

  datatype Coord = Coord(x: int, y: int, z: int)

  /** A training CTA and the base observed there. */
  datatype Point = Point(block: int, address: int)

  datatype Rule =
    | Flat(intercept: int, stride: int)
    | Affine(intercept: int, xStride: int, yStride: int, zStride: int)
    | YTable(intercept: int, xStride: int, yOffsets: seq<int>, zStride: int)
    | ZHalf(intercept: int, xStride: int, yOffsets: seq<int>, zStride: int, partition: int, partitionStride: int)
    | XFloor(intercept: int, divisor: nat, quotientStride: int)
    | Table(bases: map<int, int>)

  // -------------------------------------------------------------- coordinates

  predicate InGrid(block: int, dims: Dims) {
    dims.x > 0 && dims.y > 0 && dims.z > 0 && 0 <= block < dims.x * dims.y * dims.z
  }

  /** The number of CTAs, which the extents must multiply to. */
  function CtaCount(dims: Dims): int {
    dims.x * dims.y * dims.z
  }

  predicate InRange(c: Coord, dims: Dims) {
    0 <= c.x < dims.x && 0 <= c.y < dims.y && 0 <= c.z < dims.z
  }

  function Split(block: int, dims: Dims): Coord
    requires dims.x > 0 && dims.y > 0
  {
    Coord(block % dims.x, (block / dims.x) % dims.y, block / dims.x / dims.y)
  }

  /** `block_coordinates` */
  function BlockCoordinates(block: int, dims: Dims): Result<Coord> {
    if InGrid(block, dims) then Ok(Split(block, dims)) else Err(OutsideGrid)
  }

  function Flatten(c: Coord, dims: Dims): int {
    c.x + dims.x * (c.y + dims.y * c.z)
  }

  /** Blocks of the grid and coordinates in range correspond one to one. */
  lemma CoordinatesBijection(block: int, c: Coord, dims: Dims)
    requires dims.x > 0 && dims.y > 0 && dims.z > 0
    ensures InGrid(block, dims) ==> InRange(Split(block, dims), dims) && Flatten(Split(block, dims), dims) == block
    ensures InRange(c, dims) ==> InGrid(Flatten(c, dims), dims) && Split(Flatten(c, dims), dims) == c
  {
    if InGrid(block, dims) {
      SplitInRange(block, dims);
    }
    if InRange(c, dims) {
      FlattenBelow(c, dims);
      SplitFlatten(c, dims);
    }
  }

  lemma SplitInRange(block: int, dims: Dims)
    requires InGrid(block, dims)
    ensures InRange(Split(block, dims), dims) && Flatten(Split(block, dims), dims) == block
  {
    var row := block / dims.x;
    MulAssociate(dims.x, dims.y, dims.z);
    DivBelow(block, dims.x, dims.y * dims.z);
    DivBelow(row, dims.y, dims.z);
    DivParts(block, dims.x);
    DivParts(row, dims.y);
  }

  lemma SplitFlatten(c: Coord, dims: Dims)
    requires InRange(c, dims)
    ensures Split(Flatten(c, dims), dims) == c
  {
    var row := c.y + dims.y * c.z;
    DivUnique(c.x + dims.x * row, dims.x, row, c.x);
    DivUnique(row, dims.y, c.z, c.y);
  }

  lemma FlattenBelow(c: Coord, dims: Dims)
    requires InRange(c, dims)
    ensures 0 <= Flatten(c, dims) < dims.x * dims.y * dims.z
  {
    var row := c.y + dims.y * c.z;
    PlaceBelow(dims.y, c.y, c.z, dims.z);
    PlaceBelow(dims.x, c.x, row, dims.y * dims.z);
    assert dims.x * (dims.y * dims.z) == dims.x * dims.y * dims.z;
  }

  // --------------------------------------------------------------- prediction

  predicate OnCoordinates(rule: Rule, dims: Dims) {
    rule.Affine? || ((rule.YTable? || rule.ZHalf?) && |rule.yOffsets| == dims.y)
  }

  /** The address a coordinate rule gives for a coordinate in range. */
  function Value(rule: Rule, c: Coord, dims: Dims): int
    requires OnCoordinates(rule, dims) && InRange(c, dims)
  {
    match rule
    case Affine(i, sx, sy, sz) => i + sx * c.x + sy * c.y + sz * c.z
    case YTable(i, sx, y, sz) => i + sx * c.x + y[c.y] + sz * c.z
    case ZHalf(i, sx, y, sz, p, sp) => i + sx * c.x + y[c.y] + sz * c.z + if c.z >= p then sp else 0
  }

  /** One address of `predict_bases`. */
  function Predict(rule: Rule, block: int, dims: Dims): Result<int> {
    match rule
    case Flat(i, s) => Ok(i + s * block)
    case Table(bases) => if block in bases then Ok(bases[block]) else Err(MissingKey)
    case XFloor(i, d, s) =>
      var c :- BlockCoordinates(block, dims);
      if d == 0 then Err(MissingKey) else Ok(i + s * (c.x / d))
    case Affine(i, sx, sy, sz) =>
      var c :- BlockCoordinates(block, dims);
      Ok(i + sx * c.x + sy * c.y + sz * c.z)
    case YTable(i, sx, y, sz) =>
      var c :- BlockCoordinates(block, dims);
      if !(0 <= c.y < |y|) then Err(MissingKey) else Ok(i + sx * c.x + y[c.y] + sz * c.z)
    case ZHalf(i, sx, y, sz, p, sp) =>
      var c :- BlockCoordinates(block, dims);
      if !(0 <= c.y < |y|) then Err(MissingKey)
      else Ok(i + sx * c.x + y[c.y] + sz * c.z + if c.z >= p then sp else 0)
  }

  lemma PredictIsValue(rule: Rule, block: int, dims: Dims)
    requires OnCoordinates(rule, dims) && InGrid(block, dims)
    ensures InRange(Split(block, dims), dims)
    ensures Predict(rule, block, dims) == Ok(Value(rule, Split(block, dims), dims))
  {
    CoordinatesBijection(block, Coord(0, 0, 0), dims);
  }

  ghost predicate Fits(rule: Rule, points: seq<Point>, dims: Dims) {
    forall i :: 0 <= i < |points| ==> Predict(rule, points[i].block, dims) == Ok(points[i].address)
  }

  /** The two rules predict the same address for every block of the grid. */
  ghost predicate AgreeOnGrid(r: Rule, t: Rule, dims: Dims) {
    forall block :: InGrid(block, dims) ==>
      Predict(r, block, dims).Ok? && Predict(r, block, dims) == Predict(t, block, dims)
  }

  // ----------------------------------------------------------- shared steps

  /** A training point with its block turned into coordinates. */
  datatype Site = Site(at: Coord, address: int)

  predicate PointsInGrid(points: seq<Point>, dims: Dims) {
    forall i :: 0 <= i < |points| ==> InGrid(points[i].block, dims)
  }

  /** The blocks are below the number of CTAs, which is all that the extents' product tells. */
  predicate PointsBelow(points: seq<Point>, dims: Dims) {
    forall i :: 0 <= i < |points| ==> 0 <= points[i].block < CtaCount(dims)
  }

  function Sites(points: seq<Point>, dims: Dims): (s: seq<Site>)
    requires PointsInGrid(points, dims)
    ensures |s| == |points|
    ensures forall i :: 0 <= i < |points| ==>
              s[i].at == Split(points[i].block, dims) && s[i].address == points[i].address
    ensures SitesInRange(s, dims)
  {
    forall i | 0 <= i < |points| ensures InRange(Split(points[i].block, dims), dims) {
      CoordinatesBijection(points[i].block, Coord(0, 0, 0), dims);
    }
    seq(|points|, i requires 0 <= i < |points| => Site(Split(points[i].block, dims), points[i].address))
  }

  predicate SitesInRange(s: seq<Site>, dims: Dims) {
    forall i :: 0 <= i < |s| ==> InRange(s[i].at, dims)
  }

  predicate Matches(rule: Rule, s: seq<Site>, dims: Dims)
    requires OnCoordinates(rule, dims) && SitesInRange(s, dims)
  {
    forall i :: 0 <= i < |s| ==> Value(rule, s[i].at, dims) == s[i].address
  }

  lemma MatchesIsFits(rule: Rule, points: seq<Point>, dims: Dims)
    requires OnCoordinates(rule, dims) && PointsInGrid(points, dims)
    ensures Matches(rule, Sites(points, dims), dims) <==> Fits(rule, points, dims)
  {
    hide Value, Predict, Split;
    var s := Sites(points, dims);
    forall i | 0 <= i < |points|
      ensures Predict(rule, points[i].block, dims) == Ok(Value(rule, s[i].at, dims))
    {
      PredictIsValue(rule, points[i].block, dims);
    }
  }

  datatype Axis = X | Y | Z

  function On(c: Coord, axis: Axis): int {
    match axis case X => c.x case Y => c.y case Z => c.z
  }

  function Extent(dims: Dims, axis: Axis): int {
    match axis case X => dims.x case Y => dims.y case Z => dims.z
  }

  /** `c` differs from the anchor on this axis and on no other. */
  predicate AlignedWith(anchor: Coord, c: Coord, axis: Axis) {
    On(c, axis) != On(anchor, axis) && forall other: Axis :: other != axis ==> On(c, other) == On(anchor, other)
  }

  function Aligned(anchor: Coord, axis: Axis): Site -> bool {
    (s: Site) => AlignedWith(anchor, s.at, axis)
  }

  /** The stride along one axis, read off the first training CTA aligned with the anchor. */
  function AxisStride(s: seq<Site>, dims: Dims, axis: Axis): Result<int>
    requires s != []
  {
    if Extent(dims, axis) == 1 then Ok(0)
    else
      var k := First(Aligned(s[0].at, axis), s[1..]);
      if k == -1 then Err(MissingTrainingCta)
      else Slope(On(s[k + 1].at, axis) - On(s[0].at, axis), s[k + 1].address - s[0].address)
  }

  function Slope(run: int, rise: int): Result<int>
    requires run != 0
  {
    if rise % run == 0 then Ok(rise / run) else Err(NonIntegralStride)
  }

  lemma SlopeOfMultiple(run: int, s: int)
    requires run != 0
    ensures Slope(run, s * run) == Ok(s)
  {
    DivUnique(s * run, run, s, 0);
  }

  ghost predicate HasAligned(s: seq<Site>, dims: Dims, axis: Axis)
    requires s != []
  {
    Extent(dims, axis) == 1 || exists i :: 0 < i < |s| && AlignedWith(s[0].at, s[i].at, axis)
  }

  ghost predicate StrideHolds(s: seq<Site>, axis: Axis, stride: int)
    requires s != []
  {
    forall i :: 0 < i < |s| && AlignedWith(s[0].at, s[i].at, axis) ==>
      s[i].address - s[0].address == stride * (On(s[i].at, axis) - On(s[0].at, axis))
  }

  /** When every aligned CTA lies on one integer stride, that stride is found. */
  lemma AxisStrideFinds(s: seq<Site>, dims: Dims, axis: Axis, stride: int)
    requires s != [] && HasAligned(s, dims, axis) && StrideHolds(s, axis, stride)
    ensures AxisStride(s, dims, axis) == Ok(if Extent(dims, axis) == 1 then 0 else stride)
  {
    hide AlignedWith, Slope;
    if Extent(dims, axis) != 1 {
      var i :| 0 < i < |s| && AlignedWith(s[0].at, s[i].at, axis);
      var k := First(Aligned(s[0].at, axis), s[1..]);
      assert Aligned(s[0].at, axis)(s[1..][i - 1]);
      assert s[1..][k] == s[k + 1];
      assert AlignedWith(s[0].at, s[k + 1].at, axis);
      AlignedApart(s[0].at, s[k + 1].at, axis);
      SlopeOfMultiple(On(s[k + 1].at, axis) - On(s[0].at, axis), stride);
    }
  }

  lemma AlignedApart(anchor: Coord, c: Coord, axis: Axis)
    requires AlignedWith(anchor, c, axis)
    ensures On(c, axis) - On(anchor, axis) != 0
  {
  }

  lemma AxisStrideNeeds(s: seq<Site>, dims: Dims, axis: Axis)
    requires s != [] && AxisStride(s, dims, axis).Ok?
    ensures HasAligned(s, dims, axis)
  {
    if Extent(dims, axis) != 1 {
      var k := First(Aligned(s[0].at, axis), s[1..]);
      assert s[1..][k] == s[k + 1];
    }
  }

  // --------------------------------------------------------------- affine xyz

  function AffineThrough(anchor: Site, sx: int, sy: int, sz: int): Rule {
    Affine(anchor.address - (sx * anchor.at.x + sy * anchor.at.y + sz * anchor.at.z), sx, sy, sz)
  }

  /** `fit_affine_xyz` */
  function FitAffine(points: seq<Point>, dims: Dims): Result<Rule> {
    if |points| < 2 then Err(TooFewPoints)
    else if !PointsInGrid(points, dims) then Err(OutsideGrid)
    else
      var s := Sites(points, dims);
      var sx :- AxisStride(s, dims, X);
      var sy :- AxisStride(s, dims, Y);
      var sz :- AxisStride(s, dims, Z);
      var rule := AffineThrough(s[0], sx, sy, sz);
      if Matches(rule, s, dims) then Ok(rule) else Err(DoesNotFit)
  }

  ghost predicate AffineCover(s: seq<Site>, dims: Dims) {
    s != [] && HasAligned(s, dims, X) && HasAligned(s, dims, Y) && HasAligned(s, dims, Z)
  }

  /** Two strides that agree where they are observed give equal terms over the whole axis. */
  lemma StrideTerm(s: seq<Site>, dims: Dims, axis: Axis, a: int, b: int, c: Coord)
    requires s != [] && SitesInRange(s, dims) && InRange(c, dims) && HasAligned(s, dims, axis)
    requires StrideHolds(s, axis, a) && StrideHolds(s, axis, b)
    ensures a * (On(c, axis) - On(s[0].at, axis)) == b * (On(c, axis) - On(s[0].at, axis))
  {
    if Extent(dims, axis) == 1 {
      assert InRange(s[0].at, dims);
      assert On(c, axis) - On(s[0].at, axis) == 0;
    } else {
      hide AlignedWith;
      var i :| 0 < i < |s| && AlignedWith(s[0].at, s[i].at, axis);
      AlignedApart(s[0].at, s[i].at, axis);
      SlopeOfMultiple(On(s[i].at, axis) - On(s[0].at, axis), a);
      SlopeOfMultiple(On(s[i].at, axis) - On(s[0].at, axis), b);
    }
  }

  lemma AffineStrides(rule: Rule, s: seq<Site>, dims: Dims)
    requires s != [] && SitesInRange(s, dims) && rule.Affine? && Matches(rule, s, dims)
    ensures StrideHolds(s, X, rule.xStride) && StrideHolds(s, Y, rule.yStride) && StrideHolds(s, Z, rule.zStride)
  {
    forall i, axis: Axis | 0 < i < |s| && AlignedWith(s[0].at, s[i].at, axis)
      ensures s[i].address - s[0].address
           == (match axis case X => rule.xStride case Y => rule.yStride case Z => rule.zStride)
              * (On(s[i].at, axis) - On(s[0].at, axis))
    {
      assert Value(rule, s[i].at, dims) == s[i].address && Value(rule, s[0].at, dims) == s[0].address;
      var a, b := s[0].at, s[i].at;
      assert On(a, X) == a.x && On(a, Y) == a.y && On(a, Z) == a.z;
      assert On(b, X) == b.x && On(b, Y) == b.y && On(b, Z) == b.z;
    }
  }

  lemma AffineFromAnchor(rule: Rule, s: seq<Site>, dims: Dims, c: Coord)
    requires s != [] && SitesInRange(s, dims) && rule.Affine? && Matches(rule, s, dims) && InRange(c, dims)
    ensures Value(rule, c, dims) == s[0].address + rule.xStride * (c.x - s[0].at.x)
              + rule.yStride * (c.y - s[0].at.y) + rule.zStride * (c.z - s[0].at.z)
  {
    assert Value(rule, s[0].at, dims) == s[0].address;
  }

  /** Given coverage, all affine rules through the training CTAs are the same on the whole grid. */
  lemma AffineUnique(r: Rule, t: Rule, s: seq<Site>, dims: Dims, c: Coord)
    requires SitesInRange(s, dims) && AffineCover(s, dims) && InRange(c, dims)
    requires r.Affine? && t.Affine? && Matches(r, s, dims) && Matches(t, s, dims)
    ensures Value(r, c, dims) == Value(t, c, dims)
  {
    hide Value, HasAligned, StrideHolds;
    AffineStrides(r, s, dims);
    AffineStrides(t, s, dims);
    StrideTerm(s, dims, X, r.xStride, t.xStride, c);
    StrideTerm(s, dims, Y, r.yStride, t.yStride, c);
    StrideTerm(s, dims, Z, r.zStride, t.zStride, c);
    AffineFromAnchor(r, s, dims, c);
    AffineFromAnchor(t, s, dims, c);
  }

  lemma ThroughAnchor(s: seq<Site>, dims: Dims, sx: int, sy: int, sz: int, c: Coord)
    requires s != [] && InRange(c, dims)
    ensures Value(AffineThrough(s[0], sx, sy, sz), c, dims) == s[0].address + sx * (c.x - s[0].at.x)
              + sy * (c.y - s[0].at.y) + sz * (c.z - s[0].at.z)
  {
  }

  lemma ZeroStrideHolds(s: seq<Site>, dims: Dims, axis: Axis, stride: int)
    requires s != [] && SitesInRange(s, dims) && StrideHolds(s, axis, stride)
    ensures StrideHolds(s, axis, if Extent(dims, axis) == 1 then 0 else stride)
  {
    if Extent(dims, axis) == 1 {
      forall i | 0 < i < |s| ensures !AlignedWith(s[0].at, s[i].at, axis) {
        assert InRange(s[0].at, dims) && InRange(s[i].at, dims);
      }
    }
  }

  /** The affine fitter succeeds whenever coverage holds and some affine rule fits. */
  lemma FitAffineFinds(points: seq<Point>, dims: Dims, t: Rule)
    requires |points| >= 2 && PointsInGrid(points, dims)
    requires t.Affine? && Fits(t, points, dims) && AffineCover(Sites(points, dims), dims)
    ensures FitAffine(points, dims).Ok?
  {
    hide Value, HasAligned, StrideHolds, AxisStride, Predict;
    var s := Sites(points, dims);
    MatchesIsFits(t, points, dims);
    AffineStrides(t, s, dims);
    AxisStrideFinds(s, dims, X, t.xStride);
    AxisStrideFinds(s, dims, Y, t.yStride);
    AxisStrideFinds(s, dims, Z, t.zStride);
    var sx, sy, sz := AxisStride(s, dims, X).value, AxisStride(s, dims, Y).value, AxisStride(s, dims, Z).value;
    ZeroStrideHolds(s, dims, X, t.xStride);
    ZeroStrideHolds(s, dims, Y, t.yStride);
    ZeroStrideHolds(s, dims, Z, t.zStride);
    var rule := AffineThrough(s[0], sx, sy, sz);
    forall i | 0 <= i < |s| ensures Value(rule, s[i].at, dims) == s[i].address {
      StrideTerm(s, dims, X, sx, t.xStride, s[i].at);
      StrideTerm(s, dims, Y, sy, t.yStride, s[i].at);
      StrideTerm(s, dims, Z, sz, t.zStride, s[i].at);
      ThroughAnchor(s, dims, sx, sy, sz, s[i].at);
      AffineFromAnchor(t, s, dims, s[i].at);
      assert Value(t, s[i].at, dims) == s[i].address;
    }
  }

  lemma FitAffineSound(points: seq<Point>, dims: Dims)
    requires FitAffine(points, dims).Ok?
    ensures PointsInGrid(points, dims) && |points| >= 2
    ensures FitAffine(points, dims).value.Affine? && Fits(FitAffine(points, dims).value, points, dims)
    ensures AffineCover(Sites(points, dims), dims)
  {
    hide Value, HasAligned, AxisStride, Predict;
    var s := Sites(points, dims);
    AxisStrideNeeds(s, dims, X);
    AxisStrideNeeds(s, dims, Y);
    AxisStrideNeeds(s, dims, Z);
    MatchesIsFits(FitAffine(points, dims).value, points, dims);
  }
}
