/** Exactly which addresses the fitter cascade identifies from which training CTAs. */
module Coverage {
  import opened Common
  import opened Order
  import opened CoordinateRules
  import opened TableRules
  import opened FloorQuotient
  import opened Cascade

  /** The cascade settles on a rule, and that rule gives the true address at every CTA of the grid. */
  ghost predicate Identifies(points: seq<Point>, dims: Dims, truth: Rule) {
    FitCoordinateRule(points, dims).Ok? && AgreeOnGrid(FitCoordinateRule(points, dims).value, truth, dims)
  }

  // ------------------------------------------------- the families a truth lies in

  ghost predicate InAffine(truth: Rule, dims: Dims) {
    exists r: Rule :: r.Affine? && AgreeOnGrid(r, truth, dims)
  }

  ghost predicate InTable(truth: Rule, dims: Dims) {
    exists r: Rule :: r.YTable? && |r.yOffsets| == dims.y && AgreeOnGrid(r, truth, dims)
  }

  ghost predicate InHalf(truth: Rule, dims: Dims) {
    exists r: Rule :: IsHalfRule(r, dims) && AgreeOnGrid(r, truth, dims)
  }

  /** The truth is a floor-quotient rule whose divisor the training CTAs single out. */
  ghost predicate FloorCover(points: seq<Point>, dims: Dims, truth: Rule) {
    FloorChecks(SortBy(PointKey, points), dims)
    && exists k: Candidate ::
         k.divisor >= 2 && AgreeOnGrid(FloorRule(k), truth, dims) && OnlyDivisor(points, k.divisor)
  }

  /** Training meets the coverage that the narrowest family holding the truth asks for. */
  ghost predicate Covered(points: seq<Point>, dims: Dims, truth: Rule)
    requires PointsInGrid(points, dims)
  {
    if InAffine(truth, dims) then AffineCover(Sites(points, dims), dims)
    else if InTable(truth, dims) then TableCover(Sites(points, dims), dims)
    else if InHalf(truth, dims) then HalfCover(Sites(points, dims), dims)
    else FloorCover(points, dims, truth)
  }

  lemma FitsToo(r: Rule, truth: Rule, points: seq<Point>, dims: Dims)
    requires AgreeOnGrid(r, truth, dims) && PointsInGrid(points, dims) && Fits(truth, points, dims)
    ensures Fits(r, points, dims)
  {
    hide Predict;
    forall i | 0 <= i < |points| ensures Predict(r, points[i].block, dims) == Ok(points[i].address) {
      assert InGrid(points[i].block, dims);
    }
  }

  lemma AgreeThrough(r: Rule, s: Rule, truth: Rule, dims: Dims)
    requires AgreeOnGrid(r, s, dims) && AgreeOnGrid(s, truth, dims)
    ensures AgreeOnGrid(r, truth, dims)
  {
    hide Predict;
  }

  // ------------------------------------------------------------- one training CTA

  /** With a single CTA every family asks for a one-CTA grid. */
  lemma OneSite(points: seq<Point>, dims: Dims)
    requires |points| == 1 && PointsInGrid(points, dims)
    ensures AffineCover(Sites(points, dims), dims) <==> dims == Dims(1, 1, 1)
  {
    hide AlignedWith, Split, InGrid;
    var s := Sites(points, dims);
    assert HasAligned(s, dims, X) <==> dims.x == 1;
    assert HasAligned(s, dims, Y) <==> dims.y == 1;
    assert HasAligned(s, dims, Z) <==> dims.z == 1;
  }

  lemma FloorNeedsFive(points: seq<Point>, dims: Dims)
    ensures FloorChecks(SortBy(PointKey, points), dims) ==> |points| >= 5
  {
    SortByPermutes(PointKey, points);
  }

  lemma OneCtaIsAffine(points: seq<Point>, dims: Dims, truth: Rule)
    requires |points| == 1 && dims == Dims(1, 1, 1) && PointsInGrid(points, dims) && Fits(truth, points, dims)
    ensures AgreeOnGrid(Affine(points[0].address, 0, 0, 0), truth, dims)
  {
    assert InGrid(points[0].block, dims);
    forall block | InGrid(block, dims) ensures block == points[0].block {
    }
  }

  lemma OneCta(points: seq<Point>, dims: Dims, truth: Rule)
    requires |points| == 1 && PointsInGrid(points, dims) && Fits(truth, points, dims)
    ensures Identifies(points, dims, truth) <==> Covered(points, dims, truth)
  {
    hide AffineCover, TableCover, HalfCover, FloorChecks, AgreeOnGrid, FitAffine, FitTable, FitHalf, FitFloor;
    OneSite(points, dims);
    FloorNeedsFive(points, dims);
    CoverageIsNested(Sites(points, dims), dims);
    if dims == Dims(1, 1, 1) {
      OneCtaIsAffine(points, dims, truth);
    }
  }

  // ------------------------------------------------------------ at least two CTAs

  /** On a line, the coordinate families are lines too, and no floor-quotient rule is sought for a line. */
  lemma NoFloorForCoordinates(rule: Rule, points: seq<Point>, dims: Dims)
    requires PointsInGrid(points, dims) && Fits(rule, points, dims)
    requires rule.Affine? || (rule.YTable? && |rule.yOffsets| == dims.y) || IsHalfRule(rule, dims)
    ensures FitFloor(points, dims).Err?
  {
    hide Levels, HasPlateau, Predict, Candidates;
    var ordered := SortBy(PointKey, points);
    SortByPermutes(PointKey, points);
    if FloorChecks(ordered, dims) {
      assert Levels(points) == Levels(ordered) by { SameLevels(points, ordered); }
      assert HasPlateau(points) by { SamePlateau(points, ordered); }
      var line := if rule.ZHalf? then YTable(rule.intercept, rule.xStride, rule.yOffsets, rule.zStride) else rule;
      FlatHalf(rule, points, dims);
      NotLine(line, points, dims);
    }
  }

  lemma SameLevels(a: seq<Point>, b: seq<Point>)
    requires forall p :: p in a <==> p in b
    ensures Levels(a) == Levels(b)
  {
  }

  lemma SamePlateau(a: seq<Point>, b: seq<Point>)
    requires forall p :: p in a <==> p in b
    ensures HasPlateau(a) <==> HasPlateau(b)
  {
  }

  /** Without an extent in z there is no step. */
  lemma FlatHalf(rule: Rule, points: seq<Point>, dims: Dims)
    requires PointsInGrid(points, dims) && Fits(rule, points, dims) && dims.y == 1 && dims.z == 1
    ensures IsHalfRule(rule, dims) ==>
              Fits(YTable(rule.intercept, rule.xStride, rule.yOffsets, rule.zStride), points, dims)
  {
    if IsHalfRule(rule, dims) {
      forall i | 0 <= i < |points|
        ensures Predict(YTable(rule.intercept, rule.xStride, rule.yOffsets, rule.zStride), points[i].block, dims)
             == Ok(points[i].address)
      {
        LineCoordinates(points[i].block, dims);
      }
    }
  }

  /** A floor-quotient rule for the truth fits the training CTAs, which lie on a line. */
  lemma FloorFitsToo(k: Candidate, truth: Rule, points: seq<Point>, dims: Dims)
    requires k.divisor >= 2 && AgreeOnGrid(FloorRule(k), truth, dims)
    requires PointsInGrid(points, dims) && Fits(truth, points, dims) && dims.y == 1 && dims.z == 1
    ensures FloorFits(points, k)
  {
    FitsToo(FloorRule(k), truth, points, dims);
    forall p | p in points ensures p.address == k.intercept + k.stride * (p.block / k.divisor) {
      var i :| 0 <= i < |points| && points[i] == p;
      assert Predict(FloorRule(k), points[i].block, dims) == Ok(points[i].address);
      LineCoordinates(points[i].block, dims);
    }
  }

  lemma ChecksMeanLine(points: seq<Point>, dims: Dims)
    ensures FloorChecks(SortBy(PointKey, points), dims) ==> dims.y == 1 && dims.z == 1
  {
    hide SortBy;
  }

  /** Coverage of the truth's narrowest family is enough. */
  lemma CoveredIsEnough(points: seq<Point>, dims: Dims, truth: Rule)
    requires |points| >= 2 && PointsInGrid(points, dims) && Fits(truth, points, dims) && Covered(points, dims, truth)
    ensures Identifies(points, dims, truth)
  {
    hide AffineCover, TableCover, HalfCover, FloorChecks, AgreeOnGrid, FitCoordinateRule, SortBy, OnlyDivisor,
      FloorFits;
    if InAffine(truth, dims) {
      var r: Rule :| r.Affine? && AgreeOnGrid(r, truth, dims);
      FitsToo(r, truth, points, dims);
      CascadeIdentifiesAffine(points, dims, r);
      AgreeThrough(FitCoordinateRule(points, dims).value, r, truth, dims);
    } else if InTable(truth, dims) {
      var r: Rule :| r.YTable? && |r.yOffsets| == dims.y && AgreeOnGrid(r, truth, dims);
      FitsToo(r, truth, points, dims);
      CascadeIdentifiesTable(points, dims, r);
      AgreeThrough(FitCoordinateRule(points, dims).value, r, truth, dims);
    } else if InHalf(truth, dims) {
      var r: Rule :| IsHalfRule(r, dims) && AgreeOnGrid(r, truth, dims);
      FitsToo(r, truth, points, dims);
      CascadeIdentifiesHalf(points, dims, r);
      AgreeThrough(FitCoordinateRule(points, dims).value, r, truth, dims);
    } else {
      var k: Candidate :| k.divisor >= 2 && AgreeOnGrid(FloorRule(k), truth, dims) && OnlyDivisor(points, k.divisor);
      ChecksMeanLine(points, dims);
      FloorFitsToo(k, truth, points, dims);
      CascadeIdentifiesFloor(points, dims, k);
    }
  }

  /** A floor-quotient rule that is returned and right is the truth's, with the divisor singled out. */
  lemma FloorNeeds(points: seq<Point>, dims: Dims, truth: Rule)
    requires FitFloor(points, dims).Ok? && AgreeOnGrid(FitFloor(points, dims).value, truth, dims)
    ensures FloorCover(points, dims, truth)
  {
    hide AgreeOnGrid, FloorChecks, OnlyDivisor, FloorFits, SortBy, Candidates;
    FloorResult(points, dims);
    var k: Candidate :| FitFloor(points, dims) == Ok(FloorRule(k));
    FloorIdentification(points, dims, SortBy(PointKey, points));
  }

  /** ... and it is necessary. */
  lemma CoveredIsNeeded(points: seq<Point>, dims: Dims, truth: Rule)
    requires |points| != 1 && PointsInGrid(points, dims) && Fits(truth, points, dims) && Identifies(points, dims, truth)
    ensures Covered(points, dims, truth)
  {
    hide AffineCover, TableCover, HalfCover, FloorChecks, AgreeOnGrid, FitAffine, FitTable, FitHalf, FitFloor,
      FloorCover, Fits, Predict;
    var s := Sites(points, dims);
    CoverageIsNested(s, dims);
    var r := FitCoordinateRule(points, dims).value;
    FitAffineExactly(points, dims);
    if FitAffine(points, dims).Ok? {
      FitAffineSound(points, dims);
      assert InAffine(truth, dims);
    } else if FitTable(points, dims).Ok? {
      FitTableSound(points, dims);
      assert InTable(truth, dims);
    } else if FitHalf(points, dims).Ok? {
      FitHalfSound(points, dims);
      assert InHalf(truth, dims);
    } else {
      FloorNeeds(points, dims, truth);
      NoCoordinateTruth(points, dims, truth);
    }
  }

  /** Where the search for a floor quotient succeeds, no coordinate family holds the truth. */
  lemma NoCoordinateTruth(points: seq<Point>, dims: Dims, truth: Rule)
    requires PointsInGrid(points, dims) && Fits(truth, points, dims) && FitFloor(points, dims).Ok?
    ensures !InAffine(truth, dims) && !InTable(truth, dims) && !InHalf(truth, dims)
  {
    hide FitFloor, AgreeOnGrid, Fits;
    forall r: Rule | AgreeOnGrid(r, truth, dims)
      ensures !r.Affine? && !(r.YTable? && |r.yOffsets| == dims.y) && !IsHalfRule(r, dims)
    {
      FitsToo(r, truth, points, dims);
      if r.Affine? || (r.YTable? && |r.yOffsets| == dims.y) || IsHalfRule(r, dims) {
        NoFloorForCoordinates(r, points, dims);
      }
    }
  }

  /**
   * Whatever the true addresses are, the cascade gives them at every CTA of the grid exactly when they
   * follow one of the four families and the training CTAs meet the coverage of the narrowest of these.
   */
  lemma IdentifiedExactlyWhenCovered(points: seq<Point>, dims: Dims, truth: Rule)
    requires PointsInGrid(points, dims) && Fits(truth, points, dims)
    ensures Identifies(points, dims, truth) <==> Covered(points, dims, truth)
  {
    hide Identifies, Covered;
    if |points| == 1 {
      OneCta(points, dims, truth);
    } else {
      if Identifies(points, dims, truth) {
        CoveredIsNeeded(points, dims, truth);
      }
      if Covered(points, dims, truth) {
        CoveredNotEmpty(points, dims, truth);
        CoveredIsEnough(points, dims, truth);
      }
    }
  }

  lemma CoveredNotEmpty(points: seq<Point>, dims: Dims, truth: Rule)
    requires PointsInGrid(points, dims) && Covered(points, dims, truth)
    ensures points != []
  {
    hide AgreeOnGrid, OnlyDivisor;
    FloorNeedsFive(points, dims);
  }

  // -------------------------------------------------- which family is narrowest

  lemma SameAtCoordinate(r: Rule, t: Rule, dims: Dims, c: Coord)
    requires OnCoordinates(r, dims) && OnCoordinates(t, dims) && AgreeOnGrid(r, t, dims) && InRange(c, dims)
    ensures Value(r, c, dims) == Value(t, c, dims)
  {
    hide Value, Predict, Split, Flatten, InGrid;
    CoordinatesBijection(0, c, dims);
    PredictIsValue(r, Flatten(c, dims), dims);
    PredictIsValue(t, Flatten(c, dims), dims);
  }

  predicate SomeCta(dims: Dims) {
    dims.x > 0 && dims.y > 0 && dims.z > 0
  }

  /** A half-partition rule is a y-table rule exactly when it has no step, or too few planes to show one. */
  lemma HalfIsTableExactlyWhen(t: Rule, dims: Dims)
    requires IsHalfRule(t, dims) && SomeCta(dims)
    ensures InTable(t, dims) <==> t.partitionStride == 0 || dims.z <= 2
  {
    hide Predict, AgreeOnGrid;
    if t.partitionStride == 0 || dims.z <= 2 {
      var sz := if dims.z == 2 then t.zStride + t.partitionStride else t.zStride;
      var r := YTable(t.intercept, t.xStride, t.yOffsets, sz);
      forall c: Coord | InRange(c, dims) ensures Value(r, c, dims) == Value(t, c, dims) {
        FewPlanes(t, dims, c);
      }
      SameValuesAgree(r, t, dims);
    }
    if r: Rule :| r.YTable? && |r.yOffsets| == dims.y && AgreeOnGrid(r, t, dims) {
      if dims.z > 2 {
        NoStep(r, t, dims);
      }
    }
  }

  lemma FewPlanes(t: Rule, dims: Dims, c: Coord)
    requires IsHalfRule(t, dims) && InRange(c, dims) && (t.partitionStride == 0 || dims.z <= 2)
    ensures Value(t, c, dims)
         == t.intercept + t.xStride * c.x + t.yOffsets[c.y]
            + (if dims.z == 2 then t.zStride + t.partitionStride else t.zStride) * c.z
  {
    if t.partitionStride != 0 {
      if dims.z == 2 {
        assert c.z == 0 || c.z == 1;
      } else {
        assert c.z == 0;
      }
    }
  }

  lemma NoStep(r: Rule, t: Rule, dims: Dims)
    requires IsHalfRule(t, dims) && SomeCta(dims) && dims.z > 2
    requires r.YTable? && |r.yOffsets| == dims.y && AgreeOnGrid(r, t, dims)
    ensures t.partitionStride == 0
  {
    hide Predict, AgreeOnGrid;
    var h := Half(dims);
    SameAtCoordinate(r, t, dims, Coord(0, 0, h - 2));
    SameAtCoordinate(r, t, dims, Coord(0, 0, h - 1));
    SameAtCoordinate(r, t, dims, Coord(0, 0, h));
    ThreePlanes(r.zStride, t.zStride, h);
  }

  lemma ThreePlanes(a: int, b: int, h: int)
    ensures a * h - a * (h - 1) == a && a * (h - 1) - a * (h - 2) == a
    ensures b * h - b * (h - 1) == b && b * (h - 1) - b * (h - 2) == b
  {
  }

  /** The offsets grow by the same amount from one y to the next. */
  predicate Linear(offsets: seq<int>) {
    forall y :: 0 <= y < |offsets| ==>
      offsets[y] == offsets[0] + (if |offsets| > 1 then offsets[1] - offsets[0] else 0) * y
  }

  /** A y-table rule is affine exactly when its offsets are linear in y. */
  lemma TableIsAffineExactlyWhen(t: Rule, dims: Dims)
    requires t.YTable? && |t.yOffsets| == dims.y && SomeCta(dims)
    ensures InAffine(t, dims) <==> Linear(t.yOffsets)
  {
    hide Predict, AgreeOnGrid;
    var o := t.yOffsets;
    if Linear(o) {
      var r := Affine(t.intercept + o[0], t.xStride, if |o| > 1 then o[1] - o[0] else 0, t.zStride);
      forall c: Coord | InRange(c, dims) ensures Value(r, c, dims) == Value(t, c, dims) {
      }
      SameValuesAgree(r, t, dims);
    }
    if r: Rule :| r.Affine? && AgreeOnGrid(r, t, dims) {
      OffsetsLinear(r, t, dims);
    }
  }

  lemma OffsetsLinear(r: Rule, t: Rule, dims: Dims)
    requires t.YTable? && |t.yOffsets| == dims.y && SomeCta(dims)
    requires r.Affine? && AgreeOnGrid(r, t, dims)
    ensures Linear(t.yOffsets)
  {
    hide Predict, AgreeOnGrid;
    var o := t.yOffsets;
    SameAtCoordinate(r, t, dims, Coord(0, 0, 0));
    if |o| > 1 {
      SameAtCoordinate(r, t, dims, Coord(0, 1, 0));
    }
    forall y | 0 <= y < |o|
      ensures o[y] == o[0] + (if |o| > 1 then o[1] - o[0] else 0) * y
    {
      SameAtCoordinate(r, t, dims, Coord(0, y, 0));
    }
  }

  lemma AffineIsTable(t: Rule, dims: Dims)
    requires InAffine(t, dims) && SomeCta(dims)
    ensures InTable(t, dims)
  {
    hide Predict, AgreeOnGrid, Value;
    var r: Rule :| r.Affine? && AgreeOnGrid(r, t, dims);
    forall c: Coord | InRange(c, dims) ensures Value(AsTable(r, dims), c, dims) == Value(r, c, dims) {
      AffineInTable(r, dims, c);
    }
    assert OnCoordinates(AsTable(r, dims), dims);
    SameValuesAgree(AsTable(r, dims), r, dims);
    AgreeThrough(AsTable(r, dims), r, t, dims);
  }

  lemma AgreesWithItself(t: Rule, points: seq<Point>, dims: Dims)
    requires OnCoordinates(t, dims)
    ensures AgreeOnGrid(t, t, dims)
  {
    hide Value;
    forall block | InGrid(block, dims) ensures Predict(t, block, dims).Ok? {
      PredictIsValue(t, block, dims);
    }
  }

  // --------------------------------------------------------- family by family

  /** Affine addresses are identified exactly when training covers the affine family. */
  lemma AffineIdentifiedExactlyWhen(points: seq<Point>, dims: Dims, t: Rule)
    requires PointsInGrid(points, dims) && t.Affine? && Fits(t, points, dims)
    ensures Identifies(points, dims, t) <==> AffineCover(Sites(points, dims), dims)
  {
    hide Identifies, AffineCover, AgreeOnGrid;
    AgreesWithItself(t, points, dims);
    IdentifiedExactlyWhenCovered(points, dims, t);
  }

  /** Addresses with a table of offsets that are not linear are identified exactly when training covers that family. */
  lemma TableIdentifiedExactlyWhen(points: seq<Point>, dims: Dims, t: Rule)
    requires PointsInGrid(points, dims) && t.YTable? && |t.yOffsets| == dims.y && Fits(t, points, dims)
    requires !Linear(t.yOffsets)
    ensures Identifies(points, dims, t) <==> TableCover(Sites(points, dims), dims)
  {
    hide Identifies, AffineCover, TableCover, AgreeOnGrid, InAffine, Linear;
    AgreesWithItself(t, points, dims);
    IdentifiedExactlyWhenCovered(points, dims, t);
    if points != [] {
      GridOf(points, dims);
      TableIsAffineExactlyWhen(t, dims);
    } else {
      NothingCovered(dims, t);
    }
  }

  /** Addresses with a step at half the z extent are identified exactly when training covers that family. */
  lemma HalfIdentifiedExactlyWhen(points: seq<Point>, dims: Dims, t: Rule)
    requires PointsInGrid(points, dims) && IsHalfRule(t, dims) && Fits(t, points, dims)
    requires dims.z >= 3 && t.partitionStride != 0
    ensures Identifies(points, dims, t) <==> HalfCover(Sites(points, dims), dims)
  {
    hide Identifies, AffineCover, TableCover, HalfCover, AgreeOnGrid, InAffine, InTable;
    AgreesWithItself(t, points, dims);
    IdentifiedExactlyWhenCovered(points, dims, t);
    if points != [] {
      GridOf(points, dims);
      HalfIsTableExactlyWhen(t, dims);
      if InAffine(t, dims) {
        AffineIsTable(t, dims);
      }
    } else {
      NothingCovered(dims, t);
    }
  }

  lemma GridOf(points: seq<Point>, dims: Dims)
    requires points != [] && PointsInGrid(points, dims)
    ensures SomeCta(dims)
  {
    assert InGrid(points[0].block, dims);
  }

  lemma NothingCovered(dims: Dims, t: Rule)
    ensures !Covered([], dims, t) && !TableCover(Sites([], dims), dims) && !HalfCover(Sites([], dims), dims)
  {
    hide AgreeOnGrid, OnlyDivisor;
    FloorNeedsFive([], dims);
  }

  /**
   * Addresses floor(x / divisor) apart that no affine rule gives are identified exactly when the training
   * CTAs pass the checks of that family and single out the divisor.
   */
  lemma FloorIdentifiedExactlyWhen(points: seq<Point>, dims: Dims, k: Candidate)
    requires PointsInGrid(points, dims) && dims.y == 1 && dims.z == 1 && k.divisor >= 2 && FloorFits(points, k)
    requires !InAffine(FloorRule(k), dims)
    ensures Identifies(points, dims, FloorRule(k))
       <==> FloorChecks(SortBy(PointKey, points), dims) && OnlyDivisor(points, k.divisor)
  {
    hide Identifies, AffineCover, TableCover, HalfCover, AgreeOnGrid, InAffine, FloorChecks, OnlyDivisor, SortBy;
    FloorOnLine(points, dims, k);
    IdentifiedExactlyWhenCovered(points, dims, FloorRule(k));
    if points == [] {
      NothingCovered(dims, FloorRule(k));
      FloorNeedsFive(points, dims);
    } else {
      GridOf(points, dims);
      NotOnALine(FloorRule(k), dims);
      SameDivisor(points, dims, k);
    }
  }

  lemma FloorOnLine(points: seq<Point>, dims: Dims, k: Candidate)
    requires PointsInGrid(points, dims) && dims.y == 1 && dims.z == 1 && k.divisor >= 2 && FloorFits(points, k)
    ensures Fits(FloorRule(k), points, dims) && AgreeOnGrid(FloorRule(k), FloorRule(k), dims)
  {
    forall i | 0 <= i < |points| ensures Predict(FloorRule(k), points[i].block, dims) == Ok(points[i].address) {
      assert points[i] in points;
      LineCoordinates(points[i].block, dims);
    }
  }

  /** On a line the wider coordinate families hold nothing that the affine family does not. */
  lemma NotOnALine(t: Rule, dims: Dims)
    requires SomeCta(dims) && dims.y == 1 && dims.z == 1 && !InAffine(t, dims)
    ensures !InTable(t, dims) && !InHalf(t, dims)
  {
    hide Predict, AgreeOnGrid;
    forall r: Rule | r.YTable? && |r.yOffsets| == dims.y ensures !AgreeOnGrid(r, t, dims) {
      OneOffset(r, t, dims);
    }
    forall r: Rule | IsHalfRule(r, dims) ensures !AgreeOnGrid(r, t, dims) {
      HalfIsTableExactlyWhen(r, dims);
      var u: Rule :| u.YTable? && |u.yOffsets| == dims.y && AgreeOnGrid(u, r, dims);
      if AgreeOnGrid(r, t, dims) {
        AgreeThrough(u, r, t, dims);
        OneOffset(u, t, dims);
      }
    }
  }

  lemma OneOffset(r: Rule, t: Rule, dims: Dims)
    requires r.YTable? && |r.yOffsets| == dims.y == 1 && SomeCta(dims)
    ensures AgreeOnGrid(r, t, dims) ==> InAffine(t, dims)
  {
    hide Predict, AgreeOnGrid;
    if AgreeOnGrid(r, t, dims) {
      TableIsAffineExactlyWhen(r, dims);
      var a: Rule :| a.Affine? && AgreeOnGrid(a, r, dims);
      AgreeThrough(a, r, t, dims);
    }
  }

  /** Two floor-quotient rules for the same truth and the same training CTAs: one divisor at most is singled out. */
  lemma SameDivisor(points: seq<Point>, dims: Dims, k: Candidate)
    requires PointsInGrid(points, dims) && dims.y == 1 && dims.z == 1 && k.divisor >= 2 && FloorFits(points, k)
    requires AgreeOnGrid(FloorRule(k), FloorRule(k), dims) && Fits(FloorRule(k), points, dims)
    ensures FloorCover(points, dims, FloorRule(k))
       <==> FloorChecks(SortBy(PointKey, points), dims) && OnlyDivisor(points, k.divisor)
  {
    hide AgreeOnGrid, FloorChecks, SortBy;
    assert Admits(points, k.divisor);
  }
}
