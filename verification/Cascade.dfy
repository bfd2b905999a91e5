/** The order in which the address families are tried, and what the first success says about the others. */
module Cascade {
  import opened Common
  import opened Sequences
  import opened Order
  import opened CoordinateRules
  import opened TableRules
  import opened FloorQuotient

  // ------------------------------------------------------------------ fitters

  function OtherBlock(block: int): Point -> bool {
    (p: Point) => p.block != block
  }

  /** `fit_affine`: affine in the flattened CTA number. */
  function FitFlat(points: seq<Point>): Result<Rule> {
    if |points| < 2 then Err(TooFewPoints)
    else
      var k := First(OtherBlock(points[0].block), points[1..]);
      if k == -1 then Err(TooFewPoints)
      else
        var stride :- Slope(points[k + 1].block - points[0].block, points[k + 1].address - points[0].address);
        var rule := Flat(points[0].address - stride * points[0].block, stride);
        if forall i :: 0 <= i < |points| ==> rule.intercept + stride * points[i].block == points[i].address
        then Ok(rule)
        else Err(DoesNotFit)
  }

  /** `fit_coordinate_rule` */
  function FitCoordinateRule(points: seq<Point>, dims: Dims): Result<Rule> {
    if |points| == 1 then
      if dims == Dims(1, 1, 1) then Ok(Affine(points[0].address, 0, 0, 0)) else Err(TooFewPoints)
    else if FitAffine(points, dims).Ok? then FitAffine(points, dims)
    else if FitTable(points, dims).Ok? then FitTable(points, dims)
    else if FitHalf(points, dims).Ok? then FitHalf(points, dims)
    else FitFloor(points, dims)
  }

  function TableOf(points: seq<Point>): map<int, int> {
    if points == [] then map[]
    else TableOf(points[..|points| - 1])[points[|points| - 1].block := points[|points| - 1].address]
  }

  /** `fit_profile_rule` */
  function FitProfileRule(points: seq<Point>, dims: Dims, allowExactTable: bool): Result<Rule> {
    var r := FitCoordinateRule(points, dims);
    if r.Ok? || !allowExactTable then r else Ok(Table(TableOf(points)))
  }

  // ---------------------------------------------------------------- soundness

  lemma FitFlatSound(points: seq<Point>, dims: Dims)
    requires FitFlat(points).Ok?
    ensures Fits(FitFlat(points).value, points, dims)
  {
    hide Slope;
  }

  /** Whatever rule the cascade settles on predicts every training CTA exactly. */
  lemma FitCoordinateRuleSound(points: seq<Point>, dims: Dims)
    requires FitCoordinateRule(points, dims).Ok? && PointsBelow(points, dims)
    ensures Fits(FitCoordinateRule(points, dims).value, points, dims)
  {
    hide FitAffine, FitTable, FitHalf, FitFloor;
    if |points| == 1 {
      assert points[0].block == 0;
      LineCoordinates(0, dims);
    } else if FitAffine(points, dims).Ok? {
      FitAffineSound(points, dims);
    } else if FitTable(points, dims).Ok? {
      FitTableSound(points, dims);
    } else if FitHalf(points, dims).Ok? {
      FitHalfSound(points, dims);
    } else {
      FloorOnAxis(points, dims);
      FitFloorSound(points, dims);
    }
  }

  /** The floor-quotient family is for one-dimensional grids, whose extent is then the number of CTAs. */
  lemma FloorOnAxis(points: seq<Point>, dims: Dims)
    requires FitFloor(points, dims).Ok? && PointsBelow(points, dims)
    ensures PointsInGrid(points, dims)
  {
    hide SortBy, Candidates;
    forall i | 0 <= i < |points| ensures InGrid(points[i].block, dims) {
      assert dims.x * dims.y * dims.z == dims.x;
    }
  }

  predicate BlocksDistinct(points: seq<Point>) {
    forall i, j :: 0 <= i < j < |points| ==> points[i].block != points[j].block
  }

  lemma {:induction false} TableOfHolds(points: seq<Point>)
    requires BlocksDistinct(points)
    ensures forall i :: 0 <= i < |points| ==>
              points[i].block in TableOf(points) && TableOf(points)[points[i].block] == points[i].address
  {
    if points != [] {
      var init := points[..|points| - 1];
      TableOfHolds(init);
      forall i | 0 <= i < |points|
        ensures points[i].block in TableOf(points) && TableOf(points)[points[i].block] == points[i].address
      {
        if i < |points| - 1 {
          assert init[i] == points[i];
        }
      }
    }
  }

  lemma FitProfileRuleSound(points: seq<Point>, dims: Dims, allowExactTable: bool)
    requires FitProfileRule(points, dims, allowExactTable).Ok?
    requires PointsBelow(points, dims) && BlocksDistinct(points)
    ensures Fits(FitProfileRule(points, dims, allowExactTable).value, points, dims)
  {
    hide FitCoordinateRule;
    if FitCoordinateRule(points, dims).Ok? {
      FitCoordinateRuleSound(points, dims);
    } else {
      TableOfHolds(points);
    }
  }

  // ------------------------------------------------- each fitter, exactly when

  /** The affine fitter accepts exactly when coverage holds and some affine rule fits. */
  lemma FitAffineExactly(points: seq<Point>, dims: Dims)
    ensures FitAffine(points, dims).Ok? <==>
      && |points| >= 2 && PointsInGrid(points, dims) && AffineCover(Sites(points, dims), dims)
      && exists t: Rule :: t.Affine? && Fits(t, points, dims)
  {
    hide FitAffine, AffineCover, Predict;
    if FitAffine(points, dims).Ok? {
      FitAffineSound(points, dims);
    }
    if |points| >= 2 && PointsInGrid(points, dims) && AffineCover(Sites(points, dims), dims) {
      if t: Rule :| t.Affine? && Fits(t, points, dims) {
        FitAffineFinds(points, dims, t);
      }
    }
  }

  /** The y-table fitter accepts exactly when coverage holds and some y-table rule fits. */
  lemma FitTableExactly(points: seq<Point>, dims: Dims)
    ensures FitTable(points, dims).Ok? <==>
      && |points| >= 2 && PointsInGrid(points, dims) && TableCover(Sites(points, dims), dims)
      && exists t: Rule :: t.YTable? && |t.yOffsets| == dims.y && Fits(t, points, dims)
  {
    hide FitTable, TableCover, Predict;
    if FitTable(points, dims).Ok? {
      FitTableSound(points, dims);
    }
    if |points| >= 2 && PointsInGrid(points, dims) && TableCover(Sites(points, dims), dims) {
      if t: Rule :| t.YTable? && |t.yOffsets| == dims.y && Fits(t, points, dims) {
        FitTableFinds(points, dims, t);
      }
    }
  }

  /** The half-partition fitter accepts exactly when coverage holds and some such rule fits. */
  lemma FitHalfExactly(points: seq<Point>, dims: Dims)
    ensures FitHalf(points, dims).Ok? <==>
      && points != [] && PointsInGrid(points, dims) && HalfCover(Sites(points, dims), dims)
      && exists t: Rule :: IsHalfRule(t, dims) && Fits(t, points, dims)
  {
    hide FitHalf, HalfCover, Predict;
    if FitHalf(points, dims).Ok? {
      FitHalfSound(points, dims);
    }
    if points != [] && PointsInGrid(points, dims) && HalfCover(Sites(points, dims), dims) {
      if t: Rule :| IsHalfRule(t, dims) && Fits(t, points, dims) {
        FitHalfFinds(points, dims, t);
      }
    }
  }

  // ---------------------------------------------------------------- coherence

  ghost predicate SameValues(r: Rule, t: Rule, dims: Dims)
    requires OnCoordinates(r, dims) && OnCoordinates(t, dims)
  {
    forall c: Coord :: InRange(c, dims) ==> Value(r, c, dims) == Value(t, c, dims)
  }

  lemma SameValuesAgree(r: Rule, t: Rule, dims: Dims)
    requires OnCoordinates(r, dims) && OnCoordinates(t, dims) && SameValues(r, t, dims)
    ensures AgreeOnGrid(r, t, dims)
  {
    hide Value, Predict, Split;
    forall block | InGrid(block, dims)
      ensures Predict(r, block, dims).Ok? && Predict(r, block, dims) == Predict(t, block, dims)
    {
      PredictIsValue(r, block, dims);
      PredictIsValue(t, block, dims);
    }
  }

  /** An affine rule through the training CTAs, seen as a rule of either wider family, still goes through them. */
  lemma WidenAffine(r: Rule, s: seq<Site>, dims: Dims)
    requires r.Affine? && dims.y > 0 && SitesInRange(s, dims) && Matches(r, s, dims)
    ensures OnCoordinates(AsTable(r, dims), dims) && AsTable(r, dims).YTable?
    ensures Matches(AsTable(r, dims), s, dims) && SameValues(AsTable(r, dims), r, dims)
  {
    hide Value;
    forall c: Coord | InRange(c, dims) ensures Value(AsTable(r, dims), c, dims) == Value(r, c, dims) {
      AffineInTable(r, dims, c);
    }
  }

  lemma WidenTable(r: Rule, s: seq<Site>, dims: Dims)
    requires r.YTable? && OnCoordinates(r, dims) && SitesInRange(s, dims) && Matches(r, s, dims)
    ensures IsHalfRule(AsHalf(r, dims), dims)
    ensures Matches(AsHalf(r, dims), s, dims) && SameValues(AsHalf(r, dims), r, dims)
  {
    hide Value;
    forall c: Coord | InRange(c, dims) ensures Value(AsHalf(r, dims), c, dims) == Value(r, c, dims) {
      TableInHalf(r, dims, c);
    }
  }

  lemma TableAgrees(r: Rule, t: Rule, s: seq<Site>, dims: Dims)
    requires SitesInRange(s, dims) && TableCover(s, dims)
    requires OnCoordinates(r, dims) && OnCoordinates(t, dims) && r.YTable? && t.YTable?
    requires Matches(r, s, dims) && Matches(t, s, dims)
    ensures SameValues(r, t, dims)
  {
    hide Value, TableCover;
    forall c: Coord | InRange(c, dims) ensures Value(r, c, dims) == Value(t, c, dims) {
      TableUnique(r, t, s, dims, c);
    }
  }

  lemma HalfAgrees(r: Rule, t: Rule, s: seq<Site>, dims: Dims)
    requires SitesInRange(s, dims) && HalfCover(s, dims)
    requires IsHalfRule(r, dims) && IsHalfRule(t, dims) && Matches(r, s, dims) && Matches(t, s, dims)
    ensures SameValues(r, t, dims)
  {
    hide Value, HalfCover;
    forall c: Coord | InRange(c, dims) ensures Value(r, c, dims) == Value(t, c, dims) {
      HalfUnique(r, t, s, dims, c);
    }
  }

  /** If the addresses are affine and coverage holds, the cascade predicts them on the whole grid. */
  lemma CascadeIdentifiesAffine(points: seq<Point>, dims: Dims, t: Rule)
    requires |points| >= 2 && PointsInGrid(points, dims) && t.Affine? && Fits(t, points, dims)
    requires AffineCover(Sites(points, dims), dims)
    ensures FitCoordinateRule(points, dims).Ok?
    ensures AgreeOnGrid(FitCoordinateRule(points, dims).value, t, dims)
  {
    hide FitAffine, Value, Predict, AffineCover;
    var s := Sites(points, dims);
    FitAffineFinds(points, dims, t);
    FitAffineSound(points, dims);
    var r := FitAffine(points, dims).value;
    MatchesIsFits(r, points, dims);
    MatchesIsFits(t, points, dims);
    forall c: Coord | InRange(c, dims) ensures Value(r, c, dims) == Value(t, c, dims) {
      AffineUnique(r, t, s, dims, c);
    }
    SameValuesAgree(r, t, dims);
  }

  /**
   * If the addresses follow a y-table rule and coverage for that family holds, the cascade predicts
   * them on the whole grid, even when it stops at a narrower affine rule.
   */
  lemma CascadeIdentifiesTable(points: seq<Point>, dims: Dims, t: Rule)
    requires |points| >= 2 && PointsInGrid(points, dims)
    requires t.YTable? && |t.yOffsets| == dims.y && Fits(t, points, dims)
    requires TableCover(Sites(points, dims), dims)
    ensures FitCoordinateRule(points, dims).Ok?
    ensures AgreeOnGrid(FitCoordinateRule(points, dims).value, t, dims)
  {
    hide FitAffine, FitTable, Value, Predict, TableCover, AsTable;
    var s := Sites(points, dims);
    MatchesIsFits(t, points, dims);
    FitTableFinds(points, dims, t);
    FitTableSound(points, dims);
    assert InGrid(points[0].block, dims);
    if FitAffine(points, dims).Ok? {
      FitAffineSound(points, dims);
      var r := FitAffine(points, dims).value;
      MatchesIsFits(r, points, dims);
      WidenAffine(r, s, dims);
      TableAgrees(AsTable(r, dims), t, s, dims);
      SameValuesAgree(r, t, dims);
    } else {
      var r := FitTable(points, dims).value;
      MatchesIsFits(r, points, dims);
      TableAgrees(r, t, s, dims);
      SameValuesAgree(r, t, dims);
    }
  }

  /** The same for the half-partition family: whichever family the cascade stops at. */
  lemma CascadeIdentifiesHalf(points: seq<Point>, dims: Dims, t: Rule)
    requires |points| >= 2 && PointsInGrid(points, dims) && IsHalfRule(t, dims) && Fits(t, points, dims)
    requires HalfCover(Sites(points, dims), dims)
    ensures FitCoordinateRule(points, dims).Ok?
    ensures AgreeOnGrid(FitCoordinateRule(points, dims).value, t, dims)
  {
    hide FitAffine, FitTable, FitHalf, Value, Predict, HalfCover, AsTable, AsHalf;
    var s := Sites(points, dims);
    MatchesIsFits(t, points, dims);
    FitHalfFinds(points, dims, t);
    assert InGrid(points[0].block, dims);
    if FitAffine(points, dims).Ok? {
      FitAffineSound(points, dims);
      var r := FitAffine(points, dims).value;
      MatchesIsFits(r, points, dims);
      WidenAffine(r, s, dims);
      WidenTable(AsTable(r, dims), s, dims);
      HalfAgrees(AsHalf(AsTable(r, dims), dims), t, s, dims);
      SameValuesAgree(r, t, dims);
    } else if FitTable(points, dims).Ok? {
      FitTableSound(points, dims);
      var r := FitTable(points, dims).value;
      MatchesIsFits(r, points, dims);
      WidenTable(r, s, dims);
      HalfAgrees(AsHalf(r, dims), t, s, dims);
      SameValuesAgree(r, t, dims);
    } else {
      FitHalfSound(points, dims);
      var r := FitHalf(points, dims).value;
      MatchesIsFits(r, points, dims);
      HalfAgrees(r, t, s, dims);
      SameValuesAgree(r, t, dims);
    }
  }

  /** On a one-dimensional grid the coordinate families are lines in x. */
  lemma LineRule(rule: Rule, points: seq<Point>, dims: Dims)
    requires dims.y == 1 && dims.z == 1 && PointsInGrid(points, dims)
    requires rule.Affine? || (rule.YTable? && |rule.yOffsets| == 1)
    requires Fits(rule, points, dims) && HasPlateau(points)
    ensures |Levels(points)| <= 1
  {
    var c := if rule.Affine? then rule.intercept else rule.intercept + rule.yOffsets[0];
    forall p | p in points ensures p.address == c + rule.xStride * p.block {
      var i :| 0 <= i < |points| && points[i] == p;
      LineCoordinates(points[i].block, dims);
    }
    LinearWithPlateauIsFlat(points, c, rule.xStride);
  }

  lemma NoCoordinateFit(points: seq<Point>, dims: Dims)
    requires dims.y == 1 && dims.z == 1 && PointsInGrid(points, dims)
    requires HasPlateau(points) && |Levels(points)| >= 2
    ensures FitAffine(points, dims).Err? && FitTable(points, dims).Err? && FitHalf(points, dims).Err?
  {
    FitAffineExactly(points, dims);
    FitTableExactly(points, dims);
    hide FitAffine, FitTable, Predict, TableCover, AffineCover, HasPlateau, Levels;
    forall t: Rule | t.Affine? ensures !Fits(t, points, dims) {
      NotLine(t, points, dims);
    }
    forall t: Rule | t.YTable? && |t.yOffsets| == 1 ensures !Fits(t, points, dims) {
      NotLine(t, points, dims);
    }
  }

  lemma NotLine(rule: Rule, points: seq<Point>, dims: Dims)
    requires dims.y == 1 && dims.z == 1 && PointsInGrid(points, dims)
    requires rule.Affine? || (rule.YTable? && |rule.yOffsets| == 1)
    requires HasPlateau(points) && |Levels(points)| >= 2
    ensures !Fits(rule, points, dims)
  {
    hide Predict, HasPlateau, Levels;
    if Fits(rule, points, dims) {
      LineRule(rule, points, dims);
    }
  }

  /**
   * If the addresses follow a floor-quotient rule that the training CTAs identify, the cascade reaches
   * that family and returns exactly that rule.
   */
  lemma CascadeIdentifiesFloor(points: seq<Point>, dims: Dims, k: Candidate)
    requires PointsInGrid(points, dims) && FloorChecks(SortBy(PointKey, points), dims)
    requires k.divisor > 0 && FloorFits(points, k) && OnlyDivisor(points, k.divisor)
    ensures FitCoordinateRule(points, dims) == Ok(FloorRule(k))
  {
    var ordered := SortBy(PointKey, points);
    SortByPermutes(PointKey, points);
    FloorIdentification(points, dims, ordered);
    assert |points| >= 5 && dims.y == 1 && dims.z == 1 && HasPlateau(points) && |Levels(points)| >= 3 by {
      assert Levels(points) == Levels(ordered);
    }
    NoCoordinateFit(points, dims);
    FloorResult(points, dims);
  }

  lemma FloorResult(points: seq<Point>, dims: Dims)
    ensures FitFloor(points, dims).Ok? ==> exists k: Candidate :: FitFloor(points, dims) == Ok(FloorRule(k))
  {
  }
}
