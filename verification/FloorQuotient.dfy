/** The one-dimensional rule `intercept + stride * floor(x / divisor)` and the search that identifies it. */
module FloorQuotient {
  import opened Common
  import opened Sequences
  import opened Order
  import opened Arithmetic
  import opened CoordinateRules

  function PointKey(p: Point): seq<int> {
    [p.block, p.address]
  }

  datatype Candidate = Candidate(divisor: nat, intercept: int, stride: int)

  ghost predicate FloorFits(points: seq<Point>, k: Candidate)
    requires k.divisor > 0
  {
    forall p :: p in points ==> p.address == k.intercept + k.stride * (p.block / k.divisor)
  }

  /** Some integer intercept and stride fit with this divisor. */
  ghost predicate Admits(points: seq<Point>, divisor: nat)
    requires divisor > 0
  {
    exists k: Candidate :: k.divisor == divisor && FloorFits(points, k)
  }

  // ------------------------------------------------------------------- checks

  function Levels(points: seq<Point>): set<int> {
    set p | p in points :: p.address
  }

  predicate HasPlateau(points: seq<Point>) {
    exists p, q :: p in points && q in points && p.block != q.block && p.address == q.address
  }

  function Leaves(address: int): Point -> bool {
    (p: Point) => p.address != address
  }

  /** The conditions checked before any divisor is tried, on the points in ascending order. */
  predicate FloorChecks(ordered: seq<Point>, dims: Dims) {
    && dims.y == 1 && dims.z == 1
    && |ordered| >= 5
    && ordered[0].block == 0
    && |Levels(ordered)| >= 3
    && HasPlateau(ordered)
    && First(Leaves(ordered[0].address), ordered) != -1
    && ordered[First(Leaves(ordered[0].address), ordered)].block >= 2
  }

  /** The block at which the address first leaves that of CTA 0. */
  function FirstChange(ordered: seq<Point>, dims: Dims): (f: nat)
    requires FloorChecks(ordered, dims)
    ensures f >= 2
  {
    ordered[First(Leaves(ordered[0].address), ordered)].block
  }

  // ------------------------------------------------------------------- search

  function OtherQuotient(divisor: nat, quotient: int): Point -> bool
    requires divisor > 0
  {
    (p: Point) => p.block / divisor != quotient
  }

  predicate FitsAll(ordered: seq<Point>, k: Candidate)
    requires k.divisor > 0
  {
    forall i :: 0 <= i < |ordered| ==> k.intercept + k.stride * (ordered[i].block / k.divisor) == ordered[i].address
  }

  /** The only rule with this divisor that can fit, if it does. */
  function Try(ordered: seq<Point>, divisor: nat): (r: Option<Candidate>)
    requires divisor > 0 && ordered != []
    ensures r.Some? ==> r.value.divisor == divisor
  {
    var q0 := ordered[0].block / divisor;
    var i := First(OtherQuotient(divisor, q0), ordered[1..]);
    if i == -1 then None
    else
      match Slope(ordered[i + 1].block / divisor - q0, ordered[i + 1].address - ordered[0].address)
      case Err(_) => None
      case Ok(stride) =>
        var k := Candidate(divisor, ordered[0].address - stride * q0, stride);
        if FitsAll(ordered, k) then Some(k) else None
  }

  /** The candidates for the divisors 2, ..., last. */
  function Candidates(ordered: seq<Point>, last: nat): seq<Candidate>
    requires ordered != []
  {
    if last < 2 then []
    else Candidates(ordered, last - 1) + match Try(ordered, last) case Some(k) => [k] case None => []
  }

  function FloorRule(k: Candidate): Rule {
    XFloor(k.intercept, k.divisor, k.stride)
  }

  function FitOrdered(ordered: seq<Point>, dims: Dims): Result<Rule> {
    if !FloorChecks(ordered, dims) then Err(NotIdentifiable)
    else
      var found := Candidates(ordered, FirstChange(ordered, dims));
      if |found| == 1 then Ok(FloorRule(found[0])) else Err(NotIdentifiable)
  }

  /** Result of `fit_x_floor_quotient` */
  function FitFloor(points: seq<Point>, dims: Dims): Result<Rule> {
    FitOrdered(SortBy(PointKey, points), dims)
  }

  /** `fit_x_floor_quotient` */
  method FitXFloorQuotient(points: seq<Point>, dims: Dims) returns (r: Result<Rule>)
    ensures r == FitFloor(points, dims)
  {
    var ordered := SortBy(PointKey, points);
    if !FloorChecks(ordered, dims) {
      return Err(NotIdentifiable);
    }
    var firstChange := FirstChange(ordered, dims);
    var candidates := [];
    for divisor := 2 to firstChange + 1
      invariant candidates == Candidates(ordered, divisor - 1)
    {
      var k := Try(ordered, divisor);
      if k.Some? {
        candidates := candidates + [k.value];
      }
    }
    if |candidates| != 1 {
      return Err(NotIdentifiable);
    }
    return Ok(FloorRule(candidates[0]));
  }

  // ----------------------------------------------------------- identification

  lemma FitsAllIsFloorFits(points: seq<Point>, k: Candidate)
    requires k.divisor > 0
    ensures FitsAll(points, k) <==> FloorFits(points, k)
  {
  }

  /** Through CTA 0 and any CTA of another quotient there is at most one rule. */
  lemma RuleThroughTwo(points: seq<Point>, k: Candidate, p: Point, q: Point)
    requires k.divisor > 0 && FloorFits(points, k) && p in points && q in points
    requires p.block == 0 && q.block / k.divisor != 0
    ensures k.intercept == p.address
    ensures Slope(q.block / k.divisor, q.address - p.address) == Ok(k.stride)
  {
    assert 0 / k.divisor == 0;
    SlopeOfMultiple(q.block / k.divisor, k.stride);
  }

  /** Up to the first change, the search decides each divisor exactly, and the rule is unique. */
  lemma TryDecides(ordered: seq<Point>, dims: Dims, divisor: nat)
    requires FloorChecks(ordered, dims) && 2 <= divisor <= FirstChange(ordered, dims)
    ensures Try(ordered, divisor).Some? <==> Admits(ordered, divisor)
    ensures forall k: Candidate :: k.divisor == divisor && FloorFits(ordered, k) ==> Try(ordered, divisor) == Some(k)
    ensures Try(ordered, divisor).Some? ==> FloorFits(ordered, Try(ordered, divisor).value)
  {
    hide Slope, FloorChecks;
    var (f, j) := FirstChangePoint(ordered, dims);
    assert ordered[0].block / divisor == 0;
    DivZeroIffSmall(f, divisor);
    var p := OtherQuotient(divisor, 0);
    assert ordered[1..][j - 1] == ordered[j] && p(ordered[j]);
    var i := First(p, ordered[1..]);
    assert ordered[1..][i] == ordered[i + 1] && p(ordered[i + 1]);
    forall k: Candidate | k.divisor == divisor && FloorFits(ordered, k)
      ensures Try(ordered, divisor) == Some(k)
    {
      RuleThroughTwo(ordered, k, ordered[0], ordered[i + 1]);
      FitsAllIsFloorFits(ordered, k);
    }
    if Try(ordered, divisor).Some? {
      FitsAllIsFloorFits(ordered, Try(ordered, divisor).value);
    }
  }

  function FirstChangePoint(ordered: seq<Point>, dims: Dims): (r: (nat, nat))
    requires FloorChecks(ordered, dims)
    ensures r.0 == FirstChange(ordered, dims) && 0 < r.1 < |ordered|
    ensures ordered[0].block == 0
    ensures ordered[r.1].block == r.0 && ordered[r.1].address != ordered[0].address
  {
    var j := First(Leaves(ordered[0].address), ordered);
    assert Leaves(ordered[0].address)(ordered[j]);
    (ordered[j].block, j)
  }

  /** A divisor beyond the first change puts CTA 0 and the first changed CTA in one group. */
  lemma LargeDivisorsFail(ordered: seq<Point>, dims: Dims, divisor: nat)
    requires FloorChecks(ordered, dims) && divisor > FirstChange(ordered, dims)
    ensures !Admits(ordered, divisor)
  {
    hide FloorChecks;
    var (f, j) := FirstChangePoint(ordered, dims);
    DivZeroIffSmall(f, divisor);
    assert 0 / divisor == 0;
    forall k: Candidate | k.divisor == divisor ensures !FloorFits(ordered, k) {
      assert ordered[0] in ordered && ordered[j] in ordered;
    }
  }

  lemma FlatHasOneLevel(points: seq<Point>, address: int)
    requires forall p :: p in points ==> p.address == address
    ensures |Levels(points)| <= 1
  {
    var levels := Levels(points);
    assert levels <= {address};
    if levels != {} {
      assert levels == {address};
    }
  }

  /** Divisor 1 is ruled out: a plateau forces a zero stride, and then there is only one level. */
  lemma UnitDivisorFails(ordered: seq<Point>, dims: Dims)
    requires FloorChecks(ordered, dims)
    ensures !Admits(ordered, 1)
  {
    forall k: Candidate | k.divisor == 1 ensures !FloorFits(ordered, k) {
      LinearWithPlateauIsFlat(ordered, k.intercept, k.stride);
    }
  }

  lemma EqualOnLine(c: int, s: int, x: int, y: int)
    requires c + s * x == c + s * y && x != y
    ensures s == 0
  {
    assert s * (x - y) == 0;
    if s != 0 {
      MultipleIsLarge(x - y, s);
    }
  }

  /** A sequence of points on a line that has a plateau has a single level. */
  lemma LinearWithPlateauIsFlat(points: seq<Point>, c: int, s: int)
    requires HasPlateau(points)
    ensures (forall p :: p in points ==> p.address == c + s * p.block) ==> |Levels(points)| <= 1
  {
    if forall p :: p in points ==> p.address == c + s * p.block {
      var p, q :| p in points && q in points && p.block != q.block && p.address == q.address;
      EqualOnLine(c, s, p.block, q.block);
      FlatHasOneLevel(points, c);
    }
  }

  lemma {:induction false} CandidatesAre(ordered: seq<Point>, last: nat, k: Candidate)
    requires ordered != []
    ensures k in Candidates(ordered, last) <==> 2 <= k.divisor <= last && Try(ordered, k.divisor) == Some(k)
  {
    hide Try;
    if last >= 2 {
      CandidatesAre(ordered, last - 1, k);
    }
  }

  lemma {:induction false} CandidatesDistinct(ordered: seq<Point>, last: nat)
    requires ordered != []
    ensures forall i, j :: 0 <= i < j < |Candidates(ordered, last)| ==>
              Candidates(ordered, last)[i].divisor < Candidates(ordered, last)[j].divisor
    ensures forall i :: 0 <= i < |Candidates(ordered, last)| ==> Candidates(ordered, last)[i].divisor <= last
  {
    hide Try;
    if last >= 2 {
      CandidatesDistinct(ordered, last - 1);
    }
  }

  ghost predicate OnlyDivisor(points: seq<Point>, d: nat) {
    d >= 2 && Admits(points, d) && forall e: nat :: e >= 2 && Admits(points, e) ==> e == d
  }

  ghost predicate HasDivisor(found: seq<Candidate>, d: nat) {
    exists i :: 0 <= i < |found| && found[i].divisor == d
  }

  /** A divisor admits a fit exactly when the bounded search has a candidate for it. */
  lemma SearchIsExhaustive(ordered: seq<Point>, dims: Dims, d: nat)
    requires FloorChecks(ordered, dims) && d >= 2
    ensures Admits(ordered, d) <==> HasDivisor(Candidates(ordered, FirstChange(ordered, dims)), d)
  {
    hide FloorChecks, Try, FloorFits;
    var last := FirstChange(ordered, dims);
    NonEmpty(ordered, dims);
    var found := Candidates(ordered, last);
    if d > last {
      LargeDivisorsFail(ordered, dims, d);
      CandidatesDistinct(ordered, last);
    } else {
      TryDecides(ordered, dims, d);
      if Admits(ordered, d) {
        var k := Try(ordered, d).value;
        CandidatesAre(ordered, last, k);
        assert k in found;
      }
      if i :| 0 <= i < |found| && found[i].divisor == d {
        CandidatesAre(ordered, last, found[i]);
      }
    }
  }

  lemma NonEmpty(ordered: seq<Point>, dims: Dims)
    requires FloorChecks(ordered, dims)
    ensures ordered != []
  {
  }

  /**
   * The bounded search identifies the rule over all divisors: it succeeds exactly when one divisor
   * d >= 2 among all integers admits a fit, and then returns that divisor with the only intercept and
   * stride that fit.
   */
  lemma FloorIdentification(points: seq<Point>, dims: Dims, ordered: seq<Point>)
    requires ordered == SortBy(PointKey, points) && FloorChecks(ordered, dims)
    ensures FitFloor(points, dims).Ok? <==> exists d: nat :: OnlyDivisor(points, d)
    ensures forall k: Candidate :: FitFloor(points, dims) == Ok(FloorRule(k)) ==>
              k.divisor >= 2 && OnlyDivisor(points, k.divisor) && FloorFits(points, k)
              && forall l: Candidate :: l.divisor == k.divisor && FloorFits(points, l) ==> l == k
    ensures !Admits(points, 1)
  {
    hide FloorChecks, Try, SortBy, Candidates, Admits, FloorFits;
    SortByPermutes(PointKey, points);
    SameMembersSameFits(points, ordered);
    UnitDivisorFails(ordered, dims);
    NonEmpty(ordered, dims);
    var last := FirstChange(ordered, dims);
    var found := Candidates(ordered, last);
    CandidatesDistinct(ordered, last);
    forall d: nat | d >= 2
      ensures Admits(points, d) <==> HasDivisor(found, d)
    {
      SearchIsExhaustive(ordered, dims, d);
    }
    forall i | 0 <= i < |found|
      ensures 2 <= found[i].divisor <= last && Try(ordered, found[i].divisor) == Some(found[i])
    {
      CandidatesAre(ordered, last, found[i]);
    }
    if |found| == 1 {
      assert HasDivisor(found, found[0].divisor);
      assert OnlyDivisor(points, found[0].divisor);
      TryDecides(ordered, dims, found[0].divisor);
    } else {
      forall d: nat ensures !OnlyDivisor(points, d) {
        if |found| >= 2 {
          assert HasDivisor(found, found[0].divisor) && HasDivisor(found, found[1].divisor);
          assert Admits(points, found[0].divisor) && Admits(points, found[1].divisor);
        }
      }
    }
  }

  lemma SameMembersSameFits(a: seq<Point>, b: seq<Point>)
    requires forall p :: p in a <==> p in b
    ensures forall k: Candidate :: k.divisor > 0 ==> (FloorFits(a, k) <==> FloorFits(b, k))
    ensures forall d: nat :: d > 0 ==> (Admits(a, d) <==> Admits(b, d))
  {
    forall k: Candidate | k.divisor > 0 ensures FloorFits(a, k) <==> FloorFits(b, k) {
    }
  }

  /** Any rule the search returns predicts every training CTA of a one-dimensional grid. */
  lemma FitFloorSound(points: seq<Point>, dims: Dims)
    requires FitFloor(points, dims).Ok?
    requires forall i :: 0 <= i < |points| ==> InGrid(points[i].block, dims)
    ensures FitFloor(points, dims).value.XFloor? && FitFloor(points, dims).value.divisor >= 2
    ensures Fits(FitFloor(points, dims).value, points, dims)
  {
    hide FloorChecks, SortBy, Candidates;
    var ordered := SortBy(PointKey, points);
    NonEmpty(ordered, dims);
    var found := Candidates(ordered, FirstChange(ordered, dims));
    var k := found[0];
    assert FitFloor(points, dims) == Ok(FloorRule(k));
    FloorIdentification(points, dims, ordered);
    OneDimensional(ordered, dims);
    forall i | 0 <= i < |points|
      ensures Predict(FloorRule(k), points[i].block, dims) == Ok(points[i].address)
    {
      assert points[i] in points;
      LineCoordinates(points[i].block, dims);
    }
  }

  lemma OneDimensional(ordered: seq<Point>, dims: Dims)
    requires FloorChecks(ordered, dims)
    ensures dims.y == 1 && dims.z == 1
  {
  }

  lemma LineCoordinates(block: int, dims: Dims)
    requires dims.y == 1 && dims.z == 1 && InGrid(block, dims)
    ensures BlockCoordinates(block, dims) == Ok(Coord(block, 0, 0))
  {
    DivUnique(block, dims.x, 0, block);
  }
}
