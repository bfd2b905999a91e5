/** What each family asks of the training CTAs, spelled out in their coordinates. */
module TrainingChecks {
  import opened Sequences
  import opened Order
  import opened Arithmetic
  import opened CoordinateRules
  import opened TableRules
  import opened FloorQuotient
  import opened Cascade
  import opened Coverage

  /** Training CTA `i` differs from the first one in exactly the coordinates named. */
  predicate Moved(points: seq<Point>, dims: Dims, i: int, x: bool, y: bool, z: bool)
    requires dims.x > 0 && dims.y > 0 && 0 <= i < |points|
  {
    var a, c := Split(points[0].block, dims), Split(points[i].block, dims);
    (c.x != a.x <==> x) && (c.y != a.y <==> y) && (c.z != a.z <==> z)
  }

  /** Affine: for every axis longer than one CTA, a training CTA that differs from the first in that axis alone. */
  lemma AffineCoverIs(points: seq<Point>, dims: Dims)
    requires points != [] && PointsInGrid(points, dims) && SomeCta(dims)
    ensures AffineCover(Sites(points, dims), dims)
       <==> && (dims.x == 1 || exists i :: 0 < i < |points| && Moved(points, dims, i, true, false, false))
            && (dims.y == 1 || exists i :: 0 < i < |points| && Moved(points, dims, i, false, true, false))
            && (dims.z == 1 || exists i :: 0 < i < |points| && Moved(points, dims, i, false, false, true))
  {
    hide Split, AlignedWith, Moved;
    forall i | 0 < i < |points|
      ensures AlignedWith(Sites(points, dims)[0].at, Sites(points, dims)[i].at, X)
         <==> Moved(points, dims, i, true, false, false)
      ensures AlignedWith(Sites(points, dims)[0].at, Sites(points, dims)[i].at, Y)
         <==> Moved(points, dims, i, false, true, false)
      ensures AlignedWith(Sites(points, dims)[0].at, Sites(points, dims)[i].at, Z)
         <==> Moved(points, dims, i, false, false, true)
    {
      AlignedIs(points, dims, i);
    }
  }

  lemma AlignedIs(points: seq<Point>, dims: Dims, i: nat)
    requires PointsInGrid(points, dims) && SomeCta(dims) && i < |points|
    ensures var a, c := Sites(points, dims)[0].at, Sites(points, dims)[i].at;
      && (AlignedWith(a, c, X) <==> Moved(points, dims, i, true, false, false))
      && (AlignedWith(a, c, Y) <==> Moved(points, dims, i, false, true, false))
      && (AlignedWith(a, c, Z) <==> Moved(points, dims, i, false, false, true))
  {
    hide Split;
    var a, c := Sites(points, dims)[0].at, Sites(points, dims)[i].at;
    assert AlignedWith(a, c, X) <==> On(c, X) != On(a, X) && On(c, Y) == On(a, Y) && On(c, Z) == On(a, Z);
    assert AlignedWith(a, c, Y) <==> On(c, Y) != On(a, Y) && On(c, X) == On(a, X) && On(c, Z) == On(a, Z);
    assert AlignedWith(a, c, Z) <==> On(c, Z) != On(a, Z) && On(c, X) == On(a, X) && On(c, Y) == On(a, Y);
  }

  /** y table: the same along x and z, and every y at the first CTA's x and z. */
  lemma TableCoverIs(points: seq<Point>, dims: Dims)
    requires points != [] && PointsInGrid(points, dims) && SomeCta(dims)
    ensures TableCover(Sites(points, dims), dims)
       <==> && (dims.x == 1 || exists i :: 0 < i < |points| && Moved(points, dims, i, true, false, false))
            && (dims.z == 1 || exists i :: 0 < i < |points| && Moved(points, dims, i, false, false, true))
            && forall y :: 0 <= y < dims.y ==> HasColumn(points, dims, y)
  {
    hide Split, AlignedWith, Moved;
    forall i | 0 < i < |points|
      ensures AlignedWith(Sites(points, dims)[0].at, Sites(points, dims)[i].at, X)
         <==> Moved(points, dims, i, true, false, false)
      ensures AlignedWith(Sites(points, dims)[0].at, Sites(points, dims)[i].at, Z)
         <==> Moved(points, dims, i, false, false, true)
    {
      AlignedIs(points, dims, i);
    }
    CoversYIs(points, dims);
  }

  /** Training CTA `i` has this y, and x and z of the first one. */
  predicate ColumnAt(points: seq<Point>, dims: Dims, i: int, y: int)
    requires dims.x > 0 && dims.y > 0 && 0 <= i < |points|
  {
    var a, c := Split(points[0].block, dims), Split(points[i].block, dims);
    c.x == a.x && c.z == a.z && c.y == y
  }

  ghost predicate HasColumn(points: seq<Point>, dims: Dims, y: int)
    requires dims.x > 0 && dims.y > 0
  {
    exists i :: 0 <= i < |points| && ColumnAt(points, dims, i, y)
  }

  lemma CoversYIs(points: seq<Point>, dims: Dims)
    requires points != [] && PointsInGrid(points, dims) && SomeCta(dims)
    ensures CoversY(Sites(points, dims), dims.y) <==> forall y :: 0 <= y < dims.y ==> HasColumn(points, dims, y)
  {
    hide Split;
    var s := Sites(points, dims);
    forall y | 0 <= y < dims.y
      ensures (exists i :: 0 <= i < |s| && s[i].at == Column(s[0].at, y)) <==> HasColumn(points, dims, y)
    {
      if i :| 0 <= i < |s| && s[i].at == Column(s[0].at, y) {
        assert ColumnAt(points, dims, i, y);
      }
      if HasColumn(points, dims, y) {
        var i :| 0 <= i < |points| && ColumnAt(points, dims, i, y);
        assert s[i].at == Column(s[0].at, y);
      }
    }
  }

  /** Training CTA `i` stands over the first one, in a plane from `low` on and below `high`. */
  predicate Above(points: seq<Point>, dims: Dims, i: int, low: int, high: int)
    requires dims.x > 0 && dims.y > 0 && 0 <= i < |points|
  {
    var a, c := Split(points[0].block, dims), Split(points[i].block, dims);
    c.x == a.x && c.y == a.y && low <= c.z < high
  }

  /**
   * Half partition: four planes or more, the first CTA in plane 0, coverage of x and y as before, and over the
   * first CTA one in the lower half of the planes, rounded up, and one in the rest.
   */
  lemma HalfCoverIs(points: seq<Point>, dims: Dims, half: int)
    requires points != [] && PointsInGrid(points, dims) && SomeCta(dims)
    requires dims.z <= 2 * half <= dims.z + 1
    ensures HalfCover(Sites(points, dims), dims)
       <==> && dims.z >= 4 && Split(points[0].block, dims).z == 0
            && (dims.x == 1 || exists i :: 0 < i < |points| && Moved(points, dims, i, true, false, false))
            && (forall y :: 0 <= y < dims.y ==> HasColumn(points, dims, y))
            && (exists i :: 0 < i < |points| && Above(points, dims, i, 1, half))
            && (exists i :: 0 <= i < |points| && Above(points, dims, i, half, dims.z))
  {
    hide Split, AlignedWith, Moved, CoversY;
    var s := Sites(points, dims);
    forall i | 0 < i < |points|
      ensures AlignedWith(s[0].at, s[i].at, X) <==> Moved(points, dims, i, true, false, false)
    {
      AlignedIs(points, dims, i);
    }
    CoversYIs(points, dims);
    assert Half(dims) == half;
    forall i | 0 <= i < |points|
      ensures InLowerHalf(s[0].at, dims)(s[i]) <==> Above(points, dims, i, 1, half)
      ensures InUpperHalf(s[0].at, dims)(s[i]) <==> Above(points, dims, i, half, dims.z)
    {
    }
  }

  /**
   * Floor quotient, for addresses that follow such a rule: a grid along x, five CTAs, CTA 0 among them, three
   * different addresses, two CTAs with one address, and no change before CTA 2.
   */
  lemma FloorChecksAre(points: seq<Point>, dims: Dims, k: Candidate)
    requires PointsInGrid(points, dims) && k.divisor > 0 && FloorFits(points, k)
    ensures FloorChecks(SortBy(PointKey, points), dims)
       <==> && dims.y == 1 && dims.z == 1 && |points| >= 5
            && (exists p :: p in points && p.block == 0)
            && |set p | p in points :: p.address| >= 3
            && (exists p, q :: p in points && q in points && p.block != q.block && p.address == q.address)
            && (forall p :: p in points && p.block <= 1 ==> p.address == k.intercept)
  {
    forall p | p in points ensures p.block >= 0 {
      var i :| 0 <= i < |points| && points[i] == p;
      assert InGrid(points[i].block, dims);
    }
    hide SortBy, FloorFits, FloorChecks, InGrid;
    var ordered := SortBy(PointKey, points);
    SortByPermutes(PointKey, points);
    SortBySorts(PointKey, points);
    OrderedPoints(points, ordered, k);
    if points != [] {
      FloorChecksOrdered(ordered, dims, k);
    } else {
      NoChecks(ordered, dims);
    }
    SameLevels(points, ordered);
    SamePlateau(points, ordered);
    LevelsAre(points);
    LevelsAre(ordered);
  }

  lemma NoChecks(ordered: seq<Point>, dims: Dims)
    requires ordered == []
    ensures !FloorChecks(ordered, dims)
  {
  }

  lemma OrderedPoints(points: seq<Point>, ordered: seq<Point>, k: Candidate)
    requires multiset(points) == multiset(ordered) && k.divisor > 0 && FloorFits(points, k)
    ensures |points| == |ordered| && (forall p :: p in points <==> p in ordered) && FloorFits(ordered, k)
  {
    PermutationLength(points, ordered);
    forall p ensures p in points <==> p in ordered {
      assert p in points <==> p in multiset(points);
      assert p in ordered <==> p in multiset(ordered);
    }
  }

  lemma FloorChecksOrdered(ordered: seq<Point>, dims: Dims, k: Candidate)
    requires ordered != [] && SortedBy(PointKey, ordered) && k.divisor > 0 && FloorFits(ordered, k)
    requires forall p :: p in ordered ==> p.block >= 0
    ensures FloorChecks(ordered, dims)
       <==> && dims.y == 1 && dims.z == 1 && |ordered| >= 5
            && (exists p :: p in ordered && p.block == 0) && |Levels(ordered)| >= 3 && HasPlateau(ordered)
            && (forall p :: p in ordered && p.block <= 1 ==> p.address == k.intercept)
  {
    hide FloorFits, Levels, HasPlateau, SortedBy;
    FirstOfAll(ordered);
    assert ordered[0] in ordered;
    if ordered[0].block == 0 && |Levels(ordered)| >= 3 {
      FirstChangeIs(ordered, k);
    }
  }

  lemma LevelsAre(points: seq<Point>)
    ensures Levels(points) == set p | p in points :: p.address
    ensures HasPlateau(points)
       <==> exists p, q :: p in points && q in points && p.block != q.block && p.address == q.address
  {
  }

  lemma PointOrder(p: Point, q: Point)
    ensures LexLeq(PointKey(p), PointKey(q)) ==> p.block <= q.block
  {
    assert PointKey(p)[0] == p.block && PointKey(q)[0] == q.block;
  }

  lemma FirstOfAll(ordered: seq<Point>)
    requires ordered != [] && SortedBy(PointKey, ordered)
    ensures forall i, j :: 0 <= i <= j < |ordered| ==> ordered[i].block <= ordered[j].block
    ensures forall p :: p in ordered ==> ordered[0].block <= p.block
  {
    hide LexLess;
    forall i, j | 0 <= i < j < |ordered| ensures ordered[i].block <= ordered[j].block {
      PointOrder(ordered[i], ordered[j]);
    }
  }

  /** In ascending order, the first address that differs stands at CTA 2 or later exactly when CTAs 0 and 1 agree. */
  lemma FirstChangeIs(ordered: seq<Point>, k: Candidate)
    requires ordered != [] && k.divisor > 0 && FloorFits(ordered, k)
    requires forall i, j :: 0 <= i <= j < |ordered| ==> ordered[i].block <= ordered[j].block
    requires ordered[0].block == 0 && |Levels(ordered)| >= 3
    ensures First(Leaves(ordered[0].address), ordered) != -1
    ensures ordered[First(Leaves(ordered[0].address), ordered)].block >= 2
       <==> forall p :: p in ordered && p.block <= 1 ==> p.address == k.intercept
  {
    var a := ordered[0].address;
    assert ordered[0] in ordered && a == k.intercept by {
      DivZeroIffSmall(0, k.divisor);
    }
    var j := First(Leaves(a), ordered);
    if j == -1 {
      forall p | p in ordered ensures p.address == a {
        var i :| 0 <= i < |ordered| && ordered[i] == p;
        assert !Leaves(a)(ordered[i]);
      }
      FlatHasOneLevel(ordered, a);
      assert false;
    }
    assert Leaves(a)(ordered[j]) && ordered[j] in ordered;
    forall p | p in ordered && p.address != a ensures p.block >= ordered[j].block {
      var i :| 0 <= i < |ordered| && ordered[i] == p;
      assert Leaves(a)(ordered[i]) && i >= j;
    }
  }

  // ---------------------------------------------------------- where the cascade stops

  ghost predicate AffineFits(points: seq<Point>, dims: Dims) {
    && PointsInGrid(points, dims) && AffineCover(Sites(points, dims), dims)
    && exists t: Rule :: t.Affine? && Fits(t, points, dims)
  }

  ghost predicate TableFits(points: seq<Point>, dims: Dims) {
    && PointsInGrid(points, dims) && TableCover(Sites(points, dims), dims)
    && exists t: Rule :: t.YTable? && |t.yOffsets| == dims.y && Fits(t, points, dims)
  }

  ghost predicate HalfFits(points: seq<Point>, dims: Dims) {
    && PointsInGrid(points, dims) && HalfCover(Sites(points, dims), dims)
    && exists t: Rule :: IsHalfRule(t, dims) && Fits(t, points, dims)
  }

  /**
   * The cascade stops at the narrowest family that training covers and that has a rule through all training
   * CTAs: affine, then y table, then half partition; only when none of them has one is it floor quotient.
   */
  lemma StopsAtNarrowest(points: seq<Point>, dims: Dims)
    requires |points| >= 2
    ensures var r := FitCoordinateRule(points, dims);
      && ((r.Ok? && r.value.Affine?) <==> AffineFits(points, dims))
      && ((r.Ok? && r.value.YTable?) <==> !AffineFits(points, dims) && TableFits(points, dims))
      && ((r.Ok? && r.value.ZHalf?)
        <==> !AffineFits(points, dims) && !TableFits(points, dims) && HalfFits(points, dims))
      && (r.Ok? ==> r.value.Affine? || r.value.YTable? || r.value.ZHalf? || r.value.XFloor?)
  {
    hide AffineCover, TableCover, HalfCover, Fits, FitAffine, FitTable, FitHalf, FitFloor;
    FitAffineExactly(points, dims);
    FitTableExactly(points, dims);
    FitHalfExactly(points, dims);
    KindsOf(points, dims);
  }

  lemma KindsOf(points: seq<Point>, dims: Dims)
    ensures FitAffine(points, dims).Ok? ==> FitAffine(points, dims).value.Affine?
    ensures FitTable(points, dims).Ok? ==> FitTable(points, dims).value.YTable?
    ensures FitHalf(points, dims).Ok? ==> FitHalf(points, dims).value.ZHalf?
    ensures FitFloor(points, dims).Ok? ==> FitFloor(points, dims).value.XFloor?
  {
    hide AxisStride, Matches, Candidates, FloorChecks, SortBy, LowerStride, UpperStep, YAddresses;
  }
}
