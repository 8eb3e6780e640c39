/** How far the nine cells of the grid reach: the cell size is rounded down so that whole rows fill the
    meridian, and so a pair at most one cell size apart can be out of reach. */
module GridReach {
  import opened TrackIds
  import opened Rounding
  import opened Graph
  import opened SpatialGrid
  import opened Grouping

  lemma TimesLess(x: real, y: real, b: real)
    requires b > 0.0
    ensures x <= y <==> Times(x, b) <= Times(y, b)
  {
  }

  lemma TimesPlus(x: real, y: real, b: real)
    ensures Times(x + y, b) == Times(x, b) + Times(y, b)
    ensures Times(x - y, b) == Times(x, b) - Times(y, b)
    ensures Times(0.0, b) == 0.0 && Times(1.0, b) == b
  {
  }

  lemma QuotientIs(a: Positive, b: Positive, q: real)
    requires Times(q, b) == a
    ensures Quotient(a, b) == q && a / b == q
  {
    TimesLess(Quotient(a, b), q, b);
    TimesLess(q, Quotient(a, b), b);
  }

  lemma QuotientTimes(a: Positive, b: Positive)
    ensures Times(Quotient(a, b), b) == a
  {
  }

  lemma CeilIs(x: real)
    ensures x <= Ceil(x) as real < x + 1.0
  {
  }

  /** n is the least number of cells of at most this width that fill the whole. */
  ghost predicate Fewest(n: int, width: real, whole: real) {
    n >= 1 && Times((n - 1) as real, width) < whole <= Times(n as real, width)
  }

  lemma FewestCells(whole: Positive, width: Positive)
    ensures Fewest(Ceil(Quotient(whole, width)), width, whole)
  {
    var x := Quotient(whole, width);
    var n := Ceil(x);
    QuotientTimes(whole, width);
    CeilIs(x);
    TimesLess(x, n as real, width);
    TimesLess(x, (n - 1) as real, width);
    assert n >= 1;
    hide Times, Ceil, Quotient;
  }

  /** What the cell size becomes in degrees. */
  function Degrees(geo: Geometry): Positive { Quotient(Max(10.0, geo.cellSizeMeters), geo.metersPerDegree) }

  /** The width in degrees a column of the row aims at. */
  function Aimed(geo: Geometry, row: int): Positive {
    Quotient(geo.DeltaLat(), Max(0.0001, geo.cosMax(row)))
  }

  /** The rows fill the meridian and the columns of every row the circle; both are as few as can be with cells
      no larger than asked for, ten metres at least. */
  lemma CellsFill(geo: Geometry, row: int)
    ensures Times(Degrees(geo), geo.metersPerDegree) == Max(10.0, geo.cellSizeMeters)
    ensures Times(geo.NumRows() as real, geo.DeltaLat()) == 180.0 && geo.DeltaLat() <= Degrees(geo)
    ensures Fewest(geo.NumRows(), Degrees(geo), 180.0)
    ensures Times(geo.NumCols(row) as real, geo.DeltaLon(row)) == 360.0 && geo.DeltaLon(row) <= Aimed(geo, row)
    ensures Fewest(geo.NumCols(row), Aimed(geo, row), 360.0)
  {
    QuotientTimes(Max(10.0, geo.cellSizeMeters), geo.metersPerDegree);
    Filled(180.0, Degrees(geo), geo.NumRows());
    Filled(360.0, Aimed(geo, row), geo.NumCols(row));
  }

  lemma Filled(whole: Positive, width: Positive, n: int)
    requires n == var c := Ceil(Quotient(whole, width)); if c >= 1 then c else 1
    ensures Fewest(n, width, whole)
    ensures Times(n as real, Quotient(whole, n as real)) == whole && Quotient(whole, n as real) <= width
  {
    FewestCells(whole, width);
    var part := Quotient(whole, n as real);
    QuotientTimes(whole, n as real);
    assert Times(n as real, part) == Times(part, n as real) && Times(n as real, width) == Times(width, n as real);
    TimesLess(width, part, n as real);
    TimesLess(part, width, n as real);
    hide Times, Quotient;
  }

  function Cells(n: int, width: real): real { Times(n as real, width) }

  /** A whole number of cells of this width fills the whole. */
  ghost predicate Divides(width: real, whole: real) {
    exists n: int :: Cells(n, width) == whole
  }

  /** The pair documented as never missed: at most one cell size apart, here on one meridian. */
  predicate OnMeridian(geo: Geometry, p: Coord, q: Coord) {
    && -90.0 <= p.0 <= 90.0 && -90.0 <= q.0 <= 90.0 && p.1 == q.1
    && Abs(p.0 - q.0) <= Degrees(geo)
  }

  ghost predicate MeridianCovered(geo: Geometry) {
    forall p, q | OnMeridian(geo, p, q) :: geo.Probes(p, geo.CellOf(q))
  }

  /** The row height is the cell size exactly when the cell size divides the meridian. */
  lemma HeightIsCellSizeIff(geo: Geometry)
    ensures geo.DeltaLat() == Degrees(geo) <==> Divides(Degrees(geo), 180.0)
  {
    var n, h, d := geo.NumRows(), geo.DeltaLat(), Degrees(geo);
    CellsFill(geo, 0);
    hide Times, Cells, Fewest, Geometry.NumRows, Geometry.DeltaLat, Degrees;
    if m: int :| Cells(m, d) == 180.0 {
      ExactCount(m, n, d, 180.0);
      SameFactor(n as real, h, d);
    } else if h == d {
      assert Cells(n, d) == 180.0 by { CellsAre(n, d); }
    }
  }

  lemma CellsAre(n: int, width: real)
    ensures Cells(n, width) == Times(n as real, width)
  {
  }

  lemma ExactCount(m: int, n: int, width: Positive, whole: real)
    requires Fewest(n, width, whole) && Cells(m, width) == whole
    ensures m == n && Times(n as real, width) == whole
  {
    TimesLess(n as real, m as real, width);
    TimesLess(m as real, n as real, width);
    TimesLess(m as real, (n - 1) as real, width);
    TimesLess((m - 1) as real, (n - 1) as real, width);
    TimesPlus(m as real, 1.0, width);
    TimesPlus(n as real, 1.0, width);
    hide Times;
  }

  lemma SameFactor(n: real, h: real, d: real)
    requires n > 0.0 && Times(n, h) == Times(n, d)
    ensures h == d
  {
    TimesLess(h, d, n);
    TimesLess(d, h, n);
  }

  lemma SameShifted(geo: Geometry, row: int, lon: real)
    ensures Shifted(geo.ColIn(row, lon), 0, geo.NumCols(row)) == geo.ColIn(row, lon)
  {
    hide Mod360, NormLon, Geometry.NumCols, Geometry.DeltaLon;
  }

  lemma SameColumn(geo: Geometry, p: Coord, q: Coord)
    requires p.1 == q.1 && geo.RowOf(p.0) - 1 <= geo.RowOf(q.0) <= geo.RowOf(p.0) + 1
    ensures geo.Probes(p, geo.CellOf(q))
  {
    hide Geometry.RowOf, Geometry.NumCols, Geometry.NumRows, Geometry.ColIn;
    var row := geo.RowOf(q.0);
    assert Shifted(geo.ColIn(row, p.1), 0, geo.NumCols(row)) == geo.ColIn(row, q.1) by {
      SameShifted(geo, row, p.1);
    }
  }

  lemma CoveredWhenExact(geo: Geometry)
    requires Degrees(geo) >= 90.0 || geo.DeltaLat() == Degrees(geo)
    ensures MeridianCovered(geo)
  {
    CellsFill(geo, 0);
    TimesLess(2.0, (geo.NumRows() - 1) as real, Degrees(geo));
    assert Times(2.0, Degrees(geo)) == 2.0 * Degrees(geo);
    assert Degrees(geo) >= 90.0 ==> geo.NumRows() <= 2;
    hide Degrees, Geometry.DeltaLat, Geometry.NumRows, Geometry.Probes, Geometry.CellOf, Times;
    forall p, q | OnMeridian(geo, p, q) ensures geo.Probes(p, geo.CellOf(q)) {
      if Degrees(geo) < 90.0 {
        RowsNear(geo, p.0, q.0);
      }
      SameColumn(geo, p, q);
    }
  }

  /** Two latitudes one cell size apart with a whole row between them. */
  lemma RowBetween(geo: Geometry) returns (south: real, north: real)
    requires Degrees(geo) < 90.0 && geo.DeltaLat() < Degrees(geo)
    ensures -90.0 <= south <= north <= 90.0 && north - south == Degrees(geo)
    ensures geo.RowOf(south) == 0 && geo.RowOf(north) >= 2
  {
    CellsFill(geo, 0);
    var n := geo.NumRows();
    var h: real, d: real := geo.DeltaLat(), Degrees(geo);
    var u := Max(0.0, 2.0 * h - d);
    south, north := u - 90.0, u + d - 90.0;
    assert n >= 3 by {
      TimesLess(n as real, 2.0, d);
      assert Times(2.0, d) == 2.0 * d;
    }
    assert h <= 60.0 by {
      TimesLess(3.0, n as real, h);
      assert Times(3.0, h) == 3.0 * h;
    }
    RowFrom(u, h, 0);
    RowFrom(u + d, h, 2);
    hide Degrees, Geometry.DeltaLat, Geometry.NumRows, Times;
  }

  lemma RowFrom(x: real, h: real, k: nat)
    requires h > 0.0 && x >= 0.0
    ensures x >= Times(k as real, h) ==> (x / h).Floor >= k
    ensures x < h ==> (x / h).Floor == 0
    ensures Times(2.0, h) == 2.0 * h && Times(0.0, h) == 0.0
  {
    DivMul(x, h);
    TimesLess(k as real, x / h, h);
    TimesLess(1.0, x / h, h);
    TimesLess(0.0, x / h, h);
  }

  lemma MissedAcross(geo: Geometry, south: real, north: real)
    requires geo.RowOf(south) == 0 && geo.RowOf(north) >= 2
    ensures !geo.Probes((south, 0.0), geo.CellOf((north, 0.0)))
  {
  }

  /** Of two tracks on one meridian at most one cell size apart each is always in the cells the other probes,
      if and only if the cell size divides the meridian or the grid has at most two rows. */
  lemma MeridianCoveredIff(geo: Geometry)
    ensures MeridianCovered(geo) <==> Divides(Degrees(geo), 180.0) || Degrees(geo) >= 90.0
  {
    HeightIsCellSizeIff(geo);
    hide Divides, Degrees, Geometry.DeltaLat, Geometry.NumRows, Geometry.Probes, Geometry.CellOf;
    if Divides(Degrees(geo), 180.0) || Degrees(geo) >= 90.0 {
      CoveredWhenExact(geo);
    } else {
      CellsFill(geo, 0);
      var south, north := RowBetween(geo);
      var p, q: Coord := (south, 0.0), (north, 0.0);
      MissedAcross(geo, south, north);
      assert OnMeridian(geo, p, q);
    }
  }

  // ----- Grouping -----

  /** True of the real distance: along the meridian of Greenwich it is the arc. */
  ghost predicate Meridian(k: Kernel) {
    forall a, b {:trigger k.haversine((a, 0.0), (b, 0.0))} | -90.0 <= a <= 90.0 && -90.0 <= b <= 90.0 ::
      k.haversine((a, 0.0), (b, 0.0)) == Times(Abs(a - b), k.metersPerDegree)
  }

  function SeenAt(id: Id, latitude: real): Observation {
    Observation(id, latitude, 0.0, None, None, 1.0, None)
  }

  function TwoTracks(lo: Id, hi: Id, south: real, north: real): Population {
    map[lo := SeenAt(lo, south), hi := SeenAt(hi, north)]
  }

  /** The grid finds the pair whenever the pair correlates. */
  ghost predicate NeverMissed(k: Kernel, cfg: GroupingConfig, lo: Id, hi: Id) {
    forall a, b | -90.0 <= a <= 90.0 && -90.0 <= b <= 90.0 ::
      GridGraph(k, cfg, TwoTracks(lo, hi, a, b)) == AllPairsGraph(k, cfg, TwoTracks(lo, hi, a, b))
  }

  lemma CorrelatedOnMeridian(k: Kernel, cfg: GroupingConfig, lo: Id, hi: Id, a: real, b: real)
    requires Meridian(k) && cfg.maxDistance >= 10.0 && -90.0 <= a <= 90.0 && -90.0 <= b <= 90.0
    ensures Correlated(k, cfg, SeenAt(lo, a), SeenAt(hi, b)) <==> Abs(a - b) <= Degrees(GridGeometry(k, cfg))
  {
    var d, m := Degrees(GridGeometry(k, cfg)), k.metersPerDegree;
    CellsFill(GridGeometry(k, cfg), 0);
    TimesLess(Abs(a - b), d, m);
    assert k.haversine((a, 0.0), (b, 0.0)) == Times(Abs(a - b), m);
    hide Times, Degrees, Abs, GridGeometry;
  }

  lemma TestedOnMeridian(k: Kernel, cfg: GroupingConfig, lo: Id, hi: Id, a: real, b: real)
    requires Below(lo, hi) && -90.0 <= a <= 90.0 && -90.0 <= b <= 90.0
    ensures Tested(k, cfg, TwoTracks(lo, hi, a, b), lo, hi)
            <==> GridGeometry(k, cfg).Probes((a, 0.0), GridGeometry(k, cfg).CellOf((b, 0.0)))
  {
    var geo := GridGeometry(k, cfg);
    BelowIrreflexive(lo);
    NormalizeKeepsCells(geo, (b, 0.0), (0, 0));
    NormalizeKeepsCells(geo, (a, 0.0), geo.CellOf((b, 0.0)));
    hide Geometry.Probes, Geometry.CellOf, Normalize, GridGeometry;
  }

  lemma GraphsAgreeIff(k: Kernel, cfg: GroupingConfig, lo: Id, hi: Id, a: real, b: real)
    requires Below(lo, hi)
    ensures GridGraph(k, cfg, TwoTracks(lo, hi, a, b)) == AllPairsGraph(k, cfg, TwoTracks(lo, hi, a, b))
            <==> (Correlated(k, cfg, SeenAt(lo, a), SeenAt(hi, b))
                  ==> Tested(k, cfg, TwoTracks(lo, hi, a, b), lo, hi))
  {
    hide Correlated, Geometry.Probes, Candidates;
    var obs := TwoTracks(lo, hi, a, b);
    BelowAsymmetric(lo, hi);
    assert lo != hi && !Below(hi, lo);
    var tested, all := GridPairs(k, cfg, obs), CorrelatedPairs(k, cfg, obs);
    assert (lo, hi) in tested <==> Tested(k, cfg, obs, lo, hi) && Correlated(k, cfg, SeenAt(lo, a), SeenAt(hi, b));
    assert (lo, hi) in all <==> Correlated(k, cfg, SeenAt(lo, a), SeenAt(hi, b));
    forall x, y | (x, y) in tested || (x, y) in all ensures x == lo && y == hi {
      assert x in obs && y in obs && Below(x, y);
      BelowAsymmetric(x, y);
    }
    assert hi in GridGraph(k, cfg, obs)[lo] <==> (lo, hi) in tested;
    assert hi in AllPairsGraph(k, cfg, obs)[lo] <==> (lo, hi) in all;
    if (lo, hi) in tested <==> (lo, hi) in all {
      assert tested == all;
    }
  }

  /** With the correlation distance as the cell size, as the grouping uses it, two tracks on the meridian are
      joined by the grid whenever they correlate if and only if that distance divides the meridian, or the grid
      has at most two rows. */
  lemma GridMissesNoPairIff(k: Kernel, cfg: GroupingConfig, lo: Id, hi: Id)
    requires Meridian(k) && cfg.maxDistance >= 10.0 && Below(lo, hi)
    ensures NeverMissed(k, cfg, lo, hi)
            <==> Divides(Degrees(GridGeometry(k, cfg)), 180.0) || Degrees(GridGeometry(k, cfg)) >= 90.0
  {
    hide Divides, Meridian, Correlated, Tested, GridGraph, AllPairsGraph, TwoTracks;
    hide Geometry.Probes, Geometry.CellOf, Degrees, Geometry.DeltaLat;
    var geo := GridGeometry(k, cfg);
    hide GridGeometry;
    forall a, b | -90.0 <= a <= 90.0 && -90.0 <= b <= 90.0
      ensures GridGraph(k, cfg, TwoTracks(lo, hi, a, b)) == AllPairsGraph(k, cfg, TwoTracks(lo, hi, a, b))
              <==> (OnMeridian(geo, (a, 0.0), (b, 0.0)) ==> geo.Probes((a, 0.0), geo.CellOf((b, 0.0))))
    {
      CorrelatedOnMeridian(k, cfg, lo, hi, a, b);
      TestedOnMeridian(k, cfg, lo, hi, a, b);
      GraphsAgreeIff(k, cfg, lo, hi, a, b);
    }
    MeridianCoveredIff(geo);
    HeightIsCellSizeIff(geo);
    if !MeridianCovered(geo) {
      CellsFill(geo, 0);
      var south, north := RowBetween(geo);
      MissedAcross(geo, south, north);
      assert OnMeridian(geo, (south, 0.0), (north, 0.0));
    }
  }
}
