/** Tracks in a row on the equator, at positions in column widths of the grid: what the grid offers, which
    tracks correlate and which components they form. */
module EquatorLine {
  import opened TrackIds
  import opened Rounding
  import opened Graph
  import opened SpatialGrid
  import opened Grouping
  import opened GridReach
  import opened StoreModel
  import opened StoreExactness

  /** The store's grid has the cell size of the correlation distance, as by default; the size lies between
      the grid's minimum of ten metres and fifteen degrees. */
  ghost predicate Sized(k: StoreKernel, cfg: StoreConfig) {
    && cfg.gridCellSize == cfg.grouping.maxDistance
    && 10.0 <= cfg.gridCellSize <= 15.0 * k.base.metersPerDegree
  }

  /** True of the real distance and the real cosine: on the equator the distance is the arc, and the widest
      parallel of the row of latitude 0 is the equator itself. */
  ghost predicate Equator(k: StoreKernel, cfg: StoreConfig) {
    && k.base.cosMax(cfg.gridCellSize)(StoreGeometry(k, cfg).RowOf(0.0)) == 1.0
    && forall a, b {:trigger k.base.haversine((0.0, a), (0.0, b))} | 0.0 <= a <= 120.0 && 0.0 <= b <= 120.0 ::
         k.base.haversine((0.0, a), (0.0, b)) == Times(Abs(a - b), k.base.metersPerDegree)
  }

  // ----- The row of the equator -----

  /** A grid of n rows whose equator row is as wide as it is high, so that it has 2n columns. */
  ghost predicate Square(geo: Geometry, n: int) {
    && n >= 12 && geo.NumRows() == n
    && geo.NumCols(geo.RowOf(0.0)) == 2 * n && geo.DeltaLon(geo.RowOf(0.0)) == geo.DeltaLat()
  }

  lemma TimesSwap(x: real, y: real, z: real)
    ensures Times(x, y) == Times(y, x) && Times(Times(x, y), z) == Times(x, Times(y, z))
  {
  }

  /** The number of rows, and their height: the cell size rounded down to divide the meridian. */
  lemma Rows(geo: Geometry)
    requires Degrees(geo) <= 15.0
    ensures var n, w := geo.NumRows(), geo.DeltaLat();
            && n >= 12 && Times(n as real, w) == 180.0 && w <= Degrees(geo)
            && Times((n - 1) as real, Degrees(geo)) < 180.0
  {
    CellsFill(geo, 0);
    TimesLess(geo.NumRows() as real, 11.0, Degrees(geo));
    TimesSwap(Degrees(geo), 11.0, 1.0);
    TimesLess(Degrees(geo), 15.0, 11.0);
    assert Times(15.0, 11.0) == 165.0;
    hide Times, Degrees, Geometry.NumRows, Geometry.DeltaLat;
  }

  lemma Columns(geo: Geometry)
    requires Degrees(geo) <= 15.0 && geo.cosMax(geo.RowOf(0.0)) == 1.0
    ensures Square(geo, geo.NumRows())
  {
    Rows(geo);
    hide Degrees, Quotient, Times, Geometry.NumRows, Geometry.DeltaLat, Geometry.RowOf;
    var w, n, row := geo.DeltaLat(), geo.NumRows(), geo.RowOf(0.0);
    TimesPlus(1.0, 0.0, w);
    TimesSwap(1.0, w, 1.0);
    QuotientIs(w, 1.0, w);
    TimesPlus(n as real, n as real, w);
    assert (2 * n) as real == n as real + n as real;
    QuotientIs(360.0, w, (2 * n) as real);
    assert geo.NumCols(row) == 2 * n;
    TimesSwap((2 * n) as real, w, 1.0);
    QuotientIs(360.0, (2 * n) as real, w);
  }

  /** The longitude u column widths east of Greenwich. */
  function East(geo: Geometry, u: real): real { Times(u, geo.DeltaLat()) }

  lemma EastRange(geo: Geometry, u: real)
    requires Degrees(geo) <= 15.0 && 0.0 <= u <= 8.0
    ensures 0.0 <= East(geo, u) <= 120.0
  {
    Rows(geo);
    var w := geo.DeltaLat();
    assert Times(8.0, w) == 8.0 * w;
    hide Degrees, Times, Geometry.DeltaLat;
    TimesLess(0.0, u, w);
    TimesPlus(0.0, 0.0, w);
    TimesLess(u, 8.0, w);
  }

  lemma Normal(lon: real)
    requires 0.0 <= lon <= 120.0
    ensures NormLon(lon) == lon && Normalize((0.0, lon)) == (0.0, lon)
    ensures Mod360(lon + 180.0) == lon + 180.0
  {
    Mod360Unique(lon + 180.0, lon + 180.0, 0);
  }

  lemma ColumnOf(u: real, w: Positive, n: int)
    requires Times(n as real, w) == 180.0 && u >= 0.0
    ensures ((Times(u, w) + 180.0) / w).Floor == u.Floor + n
  {
    TimesPlus(u, n as real, w);
    FloorPlus(u, n);
    TimesLess(0.0, u, w);
    TimesPlus(0.0, 0.0, w);
    hide Times;
    QuotientIs(Times(u, w) + 180.0, w, u + n as real);
  }

  lemma FloorPlus(u: real, n: int)
    ensures (u + n as real).Floor == u.Floor + n
  {
  }

  /** Columns are numbered from the antimeridian: Greenwich is the start of column n. */
  lemma CellAt(geo: Geometry, u: real)
    requires Degrees(geo) <= 15.0 && geo.cosMax(geo.RowOf(0.0)) == 1.0 && 0.0 <= u <= 8.0
    ensures geo.ColIn(geo.RowOf(0.0), East(geo, u)) == u.Floor + geo.NumRows()
    ensures geo.CellOf((0.0, East(geo, u))) == (geo.RowOf(0.0), u.Floor + geo.NumRows())
  {
    hide Degrees, Quotient, Times, Geometry.NumRows, Geometry.DeltaLat, Geometry.NumCols, Geometry.DeltaLon,
         Geometry.RowOf, Geometry.ColIn, Mod360, NormLon, Normalize;
    Rows(geo);
    Columns(geo);
    EastRange(geo, u);
    Normal(East(geo, u));
    ColumnOf(u, geo.DeltaLat(), geo.NumRows());
    ColumnIs(geo, geo.RowOf(0.0), East(geo, u), u.Floor + geo.NumRows());
  }

  lemma ColumnIs(geo: Geometry, row: int, lon: real, c: int)
    requires NormLon(lon) == lon && Mod360(lon + 180.0) == lon + 180.0
    requires ((lon + 180.0) / geo.DeltaLon(row)).Floor == c && 0 <= c < geo.NumCols(row)
    ensures geo.ColIn(row, lon) == c
  {
    hide Mod360, NormLon, Geometry.NumCols, Geometry.DeltaLon;
    ShiftIs(c, 0, geo.NumCols(row));
  }

  lemma ShiftIs(c: int, dc: int, n: int)
    requires n >= 1 && 0 <= c + dc < n
    ensures Shifted(c, dc, n) == c + dc
  {
  }

  lemma ProbesAt(geo: Geometry, u: real, v: real)
    requires Degrees(geo) <= 15.0 && geo.cosMax(geo.RowOf(0.0)) == 1.0 && 0.0 <= u <= 8.0 && 0.0 <= v <= 8.0
    ensures geo.Probes((0.0, East(geo, u)), geo.CellOf((0.0, East(geo, v)))) <==> -1 <= u.Floor - v.Floor <= 1
  {
    hide Degrees, Quotient, East, Geometry.NumCols, Geometry.NumRows, Geometry.ColIn, Geometry.RowOf, Geometry.CellOf,
         Geometry.DeltaLat, Geometry.DeltaLon, Shifted;
    CellAt(geo, u);
    CellAt(geo, v);
    Rows(geo);
    Columns(geo);
    var n, c, e := geo.NumRows(), u.Floor + geo.NumRows(), v.Floor + geo.NumRows();
    ShiftIs(c, -1, 2 * n);
    ShiftIs(c, 0, 2 * n);
    ShiftIs(c, 1, 2 * n);
    if -1 <= e - c <= 1 {
      assert Shifted(c, e - c, 2 * n) == e;
    }
  }

  // ----- A population in a row -----

  /** Positions in column widths. */
  type Places = map<Id, real>

  /** In reach, and no two tracks at a distance between 1 and 1.1 column widths. */
  ghost predicate Spaced(at: Places) {
    && (forall x | x in at :: 0.0 <= at[x] <= 8.0)
    && (forall x, y | x in at && y in at :: Gap(at[x], at[y]))
  }

  predicate Gap(u: real, v: real) { Abs(u - v) <= 1.0 || Abs(u - v) >= 1.1 }

  function Seen(k: StoreKernel, cfg: StoreConfig, id: Id, u: real): Observation {
    Observation(id, 0.0, East(StoreGeometry(k, cfg), u), None, None, 1.0, None)
  }

  function Line(k: StoreKernel, cfg: StoreConfig, at: Places): Population {
    map id | id in at :: Seen(k, cfg, id, at[id])
  }

  predicate Close(at: Places, x: Id, y: Id)
    requires x in at && y in at
  {
    x != y && Abs(at[x] - at[y]) <= 1.0
  }

  function CloseGraph(at: Places): Adjacency {
    map x | x in at :: set y | y in at && Close(at, x, y)
  }

  lemma SizedDegrees(k: StoreKernel, cfg: StoreConfig)
    requires Sized(k, cfg)
    ensures Times(Degrees(StoreGeometry(k, cfg)), k.base.metersPerDegree) == cfg.gridCellSize
    ensures Degrees(StoreGeometry(k, cfg)) <= 15.0
  {
    var m := k.base.metersPerDegree;
    QuotientTimes(cfg.gridCellSize, m);
    assert Times(15.0, m) == 15.0 * m;
    TimesLess(Degrees(StoreGeometry(k, cfg)), 15.0, m);
    hide Times, Quotient;
  }

  lemma LineCoords(k: StoreKernel, cfg: StoreConfig, at: Places)
    requires Sized(k, cfg) && Spaced(at)
    ensures Coords(Line(k, cfg, at)) == map id | id in at :: (0.0, East(StoreGeometry(k, cfg), at[id]))
  {
    SizedDegrees(k, cfg);
    hide East, Degrees, StoreGeometry;
    forall id | id in at
      ensures Normalize((0.0, East(StoreGeometry(k, cfg), at[id]))) == (0.0, East(StoreGeometry(k, cfg), at[id]))
    {
      EastRange(StoreGeometry(k, cfg), at[id]);
      Normal(East(StoreGeometry(k, cfg), at[id]));
    }
    hide Normalize;
  }

  /** The candidates of a track are the other tracks of its own and the adjacent columns. */
  lemma LineCandidates(k: StoreKernel, cfg: StoreConfig, at: Places, x: Id)
    requires Sized(k, cfg) && Equator(k, cfg) && Spaced(at) && x in at
    ensures Candidates(StoreGeometry(k, cfg), Coords(Line(k, cfg, at)), x)
            == set y | y in at && y != x && -1 <= at[x].Floor - at[y].Floor <= 1
  {
    var geo := StoreGeometry(k, cfg);
    LineCoords(k, cfg, at);
    SizedDegrees(k, cfg);
    assert geo.cosMax(geo.RowOf(0.0)) == 1.0;
    hide Equator, Degrees, Coords, Line, East, Geometry.Probes, Geometry.CellOf, StoreGeometry;
    forall y | y in at
      ensures geo.Probes((0.0, East(geo, at[x])), geo.CellOf((0.0, East(geo, at[y]))))
              <==> -1 <= at[x].Floor - at[y].Floor <= 1
    {
      ProbesAt(geo, at[x], at[y]);
    }
  }

  lemma AbsTimes(u: real, v: real, w: real)
    requires w > 0.0
    ensures Abs(Times(u, w) - Times(v, w)) == Times(Abs(u - v), w)
  {
    TimesLess(v, u, w);
    TimesPlus(u, v, w);
    TimesPlus(v, u, w);
    hide Times;
  }

  /** The correlation distance is between 1 and 1.1 column widths. */
  lemma ReachIs(geo: Geometry)
    requires Degrees(geo) <= 15.0
    ensures geo.DeltaLat() <= Degrees(geo) < 1.1 * geo.DeltaLat()
  {
    Rows(geo);
    var d, w, n := Degrees(geo), geo.DeltaLat(), geo.NumRows();
    var m := (n - 1) as real;
    assert Times(1.1 * w, m) == 1.1 * Times(w, m);
    TimesPlus(n as real, 1.0, w);
    TimesSwap(m, w, 1.0);
    TimesSwap(m, d, 1.0);
    TimesLess(1.1 * w, d, m);
    TimesPlus(1.0, 0.0, w);
    hide Times, Degrees, Geometry.DeltaLat, Geometry.NumRows;
  }

  lemma InReach(t: real, w: real, d: real)
    requires w > 0.0 && w <= d < 1.1 * w && (t <= 1.0 || t >= 1.1)
    ensures Times(t, w) <= d <==> t <= 1.0
  {
    TimesLess(t, 1.0, w);
    TimesLess(1.1, t, w);
    assert Times(1.1, w) == 1.1 * w && Times(1.0, w) == w;
    hide Times;
  }

  lemma LineCorrelated(k: StoreKernel, cfg: StoreConfig, at: Places, x: Id, y: Id)
    requires Sized(k, cfg) && Equator(k, cfg) && Spaced(at) && x in at && y in at
    ensures Correlated(k.base, cfg.grouping, Line(k, cfg, at)[x], Line(k, cfg, at)[y]) <==> Abs(at[x] - at[y]) <= 1.0
  {
    hide Degrees, Abs, Times, StoreGeometry, Geometry.DeltaLat, Close;
    var geo, m := StoreGeometry(k, cfg), k.base.metersPerDegree;
    var w, d, t := geo.DeltaLat(), Degrees(geo), Abs(at[x] - at[y]);
    SizedDegrees(k, cfg);
    EastRange(geo, at[x]);
    EastRange(geo, at[y]);
    AbsTimes(at[x], at[y], w);
    assert k.base.haversine((0.0, East(geo, at[x])), (0.0, East(geo, at[y]))) == Times(Times(t, w), m);
    hide Equator, East;
    ReachIs(geo);
    TimesLess(Times(t, w), d, m);
    InReach(t, w, d);
  }

  lemma FloorsNear(u: real, v: real)
    requires Abs(u - v) <= 1.0
    ensures -1 <= u.Floor - v.Floor <= 1
  {
  }

  lemma PairTested(k: StoreKernel, cfg: StoreConfig, at: Places, x: Id, y: Id)
    requires Sized(k, cfg) && Equator(k, cfg) && Spaced(at) && x in at && y in at
    ensures (x, y) in GridPairs(k.base, cfg.grouping, Line(k, cfg, at)) <==> Below(x, y) && Abs(at[x] - at[y]) <= 1.0
  {
    LineCorrelated(k, cfg, at, x, y);
    LineCandidates(k, cfg, at, x);
    BelowIrreflexive(x);
    if Abs(at[x] - at[y]) <= 1.0 {
      FloorsNear(at[x], at[y]);
    }
    hide Candidates, Coords, Correlated, Equator, Spaced, Abs, Below;
    assert Line(k, cfg, at).Keys == at.Keys && GridGeometry(k.base, cfg.grouping) == StoreGeometry(k, cfg);
    hide Line, Sized;
  }

  /** The pair is among the correlated ones, the smaller identifier first. */
  ghost predicate Paired(k: StoreKernel, cfg: StoreConfig, at: Places, x: Id, y: Id) {
    (x, y) in GridPairs(k.base, cfg.grouping, Line(k, cfg, at))
        || (y, x) in GridPairs(k.base, cfg.grouping, Line(k, cfg, at))
  }

  lemma PairClose(k: StoreKernel, cfg: StoreConfig, at: Places, x: Id, y: Id)
    requires Sized(k, cfg) && Equator(k, cfg) && Spaced(at) && x in at && y in at
    ensures Paired(k, cfg, at, x, y) <==> Close(at, x, y)
  {
    hide GridPairs, Line, Equator, Sized, Spaced;
    PairTested(k, cfg, at, x, y);
    PairTested(k, cfg, at, y, x);
    BelowTotal(x, y);
    BelowIrreflexive(x);
    hide Below;
  }

  /** The correlation graph joins exactly the tracks at most one column width apart. */
  lemma LineGraph(k: StoreKernel, cfg: StoreConfig, at: Places)
    requires Sized(k, cfg) && Equator(k, cfg) && Spaced(at)
    ensures GraphOf(k, cfg, Line(k, cfg, at)) == CloseGraph(at)
  {
    hide Line, Sized, Equator, Spaced, Close, GridPairs;
    assert Line(k, cfg, at).Keys == at.Keys by { LineKeys(k, cfg, at); }
    forall x | x in at ensures GraphOf(k, cfg, Line(k, cfg, at))[x] == CloseGraph(at)[x] {
      LineNeighbours(k, cfg, at, x);
    }
  }

  lemma LineKeys(k: StoreKernel, cfg: StoreConfig, at: Places)
    ensures Line(k, cfg, at).Keys == at.Keys
  {
  }

  lemma LineNeighbours(k: StoreKernel, cfg: StoreConfig, at: Places, x: Id)
    requires Sized(k, cfg) && Equator(k, cfg) && Spaced(at) && x in at && Line(k, cfg, at).Keys == at.Keys
    ensures GraphOf(k, cfg, Line(k, cfg, at))[x] == CloseGraph(at)[x]
  {
    hide Line, Sized, Equator, Spaced, Close, GridPairs;
    forall y | y in at ensures y in GraphOf(k, cfg, Line(k, cfg, at))[x] <==> Close(at, x, y) {
      PairClose(k, cfg, at, x, y);
    }
  }

  lemma LineCovered(k: StoreKernel, cfg: StoreConfig, at: Places)
    requires Sized(k, cfg) && Equator(k, cfg) && Spaced(at)
    ensures Covers(k, cfg, Line(k, cfg, at))
  {
    LineGraph(k, cfg, at);
    forall x, y | x in at && y in CloseGraph(at)[x]
      ensures y in Candidates(StoreGeometry(k, cfg), Coords(Line(k, cfg, at)), x)
    {
      LineCandidates(k, cfg, at, x);
      FloorsNear(at[x], at[y]);
    }
    hide Candidates, Coords, Line, GraphOf, StoreGeometry;
  }

  // ----- Components -----

  /** The tracks of the sequence are each close to the next, and close to no other track. */
  ghost predicate Chain(at: Places, q: seq<Id>) {
    && q != [] && (forall i | 0 <= i < |q| :: q[i] in at)
    && (forall i | 0 < i < |q| :: Close(at, q[i - 1], q[i]))
    && Shut(at, Elements(q))
  }

  /** No track of the set is close to one outside it. */
  ghost predicate Shut(at: Places, s: set<Id>) {
    forall x, y | x in s && x in at && y in at && Close(at, x, y) :: y in s
  }

  lemma {:induction false} ChainLinked(at: Places, q: seq<Id>, i: nat)
    requires Chain(at, q) && i < |q|
    ensures Linked(CloseGraph(at), q[0], q[i])
  {
    var g := CloseGraph(at);
    if i == 0 {
      LinkedSelf(g, q[0]);
    } else {
      ChainLinked(at, q, i - 1);
      assert q[i] in g[q[i - 1]];
      LinkedStep(g, q[0], q[i - 1], q[i]);
    }
  }

  lemma CloseUndirected(at: Places)
    ensures Undirected(CloseGraph(at))
  {
  }

  lemma ChainIsComponent(at: Places, q: seq<Id>, x: Id)
    requires Chain(at, q) && x in q
    ensures Component(CloseGraph(at), x) == Elements(q)
  {
    var g := CloseGraph(at);
    CloseUndirected(at);
    forall b | b in Elements(q) ensures b in g && Linked(g, q[0], b) {
      var i :| 0 <= i < |q| && q[i] == b;
      ChainLinked(at, q, i);
    }
    assert q[0] in Elements(q);
    ComponentIs(g, Elements(q), q[0]);
    SameComponent(g, q[0], x);
  }
}
