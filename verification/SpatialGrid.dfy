/** The latitude-scaled spatial hash grid: cell arithmetic over exact reals, and the index kept in
    four dictionaries. */
module SpatialGrid {
  import opened TrackIds
  import opened Rounding

  type Cell = (int, int)
  type Coord = (real, real)

  type Positive = x: real | x > 0.0 witness 1.0

  /** `metersPerDegree` is the constant pi*R/180; `cosMax(r)` is the largest cosine of a latitude
      in row r. Both come from trigonometry that the model does not look into. */
  datatype Geometry = Geometry(cellSizeMeters: real, metersPerDegree: Positive, cosMax: int -> real) {

    function NumRows(): (n: int)
      ensures n >= 1
    {
      var n := Ceil(180.0 / Quotient(Max(10.0, cellSizeMeters), metersPerDegree));
      if n >= 1 then n else 1
    }

    function DeltaLat(): Positive {
      Quotient(180.0, NumRows() as real)
    }

    function NumCols(row: int): (n: int)
      ensures n >= 1
    {
      var n := Ceil(360.0 / Quotient(DeltaLat(), Max(0.0001, cosMax(row))));
      if n >= 1 then n else 1
    }

    function DeltaLon(row: int): Positive {
      Quotient(360.0, NumCols(row) as real)
    }

    function RowOf(lat: real): (row: int)
      ensures 0 <= row < NumRows()
    {
      var r := ((NormLat(lat) + 90.0) / DeltaLat()).Floor;
      if r < 0 then 0 else if r > NumRows() - 1 then NumRows() - 1 else r
    }

    function ColIn(row: int, lon: real): int {
      (Mod360(NormLon(lon) + 180.0) / DeltaLon(row)).Floor % NumCols(row)
    }

    function CellOf(p: Coord): Cell {
      (RowOf(p.0), ColIn(RowOf(p.0), p.1))
    }

    /** The 3x3 neighbourhood looked at from `p`: three rows, and in each row three columns around
        the column that p's own longitude has in that row. */
    predicate Probes(p: Coord, cell: Cell) {
      && 0 <= cell.0 < NumRows()
      && RowOf(p.0) - 1 <= cell.0 <= RowOf(p.0) + 1
      && (exists dc | -1 <= dc <= 1 :: Shifted(ColIn(cell.0, p.1), dc, NumCols(cell.0)) == cell.1)
    }
  }

  function Quotient(a: Positive, b: Positive): (q: Positive)
    ensures q * b == a
  {
    DivMul(a, b);
    QuotientPositive(a, b);
    a / b
  }

  lemma QuotientPositive(a: real, b: real)
    requires a > 0.0 && b > 0.0
    ensures a / b > 0.0
  {
  }

  function Ceil(x: real): int { if x.Floor as real == x then x.Floor else x.Floor + 1 }

  function Shifted(col: int, dc: int, n: int): int
    requires n >= 1
  {
    (col + dc) % n
  }

  function Mod360(x: real): (m: real)
    ensures 0.0 <= m < 360.0
  {
    var k := (x / 360.0).Floor as real;
    assert k <= x / 360.0 < k + 1.0;
    x - 360.0 * k
  }

  function NormLat(lat: real): real { Clamp(-90.0, 90.0, lat) }

  function NormLon(lon: real): real { Mod360(lon + 180.0) - 180.0 }

  function Normalize(p: Coord): Coord { (NormLat(p.0), NormLon(p.1)) }

  /** Distance around the circle of longitudes. */
  function CyclicDistance(a: real, b: real): real {
    Min(Mod360(a - b), 360.0 - Mod360(a - b))
  }

  /** Latitudes at most one row height apart, longitudes at most one column of q's row apart. */
  predicate InBox(geo: Geometry, p: Coord, q: Coord) {
    && Abs(NormLat(p.0) - NormLat(q.0)) <= geo.DeltaLat()
    && CyclicDistance(p.1, q.1) <= geo.DeltaLon(geo.RowOf(q.0))
  }

  lemma Mod360Unique(x: real, m: real, k: int)
    requires 0.0 <= m < 360.0 && x == m + 360.0 * k as real
    ensures Mod360(x) == m
  {
    var q := x / 360.0;
    assert q == m / 360.0 + k as real;
    assert k as real <= q < k as real + 1.0;
    assert q.Floor == k;
  }

  function WithTurns(lon: real, turns: int): real { lon + 360.0 * turns as real }

  /** Normalizing moves a longitude by whole turns into [-180, 180), and a latitude to the nearest one there is. */
  lemma NormalizeMeans(p: Coord, lat: real)
    requires -90.0 <= lat <= 90.0
    ensures -180.0 <= Normalize(p).1 < 180.0 && exists turns: int :: Normalize(p).1 == WithTurns(p.1, turns)
    ensures -90.0 <= Normalize(p).0 <= 90.0 && Abs(Normalize(p).0 - p.0) <= Abs(lat - p.0)
  {
    assert Normalize(p).1 == WithTurns(p.1, -((p.1 + 180.0) / 360.0).Floor);
  }

  /** The angle used for the column, as one modulus. */
  lemma NormLonAngle(lon: real)
    ensures Mod360(NormLon(lon) + 180.0) == Mod360(lon + 180.0)
  {
    Mod360Unique(Mod360(lon + 180.0), Mod360(lon + 180.0), 0);
  }

  /** In terms of the two angles in [0, 360), the cyclic distance is the direct or the wrapped gap. */
  lemma CyclicGap(a: real, b: real)
    ensures var x, y := Mod360(a + 180.0), Mod360(b + 180.0);
            CyclicDistance(a, b) == Min(Abs(x - y), 360.0 - Abs(x - y))
  {
    var x, y := Mod360(a + 180.0), Mod360(b + 180.0);
    var i, j := ((a + 180.0) / 360.0).Floor, ((b + 180.0) / 360.0).Floor;
    assert a - b == x - y + 360.0 * (i - j) as real;
    if x >= y {
      Mod360Unique(a - b, x - y, i - j);
    } else {
      assert a - b == (x - y + 360.0) + 360.0 * (i - j - 1) as real;
      Mod360Unique(a - b, x - y + 360.0, i - j - 1);
    }
  }

  lemma RowsNear(geo: Geometry, p: real, q: real)
    requires Abs(NormLat(p) - NormLat(q)) <= geo.DeltaLat()
    ensures geo.RowOf(p) - 1 <= geo.RowOf(q) <= geo.RowOf(p) + 1
  {
    var d := geo.DeltaLat();
    var u, v := NormLat(p) + 90.0, NormLat(q) + 90.0;
    StepQuotient(u, v, d);
    StepQuotient(v, u, d);
  }

  lemma StepQuotient(u: real, v: real, d: real)
    requires d > 0.0 && u <= v + d
    ensures (u / d).Floor <= (v / d).Floor + 1
  {
    DivMonotone(u, v + d, d);
    DivSum(v, d, d);
    DivMul(1.0, d);
    assert d / d == 1.0;
    assert u / d <= v / d + 1.0;
  }

  lemma FloorBounds(x: real, w: real, n: int)
    requires n >= 1 && w > 0.0 && w * n as real == 360.0 && 0.0 <= x < 360.0
    ensures 0 <= (x / w).Floor < n
  {
    DivMul(x, w);
    DivMul(n as real, w);
    if x / w >= n as real {
      MulMonotone(n as real, x / w, w);
      assert false;
    }
  }

  /** Columns in one row: angles within one column width, directly or around the circle, fall into
      the same or cyclically adjacent columns. */
  lemma ColumnsNear(x: real, y: real, w: real, n: int) returns (dc: int)
    requires n >= 1 && w > 0.0 && w * n as real == 360.0
    requires 0.0 <= x < 360.0 && 0.0 <= y < 360.0
    requires Min(Abs(x - y), 360.0 - Abs(x - y)) <= w
    ensures -1 <= dc <= 1
    ensures Shifted((x / w).Floor % n, dc, n) == (y / w).Floor % n
  {
    var i, j := (x / w).Floor, (y / w).Floor;
    assert 0 <= i < n && 0 <= j < n by {
      FloorBounds(x, w, n);
      FloorBounds(y, w, n);
    }
    if Abs(x - y) <= w {
      assert -1 <= j - i <= 1 by {
        StepQuotient(x, y, w);
        StepQuotient(y, x, w);
      }
      dc := j - i;
    } else if x > y {
      assert j == 0 && i == n - 1 by { WrappedColumns(y, x, w, n); }
      dc := 1;
    } else {
      assert i == 0 && j == n - 1 by { WrappedColumns(x, y, w, n); }
      dc := -1;
    }
    ShiftReaches(i, j, dc, n);
  }

  lemma ShiftReaches(i: int, j: int, dc: int, n: int)
    requires 0 <= i < n && 0 <= j < n
    requires i + dc == j || (i == n - 1 && j == 0 && dc == 1) || (i == 0 && j == n - 1 && dc == -1)
    ensures Shifted(i % n, dc, n) == j % n
  {
    assert i % n == i && j % n == j;
    assert (i + dc) % n == j by {
      if i + dc == n {
      } else if i + dc == -1 {
        assert -1 == n * -1 + (n - 1);
      }
    }
  }

  lemma WrappedColumns(lo: real, hi: real, w: real, n: int)
    requires n >= 1 && w > 0.0 && w * n as real == 360.0
    requires 0.0 <= lo && hi < 360.0 && hi - lo >= 360.0 - w
    ensures (lo / w).Floor == 0 && (hi / w).Floor == n - 1
  {
    FloorBounds(hi, w, n);
    assert w * (n - 1) as real == 360.0 - w;
    DivMul((n - 1) as real, w);
    DivMonotone((n - 1) as real * w, hi, w);
    DivMonotone(0.0, lo, w);
    if lo >= w {
      assert false;
    }
    DivMul(1.0, w);
    DivMul(lo, w);
    if lo / w >= 1.0 {
      MulMonotone(1.0, lo / w, w);
      assert false;
    }
  }

  /** No false negatives in the degree box: a point whose latitude is within one row height and whose
      longitude is within one column width of its own row, across the antimeridian too, always lies
      in the nine cells probed. */
  lemma BoxNeighbourIsProbed(geo: Geometry, p: Coord, q: Coord)
    requires InBox(geo, p, q)
    ensures geo.Probes(p, geo.CellOf(q))
  {
    RowsNear(geo, p.0, q.0);
    var row := geo.RowOf(q.0);
    NormLonAngle(p.1);
    NormLonAngle(q.1);
    CyclicGap(p.1, q.1);
    var dc := ColumnsNear(Mod360(p.1 + 180.0), Mod360(q.1 + 180.0), geo.DeltaLon(row), geo.NumCols(row));
    assert Shifted(geo.ColIn(row, p.1), dc, geo.NumCols(row)) == geo.CellOf(q).1;
  }

  /** Storing normalized coordinates loses nothing the index looks at. */
  lemma NormalizeKeepsCells(geo: Geometry, p: Coord, cell: Cell)
    ensures geo.CellOf(Normalize(p)) == geo.CellOf(p)
    ensures geo.Probes(Normalize(p), cell) == geo.Probes(p, cell)
  {
    assert Mod360(NormLon(NormLon(p.1)) + 180.0) == Mod360(NormLon(p.1) + 180.0) by { NormLonAngle(NormLon(p.1)); }
    assert NormLat(NormLat(p.0)) == NormLat(p.0);
    assert geo.RowOf(NormLat(p.0)) == geo.RowOf(p.0);
    assert forall row :: geo.ColIn(row, NormLon(p.1)) == geo.ColIn(row, p.1);
  }

  /** The other tracks whose cell is probed from the track's position. */
  function Candidates(geo: Geometry, coords: map<Id, Coord>, id: Id): set<Id> {
    if id !in coords then {}
    else set o | o in coords && o != id && geo.Probes(coords[id], geo.CellOf(coords[o]))
  }

  /** Cell sets and reverse map are inverse to each other, and no cell is empty. */
  ghost predicate Inverse(grid: map<Cell, set<Id>>, trackCell: map<Id, Cell>) {
    && (forall cell, id :: (cell in grid && id in grid[cell]) <==> (id in trackCell && trackCell[id] == cell))
    && (forall cell | cell in grid :: grid[cell] != {})
  }

  /** Every indexed track has coordinates, and they give its cell. */
  ghost predicate CellsFollow(geo: Geometry, trackCell: map<Id, Cell>, trackCoords: map<Id, Coord>) {
    && trackCell.Keys == trackCoords.Keys
    && (forall id | id in trackCell :: trackCell[id] == geo.CellOf(trackCoords[id]))
  }

  lemma CellsFollowUpdate(geo: Geometry, trackCell: map<Id, Cell>, trackCoords: map<Id, Coord>, id: Id, p: Coord)
    requires CellsFollow(geo, trackCell, trackCoords)
    ensures CellsFollow(geo, trackCell[id := geo.CellOf(p)], trackCoords[id := p])
    ensures CellsFollow(geo, trackCell - {id}, trackCoords - {id})
  {
  }

  /** The index after taking a track out of a cell, dropping the cell if that empties it. */
  function Without(grid: map<Cell, set<Id>>, id: Id, cell: Cell): map<Cell, set<Id>> {
    if cell !in grid then grid
    else if grid[cell] - {id} == {} then grid - {cell}
    else grid[cell := grid[cell] - {id}]
  }

  function With(grid: map<Cell, set<Id>>, id: Id, cell: Cell): map<Cell, set<Id>> {
    grid[cell := (if cell in grid then grid[cell] else {}) + {id}]
  }

  lemma WithoutInverse(grid: map<Cell, set<Id>>, trackCell: map<Id, Cell>, id: Id)
    requires Inverse(grid, trackCell) && id in trackCell
    ensures Inverse(Without(grid, id, trackCell[id]), trackCell - {id})
  {
    var cell := trackCell[id];
    assert cell in grid && id in grid[cell];
    var g := Without(grid, id, cell);
    forall c, o ensures (c in g && o in g[c]) <==> (o in trackCell - {id} && (trackCell - {id})[o] == c) {
      if c == cell {
        assert o in grid[cell] - {id} <==> o in trackCell && o != id && trackCell[o] == cell;
      }
    }
  }

  lemma WithInverse(grid: map<Cell, set<Id>>, trackCell: map<Id, Cell>, id: Id, cell: Cell)
    requires Inverse(grid, trackCell) && id !in trackCell
    ensures Inverse(With(grid, id, cell), trackCell[id := cell])
  {
    var g := With(grid, id, cell);
    forall c, o ensures (c in g && o in g[c]) <==> (o in trackCell[id := cell] && trackCell[id := cell][o] == c) {
    }
  }

  /** The tracks of a row found in the columns around `colCenter` whose offset is from -1 up to `hi`. */
  ghost function RowFinds(trackCell: map<Id, Cell>, r: int, colCenter: int, n: int, hi: int): set<Id>
    requires n >= 1
  {
    set o | o in trackCell && trackCell[o].0 == r
            && exists d | -1 <= d < hi :: Shifted(colCenter, d, n) == trackCell[o].1
  }

  lemma RowFindsStep(grid: map<Cell, set<Id>>, trackCell: map<Id, Cell>, r: int, colCenter: int, n: int, hi: int)
    requires Inverse(grid, trackCell) && n >= 1 && hi >= -1
    ensures var key := (r, Shifted(colCenter, hi, n));
            RowFinds(trackCell, r, colCenter, n, hi + 1)
            == RowFinds(trackCell, r, colCenter, n, hi) + if key in grid then grid[key] else {}
  {
    var key := (r, Shifted(colCenter, hi, n));
    var inKey := if key in grid then grid[key] else {};
    forall o | o in trackCell && trackCell[o].0 == r
      ensures (exists d | -1 <= d < hi + 1 :: Shifted(colCenter, d, n) == trackCell[o].1)
              <==> (exists d | -1 <= d < hi :: Shifted(colCenter, d, n) == trackCell[o].1) || trackCell[o] == key
    {
    }
    assert forall o :: o in inKey <==> o in trackCell && trackCell[o] == key;
  }

  /** The index itself. `coords` is its abstract content; the other dictionaries follow from it. */
  class SpatialHashGrid {
    const geo: Geometry
    var rowCache: map<int, (int, real)>
    var grid: map<Cell, set<Id>>
    var trackCell: map<Id, Cell>
    var trackCoords: map<Id, Coord>

    /** The two directions agree, coordinates give the cell, and the row cache holds only true values. */
    ghost predicate Valid()
      reads this
    {
      && CellsFollow(geo, trackCell, trackCoords)
      && Inverse(grid, trackCell)
      && (forall row | row in rowCache :: rowCache[row] == (geo.NumCols(row), geo.DeltaLon(row)))
    }

    constructor (geo: Geometry)
      ensures Valid() && this.geo == geo && trackCoords == map[]
    {
      this.geo := geo;
      rowCache, grid, trackCell, trackCoords := map[], map[], map[], map[];
    }

    method GetRowQuantization(row: int) returns (nCols: int, deltaLon: real)
      requires Valid()
      modifies this`rowCache
      ensures Valid()
      ensures nCols == geo.NumCols(row) && deltaLon == geo.DeltaLon(row)
    {
      if row in rowCache {
        return rowCache[row].0, rowCache[row].1;
      }
      nCols, deltaLon := geo.NumCols(row), geo.DeltaLon(row);
      rowCache := rowCache[row := (nCols, deltaLon)];
    }

    method GetColInRowForLon(row: int, longitude: real) returns (col: int)
      requires Valid()
      modifies this`rowCache
      ensures Valid() && col == geo.ColIn(row, longitude)
    {
      var nCols, deltaLon := GetRowQuantization(row);
      col := (Mod360(NormLon(longitude) + 180.0) / deltaLon).Floor % nCols;
    }

    method GetCellCoords(latitude: real, longitude: real) returns (cell: Cell)
      requires Valid()
      modifies this`rowCache
      ensures Valid() && cell == geo.CellOf((latitude, longitude))
    {
      var row := geo.RowOf(latitude);
      var col := GetColInRowForLon(row, longitude);
      cell := (row, col);
    }

    /** Re-index a track at coordinates that are already normalized. */
    method Place(id: Id, p: Coord, cell: Cell)
      requires Valid() && cell == geo.CellOf(p)
      modifies this
      ensures Valid()
      ensures trackCoords == old(trackCoords)[id := p]
    {
      hide Inverse, CellsFollow, With, Without, Geometry.CellOf, Geometry.NumCols, Geometry.DeltaLon;
      ghost var rest := trackCell - {id};
      if id in trackCell {
        WithoutInverse(grid, trackCell, id);
        grid := Without(grid, id, trackCell[id]);
      } else {
        assert rest == trackCell;
      }
      WithInverse(grid, rest, id, cell);
      grid := With(grid, id, cell);
      assert trackCell[id := cell] == rest[id := cell];
      CellsFollowUpdate(geo, trackCell, trackCoords, id, p);
      trackCell := trackCell[id := cell];
      trackCoords := trackCoords[id := p];
    }

    /** Insert, or move an indexed track: its coordinates become the normalized ones. */
    method Insert(id: Id, latitude: real, longitude: real) returns (cell: Cell)
      requires Valid()
      modifies this
      ensures Valid()
      ensures trackCoords == old(trackCoords)[id := Normalize((latitude, longitude))]
      ensures cell == geo.CellOf((latitude, longitude))
    {
      var lat, lon := NormLat(latitude), NormLon(longitude);
      cell := GetCellCoords(lat, lon);
      Place(id, (lat, lon), cell);
      NormalizeKeepsCells(geo, (latitude, longitude), cell);
    }

    method Update(id: Id, latitude: real, longitude: real) returns (cell: Cell)
      requires Valid()
      modifies this
      ensures Valid()
      ensures trackCoords == old(trackCoords)[id := Normalize((latitude, longitude))]
      ensures cell == geo.CellOf((latitude, longitude))
    {
      cell := Insert(id, latitude, longitude);
    }

    method Remove(id: Id) returns (found: bool)
      requires Valid()
      modifies this
      ensures Valid()
      ensures found == (id in old(trackCoords))
      ensures trackCoords == old(trackCoords) - {id}
    {
      if id !in trackCell {
        assert trackCoords == trackCoords - {id};
        return false;
      }
      WithoutInverse(grid, trackCell, id);
      CellsFollowUpdate(geo, trackCell, trackCoords, id, (0.0, 0.0));
      var cell := trackCell[id];
      trackCell := trackCell - {id};
      trackCoords := trackCoords - {id};
      grid := Without(grid, id, cell);
      found := true;
    }

    method Clear()
      requires Valid()
      modifies this
      ensures Valid() && trackCoords == map[]
    {
      grid, trackCell, trackCoords := map[], map[], map[];
    }

    /** One row of the neighbourhood: the three columns around `lon`. */
    method CollectRow(r: int, lon: real) returns (found: set<Id>)
      requires Valid()
      modifies this`rowCache
      ensures Valid()
      ensures found == RowFinds(trackCell, r, geo.ColIn(r, lon), geo.NumCols(r), 2)
    {
      var nCols, _ := GetRowQuantization(r);
      var colCenter := GetColInRowForLon(r, lon);
      found := {};
      for dc := -1 to 2
        invariant Valid()
        invariant found == RowFinds(trackCell, r, colCenter, nCols, dc)
      {
        var key := (r, Shifted(colCenter, dc, nCols));
        RowFindsStep(grid, trackCell, r, colCenter, nCols, dc);
        if key in grid {
          found := found + grid[key];
        }
      }
    }

    /** The neighbourhood query: exactly the other tracks of the nine probed cells, sorted. */
    method GetCandidateNeighbors(id: Id) returns (result: seq<Id>)
      requires Valid()
      modifies this`rowCache
      ensures Valid()
      ensures result == Sorted(Candidates(geo, trackCoords, id))
    {
      hide Geometry.NumRows, Geometry.NumCols, Geometry.DeltaLon, Geometry.ColIn, Sorted;
      if id !in trackCell {
        return [];
      }
      var p := trackCoords[id];
      var centerRow := trackCell[id].0;
      var found: set<Id> := {};
      for dr := -1 to 2
        invariant Valid()
        invariant found == set o | o in trackCell && trackCell[o].0 < centerRow + dr && geo.Probes(p, trackCell[o])
      {
        var r := centerRow + dr;
        if 0 <= r < geo.NumRows() {
          var inRow := CollectRow(r, p.1);
          RowOfProbes(r, p);
          found := found + inRow;
        }
      }
      assert found - {id} == Candidates(geo, trackCoords, id);
      result := Sorted(found - {id});
    }

    lemma RowOfProbes(r: int, p: Coord)
      requires Valid() && 0 <= r < geo.NumRows() && geo.RowOf(p.0) - 1 <= r <= geo.RowOf(p.0) + 1
      ensures RowFinds(trackCell, r, geo.ColIn(r, p.1), geo.NumCols(r), 2)
              == set o | o in trackCell && trackCell[o].0 == r && geo.Probes(p, trackCell[o])
    {
    }
  }
}
