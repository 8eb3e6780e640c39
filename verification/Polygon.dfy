/** Point-in-polygon by ray casting, with its bounding-box pre-filter, over exact reals. */
module Polygon {
  import opened Rounding

  /** A vertex as (lon, lat). */
  type Point = (real, real)

  /** The constant the code adds to every denominator. */
  const EPSILON := 0.000000000001

  /** The edge between a and b has one end above the latitude and one not. */
  predicate Straddles(a: Point, b: Point, lat: real) { (a.1 > lat) != (b.1 > lat) }

  function Denominator(a: Point, b: Point, eps: real): real { b.1 - a.1 + eps }

  /** Where the edge meets the latitude, as computed from its end a. */
  function Intersection(a: Point, b: Point, lat: real, eps: real): real
    requires Denominator(a, b, eps) != 0.0
  {
    (b.0 - a.0) * (lat - a.1) / Denominator(a, b, eps) + a.0
  }

  predicate Degenerate(a: Point, b: Point, lat: real, eps: real) {
    Straddles(a, b, lat) && Denominator(a, b, eps) == 0.0
  }

  /** The edge is crossed by the ray going east from the point. */
  predicate Crosses(a: Point, b: Point, lat: real, lon: real, eps: real) {
    Straddles(a, b, lat) && Denominator(a, b, eps) != 0.0 && lon < Intersection(a, b, lat, eps)
  }

  /** The point lies west of where the edge, computed from its end a, meets the latitude: without the
      division, and false when that would be by zero. */
  predicate West(a: Point, b: Point, lat: real, lon: real, eps: real) {
    var d := Denominator(a, b, eps);
    if d > 0.0 then (lon - a.0) * d < (b.0 - a.0) * (lat - a.1)
    else d < 0.0 && (lon - a.0) * d > (b.0 - a.0) * (lat - a.1)
  }

  lemma CrossesInCoordinates(a: Point, b: Point, lat: real, lon: real, eps: real)
    ensures Crosses(a, b, lat, lon, eps) <==> Straddles(a, b, lat) && West(a, b, lat, lon, eps)
  {
    var d, n := Denominator(a, b, eps), (b.0 - a.0) * (lat - a.1);
    if d != 0.0 {
      assert Intersection(a, b, lat, eps) == n / d + a.0;
      LessThanQuotient(lon - a.0, n, d);
    }
  }

  lemma LessThanQuotient(x: real, n: real, d: real)
    requires d != 0.0
    ensures x < n / d <==> if d > 0.0 then x * d < n else x * d > n
  {
    var q := n / d;
    assert q * d == n;
    if d > 0.0 {
      assert x < q <==> x * d < q * d;
    } else {
      assert x < q <==> x * d > q * d;
    }
  }

  /** The edge rises to a, across the latitude, by exactly the constant: its denominator vanishes. */
  predicate RisesByConstant(a: Point, b: Point, lat: real, eps: real) {
    a.1 > lat >= b.1 && a.1 == b.1 + eps
  }

  /** The previous vertex around the cycle. */
  function Previous(v: seq<Point>, i: int): Point
    requires 0 <= i < |v|
  {
    if i == 0 then v[|v| - 1] else v[i - 1]
  }

  function One(b: bool): nat { if b then 1 else 0 }

  /** Crossings of the first n edges, edge i joining vertex i to the one before it. */
  function CrossingsTo(v: seq<Point>, n: nat, lat: real, lon: real, eps: real): nat
    requires n <= |v|
  {
    if n == 0 then 0
    else CrossingsTo(v, n - 1, lat, lon, eps) + One(Crosses(v[n - 1], Previous(v, n - 1), lat, lon, eps))
  }

  function Crossings(v: seq<Point>, lat: real, lon: real, eps: real): nat {
    CrossingsTo(v, |v|, lat, lon, eps)
  }

  ghost predicate InBox(v: seq<Point>, lat: real, lon: real) {
    && (exists i :: 0 <= i < |v| && v[i].0 <= lon) && (exists i :: 0 <= i < |v| && lon <= v[i].0)
    && (exists i :: 0 <= i < |v| && v[i].1 <= lat) && (exists i :: 0 <= i < |v| && lat <= v[i].1)
  }

  ghost predicate AnyDegenerate(v: seq<Point>, lat: real, eps: real) {
    exists i :: 0 <= i < |v| && Degenerate(v[i], Previous(v, i), lat, eps)
  }

  ghost predicate AnyRises(v: seq<Point>, lat: real, eps: real) {
    exists i :: 0 <= i < |v| && RisesByConstant(v[i], Previous(v, i), lat, eps)
  }

  ghost predicate AnyFalls(v: seq<Point>, lat: real, eps: real) {
    exists i :: 0 <= i < |v| && RisesByConstant(Previous(v, i), v[i], lat, eps)
  }

  lemma DegenerateRises(a: Point, b: Point, lat: real, eps: real)
    requires eps >= 0.0
    ensures Degenerate(a, b, lat, eps) <==> RisesByConstant(a, b, lat, eps)
  {
  }

  datatype Outcome = Answer(inside: bool) | DivisionByZero

  /** What the crossing count alone answers, without the pre-filter. */
  ghost function Cast(v: seq<Point>, lat: real, lon: real, eps: real): Outcome {
    if AnyDegenerate(v, lat, eps) then DivisionByZero else Answer(Crossings(v, lat, lon, eps) % 2 == 1)
  }

  method Bounds(v: seq<Point>) returns (minLon: real, maxLon: real, minLat: real, maxLat: real)
    requires v != []
    ensures forall lon, lat :: InBox(v, lat, lon) <==> minLon <= lon <= maxLon && minLat <= lat <= maxLat
  {
    minLon, maxLon, minLat, maxLat := v[0].0, v[0].0, v[0].1, v[0].1;
    ghost var west, east, south, north := 0, 0, 0, 0;
    for i := 1 to |v|
      invariant 0 <= west < i && 0 <= east < i && 0 <= south < i && 0 <= north < i
      invariant minLon == v[west].0 && maxLon == v[east].0 && minLat == v[south].1 && maxLat == v[north].1
      invariant forall j | 0 <= j < i :: minLon <= v[j].0 <= maxLon && minLat <= v[j].1 <= maxLat
    {
      if v[i].0 < minLon { minLon, west := v[i].0, i; }
      if v[i].0 > maxLon { maxLon, east := v[i].0, i; }
      if v[i].1 < minLat { minLat, south := v[i].1, i; }
      if v[i].1 > maxLat { maxLat, north := v[i].1, i; }
    }
  }

  /** `_point_in_polygon` on collected vertices. */
  method PointInPolygon(lat: real, lon: real, v: seq<Point>) returns (r: Outcome)
    ensures |v| < 3 || !InBox(v, lat, lon) ==> r == Answer(false)
    ensures |v| >= 3 && InBox(v, lat, lon) ==> r == Cast(v, lat, lon, EPSILON)
  {
    if |v| < 3 {
      return Answer(false);
    }
    var minLon, maxLon, minLat, maxLat := Bounds(v);
    if !(minLon <= lon <= maxLon && minLat <= lat <= maxLat) {
      return Answer(false);
    }
    r := RayCast(lat, lon, v);
  }

  /** The crossing-count loop: toggles on each crossing, raises on the first degenerate edge. */
  method RayCast(lat: real, lon: real, v: seq<Point>) returns (r: Outcome)
    requires v != []
    ensures r == Cast(v, lat, lon, EPSILON)
  {
    hide Intersection, Denominator, Straddles;
    var inside := false;
    var j := |v| - 1;
    for i := 0 to |v|
      invariant 0 <= j < |v| && (i < |v| ==> v[j] == Previous(v, i))
      invariant forall e | 0 <= e < i :: !Degenerate(v[e], Previous(v, e), lat, EPSILON)
      invariant inside == (CrossingsTo(v, i, lat, lon, EPSILON) % 2 == 1)
    {
      if Straddles(v[i], v[j], lat) {
        if Denominator(v[i], v[j], EPSILON) == 0.0 {
          assert Degenerate(v[i], Previous(v, i), lat, EPSILON);
          return DivisionByZero;
        }
        if lon < Intersection(v[i], v[j], lat, EPSILON) {
          inside := !inside;
        }
      }
      j := i;
    }
    r := Answer(inside);
  }

  // ----- The pre-filter -----

  function StraddlesTo(v: seq<Point>, n: nat, lat: real): nat
    requires n <= |v|
  {
    if n == 0 then 0 else StraddlesTo(v, n - 1, lat) + One(Straddles(v[n - 1], Previous(v, n - 1), lat))
  }

  lemma {:induction false} StraddleParity(v: seq<Point>, n: nat, lat: real)
    requires 1 <= n <= |v|
    ensures StraddlesTo(v, n, lat) % 2 == One((v[|v| - 1].1 > lat) != (v[n - 1].1 > lat))
    decreases n
  {
    if n > 1 {
      StraddleParity(v, n - 1, lat);
    }
  }

  /** Around a closed cycle the number of edges that change side of a latitude is even. */
  lemma StraddlesEven(v: seq<Point>, lat: real)
    ensures StraddlesTo(v, |v|, lat) % 2 == 0
  {
    if v != [] {
      StraddleParity(v, |v|, lat);
    }
  }

  /** The point's latitude is not within eps above the lower end of an edge that rises from b to a. */
  predicate ClearOf(a: Point, b: Point, lat: real, eps: real) {
    a.1 > lat && b.1 <= lat ==> lat >= b.1 + eps
  }

  ghost predicate NoSliver(v: seq<Point>, lat: real, eps: real) {
    forall i | 0 <= i < |v| :: ClearOf(v[i], Previous(v, i), lat, eps)
  }

  lemma QuotientBounds(p: real, q: real)
    requires q > 0.0 && 0.0 <= p <= q
    ensures 0.0 <= p / q <= 1.0
  {
    DivMonotone(0.0, p, q);
    DivMonotone(p, q, q);
    DivMul(1.0, q);
    DivMul(0.0, q);
  }

  /** The computed intersection lies between the longitudes of the edge's ends. */
  lemma IntersectionBetween(a: Point, b: Point, lat: real, eps: real, lo: real, hi: real)
    requires Straddles(a, b, lat) && eps >= 0.0 && ClearOf(a, b, lat, eps)
    requires lo <= a.0 <= hi && lo <= b.0 <= hi
    ensures Denominator(a, b, eps) != 0.0 && lo <= Intersection(a, b, lat, eps) <= hi
  {
    var d := Denominator(a, b, eps);
    var t := (lat - a.1) / d;
    if a.1 > lat {
      QuotientBounds(a.1 - lat, -d);
      NegateBoth(lat - a.1, d);
    } else {
      QuotientBounds(lat - a.1, d);
    }
    assert 0.0 <= t <= 1.0;
    var k := 1.0 - t;
    Convex(lo, hi, b.0, a.0, t);
    IntersectionAsMean(a.0, b.0, lat - a.1, d);
  }

  lemma NegateBoth(p: real, d: real)
    requires d != 0.0
    ensures (-p) / (-d) == p / d
  {
  }

  lemma IntersectionAsMean(x: real, y: real, p: real, d: real)
    requires d != 0.0
    ensures (y - x) * p / d + x == y * (p / d) + x * (1.0 - p / d)
  {
    var t := p / d;
    assert (y - x) * p / d == (y - x) * t;
    assert (y - x) * t + x == y * t + x * (1.0 - t);
  }

  /** The computed intersection puts a straddling edge on the wrong side: it is counted although the point
      is not west of both its ends, or not counted although it is. */
  predicate Misjudged(a: Point, b: Point, lat: real, lon: real, eps: real) {
    Straddles(a, b, lat) && Crosses(a, b, lat, lon, eps) != (lon < a.0 && lon < b.0)
  }

  function MisjudgedTo(v: seq<Point>, n: nat, lat: real, lon: real, eps: real): nat
    requires n <= |v|
  {
    if n == 0 then 0
    else MisjudgedTo(v, n - 1, lat, lon, eps) + One(Misjudged(v[n - 1], Previous(v, n - 1), lat, lon, eps))
  }

  /** West of every vertex each straddling edge is crossed or misjudged. */
  lemma {:induction false} CrossingsWest(v: seq<Point>, n: nat, lat: real, lon: real, eps: real)
    requires n <= |v| && forall i | 0 <= i < |v| :: lon < v[i].0
    ensures CrossingsTo(v, n, lat, lon, eps) + MisjudgedTo(v, n, lat, lon, eps) == StraddlesTo(v, n, lat)
    decreases n
  {
    hide Intersection, Denominator;
    if n > 0 {
      CrossingsWest(v, n - 1, lat, lon, eps);
    }
  }

  /** East, north or south of every vertex only misjudged edges are crossed. */
  lemma {:induction false} CrossingsElsewhere(v: seq<Point>, n: nat, lat: real, lon: real, eps: real)
    requires n <= |v|
    requires || (forall i | 0 <= i < |v| :: v[i].0 < lon)
             || (forall i | 0 <= i < |v| :: v[i].1 < lat)
             || (forall i | 0 <= i < |v| :: lat < v[i].1)
    ensures CrossingsTo(v, n, lat, lon, eps) == MisjudgedTo(v, n, lat, lon, eps)
    decreases n
  {
    hide Intersection, Denominator;
    if n > 0 {
      CrossingsElsewhere(v, n - 1, lat, lon, eps);
    }
  }

  /** Off the edge's box, only an edge that is not clear of the point's latitude can be misjudged. */
  lemma ClearIsJudgedRight(a: Point, b: Point, lat: real, lon: real, eps: real)
    requires eps >= 0.0 && ClearOf(a, b, lat, eps)
    requires lon < Min(a.0, b.0) || Max(a.0, b.0) < lon || !Straddles(a, b, lat)
    ensures !Misjudged(a, b, lat, lon, eps) && !Degenerate(a, b, lat, eps)
  {
    hide Intersection, ClearOf, Denominator;
    if Straddles(a, b, lat) {
      IntersectionBetween(a, b, lat, eps, Min(a.0, b.0), Max(a.0, b.0));
    }
  }

  /** The latitude lies within eps above the lower end of an edge rising to a, and the computed
      intersection, cross-multiplied, puts the point on the other side of it than the edge's end does. */
  predicate Overshoots(a: Point, b: Point, lat: real, lon: real, eps: real) {
    a.1 > lat >= b.1 && lat < b.1 + eps && West(a, b, lat, lon, eps) != (lon < a.0)
  }

  function OvershootsTo(v: seq<Point>, n: nat, lat: real, lon: real, eps: real): nat
    requires n <= |v|
  {
    if n == 0 then 0
    else OvershootsTo(v, n - 1, lat, lon, eps) + One(Overshoots(v[n - 1], Previous(v, n - 1), lat, lon, eps))
  }

  lemma MisjudgedOvershoots(a: Point, b: Point, lat: real, lon: real, eps: real)
    requires eps >= 0.0
    requires lon < Min(a.0, b.0) || Max(a.0, b.0) < lon || !Straddles(a, b, lat)
    ensures Misjudged(a, b, lat, lon, eps) <==> Overshoots(a, b, lat, lon, eps)
  {
    hide Crosses, West;
    CrossesInCoordinates(a, b, lat, lon, eps);
    if ClearOf(a, b, lat, eps) {
      ClearIsJudgedRight(a, b, lat, lon, eps);
    }
  }

  lemma {:induction false} MisjudgedAre(v: seq<Point>, n: nat, lat: real, lon: real, eps: real)
    requires n <= |v| && eps >= 0.0 && !InBox(v, lat, lon)
    ensures MisjudgedTo(v, n, lat, lon, eps) == OvershootsTo(v, n, lat, lon, eps)
    decreases n
  {
    hide Misjudged, Overshoots;
    if n > 0 {
      MisjudgedAre(v, n - 1, lat, lon, eps);
      OutsideSides(v, lat, lon);
      MisjudgedOvershoots(v[n - 1], Previous(v, n - 1), lat, lon, eps);
    }
  }

  lemma AnyDegenerateRises(v: seq<Point>, lat: real, eps: real)
    requires eps >= 0.0
    ensures AnyDegenerate(v, lat, eps) <==> AnyRises(v, lat, eps)
  {
    hide Degenerate, RisesByConstant;
    forall i | 0 <= i < |v|
      ensures Degenerate(v[i], Previous(v, i), lat, eps) <==> RisesByConstant(v[i], Previous(v, i), lat, eps)
    {
      DegenerateRises(v[i], Previous(v, i), lat, eps);
    }
  }

  lemma {:induction false} OvershootsNone(v: seq<Point>, n: nat, lat: real, lon: real, eps: real)
    requires n <= |v| && NoSliver(v, lat, eps)
    ensures OvershootsTo(v, n, lat, lon, eps) == 0
    decreases n
  {
    hide West;
    if n > 0 {
      OvershootsNone(v, n - 1, lat, lon, eps);
      assert ClearOf(v[n - 1], Previous(v, n - 1), lat, eps);
    }
  }

  lemma OutsideSides(v: seq<Point>, lat: real, lon: real)
    requires v != [] && !InBox(v, lat, lon)
    ensures || (forall i | 0 <= i < |v| :: lon < v[i].0)
            || (forall i | 0 <= i < |v| :: v[i].0 < lon)
            || (forall i | 0 <= i < |v| :: lat < v[i].1)
            || (forall i | 0 <= i < |v| :: v[i].1 < lat)
  {
  }

  /** For a point outside the bounding box the pre-filter answers what the crossing count alone would if
      and only if no edge rises across the latitude by exactly the constant and an even number of edges
      overshoots. */
  lemma PrefilterHarmlessIff(v: seq<Point>, lat: real, lon: real, eps: real)
    requires v != [] && eps >= 0.0 && !InBox(v, lat, lon)
    ensures Cast(v, lat, lon, eps) == Answer(false)
            <==> !AnyRises(v, lat, eps) && OvershootsTo(v, |v|, lat, lon, eps) % 2 == 0
  {
    hide Crosses, Misjudged, Overshoots, InBox, AnyDegenerate, AnyRises;
    OutsideSides(v, lat, lon);
    AnyDegenerateRises(v, lat, eps);
    MisjudgedAre(v, |v|, lat, lon, eps);
    if forall i | 0 <= i < |v| :: lon < v[i].0 {
      CrossingsWest(v, |v|, lat, lon, eps);
      StraddlesEven(v, lat);
    } else {
      CrossingsElsewhere(v, |v|, lat, lon, eps);
    }
  }

  /** So it is harmless unless the added constant matters, that is unless the point's latitude lies within
      `eps` above the lower end of a rising edge. */
  lemma PrefilterHarmless(v: seq<Point>, lat: real, lon: real, eps: real)
    requires v != [] && eps >= 0.0 && NoSliver(v, lat, eps) && !InBox(v, lat, lon)
    ensures Cast(v, lat, lon, eps) == Answer(false)
  {
    hide InBox, Cast, West;
    OvershootsNone(v, |v|, lat, lon, eps);
    assert !AnyRises(v, lat, eps) by {
      forall i | 0 <= i < |v| ensures !RisesByConstant(v[i], Previous(v, i), lat, eps) {
        assert ClearOf(v[i], Previous(v, i), lat, eps);
      }
    }
    hide NoSliver, AnyRises;
    PrefilterHarmlessIff(v, lat, lon, eps);
  }

  /** With exact division there is no exception. */
  lemma PrefilterHarmlessExact(v: seq<Point>, lat: real, lon: real)
    requires v != [] && !InBox(v, lat, lon)
    ensures Cast(v, lat, lon, 0.0) == Answer(false)
  {
    hide Cast, InBox;
    PrefilterHarmless(v, lat, lon, 0.0);
  }

  /** With the constant there is: this triangle's rising edge overshoots its own end, and a point just
      east of the box, level with the lower end, is counted as crossed once. */
  lemma PrefilterMatters()
    ensures var v: seq<Point> := [(1.0, 0.0), (0.0, 1.0), (0.0, 0.0)];
            var lat, lon := 0.0, 1.0 + EPSILON;
            !InBox(v, lat, lon) && Cast(v, lat, lon, EPSILON) == Answer(true)
  {
    var v: seq<Point> := [(1.0, 0.0), (0.0, 1.0), (0.0, 0.0)];
    var lat, lon := 0.0, 1.0 + EPSILON;
    assert !Crosses(v[0], v[2], lat, lon, EPSILON);
    assert Crosses(v[1], v[0], lat, lon, EPSILON) by {
      assert Intersection(v[1], v[0], lat, EPSILON) == (-1.0) / (-1.0 + EPSILON);
    }
    assert !Crosses(v[2], v[1], lat, lon, EPSILON) by {
      assert Intersection(v[2], v[1], lat, EPSILON) == 0.0;
    }
    assert CrossingsTo(v, 1, lat, lon, EPSILON) == 0;
    assert CrossingsTo(v, 2, lat, lon, EPSILON) == 1;
    assert CrossingsTo(v, 3, lat, lon, EPSILON) == 1;
    assert !Degenerate(v[0], v[2], lat, EPSILON) && !Degenerate(v[1], v[0], lat, EPSILON)
        && !Degenerate(v[2], v[1], lat, EPSILON);
  }

  // ----- The vertex list as a cycle -----

  /** Crossings along an open chain of vertices. */
  function ChainCrossings(v: seq<Point>, lat: real, lon: real, eps: real): nat {
    if |v| < 2 then 0
    else ChainCrossings(v[..|v| - 1], lat, lon, eps) + One(Crosses(v[|v| - 1], v[|v| - 2], lat, lon, eps))
  }

  /** The cycle is its chain plus the closing edge. */
  lemma {:induction false} CycleIsChain(v: seq<Point>, n: nat, lat: real, lon: real, eps: real)
    requires 1 <= n <= |v|
    ensures CrossingsTo(v, n, lat, lon, eps)
            == ChainCrossings(v[..n], lat, lon, eps) + One(Crosses(v[0], v[|v| - 1], lat, lon, eps))
    decreases n
  {
    hide Crosses;
    if n > 1 {
      CycleIsChain(v, n - 1, lat, lon, eps);
      assert v[..n][..n - 1] == v[..n - 1];
    }
  }

  lemma {:induction false} ChainFront(v: seq<Point>, lat: real, lon: real, eps: real)
    requires |v| >= 2
    ensures ChainCrossings(v, lat, lon, eps) == One(Crosses(v[1], v[0], lat, lon, eps))
            + ChainCrossings(v[1..], lat, lon, eps)
    decreases |v|
  {
    hide Crosses;
    if |v| > 2 {
      ChainFront(v[..|v| - 1], lat, lon, eps);
      assert v[..|v| - 1][1..] == v[1..][..|v| - 2];
    } else {
      assert v[..1] == [v[0]] && v[1..] == [v[1]];
    }
  }

  lemma RotatedOnce(v: seq<Point>, lat: real, lon: real, eps: real)
    requires |v| >= 2
    ensures Crossings(v[1..] + [v[0]], lat, lon, eps) == Crossings(v, lat, lon, eps)
  {
    hide Crosses;
    var w := v[1..] + [v[0]];
    CycleIsChain(v, |v|, lat, lon, eps);
    CycleIsChain(w, |w|, lat, lon, eps);
    assert v[..|v|] == v && w[..|w|] == w;
    ChainFront(v, lat, lon, eps);
    assert w[..|w| - 1] == v[1..];
  }

  lemma RotatedEdge(v: seq<Point>, i: nat)
    requires i < |v|
    ensures var w, j := v[1..] + [v[0]], if i == 0 then |v| - 1 else i - 1;
            |w| == |v| && w[j] == v[i] && Previous(w, j) == Previous(v, i)
  {
  }

  lemma RotatedOnceDegenerate(v: seq<Point>, lat: real, eps: real)
    requires |v| >= 2
    ensures AnyDegenerate(v[1..] + [v[0]], lat, eps) <==> AnyDegenerate(v, lat, eps)
  {
    hide Degenerate, Previous;
    var w, n := v[1..] + [v[0]], |v|;
    if AnyDegenerate(v, lat, eps) {
      var i :| 0 <= i < n && Degenerate(v[i], Previous(v, i), lat, eps);
      RotatedEdge(v, i);
      var j := if i == 0 then n - 1 else i - 1;
      assert Degenerate(w[j], Previous(w, j), lat, eps);
    }
    if AnyDegenerate(w, lat, eps) {
      var j :| 0 <= j < |w| && Degenerate(w[j], Previous(w, j), lat, eps);
      var i := if j == n - 1 then 0 else j + 1;
      RotatedEdge(v, i);
      assert Degenerate(v[i], Previous(v, i), lat, eps);
    }
  }

  /** Starting the list at any other vertex changes nothing, the division error included. */
  lemma {:induction false} RotationInvariant(v: seq<Point>, k: nat, lat: real, lon: real, eps: real)
    requires k <= |v|
    ensures Cast(v[k..] + v[..k], lat, lon, eps) == Cast(v, lat, lon, eps)
    decreases k
  {
    hide AnyDegenerate, Crossings;
    if k == 0 || |v| < 2 {
      assert v[k..] + v[..k] == v;
    } else {
      RotationInvariant(v, k - 1, lat, lon, eps);
      var w := v[k - 1..] + v[..k - 1];
      assert w[1..] + [w[0]] == v[k..] + v[..k];
      RotatedOnce(w, lat, lon, eps);
      RotatedOnceDegenerate(w, lat, eps);
    }
  }

  function Backwards(v: seq<Point>): (r: seq<Point>)
    ensures |r| == |v| && forall i | 0 <= i < |v| :: r[i] == v[|v| - 1 - i]
  {
    seq(|v|, i requires 0 <= i < |v| => v[|v| - 1 - i])
  }

  lemma CrossesSymmetric(a: Point, b: Point, lat: real, lon: real)
    ensures Crosses(a, b, lat, lon, 0.0) == Crosses(b, a, lat, lon, 0.0)
  {
    if Straddles(a, b, lat) {
      var d := b.1 - a.1;
      IntersectionAsMean(a.0, b.0, lat - a.1, d);
      IntersectionAsMean(b.0, a.0, lat - b.1, -d);
      NegateBoth(b.1 - lat, d);
      Complement(lat - a.1, b.1 - lat, d);
      assert -(b.1 - lat) == lat - b.1;
      var t := (lat - a.1) / d;
      assert (lat - b.1) / (-d) == 1.0 - t;
      assert Intersection(a, b, lat, 0.0) == b.0 * t + a.0 * (1.0 - t);
      assert Intersection(b, a, lat, 0.0) == a.0 * (1.0 - t) + b.0 * (1.0 - (1.0 - t));
    }
  }

  lemma Complement(p: real, q: real, d: real)
    requires d != 0.0 && p + q == d
    ensures q / d == 1.0 - p / d
  {
    assert p / d + q / d == (p + q) / d;
  }

  /** Crossings with every edge taken from its other end. */
  function CrossingsBackTo(v: seq<Point>, n: nat, lat: real, lon: real, eps: real): nat
    requires n <= |v|
  {
    if n == 0 then 0
    else CrossingsBackTo(v, n - 1, lat, lon, eps) + One(Crosses(Previous(v, n - 1), v[n - 1], lat, lon, eps))
  }

  function ChainCrossingsBack(v: seq<Point>, lat: real, lon: real, eps: real): nat {
    if |v| < 2 then 0
    else ChainCrossingsBack(v[..|v| - 1], lat, lon, eps) + One(Crosses(v[|v| - 2], v[|v| - 1], lat, lon, eps))
  }

  lemma {:induction false} CycleIsChainBack(v: seq<Point>, n: nat, lat: real, lon: real, eps: real)
    requires 1 <= n <= |v|
    ensures CrossingsBackTo(v, n, lat, lon, eps)
            == ChainCrossingsBack(v[..n], lat, lon, eps) + One(Crosses(v[|v| - 1], v[0], lat, lon, eps))
    decreases n
  {
    hide Crosses;
    if n > 1 {
      CycleIsChainBack(v, n - 1, lat, lon, eps);
      assert v[..n][..n - 1] == v[..n - 1];
    }
  }

  lemma {:induction false} ChainReversed(v: seq<Point>, lat: real, lon: real, eps: real)
    ensures ChainCrossings(Backwards(v), lat, lon, eps) == ChainCrossingsBack(v, lat, lon, eps)
    decreases |v|
  {
    hide Crosses;
    if |v| >= 2 {
      var r, n := Backwards(v), |v|;
      ChainReversed(v[..n - 1], lat, lon, eps);
      assert r[1..] == Backwards(v[..n - 1]);
      ChainFront(r, lat, lon, eps);
    }
  }

  /** Reversing the list takes every edge from its other end. */
  lemma ReversedCrossings(v: seq<Point>, lat: real, lon: real, eps: real)
    requires v != []
    ensures Crossings(Backwards(v), lat, lon, eps) == CrossingsBackTo(v, |v|, lat, lon, eps)
  {
    hide Crosses;
    var r := Backwards(v);
    CycleIsChainBack(v, |v|, lat, lon, eps);
    CycleIsChain(r, |r|, lat, lon, eps);
    assert v[..|v|] == v && r[..|r|] == r;
    ChainReversed(v, lat, lon, eps);
  }

  lemma ReversedDegenerate(v: seq<Point>, lat: real, eps: real)
    requires eps >= 0.0
    ensures AnyDegenerate(Backwards(v), lat, eps) <==> AnyFalls(v, lat, eps)
  {
    hide RisesByConstant, AnyDegenerate, Backwards;
    var r, n := Backwards(v), |v|;
    AnyDegenerateRises(r, lat, eps);
    hide Previous;
    if AnyRises(r, lat, eps) {
      var j :| 0 <= j < n && RisesByConstant(r[j], Previous(r, j), lat, eps);
      ReversedEdge(v, j);
      assert RisesByConstant(Previous(v, Mirror(n, j)), v[Mirror(n, j)], lat, eps);
    }
    if AnyFalls(v, lat, eps) {
      var i :| 0 <= i < n && RisesByConstant(Previous(v, i), v[i], lat, eps);
      ReversedEdge(v, Mirror(n, i));
      assert RisesByConstant(r[Mirror(n, i)], Previous(r, Mirror(n, i)), lat, eps);
    }
  }

  /** Where edge j of the reversed list stands in the list. */
  function Mirror(n: nat, j: nat): (i: nat)
    requires j < n
    ensures i < n && (if i == 0 then 0 else n - i) == j
  {
    if j == 0 then 0 else n - j
  }

  lemma ReversedEdge(v: seq<Point>, j: nat)
    requires j < |v|
    ensures var r, i := Backwards(v), Mirror(|v|, j); v[i] == Previous(r, j) && Previous(v, i) == r[j]
  {
  }

  /** The edge straddles the latitude and the point lies west of one of its two computed intersections,
      but not of the other. */
  predicate Disagrees(a: Point, b: Point, lat: real, lon: real, eps: real) {
    Straddles(a, b, lat) && West(a, b, lat, lon, eps) != West(b, a, lat, lon, eps)
  }

  function DisagreesTo(v: seq<Point>, n: nat, lat: real, lon: real, eps: real): nat
    requires n <= |v|
  {
    if n == 0 then 0
    else DisagreesTo(v, n - 1, lat, lon, eps) + One(Disagrees(v[n - 1], Previous(v, n - 1), lat, lon, eps))
  }

  lemma {:induction false} BackParity(v: seq<Point>, n: nat, lat: real, lon: real, eps: real)
    requires n <= |v|
    ensures (CrossingsTo(v, n, lat, lon, eps) + CrossingsBackTo(v, n, lat, lon, eps)) % 2
            == DisagreesTo(v, n, lat, lon, eps) % 2
    decreases n
  {
    hide Crosses, West;
    if n > 0 {
      BackParity(v, n - 1, lat, lon, eps);
      CrossesInCoordinates(v[n - 1], Previous(v, n - 1), lat, lon, eps);
      CrossesInCoordinates(Previous(v, n - 1), v[n - 1], lat, lon, eps);
    }
  }

  /** Reversing the vertex list changes nothing if and only if edges rising and falling across the
      latitude by exactly the constant are both present, or both absent and an even number of edges
      disagrees. */
  lemma ReversalHarmlessIff(v: seq<Point>, lat: real, lon: real, eps: real)
    requires v != [] && eps >= 0.0
    ensures Cast(Backwards(v), lat, lon, eps) == Cast(v, lat, lon, eps)
            <==> if AnyRises(v, lat, eps) then AnyFalls(v, lat, eps)
                 else !AnyFalls(v, lat, eps) && DisagreesTo(v, |v|, lat, lon, eps) % 2 == 0
  {
    hide AnyDegenerate, AnyRises, AnyFalls, Crosses, Disagrees;
    AnyDegenerateRises(v, lat, eps);
    ReversedDegenerate(v, lat, eps);
    ReversedCrossings(v, lat, lon, eps);
    BackParity(v, |v|, lat, lon, eps);
  }

  lemma {:induction false} BackSame(v: seq<Point>, n: nat, lat: real, lon: real)
    requires n <= |v|
    ensures CrossingsBackTo(v, n, lat, lon, 0.0) == CrossingsTo(v, n, lat, lon, 0.0)
    decreases n
  {
    hide Crosses;
    if n > 0 {
      BackSame(v, n - 1, lat, lon);
      CrossesSymmetric(v[n - 1], Previous(v, n - 1), lat, lon);
    }
  }

  /** With exact division the direction of the list does not matter either. */
  lemma ReversalInvariant(v: seq<Point>, lat: real, lon: real)
    requires v != []
    ensures Crossings(Backwards(v), lat, lon, 0.0) == Crossings(v, lat, lon, 0.0)
  {
    hide Crosses;
    ReversedCrossings(v, lat, lon, 0.0);
    BackSame(v, |v|, lat, lon);
  }

  /** With the constant it does: a point in the box of this triangle is inside one way round and outside
      the other. */
  lemma ReversalMatters()
    ensures var v: seq<Point> := [(2.0, 0.0), (0.0, 2.0), (0.0, 0.0)];
            var lat, lon := 1.0, 1.0 + EPSILON / 2.0;
            && InBox(v, lat, lon)
            && Cast(v, lat, lon, EPSILON) == Answer(true) && Cast(Backwards(v), lat, lon, EPSILON) == Answer(false)
  {
    var v: seq<Point> := [(2.0, 0.0), (0.0, 2.0), (0.0, 0.0)];
    var w: seq<Point> := [(0.0, 0.0), (0.0, 2.0), (2.0, 0.0)];
    assert Backwards(v) == w;
    var lat, lon := 1.0, 1.0 + EPSILON / 2.0;
    assert v[0].0 >= lon && v[0].1 <= lat && v[1].0 <= lon && v[1].1 >= lat;
    TriangleOneWay(v, lat, lon);
    TriangleOtherWay(w, lat, lon);
  }

  lemma TriangleOneWay(v: seq<Point>, lat: real, lon: real)
    requires v == [(2.0, 0.0), (0.0, 2.0), (0.0, 0.0)] && lat == 1.0 && lon == 1.0 + EPSILON / 2.0
    ensures Cast(v, lat, lon, EPSILON) == Answer(true)
  {
    assert Intersection(v[1], v[0], lat, EPSILON) == (-2.0) / (-2.0 + EPSILON);
    assert Intersection(v[2], v[1], lat, EPSILON) == 0.0;
    assert CrossingsTo(v, 1, lat, lon, EPSILON) == 0;
    assert CrossingsTo(v, 2, lat, lon, EPSILON) == 1;
    assert CrossingsTo(v, 3, lat, lon, EPSILON) == 1;
    assert !Degenerate(v[0], v[2], lat, EPSILON) && !Degenerate(v[1], v[0], lat, EPSILON)
        && !Degenerate(v[2], v[1], lat, EPSILON);
  }

  lemma TriangleOtherWay(w: seq<Point>, lat: real, lon: real)
    requires w == [(0.0, 0.0), (0.0, 2.0), (2.0, 0.0)] && lat == 1.0 && lon == 1.0 + EPSILON / 2.0
    ensures Cast(w, lat, lon, EPSILON) == Answer(false)
  {
    assert Intersection(w[1], w[0], lat, EPSILON) == 0.0;
    assert Intersection(w[2], w[1], lat, EPSILON) == (-2.0) / (2.0 + EPSILON) + 2.0;
    assert CrossingsTo(w, 1, lat, lon, EPSILON) == 0;
    assert CrossingsTo(w, 2, lat, lon, EPSILON) == 0;
    assert CrossingsTo(w, 3, lat, lon, EPSILON) == 0;
    assert !Degenerate(w[0], w[2], lat, EPSILON) && !Degenerate(w[1], w[0], lat, EPSILON)
        && !Degenerate(w[2], w[1], lat, EPSILON);
  }

  // ----- A rectangle -----

  function Rectangle(west: real, east: real, south: real, north: real): seq<Point> {
    [(west, south), (east, south), (east, north), (west, north)]
  }

  /** Of a rectangle with sides along the axes, of any height but the added constant's, the points inside
      and those on the western and southern side are inside, and no others. */
  lemma RectangleIs(west: real, east: real, south: real, north: real, lat: real, lon: real, eps: real)
    requires west < east && south < north && eps >= 0.0 && north - south != eps
    ensures Cast(Rectangle(west, east, south, north), lat, lon, eps)
            == Answer(west <= lon < east && south <= lat < north)
  {
    var v := Rectangle(west, east, south, north);
    assert v[0] == (west, south) && v[1] == (east, south) && v[2] == (east, north) && v[3] == (west, north);
    VerticalEdge(east, south, north, lat, lon, eps);
    VerticalEdge(west, south, north, lat, lon, eps);
    assert Previous(v, 0) == v[3] && Previous(v, 1) == v[0] && Previous(v, 2) == v[1] && Previous(v, 3) == v[2];
    hide Intersection, Denominator;
    assert !Degenerate(v[1], v[0], lat, eps) && !Degenerate(v[3], v[2], lat, eps);
    assert CrossingsTo(v, 1, lat, lon, eps) == One(Crosses(v[0], v[3], lat, lon, eps));
    assert CrossingsTo(v, 2, lat, lon, eps) == CrossingsTo(v, 1, lat, lon, eps);
    assert CrossingsTo(v, 3, lat, lon, eps)
           == CrossingsTo(v, 2, lat, lon, eps) + One(Crosses(v[2], v[1], lat, lon, eps));
    assert CrossingsTo(v, 4, lat, lon, eps) == CrossingsTo(v, 3, lat, lon, eps);
  }

  /** A vertical edge, from either end, is crossed by the points west of it between its ends. */
  lemma VerticalEdge(x: real, south: real, north: real, lat: real, lon: real, eps: real)
    requires south < north && eps >= 0.0 && north - south != eps
    ensures Crosses((x, south), (x, north), lat, lon, eps) <==> south <= lat < north && lon < x
    ensures Crosses((x, north), (x, south), lat, lon, eps) <==> south <= lat < north && lon < x
    ensures !Degenerate((x, south), (x, north), lat, eps) && !Degenerate((x, north), (x, south), lat, eps)
  {
  }
}
