/** Multi-track correlation: the pairwise test, the graph built through the grid, the breadth-first
    grouping loop and the inheritance of group identifiers. */
module Grouping {
  import opened TrackIds
  import opened Rounding
  import opened Graph
  import opened SpatialGrid

  datatype Observation = Observation(
    id: Id, latitude: real, longitude: real, velocity: Option<real>, heading: Option<real>,
    confidence: real, timestamp: Option<real>)

  datatype GroupingConfig = GroupingConfig(
    maxDistance: real, maxVelocityDelta: real, maxHeadingDelta: real, maxTemporalDelta: real,
    minGroupSize: int, overlapThreshold: real)

  /** What the model takes from outside: great-circle distance, the constants of the grid that come
      from trigonometry, and the hash of a sorted member list. */
  datatype Kernel = Kernel(
    haversine: (Coord, Coord) -> real, metersPerDegree: Positive, cosMax: real -> int -> real,
    memberHash: seq<Id> -> Id)

  datatype TrackGroup = TrackGroup(groupId: Id, members: seq<Id>, memberCount: int, updatedAt: real)

  /** The evidence record; a delta is None when the data is missing or an earlier test failed. */
  datatype PairwiseCorrelation = PairwiseCorrelation(
    track1: Id, track2: Id, isCorrelated: bool, distance: real,
    velocityDelta: Option<real>, headingDelta: Option<real>, temporalDelta: Option<real>)

  function Position(o: Observation): Coord { (o.latitude, o.longitude) }

  /** Shortest signed difference h2 - h1 in [-180, 180). */
  function AngularDifference(h1: real, h2: real): real { Mod360(h2 - h1 + 180.0) - 180.0 }

  function EvaluatePairwise(k: Kernel, cfg: GroupingConfig, a: Observation, b: Observation): PairwiseCorrelation {
    var dist := k.haversine(Position(a), Position(b));
    if dist > cfg.maxDistance then
      PairwiseCorrelation(a.id, b.id, false, dist, None, None, None)
    else
      var vel := if a.velocity.Some? && b.velocity.Some? then Some(Abs(a.velocity.value - b.velocity.value)) else None;
      if vel.Some? && vel.value > cfg.maxVelocityDelta then
        PairwiseCorrelation(a.id, b.id, false, dist, vel, None, None)
      else
        var head := if a.heading.Some? && b.heading.Some?
                    then Some(Abs(AngularDifference(a.heading.value, b.heading.value))) else None;
        if head.Some? && head.value > cfg.maxHeadingDelta then
          PairwiseCorrelation(a.id, b.id, false, dist, vel, head, None)
        else
          var temp := if a.timestamp.Some? && b.timestamp.Some?
                      then Some(Abs(a.timestamp.value - b.timestamp.value)) else None;
          if temp.Some? && temp.value > cfg.maxTemporalDelta then
            PairwiseCorrelation(a.id, b.id, false, dist, vel, head, temp)
          else
            PairwiseCorrelation(a.id, b.id, true, dist, vel, head, temp)
  }

  predicate Correlated(k: Kernel, cfg: GroupingConfig, a: Observation, b: Observation) {
    EvaluatePairwise(k, cfg, a, b).isCorrelated
  }

  /** The heading difference does not depend on the order, wrap-around included. */
  lemma AngularSymmetric(h1: real, h2: real)
    ensures Abs(AngularDifference(h1, h2)) == Abs(AngularDifference(h2, h1))
  {
    var d := h2 - h1 + 180.0;
    var m := Mod360(d);
    var j := (d / 360.0).Floor;
    if m == 0.0 {
      assert h1 - h2 + 180.0 == 0.0 + 360.0 * (1 - j) as real;
      Mod360Unique(h1 - h2 + 180.0, 0.0, 1 - j);
    } else {
      assert h1 - h2 + 180.0 == (360.0 - m) + 360.0 * (-j) as real;
      Mod360Unique(h1 - h2 + 180.0, 360.0 - m, -j);
    }
  }

  /** If the distance is symmetric so is the whole correlation test. */
  lemma CorrelatedSymmetric(k: Kernel, cfg: GroupingConfig, a: Observation, b: Observation)
    requires k.haversine(Position(a), Position(b)) == k.haversine(Position(b), Position(a))
    ensures Correlated(k, cfg, a, b) == Correlated(k, cfg, b, a)
  {
    if a.heading.Some? && b.heading.Some? {
      AngularSymmetric(a.heading.value, b.heading.value);
    }
  }

  /** How far apart two headings are, going around the circle `turns` times on the way. */
  function Turn(h1: real, h2: real, turns: int): real { Abs(h2 - h1 + 360.0 * turns as real) }

  /** The difference is the smallest among all ways around the circle. */
  lemma AngularSmallest(h1: real, h2: real)
    ensures exists j: int :: Abs(AngularDifference(h1, h2)) == Turn(h1, h2, j)
    ensures forall j: int :: Abs(AngularDifference(h1, h2)) <= Turn(h1, h2, j)
  {
    var d, r := h2 - h1, AngularDifference(h1, h2);
    var q := ((d + 180.0) / 360.0).Floor;
    assert r == d - 360.0 * q as real && -180.0 <= r < 180.0;
    assert Abs(r) == Turn(h1, h2, -q);
    forall j: int ensures Abs(r) <= Turn(h1, h2, j) {
      assert d + 360.0 * j as real == r + 360.0 * (j + q) as real;
      WholeTurns(r, j + q);
    }
  }

  lemma WholeTurns(r: real, n: int)
    requires -180.0 <= r <= 180.0
    ensures Abs(r) <= Abs(r + 360.0 * n as real)
  {
    if n >= 1 {
      assert 360.0 * n as real >= 360.0;
    } else if n <= -1 {
      assert 360.0 * n as real <= -360.0;
    }
  }

  /** Both known and further apart than the limit. */
  predicate Exceeds(a: Option<real>, b: Option<real>, limit: real) {
    a.Some? && b.Some? && Abs(b.value - a.value) > limit
  }

  /** Some way around the circle leads from one heading to the other within the limit. */
  ghost predicate HeadingsAgree(a: Option<real>, b: Option<real>, limit: real) {
    a.Some? && b.Some? ==> exists j: int :: Turn(a.value, b.value, j) <= limit
  }

  /** Two tracks correlate if and only if they are near enough and none of velocity, heading and time, where
      both have it, is further apart than its limit. */
  lemma CorrelatedIff(k: Kernel, cfg: GroupingConfig, a: Observation, b: Observation)
    ensures Correlated(k, cfg, a, b)
            <==> && k.haversine((a.latitude, a.longitude), (b.latitude, b.longitude)) <= cfg.maxDistance
                 && !Exceeds(a.velocity, b.velocity, cfg.maxVelocityDelta)
                 && HeadingsAgree(a.heading, b.heading, cfg.maxHeadingDelta)
                 && !Exceeds(a.timestamp, b.timestamp, cfg.maxTemporalDelta)
  {
    if a.heading.Some? && b.heading.Some? {
      AngularSmallest(a.heading.value, b.heading.value);
    }
    hide AngularDifference, Turn;
  }

  /** A recorded delta is the distance between two known values. */
  predicate Delta(d: Option<real>, a: Option<real>, b: Option<real>) {
    d.Some? ==> a.Some? && b.Some? && d.value == Abs(b.value - a.value)
  }

  /** The evidence record names the tracks and holds the true distance and deltas, the heading delta taken
      the short way around, each present exactly when it is known and no earlier test failed. */
  lemma DeltasAre(k: Kernel, cfg: GroupingConfig, a: Observation, b: Observation)
    ensures var p := EvaluatePairwise(k, cfg, a, b);
            && p.track1 == a.id && p.track2 == b.id
            && p.distance == k.haversine((a.latitude, a.longitude), (b.latitude, b.longitude))
            && Delta(p.velocityDelta, a.velocity, b.velocity) && Delta(p.temporalDelta, a.timestamp, b.timestamp)
            && (p.headingDelta.Some? ==>
                  && a.heading.Some? && b.heading.Some?
                  && (exists j: int :: p.headingDelta.value == Turn(a.heading.value, b.heading.value, j))
                  && forall j: int :: p.headingDelta.value <= Turn(a.heading.value, b.heading.value, j))
            && (p.velocityDelta.Some? <==> p.distance <= cfg.maxDistance && a.velocity.Some? && b.velocity.Some?)
            && (p.headingDelta.Some? <==>
                  p.distance <= cfg.maxDistance && !Exceeds(a.velocity, b.velocity, cfg.maxVelocityDelta)
                  && a.heading.Some? && b.heading.Some?)
            && (p.temporalDelta.Some? <==>
                  p.distance <= cfg.maxDistance && !Exceeds(a.velocity, b.velocity, cfg.maxVelocityDelta)
                  && HeadingsAgree(a.heading, b.heading, cfg.maxHeadingDelta)
                  && a.timestamp.Some? && b.timestamp.Some?)
  {
    if a.heading.Some? && b.heading.Some? {
      AngularSmallest(a.heading.value, b.heading.value);
    }
    hide AngularDifference, Turn;
  }

  // ----- The correlation graph -----

  type Population = map<Id, Observation>

  predicate Keyed(obs: Population) { forall id | id in obs :: obs[id].id == id }

  function Coords(obs: Population): map<Id, Coord> {
    map id | id in obs :: Normalize(Position(obs[id]))
  }

  function GridGeometry(k: Kernel, cfg: GroupingConfig): Geometry {
    Geometry(cfg.maxDistance, k.metersPerDegree, k.cosMax(cfg.maxDistance))
  }

  /** The simple form: every pair is tested once, the smaller identifier first. */
  ghost function CorrelatedPairs(k: Kernel, cfg: GroupingConfig, obs: Population): set<(Id, Id)> {
    set a, b | a in obs && b in obs && Below(a, b) && Correlated(k, cfg, obs[a], obs[b]) :: (a, b)
  }

  ghost function AllPairsGraph(k: Kernel, cfg: GroupingConfig, obs: Population): Adjacency {
    FromPairs(obs.Keys, CorrelatedPairs(k, cfg, obs))
  }

  /** The fast form: a pair is tested only when the grid offers the larger identifier to the smaller. */
  predicate Tested(k: Kernel, cfg: GroupingConfig, obs: Population, lo: Id, hi: Id) {
    && lo in obs && hi in obs && Below(lo, hi)
    && hi in Candidates(GridGeometry(k, cfg), Coords(obs), lo)
  }

  ghost function GridPairs(k: Kernel, cfg: GroupingConfig, obs: Population): set<(Id, Id)> {
    set a, b | a in obs && b in obs && Tested(k, cfg, obs, a, b) && Correlated(k, cfg, obs[a], obs[b]) :: (a, b)
  }

  ghost function GridGraph(k: Kernel, cfg: GroupingConfig, obs: Population): Adjacency {
    FromPairs(obs.Keys, GridPairs(k, cfg, obs))
  }

  lemma GridGraphUndirected(k: Kernel, cfg: GroupingConfig, obs: Population)
    ensures Undirected(GridGraph(k, cfg, obs)) && GridGraph(k, cfg, obs).Keys == obs.Keys
  {
    FromPairsUndirected(obs.Keys, GridPairs(k, cfg, obs));
  }

  /** When correlation implies the degree box, the grid leaves no correlated pair out: the graph it
      builds is the graph of all pairs, and so the groups are those of the all-pairs loop. */
  lemma GridGraphIsAllPairs(k: Kernel, cfg: GroupingConfig, obs: Population)
    requires forall a, b | a in obs && b in obs && Below(a, b) && Correlated(k, cfg, obs[a], obs[b]) ::
               InBox(GridGeometry(k, cfg), Position(obs[a]), Position(obs[b]))
    ensures GridGraph(k, cfg, obs) == AllPairsGraph(k, cfg, obs)
  {
    forall a, b | a in obs && b in obs && Below(a, b) && Correlated(k, cfg, obs[a], obs[b])
      ensures Tested(k, cfg, obs, a, b)
    {
      BelowIrreflexive(a);
      BoxIsCandidate(GridGeometry(k, cfg), obs, a, b);
    }
    assert GridPairs(k, cfg, obs) == CorrelatedPairs(k, cfg, obs);
  }

  lemma BoxIsCandidate(geo: Geometry, obs: Population, a: Id, b: Id)
    requires a in obs && b in obs && a != b && InBox(geo, Position(obs[a]), Position(obs[b]))
    ensures b in Candidates(geo, Coords(obs), a)
  {
    var p, q := Position(obs[a]), Position(obs[b]);
    BoxNeighbourIsProbed(geo, p, q);
    NormalizeKeepsCells(geo, q, (0, 0));
    NormalizeKeepsCells(geo, p, geo.CellOf(q));
  }

  /** The graph of a sub-population is the induced subgraph. */
  lemma SubPopulationGraph(k: Kernel, cfg: GroupingConfig, obs: Population, a: set<Id>)
    requires a <= obs.Keys
    ensures GridGraph(k, cfg, map x | x in a :: obs[x]) == Restrict(GridGraph(k, cfg, obs), a)
  {
    var part := map x | x in a :: obs[x];
    forall x, y | x in a && y in a
      ensures Tested(k, cfg, part, x, y) == Tested(k, cfg, obs, x, y)
    {
      assert Coords(part)[x] == Coords(obs)[x] && Coords(part)[y] == Coords(obs)[y];
    }
    FromPairsRestrict(obs.Keys, GridPairs(k, cfg, obs), GridPairs(k, cfg, part), a);
    assert part.Keys == a;
  }

  // ----- Identifier inheritance -----

  function Jaccard(a: set<Id>, b: set<Id>): real {
    if a + b == {} then 0.0 else |a * b| as real / |a + b| as real
  }

  ghost function MemberSet(g: TrackGroup): set<Id> { set x | x in g.members }

  /** No two groups share a member. */
  ghost predicate Apart(groups: seq<TrackGroup>) {
    forall i, j | 0 <= i < j < |groups| :: MemberSet(groups[i]) * MemberSet(groups[j]) == {}
  }

  /** Group i overlaps enough, no other overlaps more, and no earlier one as much. */
  ghost predicate IsBest(members: set<Id>, existing: seq<TrackGroup>, threshold: real, i: int) {
    && 0 <= i < |existing|
    && Qualifies(members, existing, threshold, i)
    && (forall j | 0 <= j < |existing| && Qualifies(members, existing, threshold, j) ::
          Jaccard(members, MemberSet(existing[j])) <= Jaccard(members, MemberSet(existing[i])))
    && (forall j | 0 <= j < i && Qualifies(members, existing, threshold, j) ::
          Jaccard(members, MemberSet(existing[j])) < Jaccard(members, MemberSet(existing[i])))
  }

  ghost predicate Qualifies(members: set<Id>, existing: seq<TrackGroup>, threshold: real, i: int)
    requires 0 <= i < |existing|
  {
    var j := Jaccard(members, MemberSet(existing[i]));
    j > 0.0 && j >= threshold
  }

  /** Some existing group passes its identifier on to `members`. */
  ghost predicate Inherits(members: set<Id>, existing: seq<TrackGroup>, threshold: real) {
    exists i :: IsBest(members, existing, threshold, i)
  }

  ghost function Heir(members: set<Id>, existing: seq<TrackGroup>, threshold: real): (i: int)
    requires Inherits(members, existing, threshold)
    ensures IsBest(members, existing, threshold, i)
  {
    var i :| IsBest(members, existing, threshold, i);
    i
  }

  ghost function AssignedId(k: Kernel, members: set<Id>, existing: seq<TrackGroup>, threshold: real): Id {
    if Inherits(members, existing, threshold) then existing[Heir(members, existing, threshold)].groupId
    else k.memberHash(Sorted(members))
  }

  lemma BestUnique(members: set<Id>, existing: seq<TrackGroup>, threshold: real, i: int, j: int)
    requires IsBest(members, existing, threshold, i) && IsBest(members, existing, threshold, j)
    ensures i == j
  {
  }

  method AssignGroupId(k: Kernel, memberIds: seq<Id>, existing: seq<TrackGroup>, threshold: real) returns (id: Id)
    ensures id == AssignedId(k, (set x | x in memberIds), existing, threshold)
  {
    var memberSet := set x | x in memberIds;
    var best: Option<Id> := None;
    ghost var at := -1;
    var bestJaccard := 0.0;
    for i := 0 to |existing|
      invariant best.None? ==> bestJaccard == 0.0
      invariant best.None? ==> forall j | 0 <= j < i :: !Qualifies(memberSet, existing, threshold, j)
      invariant best.Some? ==>
                  && 0 <= at < i && best.value == existing[at].groupId
                  && Qualifies(memberSet, existing, threshold, at)
                  && bestJaccard == Jaccard(memberSet, MemberSet(existing[at]))
                  && (forall j | 0 <= j < i && Qualifies(memberSet, existing, threshold, j) ::
                        Jaccard(memberSet, MemberSet(existing[j])) <= bestJaccard)
                  && (forall j | 0 <= j < at && Qualifies(memberSet, existing, threshold, j) ::
                        Jaccard(memberSet, MemberSet(existing[j])) < bestJaccard)
    {
      var egMembers := set x | x in existing[i].members;
      var union := |memberSet + egMembers|;
      if union > 0 {
        var jaccard := |memberSet * egMembers| as real / union as real;
        assert jaccard == Jaccard(memberSet, MemberSet(existing[i]));
        if jaccard > bestJaccard && jaccard >= threshold {
          bestJaccard, best, at := jaccard, Some(existing[i].groupId), i;
        }
      }
    }
    if best.Some? {
      assert IsBest(memberSet, existing, threshold, at);
      BestUnique(memberSet, existing, threshold, at, Heir(memberSet, existing, threshold));
      return best.value;
    }
    id := k.memberHash(Sorted(memberSet));
  }

  lemma UnionSize(a: set<Id>, b: set<Id>)
    ensures |a + b| == |a| + |b| - |a * b|
    ensures |a * b| <= |a| && |a * b| <= |b|
  {
    assert a + b == a + (b - a) && b == (a * b) + (b - a);
    assert a == (a * b) + (a - b);
  }

  lemma JaccardAtLeastHalf(m: set<Id>, e: set<Id>)
    requires m + e != {} && Jaccard(m, e) >= 0.5
    ensures 2 * |m * e| >= |m + e|
    ensures Jaccard(m, e) > 0.5 ==> 2 * |m * e| > |m + e|
  {
    var n, d := |m * e| as real, |m + e| as real;
    assert d > 0.0;
    DivMul(n, d);
    MulMonotone(0.5, n / d, d);
    if Jaccard(m, e) > 0.5 && 2 * |m * e| == |m + e| {
      DivMul(0.5, d);
      assert false;
    }
  }

  /** Two disjoint sets that each overlap `e` by at least a half split it into equal halves. */
  lemma HalvesOnly(a: set<Id>, b: set<Id>, e: set<Id>)
    requires a * b == {} && a + e != {} && b + e != {}
    requires Jaccard(a, e) >= 0.5 && Jaccard(b, e) >= 0.5
    ensures e == a + b && |a| == |b| && Jaccard(a, e) == 0.5 && Jaccard(b, e) == 0.5
  {
    JaccardAtLeastHalf(a, e);
    JaccardAtLeastHalf(b, e);
    UnionSize(a, e);
    UnionSize(b, e);
    assert (a * e) * (b * e) == {};
    assert |a * e + b * e| == |a * e| + |b * e|;
    SubsetSize(a * e + b * e, e);
    SubsetSize(e, a + e);
    SubsetSize(e, b + e);
    assert a * e + b * e == e && a + e == e && b + e == e;
    assert a * e == a && b * e == b;
  }

  /** At a threshold of at least one half, two disjoint components inherit one existing group's
      identifier only by splitting exactly that group into equal halves, and never above one half. */
  lemma InheritanceInjective(a: set<Id>, b: set<Id>, existing: seq<TrackGroup>, threshold: real)
    requires a != {} && b != {} && a * b == {} && threshold >= 0.5
    requires forall i, j | 0 <= i < j < |existing| :: existing[i].groupId != existing[j].groupId
    requires Inherits(a, existing, threshold) && Inherits(b, existing, threshold)
    requires existing[Heir(a, existing, threshold)].groupId == existing[Heir(b, existing, threshold)].groupId
    ensures threshold == 0.5 && |a| == |b|
    ensures MemberSet(existing[Heir(a, existing, threshold)]) == a + b
  {
    var i := Heir(a, existing, threshold);
    assert i == Heir(b, existing, threshold);
    HalvesOnly(a, b, MemberSet(existing[i]));
  }

  /** Conversely an exact halving always makes both halves inherit, when the existing groups are
      disjoint as the store keeps them: at the default threshold the two new groups then collide. */
  lemma HalvingCollides(a: set<Id>, b: set<Id>, existing: seq<TrackGroup>, i: int)
    requires a != {} && a * b == {} && |a| == |b|
    requires 0 <= i < |existing| && MemberSet(existing[i]) == a + b
    requires Apart(existing)
    ensures IsBest(a, existing, 0.5, i) && IsBest(b, existing, 0.5, i)
  {
    HalfIsBest(a, b, existing, i);
    assert a + b == b + a && b * a == {};
    HalfIsBest(b, a, existing, i);
  }

  lemma HalfIsBest(a: set<Id>, b: set<Id>, existing: seq<TrackGroup>, i: int)
    requires a != {} && a * b == {} && |a| == |b|
    requires 0 <= i < |existing| && MemberSet(existing[i]) == a + b
    requires Apart(existing)
    ensures IsBest(a, existing, 0.5, i)
  {
    hide Jaccard;
    HalfOfUnion(a, b);
    forall j | 0 <= j < |existing| && j != i
      ensures !Qualifies(a, existing, 0.5, j)
    {
      var f := MemberSet(existing[j]);
      assert (a + b) * f == {} by {
        if j < i { assert MemberSet(existing[j]) * MemberSet(existing[i]) == {}; }
      }
      assert a * f <= (a + b) * f;
      NoOverlap(a, f);
    }
  }

  lemma HalfOfUnion(a: set<Id>, b: set<Id>)
    requires a != {} && a * b == {} && |a| == |b|
    ensures Jaccard(a, a + b) == 0.5
  {
    assert a * (a + b) == a && a + (a + b) == a + b;
    assert |a + b| == 2 * |a|;
    DivMul(0.5, |a + b| as real);
  }

  lemma NoOverlap(a: set<Id>, f: set<Id>)
    requires a * f == {}
    ensures Jaccard(a, f) == 0.0
  {
  }

  /** A component inherits an identifier exactly when some existing group overlaps it enough. */
  lemma {:induction false} InheritsIff(members: set<Id>, existing: seq<TrackGroup>, threshold: real)
    ensures Inherits(members, existing, threshold)
            <==> exists i :: 0 <= i < |existing| && Qualifies(members, existing, threshold, i)
    decreases |existing|
  {
    hide Jaccard, MemberSet;
    if existing != [] {
      var n := |existing| - 1;
      var prefix := existing[..n];
      InheritsIff(members, prefix, threshold);
      assert forall i | 0 <= i < n ::
          Qualifies(members, prefix, threshold, i) == Qualifies(members, existing, threshold, i);
      if Inherits(members, prefix, threshold) {
        var b :| IsBest(members, prefix, threshold, b);
        var better := Qualifies(members, existing, threshold, n)
                      && Jaccard(members, MemberSet(existing[n])) > Jaccard(members, MemberSet(existing[b]));
        assert IsBest(members, existing, threshold, if better then n else b);
      } else if Qualifies(members, existing, threshold, n) {
        assert IsBest(members, existing, threshold, n);
      }
    }
  }

  /** `members` is made of two of the existing groups, of equal size. */
  ghost predicate Merges(members: set<Id>, existing: seq<TrackGroup>) {
    exists i, j :: 0 <= i < j < |existing| && MemberSet(existing[i]) + MemberSet(existing[j]) == members
                   && |MemberSet(existing[i])| == |MemberSet(existing[j])|
  }

  lemma OnlyOneQualifies(members: set<Id>, existing: seq<TrackGroup>, threshold: real, i: int, j: int)
    requires members != {} && threshold >= 0.5 && !(threshold == 0.5 && Merges(members, existing))
    requires Apart(existing)
    requires 0 <= i < |existing| && 0 <= j < |existing|
    requires Qualifies(members, existing, threshold, i) && Qualifies(members, existing, threshold, j)
    ensures i == j
  {
    if i < j {
      MergeHalves(members, existing, threshold, i, j);
    } else if j < i {
      MergeHalves(members, existing, threshold, j, i);
    }
  }

  lemma MergeHalves(members: set<Id>, existing: seq<TrackGroup>, threshold: real, i: int, j: int)
    requires members != {} && threshold >= 0.5 && 0 <= i < j < |existing|
    requires MemberSet(existing[i]) * MemberSet(existing[j]) == {}
    requires Qualifies(members, existing, threshold, i) && Qualifies(members, existing, threshold, j)
    ensures threshold == 0.5 && Merges(members, existing)
  {
    var e, f := MemberSet(existing[i]), MemberSet(existing[j]);
    assert members + e == e + members && members * e == e * members;
    assert members + f == f + members && members * f == f * members;
    HalvesOnly(e, f, members);
  }

  /** The order in which existing groups are offered decides nothing, unless the threshold is one half and
      the component is the merger of two of them of equal size ... */
  lemma ExistingOrderFree(k: Kernel, members: set<Id>, p: seq<TrackGroup>, q: seq<TrackGroup>, threshold: real)
    requires members != {} && threshold >= 0.5 && !(threshold == 0.5 && Merges(members, p))
    requires forall g :: g in p <==> g in q
    requires Apart(p)
    ensures AssignedId(k, members, p, threshold) == AssignedId(k, members, q, threshold)
  {
    hide Jaccard, MemberSet, Merges, Apart;
    InheritsIff(members, p, threshold);
    InheritsIff(members, q, threshold);
    QualifyingFound(members, p, q, threshold);
    QualifyingFound(members, q, p, threshold);
    if Inherits(members, p, threshold) {
      var i := Heir(members, p, threshold);
      var j := Heir(members, q, threshold);
      assert q[j] in q;
      var h :| 0 <= h < |p| && p[h] == q[j];
      OnlyOneQualifies(members, p, threshold, i, h);
    }
  }

  lemma QualifyingFound(members: set<Id>, p: seq<TrackGroup>, q: seq<TrackGroup>, threshold: real)
    requires forall g | g in p :: g in q
    ensures forall i | 0 <= i < |p| && Qualifies(members, p, threshold, i) ::
              exists j :: 0 <= j < |q| && Qualifies(members, q, threshold, j)
  {
    hide Jaccard, MemberSet;
    forall i | 0 <= i < |p| && Qualifies(members, p, threshold, i)
      ensures exists j :: 0 <= j < |q| && Qualifies(members, q, threshold, j)
    {
      assert p[i] in p;
      var j :| 0 <= j < |q| && q[j] == p[i];
      assert Qualifies(members, q, threshold, j);
    }
  }

  /** ... and then, at the default threshold, it decides everything: of the two, the first one offered
      passes on its identifier, wherever they stand among the others. */
  lemma MergeTie(k: Kernel, p: seq<TrackGroup>, i: int, j: int)
    requires Apart(p) && 0 <= i < j < |p|
    requires MemberSet(p[i]) != {} && |MemberSet(p[i])| == |MemberSet(p[j])|
    ensures AssignedId(k, MemberSet(p[i]) + MemberSet(p[j]), p, 0.5) == p[i].groupId
  {
    hide Jaccard;
    var a, b := MemberSet(p[i]), MemberSet(p[j]);
    var m := a + b;
    PartIsHalf(a, b);
    PartIsHalf(b, a);
    assert b + a == m;
    forall l | 0 <= l < |p| && l != i && l != j ensures !Qualifies(m, p, 0.5, l) {
      var f := MemberSet(p[l]);
      assert a * f == {} by { if l < i { assert f * a == {}; } }
      assert b * f == {} by { if l < j { assert f * b == {}; } }
      assert m * f == {};
      NoOverlap(m, f);
    }
    assert IsBest(m, p, 0.5, i);
    BestUnique(m, p, 0.5, i, Heir(m, p, 0.5));
  }

  lemma PartIsHalf(a: set<Id>, b: set<Id>)
    requires a != {} && a * b == {} && |a| == |b|
    ensures Jaccard(a + b, a) == 0.5
  {
    HalfOfUnion(a, b);
    assert (a + b) + a == a + (a + b) && (a + b) * a == a * (a + b);
  }

  ghost predicate DistinctIds(p: seq<TrackGroup>) {
    forall i, j | 0 <= i < j < |p| :: p[i].groupId != p[j].groupId
  }

  /** The same groups with the one at j moved to the front. */
  function Fronted(p: seq<TrackGroup>, j: int): seq<TrackGroup>
    requires 0 <= j < |p|
  {
    [p[j]] + p[..j] + p[j + 1..]
  }

  lemma FrontedSame(p: seq<TrackGroup>, j: int)
    requires 0 <= j < |p|
    ensures multiset(Fronted(p, j)) == multiset(p)
    ensures forall l | 0 <= l < |p| :: Fronted(p, j)[l] == p[if l == 0 then j else if l <= j then l - 1 else l]
  {
    assert p == p[..j] + [p[j]] + p[j + 1..];
  }

  lemma FrontedApart(p: seq<TrackGroup>, j: int)
    requires 0 <= j < |p| && Apart(p)
    ensures Apart(Fronted(p, j))
  {
    hide MemberSet;
    FrontedSame(p, j);
    var q := Fronted(p, j);
    hide Fronted;
    forall l, m | 0 <= l < m < |q| ensures MemberSet(q[l]) * MemberSet(q[m]) == {} {
      if l == 0 && m <= j {
        assert MemberSet(p[m - 1]) * MemberSet(p[j]) == {};
      }
    }
  }

  /** The order of the existing groups is irrelevant for a component if and only if it is not, at a
      threshold of exactly one half, the merger of two of them of equal size. */
  lemma ExistingOrderFreeIff(k: Kernel, members: set<Id>, p: seq<TrackGroup>, threshold: real)
    requires members != {} && threshold >= 0.5 && Apart(p) && DistinctIds(p)
    ensures (forall q | multiset(q) == multiset(p) ::
             AssignedId(k, members, q, threshold) == AssignedId(k, members, p, threshold))
            <==> !(threshold == 0.5 && Merges(members, p))
  {
    hide AssignedId, MemberSet, Apart;
    if threshold == 0.5 && Merges(members, p) {
      var i, j :| 0 <= i < j < |p| && MemberSet(p[i]) + MemberSet(p[j]) == members
                  && |MemberSet(p[i])| == |MemberSet(p[j])|;
      FrontedSame(p, j);
      MergeOrdersDiffer(k, p, i, j);
    } else {
      forall q | multiset(q) == multiset(p)
        ensures AssignedId(k, members, q, threshold) == AssignedId(k, members, p, threshold)
      {
        forall g ensures g in p <==> g in q { assert g in p <==> g in multiset(p); }
        ExistingOrderFree(k, members, p, q, threshold);
      }
    }
  }

  /** Moving the second of the two to the front changes the identifier. */
  lemma MergeOrdersDiffer(k: Kernel, p: seq<TrackGroup>, i: int, j: int)
    requires Apart(p) && DistinctIds(p) && 0 <= i < j < |p|
    requires MemberSet(p[i]) + MemberSet(p[j]) != {} && |MemberSet(p[i])| == |MemberSet(p[j])|
    ensures var m := MemberSet(p[i]) + MemberSet(p[j]);
            AssignedId(k, m, Fronted(p, j), 0.5) == p[j].groupId != p[i].groupId == AssignedId(k, m, p, 0.5)
  {
    hide AssignedId, MemberSet, Apart;
    var q := Fronted(p, j);
    FrontedSame(p, j);
    FrontedApart(p, j);
    assert q[0] == p[j] && q[i + 1] == p[i];
    hide Fronted;
    MergeTie(k, p, i, j);
    MergeTie(k, q, 0, i + 1);
    assert MemberSet(p[j]) + MemberSet(p[i]) == MemberSet(p[i]) + MemberSet(p[j]);
  }

  // ----- Grouping -----

  /** Observations by identifier; a repeated identifier keeps its last observation. */
  function ById(tracks: seq<Observation>): (obs: Population)
    ensures Keyed(obs)
    ensures forall id :: id in obs <==> exists i | 0 <= i < |tracks| :: tracks[i].id == id
  {
    if tracks == [] then map[]
    else
      var last := tracks[|tracks| - 1];
      ById(tracks[..|tracks| - 1])[last.id := last]
  }

  function MakeGroup(groupId: Id, members: seq<Id>, now: real): TrackGroup {
    TrackGroup(groupId, members, |members|, now)
  }

  /** The groups of the components met by walking `ids` in order: one for each identifier that is the
      first of its component and whose component is large enough. */
  ghost function Emitted(k: Kernel, cfg: GroupingConfig, g: Adjacency, ids: seq<Id>,
                         existing: seq<TrackGroup>, now: real): seq<TrackGroup> {
    if ids == [] then []
    else
      var rest := ids[..|ids| - 1];
      var c := Component(g, ids[|ids| - 1]);
      Emitted(k, cfg, g, rest, existing, now)
      + (if (forall x | x in rest :: x !in c) && |c| >= cfg.minGroupSize
         then [MakeGroup(AssignedId(k, c, existing, cfg.overlapThreshold), Sorted(c), now)] else [])
  }

  /** A stable insertion sort by group identifier. */
  function InsertGroup(g: TrackGroup, sorted: seq<TrackGroup>): (r: seq<TrackGroup>)
    ensures multiset(r) == multiset(sorted) + multiset{g}
  {
    if sorted == [] then [g]
    else
      var last := sorted[|sorted| - 1];
      assert sorted == sorted[..|sorted| - 1] + [last];
      if Below(g.groupId, last.groupId) then InsertGroup(g, sorted[..|sorted| - 1]) + [last]
      else sorted + [g]
  }

  function SortGroups(groups: seq<TrackGroup>): (r: seq<TrackGroup>)
    ensures multiset(r) == multiset(groups)
  {
    if groups == [] then []
    else
      assert groups == groups[..|groups| - 1] + [groups[|groups| - 1]];
      InsertGroup(groups[|groups| - 1], SortGroups(groups[..|groups| - 1]))
  }

  /** The outcome of a clustering pass, as a function of the population alone. */
  ghost function Clusters(k: Kernel, cfg: GroupingConfig, obs: Population,
                          existing: seq<TrackGroup>, now: real): seq<TrackGroup> {
    SortGroups(Emitted(k, cfg, GridGraph(k, cfg, obs), Sorted(obs.Keys), existing, now))
  }

  /** The pairs the grid offers for testing. */
  ghost function OfferedPairs(k: Kernel, cfg: GroupingConfig, obs: Population): set<(Id, Id)> {
    set a, b | a in obs && b in obs && Tested(k, cfg, obs, a, b) :: (a, b)
  }

  /** The evaluated pairs are offered pairs, and include all of those starting in `done`. */
  ghost predicate PairsCover(offered: set<(Id, Id)>, pairs: set<(Id, Id)>, done: set<Id>) {
    && pairs <= offered
    && (forall a, b | a in done && (a, b) in offered :: (a, b) in pairs)
  }

  ghost function Accepted(k: Kernel, cfg: GroupingConfig, obs: Population, pairs: set<(Id, Id)>): set<(Id, Id)> {
    set p | p in pairs && p.0 in obs && p.1 in obs && Correlated(k, cfg, obs[p.0], obs[p.1])
  }

  lemma PairsComplete(k: Kernel, cfg: GroupingConfig, obs: Population, pairs: set<(Id, Id)>)
    requires PairsCover(OfferedPairs(k, cfg, obs), pairs, obs.Keys)
    ensures Accepted(k, cfg, obs, pairs) == GridPairs(k, cfg, obs)
  {
    var offered := OfferedPairs(k, cfg, obs);
    forall p ensures p in Accepted(k, cfg, obs, pairs) <==> p in GridPairs(k, cfg, obs) {
      if p in GridPairs(k, cfg, obs) {
        assert p == (p.0, p.1);
        assert (p.0, p.1) in offered;
      }
    }
  }

  /** The index over the observations, inserted in identifier order. */
  method BuildIndex(k: Kernel, cfg: GroupingConfig, obs: Population, ids: seq<Id>) returns (grid: SpatialHashGrid)
    requires Keyed(obs) && ids == Sorted(obs.Keys)
    ensures fresh(grid) && grid.Valid() && grid.geo == GridGeometry(k, cfg)
    ensures grid.trackCoords == Coords(obs)
  {
    hide SpatialHashGrid.Valid, Geometry.CellOf, Normalize, GridGeometry, Sorted, Coords, Within;
    grid := new SpatialHashGrid(GridGeometry(k, cfg));
    ghost var all := Coords(obs);
    CoordsAt(obs);
    WithinNothing(all);
    ghost var done: set<Id> := {};
    for i := 0 to |ids|
      invariant grid.Valid() && fresh(grid) && grid.geo == GridGeometry(k, cfg)
      invariant done <= obs.Keys && forall l | 0 <= l < i :: ids[l] in done
      invariant grid.trackCoords == Within(all, done)
    {
      var id := ids[i];
      assert id in ids;
      WithinOne(all, done, id);
      done := done + {id};
      var _ := grid.Insert(obs[id].id, obs[id].latitude, obs[id].longitude);
    }
    forall x | x in obs ensures x in done { assert x in ids; }
    WithinAll(all, done);
  }

  /** The part of a dictionary with keys in a set. */
  function Within(m: map<Id, Coord>, s: set<Id>): map<Id, Coord> { map x | x in m && x in s :: m[x] }

  lemma WithinNothing(m: map<Id, Coord>)
    ensures Within(m, {}) == map[]
  {
  }

  lemma WithinOne(m: map<Id, Coord>, s: set<Id>, x: Id)
    requires x in m
    ensures Within(m, s + {x}) == Within(m, s)[x := m[x]]
  {
  }

  lemma WithinAll(m: map<Id, Coord>, s: set<Id>)
    requires m.Keys <= s
    ensures Within(m, s) == m
  {
  }

  lemma CoordsAt(obs: Population)
    requires Keyed(obs)
    ensures Coords(obs).Keys == obs.Keys
    ensures forall id | id in obs ::
              obs[id].id == id && Coords(obs)[id] == Normalize((obs[id].latitude, obs[id].longitude))
  {
    hide Normalize;
  }

  /** The candidates of one track: the offered pairs it starts are those with a larger identifier. */
  method CandidatesOf(k: Kernel, cfg: GroupingConfig, obs: Population, grid: SpatialHashGrid, t1: Id)
    returns (candidates: seq<Id>)
    requires t1 in obs && grid.Valid() && grid.geo == GridGeometry(k, cfg) && grid.trackCoords == Coords(obs)
    modifies grid`rowCache
    ensures grid.Valid()
    ensures forall c | c in candidates :: c in obs && c != t1
    ensures forall c :: c in candidates && Below(t1, c) <==> (t1, c) in OfferedPairs(k, cfg, obs)
  {
    candidates := grid.GetCandidateNeighbors(t1);
  }

  /** The adjacency loop over candidate pairs. */
  method BuildAdjacency(k: Kernel, cfg: GroupingConfig, obs: Population, ids: seq<Id>) returns (adj: Adjacency)
    requires Keyed(obs) && ids == Sorted(obs.Keys)
    ensures adj == GridGraph(k, cfg, obs)
  {
    hide SpatialHashGrid.Valid, Tested, Correlated, Coords, GridGeometry, Sorted;
    var grid := BuildIndex(k, cfg, obs, ids);
    adj := map id | id in obs :: {};
    var evaluated: set<(Id, Id)> := {};
    ghost var offered := OfferedPairs(k, cfg, obs);
    ghost var done: set<Id> := {};
    assert Accepted(k, cfg, obs, evaluated) == {};
    FromPairsEmpty(obs.Keys);
    for i := 0 to |ids|
      invariant grid.Valid() && fresh(grid) && grid.geo == GridGeometry(k, cfg) && grid.trackCoords == Coords(obs)
      invariant done <= obs.Keys && forall l | 0 <= l < i :: ids[l] in done
      invariant PairsCover(offered, evaluated, done)
      invariant adj == FromPairs(obs.Keys, Accepted(k, cfg, obs, evaluated))
    {
      assert ids[i] in obs;
      var candidates := CandidatesOf(k, cfg, obs, grid, ids[i]);
      adj, evaluated := VisitCandidates(k, cfg, obs, ids[i], candidates, adj, evaluated, offered, done);
      done := done + {ids[i]};
    }
    assert done == obs.Keys by {
      forall x | x in obs ensures x in done { assert x in ids; }
    }
    PairsComplete(k, cfg, obs, evaluated);
  }

  method VisitCandidates(k: Kernel, cfg: GroupingConfig, obs: Population, t1: Id, candidates: seq<Id>,
                         adj0: Adjacency, evaluated0: set<(Id, Id)>,
                         ghost offered: set<(Id, Id)>, ghost done: set<Id>)
    returns (adj: Adjacency, evaluated: set<(Id, Id)>)
    requires t1 in obs && forall c | c in candidates :: c in obs && c != t1
    requires forall c :: c in candidates && Below(t1, c) <==> (t1, c) in offered
    requires PairsCover(offered, evaluated0, done)
    requires adj0 == FromPairs(obs.Keys, Accepted(k, cfg, obs, evaluated0))
    ensures PairsCover(offered, evaluated, done + {t1})
    ensures adj == FromPairs(obs.Keys, Accepted(k, cfg, obs, evaluated))
  {
    adj, evaluated := adj0, evaluated0;
    for j := 0 to |candidates|
      invariant PairsCover(offered, evaluated, done)
      invariant forall l | 0 <= l < j && Below(t1, candidates[l]) :: (t1, candidates[l]) in evaluated
      invariant adj == FromPairs(obs.Keys, Accepted(k, cfg, obs, evaluated))
    {
      var cand := candidates[j];
      if Below(t1, cand) && (t1, cand) !in evaluated {
        assert cand in candidates;
        AcceptedStep(k, cfg, obs, evaluated, t1, cand);
        assert evaluated + {(t1, cand)} <= offered;
        FromPairsAdd(obs.Keys, Accepted(k, cfg, obs, evaluated), t1, cand);
        ghost var g := adj;
        assert Accepted(k, cfg, obs, evaluated) + {} == Accepted(k, cfg, obs, evaluated);
        evaluated := evaluated + {(t1, cand)};
        if Correlated(k, cfg, obs[t1], obs[cand]) {
          adj := adj[t1 := adj[t1] + {cand}];
          adj := adj[cand := adj[cand] + {t1}];
          assert adj == g[t1 := g[t1] + {cand}][cand := g[cand] + {t1}];
        }
      }
    }
    forall b | (t1, b) in offered ensures (t1, b) in evaluated {
      assert b in candidates;
    }
  }

  lemma AcceptedStep(k: Kernel, cfg: GroupingConfig, obs: Population, pairs: set<(Id, Id)>, a: Id, b: Id)
    requires a in obs && b in obs
    ensures Accepted(k, cfg, obs, pairs + {(a, b)})
            == Accepted(k, cfg, obs, pairs) + if Correlated(k, cfg, obs[a], obs[b]) then {(a, b)} else {}
  {
  }

  /** The breadth-first traversal from one unvisited identifier: it visits exactly that identifier's
      component, each member once. */
  method Traverse(adj: Adjacency, start: Id, visited0: set<Id>) returns (component: seq<Id>, visited: set<Id>)
    requires Undirected(adj) && start in adj && start !in visited0
    requires Closed(adj, visited0)
    ensures Distinct(component) && Elements(component) == Component(adj, start)
    ensures visited == visited0 + Component(adj, start)
  {
    ghost var whole := Component(adj, start);
    ComponentFacts(adj, start);
    ClosedMissesComponent(adj, visited0, start);
    component := [];
    var queue := [start];
    visited := visited0 + {start};
    while queue != []
      invariant Elements(component) + Elements(queue) <= whole && start in Elements(component) + Elements(queue)
      invariant visited == visited0 + Elements(component) + Elements(queue)
      invariant Distinct(component + queue)
      invariant forall c | c in Elements(component) :: adj[c] <= Elements(component) + Elements(queue)
      decreases whole - Elements(component)
    {
      var curr := queue[0];
      TakeFirst(component, queue);
      ghost var component0, queue0 := component, queue;
      queue := queue[1..];
      component := component + [curr];
      queue, visited := VisitNeighbours(adj, curr, component, queue, visited, visited0, whole);
    }
    assert component + queue == component;
    ClosedHoldsComponent(adj, Elements(component), start);
    assert Elements(component) == whole;
  }

  lemma TakeFirst(component: seq<Id>, queue: seq<Id>)
    requires queue != []
    ensures component + queue == (component + [queue[0]]) + queue[1..]
    ensures Elements(component) + Elements(queue) == Elements(component + [queue[0]]) + Elements(queue[1..])
    ensures Elements(component + [queue[0]]) == Elements(component) + {queue[0]}
    ensures queue[0] in Elements(queue)
    ensures Distinct(component + queue) ==> queue[0] !in Elements(component)
  {
    assert queue == [queue[0]] + queue[1..];
    if Distinct(component + queue) {
      forall i | 0 <= i < |component| ensures component[i] != queue[0] {
        assert (component + queue)[i] != (component + queue)[|component|];
      }
    }
  }

  lemma Enqueue(component: seq<Id>, queue: seq<Id>, x: Id)
    requires Distinct(component + queue) && x !in Elements(component) + Elements(queue)
    ensures Distinct(component + (queue + [x]))
    ensures Elements(queue + [x]) == Elements(queue) + {x}
  {
    assert component + (queue + [x]) == (component + queue) + [x];
    forall i | 0 <= i < |component + queue| ensures (component + queue)[i] != x {
      assert (component + queue)[i] in Elements(component) + Elements(queue);
    }
  }

  /** Queue the neighbours of the vertex just taken that have not been visited yet, in order. */
  method VisitNeighbours(adj: Adjacency, curr: Id, component: seq<Id>, queue0: seq<Id>, visited1: set<Id>,
                         ghost visited0: set<Id>, ghost whole: set<Id>)
    returns (queue: seq<Id>, visited: set<Id>)
    requires Undirected(adj) && Closed(adj, whole) && whole * visited0 == {} && curr in adj && curr in whole
    requires Elements(component) + Elements(queue0) <= whole
    requires visited1 == visited0 + Elements(component) + Elements(queue0)
    requires Distinct(component + queue0)
    ensures Elements(queue0) <= Elements(queue) && Elements(component) + Elements(queue) <= whole
    ensures visited == visited0 + Elements(component) + Elements(queue)
    ensures Distinct(component + queue)
    ensures adj[curr] <= Elements(component) + Elements(queue)
  {
    hide Elements, Distinct, Sorted, Undirected;
    queue, visited := queue0, visited1;
    var neighbours := Sorted(adj[curr]);
    for j := 0 to |neighbours|
      invariant Elements(queue0) <= Elements(queue) && Elements(component) + Elements(queue) <= whole
      invariant visited == visited0 + Elements(component) + Elements(queue)
      invariant Distinct(component + queue)
      invariant forall l | 0 <= l < j :: neighbours[l] in Elements(component) + Elements(queue)
    {
      var n := neighbours[j];
      assert n in neighbours;
      assert n in whole && n !in whole * visited0;
      if n !in visited {
        Enqueue(component, queue, n);
        visited := visited + {n};
        queue := queue + [n];
      }
    }
    forall x | x in adj[curr] ensures x in Elements(component) + Elements(queue) {
      assert x in neighbours;
    }
  }

  method CollectById(tracks: seq<Observation>) returns (obs: Population)
    ensures obs == ById(tracks)
  {
    obs := map[];
    for i := 0 to |tracks|
      invariant obs == ById(tracks[..i])
    {
      assert tracks[..i + 1][..i] == tracks[..i];
      obs := obs[tracks[i].id := tracks[i]];
    }
    assert tracks[..|tracks|] == tracks;
  }

  /** The whole clustering pass: its result is the reference function of the population. */
  method CorrelateTracks(k: Kernel, cfg: GroupingConfig, tracks: seq<Observation>,
                         existing: seq<TrackGroup>, now: real)
    returns (groups: seq<TrackGroup>)
    ensures groups == Clusters(k, cfg, ById(tracks), existing, now)
  {
    hide GridGraph, GridPairs, ById, Emitted, SortGroups, FromPairs;
    var obs := CollectById(tracks);
    var ids := Sorted(obs.Keys);
    ghost var g := GridGraph(k, cfg, obs);
    GridGraphUndirected(k, cfg, obs);
    if |ids| < cfg.minGroupSize {
      NoneEmitted(k, cfg, g, ids, existing, now);
      return [];
    }
    var adj := BuildAdjacency(k, cfg, obs, ids);
    groups := EmitGroups(k, cfg, adj, ids, existing, now);
    groups := SortGroups(groups);
  }

  lemma NoneEmitted(k: Kernel, cfg: GroupingConfig, g: Adjacency, ids: seq<Id>, existing: seq<TrackGroup>, now: real)
    requires |g.Keys| < cfg.minGroupSize
    ensures Emitted(k, cfg, g, ids, existing, now) == []
  {
    if ids != [] {
      NoneEmitted(k, cfg, g, ids[..|ids| - 1], existing, now);
      SubsetSize(Component(g, ids[|ids| - 1]), g.Keys);
    }
  }

  /** The visited set after the prefix `ids`: the union of their components. */
  ghost predicate VisitedBy(g: Adjacency, ids: seq<Id>, visited: set<Id>) {
    && Closed(g, visited) && visited <= g.Keys && (forall x | x in ids :: x in visited)
    && (forall x | x in visited :: ReachedFrom(g, ids, x))
  }

  ghost predicate ReachedFrom(g: Adjacency, ids: seq<Id>, x: Id) {
    exists y :: y in ids && x in Component(g, y)
  }

  method EmitGroups(k: Kernel, cfg: GroupingConfig, adj: Adjacency, ids: seq<Id>,
                    existing: seq<TrackGroup>, now: real)
    returns (groups: seq<TrackGroup>)
    requires Undirected(adj) && forall x | x in ids :: x in adj
    ensures groups == Emitted(k, cfg, adj, ids, existing, now)
  {
    hide AssignedId, Component, VisitedBy, Sorted;
    var visited: set<Id> := {};
    groups := [];
    NothingVisited(adj);
    for i := 0 to |ids|
      invariant VisitedBy(adj, ids[..i], visited)
      invariant groups == Emitted(k, cfg, adj, ids[..i], existing, now)
    {
      assert ids[i] in ids;
      assert ids[..i + 1] == ids[..i] + [ids[i]];
      assert ids[..i + 1][..i] == ids[..i];
      assert forall y | y in ids[..i] :: y in ids;
      IsLeader(adj, ids[..i], visited, ids[i]);
      VisitNext(adj, ids[..i], visited, ids[i]);
      if ids[i] !in visited {
        var component;
        component, visited := Traverse(adj, ids[i], visited);
        DistinctSize(component);
        if |component| >= cfg.minGroupSize {
          var groupId := AssignGroupId(k, component, existing, cfg.overlapThreshold);
          groups := groups + [MakeGroup(groupId, Sorted(set x | x in component), now)];
        }
      }
    }
    assert ids[..|ids|] == ids;
  }

  lemma NothingVisited(g: Adjacency)
    ensures VisitedBy(g, [], {})
  {
  }

  /** An identifier is unvisited exactly when it is the first of its component. */
  lemma IsLeader(g: Adjacency, ids: seq<Id>, visited: set<Id>, x: Id)
    requires Undirected(g) && VisitedBy(g, ids, visited) && x in g && forall y | y in ids :: y in g
    ensures x !in visited ==> Closed(g, visited) && forall y | y in ids :: y !in Component(g, x)
    ensures x in visited ==> (exists y :: y in ids && y in Component(g, x))
                             && visited + Component(g, x) == visited
  {
    hide Component, Undirected;
    ComponentFacts(g, x);
    if x in visited {
      var y :| y in ids && x in Component(g, y);
      SameComponent(g, y, x);
      ComponentFacts(g, y);
      ClosedHoldsComponent(g, visited, x);
    } else {
      ClosedMissesComponent(g, visited, x);
    }
  }

  /** Visiting one more component keeps the visited set a union of components. */
  lemma VisitNext(g: Adjacency, ids: seq<Id>, visited: set<Id>, x: Id)
    requires Undirected(g) && VisitedBy(g, ids, visited) && x in g
    ensures VisitedBy(g, ids + [x], visited + Component(g, x))
  {
    hide Component, Undirected, ReachedFrom;
    ComponentFacts(g, x);
    forall z | z in visited + Component(g, x) ensures ReachedFrom(g, ids + [x], z) {
      StillReached(g, ids, x, z);
    }
    assert Closed(g, visited + Component(g, x));
  }

  lemma StillReached(g: Adjacency, ids: seq<Id>, x: Id, z: Id)
    ensures ReachedFrom(g, ids, z) || z in Component(g, x) ==> ReachedFrom(g, ids + [x], z)
  {
    hide Component;
    assert forall y :: y in ids + [x] <==> y in ids || y == x;
  }

  // ----- What a clustering pass means -----

  /** A group record stands for one component: its members sorted, its size, its identifier. */
  ghost predicate GroupOf(k: Kernel, cfg: GroupingConfig, existing: seq<TrackGroup>, now: real,
                          c: set<Id>, r: TrackGroup) {
    r == MakeGroup(AssignedId(k, c, existing, cfg.overlapThreshold), Sorted(c), now)
  }

  /** The groups are exactly the given sets, each once. */
  ghost predicate Represents(k: Kernel, cfg: GroupingConfig, existing: seq<TrackGroup>, now: real,
                             sets: set<set<Id>>, groups: seq<TrackGroup>) {
    && (forall r | r in groups :: exists c :: c in sets && GroupOf(k, cfg, existing, now, c, r))
    && (forall c | c in sets :: exists r :: r in groups && GroupOf(k, cfg, existing, now, c, r))
    && (forall r | r in groups :: multiset(groups)[r] == 1)
  }

  /** The components, large enough, that the identifiers in `ids` belong to. */
  ghost function Met(g: Adjacency, ids: seq<Id>, minSize: int): set<set<Id>> {
    set x | x in ids && |Component(g, x)| >= minSize :: Component(g, x)
  }

  lemma MetStep(g: Adjacency, ids: seq<Id>, minSize: int)
    requires ids != [] && Undirected(g) && forall x | x in ids :: x in g
    ensures var rest, c := ids[..|ids| - 1], Component(g, ids[|ids| - 1]);
            && Met(g, ids, minSize) == Met(g, rest, minSize) + (if |c| >= minSize then {c} else {})
            && ((exists x :: x in rest && x in c) ==> (|c| >= minSize ==> c in Met(g, rest, minSize)))
            && ((forall x | x in rest :: x !in c) ==> c !in Met(g, rest, minSize))
  {
    var rest, last := ids[..|ids| - 1], ids[|ids| - 1];
    var c := Component(g, last);
    assert ids == rest + [last];
    assert last in ids;
    assert forall x | x in rest :: x in ids;
    forall d ensures d in Met(g, ids, minSize) <==> d in Met(g, rest, minSize) + (if |c| >= minSize then {c} else {}) {
      if d in Met(g, ids, minSize) {
        var x :| x in ids && |Component(g, x)| >= minSize && d == Component(g, x);
        assert x in rest || x == last;
      }
    }
    if x :| x in rest && x in c {
      SameComponent(g, last, x);
    }
    if c in Met(g, rest, minSize) {
      var x :| x in rest && c == Component(g, x);
      ComponentFacts(g, x);
    }
  }

  lemma RepresentsAppend(k: Kernel, cfg: GroupingConfig, existing: seq<TrackGroup>, now: real,
                         sets: set<set<Id>>, groups: seq<TrackGroup>, c: set<Id>, r: TrackGroup)
    requires Represents(k, cfg, existing, now, sets, groups) && c !in sets && GroupOf(k, cfg, existing, now, c, r)
    ensures Represents(k, cfg, existing, now, sets + {c}, groups + [r])
  {
    hide AssignedId;
    forall d, s | d in sets && GroupOf(k, cfg, existing, now, d, s) ensures s != r {
      SortedInjective(c, d);
    }
    assert r !in groups;
    assert forall s :: s in groups + [r] <==> s in groups || s == r;
    assert r in groups + [r];
    forall d | d in sets + {c} ensures exists s :: s in groups + [r] && GroupOf(k, cfg, existing, now, d, s) {
      if d in sets {
        var s :| s in groups && GroupOf(k, cfg, existing, now, d, s);
        assert s in groups + [r];
      }
    }
  }

  lemma SortedInjective(c: set<Id>, d: set<Id>)
    ensures Sorted(c) == Sorted(d) ==> c == d
  {
    if Sorted(c) == Sorted(d) {
      assert forall x :: x in c <==> x in Sorted(c);
      assert forall x :: x in d <==> x in Sorted(d);
    }
  }

  lemma NothingRepresented(k: Kernel, cfg: GroupingConfig, g: Adjacency, existing: seq<TrackGroup>, now: real)
    ensures Represents(k, cfg, existing, now, Met(g, [], cfg.minGroupSize), [])
  {
  }

  lemma {:induction false} EmittedRepresents(k: Kernel, cfg: GroupingConfig, g: Adjacency, ids: seq<Id>,
                                             existing: seq<TrackGroup>, now: real)
    requires Undirected(g) && forall x | x in ids :: x in g
    ensures Represents(k, cfg, existing, now, Met(g, ids, cfg.minGroupSize), Emitted(k, cfg, g, ids, existing, now))
    decreases |ids|
  {
    hide AssignedId, Component, Sorted, Represents, Met;
    NothingRepresented(k, cfg, g, existing, now);
    if ids != [] {
      var rest, last := ids[..|ids| - 1], ids[|ids| - 1];
      assert forall x | x in rest :: x in ids;
      EmittedRepresents(k, cfg, g, rest, existing, now);
      MetStep(g, ids, cfg.minGroupSize);
      var c := Component(g, last);
      if (forall x | x in rest :: x !in c) && |c| >= cfg.minGroupSize {
        RepresentsAppend(k, cfg, existing, now, Met(g, rest, cfg.minGroupSize),
                         Emitted(k, cfg, g, rest, existing, now), c,
                         MakeGroup(AssignedId(k, c, existing, cfg.overlapThreshold), Sorted(c), now));
      } else {
        assert Met(g, ids, cfg.minGroupSize) == Met(g, rest, cfg.minGroupSize);
        assert Emitted(k, cfg, g, ids, existing, now) == Emitted(k, cfg, g, rest, existing, now);
      }
    }
  }

  lemma RepresentsPermuted(k: Kernel, cfg: GroupingConfig, existing: seq<TrackGroup>, now: real,
                           sets: set<set<Id>>, groups: seq<TrackGroup>, other: seq<TrackGroup>)
    requires Represents(k, cfg, existing, now, sets, groups) && multiset(groups) == multiset(other)
    ensures Represents(k, cfg, existing, now, sets, other)
  {
    hide GroupOf;
    assert forall r :: r in groups <==> r in multiset(groups);
    assert forall r :: r in other <==> r in multiset(other);
  }

  /** A pass emits one record for every connected component of the population with at least
      `minGroupSize` members, and nothing else. */
  lemma ClustersAreComponents(k: Kernel, cfg: GroupingConfig, obs: Population, existing: seq<TrackGroup>, now: real)
    ensures Represents(k, cfg, existing, now, Components(GridGraph(k, cfg, obs), cfg.minGroupSize),
                       Clusters(k, cfg, obs, existing, now))
  {
    hide GridGraph, AssignedId;
    var g, ids := GridGraph(k, cfg, obs), Sorted(obs.Keys);
    GridGraphUndirected(k, cfg, obs);
    EmittedRepresents(k, cfg, g, ids, existing, now);
    assert Met(g, ids, cfg.minGroupSize) == Components(g, cfg.minGroupSize) by {
      assert forall x :: x in ids <==> x in g;
    }
    RepresentsPermuted(k, cfg, existing, now, Components(g, cfg.minGroupSize),
                       Emitted(k, cfg, g, ids, existing, now), Clusters(k, cfg, obs, existing, now));
  }

  /** In index form: any two groups of a pass are disjoint, so every track of a large enough
      component is in exactly one group. */
  lemma ClustersDisjoint(k: Kernel, cfg: GroupingConfig, obs: Population, existing: seq<TrackGroup>, now: real)
    ensures var r := Clusters(k, cfg, obs, existing, now);
            && (forall i, j | 0 <= i < j < |r| :: MemberSet(r[i]) * MemberSet(r[j]) == {})
            && (forall i | 0 <= i < |r| ::
                  Ascending(r[i].members) && r[i].memberCount == |MemberSet(r[i])| && r[i].updatedAt == now)
  {
    hide GridGraph, AssignedId, Clusters, Component;
    var g := GridGraph(k, cfg, obs);
    var r := Clusters(k, cfg, obs, existing, now);
    ClustersAreComponents(k, cfg, obs, existing, now);
    GridGraphUndirected(k, cfg, obs);
    forall i | 0 <= i < |r|
      ensures Ascending(r[i].members) && r[i].memberCount == |MemberSet(r[i])| && r[i].updatedAt == now
    {
      var a := RecordComponent(k, cfg, g, existing, now, r, i);
    }
    forall i, j | 0 <= i < j < |r| ensures MemberSet(r[i]) * MemberSet(r[j]) == {} {
      var a := RecordComponent(k, cfg, g, existing, now, r, i);
      var b := RecordComponent(k, cfg, g, existing, now, r, j);
      MembersDiffer(k, cfg, g, existing, now, r, i, j);
      if MemberSet(r[i]) * MemberSet(r[j]) != {} {
        ComponentsDisjoint(g, a, b);
      }
    }
  }

  lemma RecordComponent(k: Kernel, cfg: GroupingConfig, g: Adjacency, existing: seq<TrackGroup>, now: real,
                        r: seq<TrackGroup>, i: int) returns (a: Id)
    requires Represents(k, cfg, existing, now, Components(g, cfg.minGroupSize), r) && 0 <= i < |r|
    ensures a in g && MemberSet(r[i]) == Component(g, a) && r[i].updatedAt == now
    ensures Ascending(r[i].members) && r[i].memberCount == |MemberSet(r[i])|
  {
    hide AssignedId, Component;
    var c := SetOfRecord(k, cfg, existing, now, Components(g, cfg.minGroupSize), r, i);
    hide Represents;
    a :| a in g && c == Component(g, a);
    assert MemberSet(r[i]) == c;
  }

  lemma MembersDiffer(k: Kernel, cfg: GroupingConfig, g: Adjacency, existing: seq<TrackGroup>, now: real,
                      r: seq<TrackGroup>, i: int, j: int)
    requires Represents(k, cfg, existing, now, Components(g, cfg.minGroupSize), r)
    requires 0 <= i < j < |r|
    ensures MemberSet(r[i]) != MemberSet(r[j])
  {
    hide AssignedId, Component, MemberSet, GroupOf;
    var c := SetOfRecord(k, cfg, existing, now, Components(g, cfg.minGroupSize), r, i);
    var d := SetOfRecord(k, cfg, existing, now, Components(g, cfg.minGroupSize), r, j);
    hide Represents;
    RecordMeans(k, cfg, existing, now, c, r[i]);
    RecordMeans(k, cfg, existing, now, d, r[j]);
    if c == d {
      TwiceCounts(r, i, j);
      RecordOnce(k, cfg, existing, now, Components(g, cfg.minGroupSize), r, i);
    }
  }

  lemma SetOfRecord(k: Kernel, cfg: GroupingConfig, existing: seq<TrackGroup>, now: real, sets: set<set<Id>>,
                    r: seq<TrackGroup>, i: int) returns (c: set<Id>)
    requires Represents(k, cfg, existing, now, sets, r) && 0 <= i < |r|
    ensures c in sets && GroupOf(k, cfg, existing, now, c, r[i])
  {
    hide GroupOf;
    assert r[i] in r;
    c :| c in sets && GroupOf(k, cfg, existing, now, c, r[i]);
  }

  lemma RecordOnce(k: Kernel, cfg: GroupingConfig, existing: seq<TrackGroup>, now: real, sets: set<set<Id>>,
                   r: seq<TrackGroup>, i: int)
    requires Represents(k, cfg, existing, now, sets, r) && 0 <= i < |r|
    ensures multiset(r)[r[i]] == 1
  {
    hide GroupOf;
    assert r[i] in r;
  }

  lemma RecordOfSet(k: Kernel, cfg: GroupingConfig, existing: seq<TrackGroup>, now: real, sets: set<set<Id>>,
                    r: seq<TrackGroup>, c: set<Id>) returns (i: int)
    requires Represents(k, cfg, existing, now, sets, r) && c in sets
    ensures 0 <= i < |r| && GroupOf(k, cfg, existing, now, c, r[i])
  {
    hide GroupOf;
    var g :| g in r && GroupOf(k, cfg, existing, now, c, g);
    i :| 0 <= i < |r| && r[i] == g;
  }

  lemma RecordMeans(k: Kernel, cfg: GroupingConfig, existing: seq<TrackGroup>, now: real, c: set<Id>, r: TrackGroup)
    requires GroupOf(k, cfg, existing, now, c, r)
    ensures MemberSet(r) == c && r.groupId == AssignedId(k, c, existing, cfg.overlapThreshold)
    ensures forall q | GroupOf(k, cfg, existing, now, c, q) :: q == r
  {
    hide AssignedId;
  }

  /** So, when correlation implies the degree box, the grid-built groups are the components of the
      all-pairs correlation graph. */
  lemma GridGroupsAreAllPairsGroups(k: Kernel, cfg: GroupingConfig, obs: Population, existing: seq<TrackGroup>,
                                    now: real)
    requires forall a, b | a in obs && b in obs && Below(a, b) && Correlated(k, cfg, obs[a], obs[b]) ::
               InBox(GridGeometry(k, cfg), Position(obs[a]), Position(obs[b]))
    ensures Represents(k, cfg, existing, now, Components(AllPairsGraph(k, cfg, obs), cfg.minGroupSize),
                       Clusters(k, cfg, obs, existing, now))
  {
    hide GridGraph, AllPairsGraph, Represents, Clusters;
    GridGraphIsAllPairs(k, cfg, obs);
    ClustersAreComponents(k, cfg, obs, existing, now);
  }

  ghost predicate NonDescending(groups: seq<TrackGroup>) {
    forall i, j | 0 <= i < j < |groups| :: !Below(groups[j].groupId, groups[i].groupId)
  }

  lemma {:induction false} InsertGroupSorted(g: TrackGroup, sorted: seq<TrackGroup>)
    requires NonDescending(sorted)
    ensures NonDescending(InsertGroup(g, sorted))
    decreases |sorted|
  {
    if sorted != [] {
      var rest, last := sorted[..|sorted| - 1], sorted[|sorted| - 1];
      if Below(g.groupId, last.groupId) {
        InsertGroupSorted(g, rest);
        var r := InsertGroup(g, rest);
        BelowAsymmetric(g.groupId, last.groupId);
        forall i | 0 <= i < |r| ensures !Below(last.groupId, r[i].groupId) {
          assert r[i] in multiset(r);
          assert r[i] == g || r[i] in rest;
        }
      } else {
        forall i | 0 <= i < |sorted| ensures !Below(g.groupId, sorted[i].groupId) {
          if Below(g.groupId, sorted[i].groupId) {
            BelowTotal(sorted[i].groupId, last.groupId);
            if Below(sorted[i].groupId, last.groupId) {
              BelowTransitive(g.groupId, sorted[i].groupId, last.groupId);
            }
          }
        }
      }
    }
  }

  /** The result of a pass is in group-identifier order. */
  lemma {:induction false} SortGroupsSorted(groups: seq<TrackGroup>)
    ensures NonDescending(SortGroups(groups))
    decreases |groups|
  {
    if groups != [] {
      SortGroupsSorted(groups[..|groups| - 1]);
      InsertGroupSorted(groups[|groups| - 1], SortGroups(groups[..|groups| - 1]));
    }
  }

  /** The order in which distinct tracks arrive does not matter. */
  lemma OrderIndependent(k: Kernel, cfg: GroupingConfig, p: seq<Observation>, q: seq<Observation>,
                         existing: seq<TrackGroup>, now: real)
    requires multiset(p) == multiset(q)
    requires forall i, j | 0 <= i < j < |p| :: p[i].id != p[j].id
    ensures Clusters(k, cfg, ById(p), existing, now) == Clusters(k, cfg, ById(q), existing, now)
  {
    hide Clusters, ById;
    SamePopulation(p, q);
  }

  lemma SamePopulation(p: seq<Observation>, q: seq<Observation>)
    requires multiset(p) == multiset(q)
    requires forall i, j | 0 <= i < j < |p| :: p[i].id != p[j].id
    ensures ById(p) == ById(q)
  {
    hide ById;
    forall i, j | 0 <= i < j < |q| ensures q[i].id != q[j].id {
      PermutedDistinct(p, q, i, j);
    }
    assert forall o :: o in p <==> o in q by {
      assert forall o :: o in p <==> o in multiset(p);
      assert forall o :: o in q <==> o in multiset(q);
    }
    SameDictionary(p, q);
    SameDictionary(q, p);
  }

  /** A sequence of distinct tracks is in the dictionary of every sequence with those elements. */
  lemma SameDictionary(p: seq<Observation>, q: seq<Observation>)
    requires forall o | o in p :: o in q
    requires forall i, j | 0 <= i < j < |p| :: p[i].id != p[j].id
    requires forall i, j | 0 <= i < j < |q| :: q[i].id != q[j].id
    ensures forall id | id in ById(p) :: id in ById(q) && ById(q)[id] == ById(p)[id]
  {
    hide ById;
    ByIdDistinct(p);
    ByIdDistinct(q);
    forall id | id in ById(p) ensures id in ById(q) && ById(q)[id] == ById(p)[id] {
      assert ById(p)[id] in q;
    }
  }

  lemma PermutedDistinct(p: seq<Observation>, q: seq<Observation>, i: int, j: int)
    requires multiset(p) == multiset(q) && 0 <= i < j < |q|
    requires forall i, j | 0 <= i < j < |p| :: p[i].id != p[j].id
    ensures q[i].id != q[j].id
  {
    assert q[i] in multiset(q) && q[j] in multiset(q);
    assert q[i] in p && q[j] in p;
    var a :| 0 <= a < |p| && p[a] == q[i];
    OnceCounts(p, a);
    if q[i] == q[j] {
      TwiceCounts(q, i, j);
    }
  }

  lemma TwiceCounts<T>(q: seq<T>, i: int, j: int)
    requires 0 <= i < j < |q| && q[i] == q[j]
    ensures multiset(q)[q[i]] >= 2
  {
    assert q == q[..j] + [q[j]] + q[j + 1..];
    assert q[..j][i] in multiset(q[..j]);
  }

  lemma OnceCounts<T>(p: seq<T>, a: int)
    requires 0 <= a < |p| && forall l | 0 <= l < |p| && l != a :: p[l] != p[a]
    ensures multiset(p)[p[a]] == 1
  {
    assert p == p[..a] + [p[a]] + p[a + 1..];
    assert p[a] !in p[..a] && p[a] !in p[a + 1..];
  }

  lemma {:induction false} ByIdDistinct(p: seq<Observation>)
    requires forall i, j | 0 <= i < j < |p| :: p[i].id != p[j].id
    ensures forall o | o in p :: o.id in ById(p) && ById(p)[o.id] == o
    ensures forall id | id in ById(p) :: ById(p)[id] in p
    decreases |p|
  {
    if p != [] {
      var rest, last := p[..|p| - 1], p[|p| - 1];
      ByIdDistinct(rest);
      assert p == rest + [last];
    }
  }
}
