/** When a local step of the store leaves exactly the groups that re-clustering everything would give. */
module StoreExactness {
  import opened TrackIds
  import opened Graph
  import opened Reclustering
  import opened SpatialGrid
  import opened Grouping
  import opened StoreModel

  ghost function MemberSets(groups: map<Id, TrackGroup>): set<set<Id>> {
    set gid | gid in groups :: MemberSet(groups[gid])
  }

  /** Groups are filed under their identifiers and the reverse map says the same as the groups. */
  ghost predicate Filed(groups: map<Id, TrackGroup>, trackGroup: map<Id, Id>) {
    && (forall gid | gid in groups :: groups[gid].groupId == gid)
    && (forall gid, x | gid in groups && x in MemberSet(groups[gid]) :: x in trackGroup && trackGroup[x] == gid)
    && (forall x | x in trackGroup :: trackGroup[x] in groups && x in MemberSet(groups[trackGroup[x]]))
  }

  ghost function GraphOf(k: StoreKernel, cfg: StoreConfig, tracks: Population): Adjacency {
    GridGraph(k.base, cfg.grouping, tracks)
  }

  /** The groups are the components of the correlation graph of all active tracks. */
  ghost predicate Exact(k: StoreKernel, cfg: StoreConfig, s: State) {
    && Filed(s.groups, s.trackGroup)
    && MemberSets(s.groups) == Components(GraphOf(k, cfg, s.tracks), cfg.grouping.minGroupSize)
  }

  /** Correlated tracks are candidates of each other in the store's own grid. */
  ghost predicate Covers(k: StoreKernel, cfg: StoreConfig, tracks: Population) {
    var g := GraphOf(k, cfg, tracks);
    forall a, b {:trigger b in g[a]} | a in g && b in g[a] :: b in Candidates(StoreGeometry(k, cfg), Coords(tracks), a)
  }

  /** It is enough that correlation implies the degree box of the store's grid in both directions. */
  lemma BoxCovers(k: StoreKernel, cfg: StoreConfig, tracks: Population)
    requires forall a, b | a in tracks && b in tracks && Below(a, b)
                           && Correlated(k.base, cfg.grouping, tracks[a], tracks[b]) ::
               && InBox(StoreGeometry(k, cfg), Position(tracks[a]), Position(tracks[b]))
               && InBox(StoreGeometry(k, cfg), Position(tracks[b]), Position(tracks[a]))
    ensures Covers(k, cfg, tracks)
  {
    hide Candidates, InBox, Tested;
    var g := GraphOf(k, cfg, tracks);
    forall a, b | a in g && b in g[a]
      ensures b in Candidates(StoreGeometry(k, cfg), Coords(tracks), a)
    {
      LinkedPair(k, cfg, tracks, a, b);
      BoxIsCandidate(StoreGeometry(k, cfg), tracks, a, b);
    }
  }

  lemma LinkedPair(k: StoreKernel, cfg: StoreConfig, tracks: Population, a: Id, b: Id)
    requires var g := GraphOf(k, cfg, tracks); a in g && b in g[a]
    ensures a in tracks && b in tracks && a != b
    ensures || (Below(a, b) && Correlated(k.base, cfg.grouping, tracks[a], tracks[b]))
            || (Below(b, a) && Correlated(k.base, cfg.grouping, tracks[b], tracks[a]))
  {
    hide Candidates, Correlated;
    BelowIrreflexive(a);
  }

  /** Changing one track changes only its own edges. */
  lemma GraphDiffers(k: StoreKernel, cfg: StoreConfig, p: Population, q: Population, t: Id)
    requires p.Keys - {t} == q.Keys - {t} && forall x | x in p && x in q && x != t :: p[x] == q[x]
    ensures DifferOnlyAt(GraphOf(k, cfg, p), GraphOf(k, cfg, q), t)
  {
    GridGraphUndirected(k.base, cfg.grouping, p);
    GridGraphUndirected(k.base, cfg.grouping, q);
    var g, h := GraphOf(k, cfg, p), GraphOf(k, cfg, q);
    forall x | x in p && x in q && x != t ensures g[x] - {t} == h[x] - {t} {
      forall y | y in p && y in q && y != t
        ensures y in g[x] <==> y in h[x]
      {
        SamePairTested(k, cfg, p, q, x, y);
        SamePairTested(k, cfg, p, q, y, x);
        EdgeIs(k, cfg, p, x, y);
        EdgeIs(k, cfg, q, x, y);
      }
      assert g[x] <= p.Keys && h[x] <= q.Keys;
      forall y | y != t ensures y in p <==> y in q {
        assert y in p.Keys - {t} <==> y in q.Keys - {t};
      }
      assert forall y :: y in g[x] - {t} <==> y in h[x] - {t};
    }
  }

  ghost predicate Joined(k: StoreKernel, cfg: StoreConfig, p: Population, x: Id, y: Id) {
    x in p && y in p && Tested(k.base, cfg.grouping, p, x, y) && Correlated(k.base, cfg.grouping, p[x], p[y])
  }

  lemma EdgeIs(k: StoreKernel, cfg: StoreConfig, p: Population, x: Id, y: Id)
    requires x in p && y in p
    ensures y in GraphOf(k, cfg, p)[x] <==> Joined(k, cfg, p, x, y) || Joined(k, cfg, p, y, x)
  {
    hide Tested, Correlated;
  }

  lemma SamePairTested(k: StoreKernel, cfg: StoreConfig, p: Population, q: Population, x: Id, y: Id)
    requires x in p && y in p && x in q && y in q && p[x] == q[x] && p[y] == q[y]
    ensures Joined(k, cfg, p, x, y) == Joined(k, cfg, q, x, y)
  {
    assert Coords(p)[x] == Coords(q)[x] && Coords(p)[y] == Coords(q)[y];
  }

  // ----- Inserting groups under their identifiers -----

  ghost predicate LastWithId(f: seq<TrackGroup>, i: int)
    requires 0 <= i < |f|
  {
    forall j | i < j < |f| :: f[j].groupId != f[i].groupId
  }

  ghost predicate Stored(rest: map<Id, TrackGroup>, f: seq<TrackGroup>, gid: Id, g: TrackGroup) {
    || (gid in rest && g == rest[gid] && forall j | 0 <= j < |f| :: f[j].groupId != gid)
    || (exists i :: 0 <= i < |f| && f[i] == g && f[i].groupId == gid && LastWithId(f, i))
  }

  lemma {:induction false} InsertAllStored(rest: map<Id, TrackGroup>, f: seq<TrackGroup>)
    ensures forall gid, g :: gid in InsertAll(rest, f) && InsertAll(rest, f)[gid] == g <==> Stored(rest, f, gid, g)
    decreases |f|
  {
    if f != [] {
      var p, last := f[..|f| - 1], f[|f| - 1];
      InsertAllStored(rest, p);
      forall gid, g ensures gid in InsertAll(rest, f) && InsertAll(rest, f)[gid] == g <==> Stored(rest, f, gid, g) {
        StoredStep(rest, f, gid, g);
      }
    }
  }

  lemma StoredStep(rest: map<Id, TrackGroup>, f: seq<TrackGroup>, gid: Id, g: TrackGroup)
    requires f != []
    ensures var last := f[|f| - 1];
            Stored(rest, f, gid, g) <==> if gid == last.groupId then g == last else Stored(rest, f[..|f| - 1], gid, g)
  {
    var p, last := f[..|f| - 1], f[|f| - 1];
    if gid == last.groupId {
      assert LastWithId(f, |f| - 1);
      if i :| 0 <= i < |f| && f[i] == g && f[i].groupId == gid && LastWithId(f, i) {
        assert i == |f| - 1;
      }
    } else {
      if i :| 0 <= i < |f| && f[i] == g && f[i].groupId == gid && LastWithId(f, i) {
        assert p[i] == g && LastWithId(p, i);
      }
      if i :| 0 <= i < |p| && p[i] == g && p[i].groupId == gid && LastWithId(p, i) {
        assert f[i] == g && LastWithId(f, i);
      }
    }
  }

  /** No new group takes an identifier of another new group or of a group that stays. */
  ghost predicate IdsFree(rest: map<Id, TrackGroup>, f: seq<TrackGroup>) {
    && (forall i, j | 0 <= i < j < |f| :: f[i].groupId != f[j].groupId)
    && (forall i | 0 <= i < |f| :: f[i].groupId !in rest)
  }

  ghost function SetsOf(f: seq<TrackGroup>): set<set<Id>> { set i | 0 <= i < |f| :: MemberSet(f[i]) }

  /** The staying groups and the new ones are pairwise disjoint, and the new ones are not empty. */
  ghost predicate Separate(rest: map<Id, TrackGroup>, f: seq<TrackGroup>) {
    && (forall i, j | 0 <= i < j < |f| :: MemberSet(f[i]) * MemberSet(f[j]) == {})
    && (forall i | 0 <= i < |f| :: MemberSet(f[i]) != {})
    && (forall i, gid | 0 <= i < |f| && gid in rest :: MemberSet(rest[gid]) != MemberSet(f[i]))
    && (forall a, b | a in rest && b in rest && MemberSet(rest[a]) == MemberSet(rest[b]) :: a == b)
  }

  lemma InsertedAreSome(rest: map<Id, TrackGroup>, f: seq<TrackGroup>)
    ensures MemberSets(InsertAll(rest, f)) <= MemberSets(rest) + SetsOf(f)
  {
    InsertAllStored(rest, f);
    hide InsertAll;
    var r := InsertAll(rest, f);
    forall gid | gid in r ensures MemberSet(r[gid]) in MemberSets(rest) + SetsOf(f) {
      assert Stored(rest, f, gid, r[gid]);
    }
  }

  /** Nothing is overwritten exactly when the identifiers are free. */
  lemma InsertedAllIff(rest: map<Id, TrackGroup>, f: seq<TrackGroup>)
    requires Separate(rest, f)
    ensures MemberSets(InsertAll(rest, f)) == MemberSets(rest) + SetsOf(f) <==> IdsFree(rest, f)
  {
    InsertedAreSome(rest, f);
    InsertAllStored(rest, f);
    hide InsertAll;
    var r := InsertAll(rest, f);
    if IdsFree(rest, f) {
      forall i | 0 <= i < |f| ensures MemberSet(f[i]) in MemberSets(r) {
        assert LastWithId(f, i);
        assert Stored(rest, f, f[i].groupId, f[i]);
      }
      forall gid | gid in rest ensures MemberSet(rest[gid]) in MemberSets(r) {
        assert Stored(rest, f, gid, rest[gid]);
      }
    }
    if MemberSets(r) == MemberSets(rest) + SetsOf(f) {
      forall i | 0 <= i < |f| ensures LastWithId(f, i) && f[i].groupId !in rest {
        KeptIsLast(rest, f, r, i);
        if f[i].groupId in rest {
          RestOverwritten(rest, f, r, i);
        }
      }
    }
  }

  lemma KeptIsLast(rest: map<Id, TrackGroup>, f: seq<TrackGroup>, r: map<Id, TrackGroup>, i: int)
    requires Separate(rest, f) && 0 <= i < |f|
    requires forall gid, g :: gid in r && r[gid] == g <==> Stored(rest, f, gid, g)
    requires MemberSet(f[i]) in MemberSets(r)
    ensures LastWithId(f, i)
  {
    hide MemberSet;
    var gid :| gid in r && MemberSet(r[gid]) == MemberSet(f[i]);
    assert Stored(rest, f, gid, r[gid]);
    if j :| 0 <= j < |f| && f[j] == r[gid] && f[j].groupId == gid && LastWithId(f, j) {
      SeparateDistinct(rest, f, i, j);
    }
  }

  lemma SeparateDistinct(rest: map<Id, TrackGroup>, f: seq<TrackGroup>, i: int, j: int)
    requires Separate(rest, f) && 0 <= i < |f| && 0 <= j < |f| && MemberSet(f[i]) == MemberSet(f[j])
    ensures i == j
  {
    hide MemberSet;
    assert MemberSet(f[i]) * MemberSet(f[j]) == MemberSet(f[i]);
    assert MemberSet(f[j]) * MemberSet(f[i]) == MemberSet(f[i]);
  }

  lemma RestOverwritten(rest: map<Id, TrackGroup>, f: seq<TrackGroup>, r: map<Id, TrackGroup>, i: int)
    requires Separate(rest, f) && 0 <= i < |f| && f[i].groupId in rest
    requires forall gid, g :: gid in r && r[gid] == g <==> Stored(rest, f, gid, g)
    ensures MemberSet(rest[f[i].groupId]) !in MemberSets(r)
  {
    hide MemberSet;
    var lost := f[i].groupId;
    forall gid | gid in r ensures MemberSet(r[gid]) != MemberSet(rest[lost]) {
      assert Stored(rest, f, gid, r[gid]);
    }
  }

  // ----- The reverse map -----

  /** x is in none of the groups. */
  ghost predicate Outside(f: seq<TrackGroup>, x: Id) { forall i | 0 <= i < |f| :: x !in MemberSet(f[i]) }

  lemma MapMembersValues(n: map<Id, Id>, g: TrackGroup)
    ensures var r := MapMembers(n, g);
            && (forall x | x in MemberSet(g) :: x in r && r[x] == g.groupId)
            && (forall x | x !in MemberSet(g) :: (x in r <==> x in n) && (x in n ==> r[x] == n[x]))
  {
  }

  lemma {:induction false} MapAllValues(m: map<Id, Id>, f: seq<TrackGroup>)
    requires forall i, j | 0 <= i < j < |f| :: MemberSet(f[i]) * MemberSet(f[j]) == {}
    ensures forall i, x | 0 <= i < |f| && x in MemberSet(f[i]) :: x in MapAll(m, f) && MapAll(m, f)[x] == f[i].groupId
    ensures forall x | Outside(f, x) :: (x in MapAll(m, f) <==> x in m) && (x in m ==> MapAll(m, f)[x] == m[x])
    decreases |f|
  {
    hide MemberSet, MapMembers;
    if f != [] {
      var p, last := f[..|f| - 1], f[|f| - 1];
      MapAllValues(m, p);
      MapMembersValues(MapAll(m, p), last);
      forall i, x | 0 <= i < |p| && x in MemberSet(p[i]) ensures x !in MemberSet(last) {
        assert x !in MemberSet(f[i]) * MemberSet(f[|f| - 1]);
      }
      assert forall i | 0 <= i < |p| :: f[i] == p[i];
      forall x | Outside(f, x) ensures Outside(p, x) && x !in MemberSet(last) {
        assert x !in MemberSet(f[|f| - 1]);
      }
    }
  }

  // ----- One local step -----

  /** What `UpdateChange` and `DropChange` have in common. */
  ghost predicate LocalChange(k: StoreKernel, cfg: StoreConfig, s: State, ch: Change, t: Id) {
    && DifferOnlyAt(GraphOf(k, cfg, s.tracks), GraphOf(k, cfg, ch.tracks), t)
    && FirstHop(GraphOf(k, cfg, s.tracks), GraphOf(k, cfg, ch.tracks), t, ch.affected, cfg.grouping.minGroupSize)
    && ch.affected <= ch.tracks.Keys
    && ch.touched == GroupIdsOf(s.trackGroup, ch.affected + {t})
    && ch.trackGroup - ch.affected == s.trackGroup - (ch.affected + {t})
  }

  /** The test under which the local step is exact. */
  ghost predicate StepClosed(k: StoreKernel, cfg: StoreConfig, s: State, ch: Change, t: Id) {
    && CoversTouchedGroups(GraphOf(k, cfg, s.tracks), t, ch.affected, cfg.grouping.minGroupSize)
    && CoversNewGroup(GraphOf(k, cfg, ch.tracks), t, ch.affected, cfg.grouping.minGroupSize)
  }

  /** The groups that stay are the old groups that the affected set does not meet. */
  lemma RestIsUntouched(k: StoreKernel, cfg: StoreConfig, s: State, ch: Change, t: Id)
    requires Exact(k, cfg, s) && ch.touched == GroupIdsOf(s.trackGroup, ch.affected + {t})
    ensures MemberSets(s.groups - ch.touched)
            == Untouched(GraphOf(k, cfg, s.tracks), t, ch.affected, cfg.grouping.minGroupSize)
  {
    hide GraphOf, Components, MemberSet;
    var a, rest := ch.affected + {t}, s.groups - ch.touched;
    var g, m := GraphOf(k, cfg, s.tracks), cfg.grouping.minGroupSize;
    forall gid | gid in s.groups ensures gid in ch.touched <==> MemberSet(s.groups[gid]) * a != {} {
      if gid in ch.touched {
        var x :| x in a && x in s.trackGroup && s.trackGroup[x] == gid;
        assert x in MemberSet(s.groups[gid]) * a;
      }
      if x :| x in MemberSet(s.groups[gid]) * a {
        assert x in s.trackGroup && s.trackGroup[x] == gid;
      }
    }
    forall c ensures c in MemberSets(rest) <==> c in Untouched(g, t, ch.affected, m) {
      if c in MemberSets(rest) {
        var gid :| gid in rest && MemberSet(rest[gid]) == c;
        assert c in MemberSets(s.groups);
      }
      if c in Untouched(g, t, ch.affected, m) {
        assert c in MemberSets(s.groups);
        var gid :| gid in s.groups && MemberSet(s.groups[gid]) == c;
        assert gid in rest;
      }
    }
  }

  /** The new groups are the components of the affected part of the new graph, pairwise disjoint. */
  lemma NewGroupsAre(k: StoreKernel, cfg: StoreConfig, s: State, ch: Change, now: real)
    requires ch.affected <= ch.tracks.Keys
    ensures var f := NewGroups(k, cfg, s, ch, now);
            && SetsOf(f) == Components(Restrict(GraphOf(k, cfg, ch.tracks), ch.affected), cfg.grouping.minGroupSize)
            && (forall i, j | 0 <= i < j < |f| :: MemberSet(f[i]) * MemberSet(f[j]) == {})
            && (forall i | 0 <= i < |f| :: MemberSet(f[i]) != {} && MemberSet(f[i]) <= ch.affected)
  {
    hide Clusters, GridGraph, Restrict, Pick, MemberSet, Components, Represents;
    var part := map x | x in ch.affected :: ch.tracks[x];
    assert part == map x | x in ch.affected && x in ch.tracks :: ch.tracks[x];
    var existing := Pick(s.groups, k.setOrder(ch.touched));
    SubPopulationGraph(k.base, cfg.grouping, ch.tracks, ch.affected);
    ClustersAreComponents(k.base, cfg.grouping, part, existing, now);
    ClustersDisjoint(k.base, cfg.grouping, part, existing, now);
    var f := Clusters(k.base, cfg.grouping, part, existing, now);
    GridGraphUndirected(k.base, cfg.grouping, part);
    RepresentedSets(k.base, cfg.grouping, GridGraph(k.base, cfg.grouping, part), existing, now, f);
  }

  lemma RepresentedSets(k: Kernel, cfg: GroupingConfig, g: Adjacency, existing: seq<TrackGroup>, now: real,
                        f: seq<TrackGroup>)
    requires Undirected(g) && Represents(k, cfg, existing, now, Components(g, cfg.minGroupSize), f)
    ensures SetsOf(f) == Components(g, cfg.minGroupSize)
    ensures forall i | 0 <= i < |f| :: MemberSet(f[i]) != {} && MemberSet(f[i]) <= g.Keys
  {
    hide Represents, GroupOf, Component, MemberSet, Components;
    var sets := Components(g, cfg.minGroupSize);
    forall i | 0 <= i < |f| ensures MemberSet(f[i]) in sets && MemberSet(f[i]) != {} && MemberSet(f[i]) <= g.Keys {
      var c := SetOfRecord(k, cfg, existing, now, sets, f, i);
      RecordMeans(k, cfg, existing, now, c, f[i]);
      NotEmpty(g, cfg.minGroupSize, c);
    }
    forall c | c in sets ensures c in SetsOf(f) {
      var i := RecordOfSet(k, cfg, existing, now, sets, f, c);
      RecordMeans(k, cfg, existing, now, c, f[i]);
    }
  }

  lemma NotEmpty(g: Adjacency, minSize: int, c: set<Id>)
    requires Undirected(g) && c in Components(g, minSize)
    ensures c != {} && c <= g.Keys
  {
    var a :| a in g && c == Component(g, a);
    ComponentFacts(g, a);
  }

  lemma StepSeparate(k: StoreKernel, cfg: StoreConfig, s: State, ch: Change, t: Id, now: real)
    requires Exact(k, cfg, s) && LocalChange(k, cfg, s, ch, t)
    ensures Separate(s.groups - ch.touched, NewGroups(k, cfg, s, ch, now))
  {
    hide GraphOf, NewGroups, MemberSet, Components;
    NewGroupsAre(k, cfg, s, ch, now);
    RestIsUntouched(k, cfg, s, ch, t);
    var rest, f := s.groups - ch.touched, NewGroups(k, cfg, s, ch, now);
    forall i, gid | 0 <= i < |f| && gid in rest ensures MemberSet(rest[gid]) != MemberSet(f[i]) {
      assert MemberSet(rest[gid]) in MemberSets(rest);
      assert MemberSet(rest[gid]) * (ch.affected + {t}) == {};
      assert MemberSet(f[i]) * (ch.affected + {t}) == MemberSet(f[i]);
    }
    SetsNotEmpty(k, cfg, s);
    forall a, b | a in rest && b in rest && MemberSet(rest[a]) == MemberSet(rest[b]) ensures a == b {
      var x :| x in MemberSet(s.groups[a]);
      assert x in MemberSet(s.groups[b]);
      assert s.trackGroup[x] == a && s.trackGroup[x] == b;
    }
  }

  lemma GraphUndirected(k: StoreKernel, cfg: StoreConfig, tracks: Population)
    ensures Undirected(GraphOf(k, cfg, tracks)) && GraphOf(k, cfg, tracks).Keys == tracks.Keys
  {
    GridGraphUndirected(k.base, cfg.grouping, tracks);
  }

  lemma SetsNotEmpty(k: StoreKernel, cfg: StoreConfig, s: State)
    requires Exact(k, cfg, s)
    ensures forall gid | gid in s.groups :: MemberSet(s.groups[gid]) != {}
  {
    var g := GraphOf(k, cfg, s.tracks);
    GraphUndirected(k, cfg, s.tracks);
    hide GraphOf, MemberSet;
    forall gid | gid in s.groups ensures MemberSet(s.groups[gid]) != {} {
      assert MemberSet(s.groups[gid]) in MemberSets(s.groups);
      var a :| a in g && MemberSet(s.groups[gid]) == Component(g, a);
      ComponentFacts(g, a);
    }
  }

  /** A local step leaves exactly the groups of a full re-clustering if and only if no touched group
      sticks out of the affected set, the changed track's new group was looked at whole, and no
      identifier collides. */
  lemma RegroupExactIff(k: StoreKernel, cfg: StoreConfig, s: State, ch: Change, t: Id, now: real)
    requires Exact(k, cfg, s) && LocalChange(k, cfg, s, ch, t)
    ensures MemberSets(Regroup(k, cfg, s, ch, now).groups)
              == Components(GraphOf(k, cfg, ch.tracks), cfg.grouping.minGroupSize)
            <==> StepClosed(k, cfg, s, ch, t) && IdsFree(s.groups - ch.touched, NewGroups(k, cfg, s, ch, now))
  {
    hide GraphOf, NewGroups, InsertAll, MemberSets, IdsFree, Separate, SetsOf, DifferOnlyAt, FirstHop,
         CoversTouchedGroups, CoversNewGroup, Components, Restrict;
    var before, after := GraphOf(k, cfg, s.tracks), GraphOf(k, cfg, ch.tracks);
    var a, m := ch.affected, cfg.grouping.minGroupSize;
    var rest, f := s.groups - ch.touched, NewGroups(k, cfg, s, ch, now);
    NewGroupsAre(k, cfg, s, ch, now);
    RestIsUntouched(k, cfg, s, ch, t);
    StepSeparate(k, cfg, s, ch, t, now);
    InsertedAreSome(rest, f);
    InsertedAllIff(rest, f);
    LocalExactIff(before, after, t, a, m);
    if MemberSets(InsertAll(rest, f)) == Components(after, m) {
      assert Components(after, m) <= Local(before, after, t, a, m);
      ExactCoversTouched(before, after, t, a, m);
      ExactCoversNew(before, after, t, a, m);
    }
  }

  /** When the test is passed the dictionaries stay consistent too, so the store is exact again. */
  lemma RegroupKeepsExact(k: StoreKernel, cfg: StoreConfig, s: State, ch: Change, t: Id, now: real)
    requires Exact(k, cfg, s) && LocalChange(k, cfg, s, ch, t)
    requires StepClosed(k, cfg, s, ch, t) && IdsFree(s.groups - ch.touched, NewGroups(k, cfg, s, ch, now))
    ensures Exact(k, cfg, Regroup(k, cfg, s, ch, now))
  {
    RegroupExactIff(k, cfg, s, ch, t, now);
    RegroupFiled(k, cfg, s, ch, t, now);
    hide GraphOf, NewGroups, InsertAll, MemberSets, IdsFree, Filed, MapAll, FormAll;
  }

  lemma RegroupFiled(k: StoreKernel, cfg: StoreConfig, s: State, ch: Change, t: Id, now: real)
    requires Exact(k, cfg, s) && LocalChange(k, cfg, s, ch, t)
    requires CoversTouchedGroups(GraphOf(k, cfg, s.tracks), t, ch.affected, cfg.grouping.minGroupSize)
    requires IdsFree(s.groups - ch.touched, NewGroups(k, cfg, s, ch, now))
    ensures var r := Regroup(k, cfg, s, ch, now); Filed(r.groups, r.trackGroup)
  {
    hide GraphOf, NewGroups, MemberSet, DifferOnlyAt, FirstHop, Components, InsertAll, MapAll, Outside, Stored, IdsFree,
         CoversTouchedGroups, MemberSets;
    var rest, f := s.groups - ch.touched, NewGroups(k, cfg, s, ch, now);
    var a := ch.affected + {t};
    NewGroupsAre(k, cfg, s, ch, now);
    InsertAllStored(rest, f);
    MapAllValues(ch.trackGroup - ch.affected, f);
    TouchedInside(k, cfg, s, ch, t);
    FiledAgain(s.groups, s.trackGroup, rest, f, a, InsertAll(rest, f), MapAll(ch.trackGroup - ch.affected, f));
  }

  /** Under the test a track outside the affected set is in a group that stays. */
  lemma TouchedInside(k: StoreKernel, cfg: StoreConfig, s: State, ch: Change, t: Id)
    requires Exact(k, cfg, s) && ch.touched == GroupIdsOf(s.trackGroup, ch.affected + {t})
    requires CoversTouchedGroups(GraphOf(k, cfg, s.tracks), t, ch.affected, cfg.grouping.minGroupSize)
    ensures forall x | x in s.trackGroup && x !in ch.affected + {t} :: s.trackGroup[x] !in ch.touched
    ensures forall gid | gid in s.groups && gid !in ch.touched :: MemberSet(s.groups[gid]) * (ch.affected + {t}) == {}
  {
    hide GraphOf, MemberSet, Components;
    var a := ch.affected + {t};
    forall x, y | x in s.trackGroup && y in a && y in s.trackGroup && s.trackGroup[y] == s.trackGroup[x]
      ensures x in a
    {
      var c := MemberSet(s.groups[s.trackGroup[x]]);
      assert c in MemberSets(s.groups);
      assert y in c * a;
      assert c <= a;
    }
    forall gid, x | gid in s.groups && gid !in ch.touched && x in MemberSet(s.groups[gid])
      ensures x !in a
    {
      assert s.trackGroup[x] == gid;
    }
  }

  /** The dictionary argument alone: groups that stay keep clear of the affected set, tracks outside it
      belong to groups that stay, and the new groups lie inside it under free identifiers. */
  lemma FiledAgain(groups: map<Id, TrackGroup>, trackGroup: map<Id, Id>, rest: map<Id, TrackGroup>, f: seq<TrackGroup>,
                   a: set<Id>, g: map<Id, TrackGroup>, m: map<Id, Id>)
    requires Refiled(groups, trackGroup, rest, f, a, g, m)
    ensures Filed(g, m)
  {
    hide MemberSet;
    forall gid | gid in g ensures g[gid].groupId == gid {
      assert Stored(rest, f, gid, g[gid]);
    }
    GroupsMapped(groups, trackGroup, rest, f, a, g, m);
    TracksFiled(groups, trackGroup, rest, f, a, g, m);
  }

  /** The premises of `FiledAgain`, as one predicate. */
  ghost predicate Refiled(groups: map<Id, TrackGroup>, trackGroup: map<Id, Id>, rest: map<Id, TrackGroup>,
                          f: seq<TrackGroup>,
                          a: set<Id>, g: map<Id, TrackGroup>, m: map<Id, Id>) {
    && Filed(groups, trackGroup) && IdsFree(rest, f)
    && (forall gid | gid in rest :: gid in groups && rest[gid] == groups[gid] && MemberSet(rest[gid]) * a == {})
    && (forall x | x in trackGroup && x !in a :: trackGroup[x] in rest)
    && (forall i | 0 <= i < |f| :: MemberSet(f[i]) <= a)
    && (forall gid, v :: gid in g && g[gid] == v <==> Stored(rest, f, gid, v))
    && (forall i, x | 0 <= i < |f| && x in MemberSet(f[i]) :: x in m && m[x] == f[i].groupId)
    && (forall x | Outside(f, x) :: (x in m <==> x in trackGroup && x !in a) && (x in m ==> m[x] == trackGroup[x]))
  }

  lemma GroupsMapped(groups: map<Id, TrackGroup>, trackGroup: map<Id, Id>, rest: map<Id, TrackGroup>,
                     f: seq<TrackGroup>,
                     a: set<Id>, g: map<Id, TrackGroup>, m: map<Id, Id>)
    requires Refiled(groups, trackGroup, rest, f, a, g, m)
    ensures forall gid, x | gid in g && x in MemberSet(g[gid]) :: x in m && m[x] == gid
  {
    hide MemberSet;
    forall gid, x | gid in g && x in MemberSet(g[gid]) ensures x in m && m[x] == gid {
      assert Stored(rest, f, gid, g[gid]);
      if gid in rest && g[gid] == rest[gid] {
        DisjointParts(a, MemberSet(rest[gid]));
        assert x !in a;
        assert Outside(f, x);
      }
    }
  }

  lemma TracksFiled(groups: map<Id, TrackGroup>, trackGroup: map<Id, Id>, rest: map<Id, TrackGroup>, f: seq<TrackGroup>,
                    a: set<Id>, g: map<Id, TrackGroup>, m: map<Id, Id>)
    requires Refiled(groups, trackGroup, rest, f, a, g, m)
    ensures forall x | x in m :: m[x] in g && x in MemberSet(g[m[x]])
  {
    hide MemberSet;
    forall x | x in m ensures m[x] in g && x in MemberSet(g[m[x]]) {
      if i :| 0 <= i < |f| && x in MemberSet(f[i]) {
        assert LastWithId(f, i);
        assert Stored(rest, f, f[i].groupId, f[i]);
      } else {
        assert Outside(f, x);
        assert Stored(rest, f, trackGroup[x], rest[trackGroup[x]]);
      }
    }
  }
}
