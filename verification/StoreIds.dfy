/** Which inputs make group identifiers collide: the identifier half of the store's exactness conditions,
    stated before anything is assigned. */
module StoreIds {
  import opened TrackIds
  import opened Graph
  import opened Reclustering
  import opened Grouping
  import opened StoreModel
  import opened StoreExactness
  import opened StoreOrder
  import opened StoreRuns

  function HashOf(k: Kernel, c: set<Id>): Id { k.memberHash(Sorted(c)) }

  /** The sets are not empty and pairwise disjoint, as components are. */
  ghost predicate Parts(sets: set<set<Id>>) {
    && (forall c | c in sets :: c != {})
    && (forall c, d | c in sets && d in sets && c != d :: c * d == {})
  }

  /** At a threshold of exactly one half, two of the sets are the equal halves of an existing group. */
  ghost predicate Halved(sets: set<set<Id>>, p: seq<TrackGroup>, threshold: real) {
    threshold == 0.5
    && exists a, b, i :: a in sets && b in sets && a != b && |a| == |b| && 0 <= i < |p| && MemberSet(p[i]) == a + b
  }

  /** The hash of a set that no existing group overlaps enough is the identifier of a group that stays, ... */
  ghost predicate HashKept(k: Kernel, sets: set<set<Id>>, p: seq<TrackGroup>, threshold: real, kept: set<Id>) {
    exists c :: c in sets && !Inherits(c, p, threshold) && HashOf(k, c) in kept
  }

  /** ... or the hash of another such set, ... */
  ghost predicate HashRepeated(k: Kernel, sets: set<set<Id>>, p: seq<TrackGroup>, threshold: real) {
    exists c, d :: c in sets && d in sets && c != d && !Inherits(c, p, threshold) && !Inherits(d, p, threshold)
                   && HashOf(k, c) == HashOf(k, d)
  }

  /** ... or the identifier of the existing group that another set overlaps best. */
  ghost predicate HashInherited(k: Kernel, sets: set<set<Id>>, p: seq<TrackGroup>, threshold: real) {
    exists c, d, i :: c in sets && d in sets && !Inherits(c, p, threshold) && 0 <= i < |p| && IsBest(d, p, threshold, i)
                      && HashOf(k, c) == p[i].groupId
  }

  /** No group is halved and no hash clashes: all about the sets, the existing groups and the hash. */
  ghost predicate IdsClear(k: Kernel, sets: set<set<Id>>, p: seq<TrackGroup>, threshold: real, kept: set<Id>) {
    && !Halved(sets, p, threshold)
    && !HashKept(k, sets, p, threshold, kept)
    && !HashRepeated(k, sets, p, threshold)
    && !HashInherited(k, sets, p, threshold)
  }

  /** When hashes of sets that inherit nothing are new, only halving is left. */
  lemma NewHashesClear(k: Kernel, sets: set<set<Id>>, p: seq<TrackGroup>, threshold: real, kept: set<Id>)
    requires forall c | c in sets && !Inherits(c, p, threshold) ::
               HashOf(k, c) !in kept && forall i | 0 <= i < |p| :: p[i].groupId != HashOf(k, c)
    requires forall c, d | c in sets && d in sets && c != d && !Inherits(c, p, threshold)
             && !Inherits(d, p, threshold) ::
               HashOf(k, c) != HashOf(k, d)
    ensures IdsClear(k, sets, p, threshold, kept) <==> !Halved(sets, p, threshold)
  {
    hide Inherits, HashOf, Halved, Qualifies;
  }

  // ----- Two sets -----

  /** Two disjoint sets that both inherit get one identifier if and only if they halve a group. */
  lemma BothInherit(k: Kernel, a: set<Id>, b: set<Id>, p: seq<TrackGroup>, threshold: real)
    requires a != {} && b != {} && a * b == {} && threshold >= 0.5 && Apart(p) && DistinctIds(p)
    requires Inherits(a, p, threshold) && Inherits(b, p, threshold)
    ensures AssignedId(k, a, p, threshold) == AssignedId(k, b, p, threshold)
            <==> threshold == 0.5 && |a| == |b| && exists i :: 0 <= i < |p| && MemberSet(p[i]) == a + b
  {
    hide Inherits, MemberSet;
    if AssignedId(k, a, p, threshold) == AssignedId(k, b, p, threshold) {
      InheritanceInjective(a, b, p, threshold);
    }
    if threshold == 0.5 && |a| == |b| {
      if i :| 0 <= i < |p| && MemberSet(p[i]) == a + b {
        HalvesShare(k, a, b, p, i);
      }
    }
  }

  lemma HalvesShare(k: Kernel, a: set<Id>, b: set<Id>, p: seq<TrackGroup>, i: int)
    requires a != {} && a * b == {} && |a| == |b| && 0 <= i < |p| && MemberSet(p[i]) == a + b && Apart(p)
    ensures Inherits(a, p, 0.5) && Inherits(b, p, 0.5)
    ensures AssignedId(k, a, p, 0.5) == AssignedId(k, b, p, 0.5)
  {
    hide IsBest, MemberSet, Apart;
    HalvingCollides(a, b, p, i);
    HeirIs(a, p, i);
    HeirIs(b, p, i);
  }

  lemma HeirIs(a: set<Id>, p: seq<TrackGroup>, i: int)
    requires IsBest(a, p, 0.5, i)
    ensures Inherits(a, p, 0.5) && Heir(a, p, 0.5) == i
  {
    BestUnique(a, p, 0.5, i, Heir(a, p, 0.5));
  }

  lemma OneInherits(k: Kernel, c: set<Id>, d: set<Id>, p: seq<TrackGroup>, threshold: real)
    requires !Inherits(c, p, threshold) && Inherits(d, p, threshold)
    ensures AssignedId(k, c, p, threshold) == AssignedId(k, d, p, threshold)
            <==> exists i :: 0 <= i < |p| && IsBest(d, p, threshold, i) && HashOf(k, c) == p[i].groupId
  {
    var h := Heir(d, p, threshold);
    forall i | IsBest(d, p, threshold, i) ensures i == h {
      BestUnique(d, p, threshold, i, h);
    }
    hide Qualifies;
  }

  // ----- All sets -----

  ghost predicate AllDiffer(k: Kernel, sets: set<set<Id>>, p: seq<TrackGroup>, threshold: real) {
    forall c, d | c in sets && d in sets && c != d :: AssignedId(k, c, p, threshold) != AssignedId(k, d, p, threshold)
  }

  lemma HalvedShares(k: Kernel, sets: set<set<Id>>, p: seq<TrackGroup>, threshold: real)
    requires Parts(sets) && Apart(p) && Halved(sets, p, threshold)
    ensures !AllDiffer(k, sets, p, threshold)
  {
    hide AssignedId, MemberSet, Apart;
    var a, b, i :| a in sets && b in sets && a != b && |a| == |b| && 0 <= i < |p| && MemberSet(p[i]) == a + b;
    HalvesShare(k, a, b, p, i);
  }

  lemma RepeatedShares(k: Kernel, sets: set<set<Id>>, p: seq<TrackGroup>, threshold: real)
    requires HashRepeated(k, sets, p, threshold)
    ensures !AllDiffer(k, sets, p, threshold)
  {
    hide Inherits, Heir;
    var c, d :| c in sets && d in sets && c != d && !Inherits(c, p, threshold) && !Inherits(d, p, threshold)
                && HashOf(k, c) == HashOf(k, d);
    assert AssignedId(k, c, p, threshold) == AssignedId(k, d, p, threshold);
  }

  lemma InheritedShares(k: Kernel, sets: set<set<Id>>, p: seq<TrackGroup>, threshold: real)
    requires HashInherited(k, sets, p, threshold)
    ensures !AllDiffer(k, sets, p, threshold)
  {
    hide IsBest, AssignedId;
    var c, d, i :| c in sets && d in sets && !Inherits(c, p, threshold) && 0 <= i < |p| && IsBest(d, p, threshold, i)
                   && HashOf(k, c) == p[i].groupId;
    assert Inherits(d, p, threshold);
    hide Inherits;
    OneInherits(k, c, d, p, threshold);
    assert c != d;
  }

  lemma SharedMeansClash(k: Kernel, sets: set<set<Id>>, p: seq<TrackGroup>, threshold: real, c: set<Id>, d: set<Id>)
    requires Parts(sets) && threshold >= 0.5 && Apart(p) && DistinctIds(p)
    requires c in sets && d in sets && c != d && AssignedId(k, c, p, threshold) == AssignedId(k, d, p, threshold)
    ensures Halved(sets, p, threshold) || HashRepeated(k, sets, p, threshold) || HashInherited(k, sets, p, threshold)
  {
    hide Inherits, MemberSet, Apart, DistinctIds, IsBest;
    if Inherits(c, p, threshold) && Inherits(d, p, threshold) {
      BothInherit(k, c, d, p, threshold);
    } else if Inherits(c, p, threshold) {
      OneInherits(k, d, c, p, threshold);
    } else if Inherits(d, p, threshold) {
      OneInherits(k, c, d, p, threshold);
    }
  }

  lemma AllDifferIff(k: Kernel, sets: set<set<Id>>, p: seq<TrackGroup>, threshold: real)
    requires Parts(sets) && threshold >= 0.5 && Apart(p) && DistinctIds(p)
    ensures AllDiffer(k, sets, p, threshold)
            <==> !Halved(sets, p, threshold) && !HashRepeated(k, sets, p, threshold)
                 && !HashInherited(k, sets, p, threshold)
  {
    hide Halved, HashRepeated, HashInherited, AssignedId, Parts, Apart, DistinctIds;
    if Halved(sets, p, threshold) || HashRepeated(k, sets, p, threshold) || HashInherited(k, sets, p, threshold) {
      if Halved(sets, p, threshold) {
        HalvedShares(k, sets, p, threshold);
      } else if HashRepeated(k, sets, p, threshold) {
        RepeatedShares(k, sets, p, threshold);
      } else {
        InheritedShares(k, sets, p, threshold);
      }
    } else {
      forall c, d | c in sets && d in sets && c != d
        ensures AssignedId(k, c, p, threshold) != AssignedId(k, d, p, threshold)
      {
        if AssignedId(k, c, p, threshold) == AssignedId(k, d, p, threshold) {
          SharedMeansClash(k, sets, p, threshold, c, d);
        }
      }
    }
  }

  lemma KeptIff(k: Kernel, c: set<Id>, p: seq<TrackGroup>, threshold: real, kept: set<Id>)
    requires forall i | 0 <= i < |p| :: p[i].groupId !in kept
    ensures AssignedId(k, c, p, threshold) in kept <==> !Inherits(c, p, threshold) && HashOf(k, c) in kept
  {
    hide Qualifies;
  }

  // ----- One pass -----

  lemma PassIds(k: Kernel, cfg: GroupingConfig, p: seq<TrackGroup>, now: real, sets: set<set<Id>>, f: seq<TrackGroup>,
                rest: map<Id, TrackGroup>)
    requires Represents(k, cfg, p, now, sets, f)
    requires forall i, j | 0 <= i < j < |f| :: MemberSet(f[i]) != MemberSet(f[j])
    ensures IdsFree(rest, f) <==> AllDiffer(k, sets, p, cfg.overlapThreshold)
                                  && forall c | c in sets :: AssignedId(k, c, p, cfg.overlapThreshold) !in rest
  {
    hide Represents, GroupOf, AssignedId, MemberSet;
    var th := cfg.overlapThreshold;
    if IdsFree(rest, f) {
      forall c, d | c in sets && d in sets && c != d ensures AssignedId(k, c, p, th) != AssignedId(k, d, p, th) {
        var i := RecordOfSet(k, cfg, p, now, sets, f, c);
        var j := RecordOfSet(k, cfg, p, now, sets, f, d);
        RecordMeans(k, cfg, p, now, c, f[i]);
        RecordMeans(k, cfg, p, now, d, f[j]);
      }
      forall c | c in sets ensures AssignedId(k, c, p, th) !in rest {
        var i := RecordOfSet(k, cfg, p, now, sets, f, c);
        RecordMeans(k, cfg, p, now, c, f[i]);
      }
    }
    if AllDiffer(k, sets, p, th) && forall c | c in sets :: AssignedId(k, c, p, th) !in rest {
      forall i | 0 <= i < |f| ensures f[i].groupId !in rest {
        var c := SetOfRecord(k, cfg, p, now, sets, f, i);
        RecordMeans(k, cfg, p, now, c, f[i]);
      }
      forall i, j | 0 <= i < j < |f| ensures f[i].groupId != f[j].groupId {
        var c := SetOfRecord(k, cfg, p, now, sets, f, i);
        var d := SetOfRecord(k, cfg, p, now, sets, f, j);
        RecordMeans(k, cfg, p, now, c, f[i]);
        RecordMeans(k, cfg, p, now, d, f[j]);
      }
    }
  }

  /** The new groups of a pass find their identifiers free if and only if no existing group is halved and
      no hash clashes. */
  lemma IdsFreeIff(k: Kernel, cfg: GroupingConfig, p: seq<TrackGroup>, now: real, sets: set<set<Id>>,
                   f: seq<TrackGroup>,
                   rest: map<Id, TrackGroup>)
    requires Represents(k, cfg, p, now, sets, f) && Parts(sets) && cfg.overlapThreshold >= 0.5
    requires forall i, j | 0 <= i < j < |f| :: MemberSet(f[i]) != MemberSet(f[j])
    requires Apart(p) && DistinctIds(p) && forall i | 0 <= i < |p| :: p[i].groupId !in rest
    ensures IdsFree(rest, f) <==> IdsClear(k, sets, p, cfg.overlapThreshold, rest.Keys)
  {
    hide Represents, AssignedId, MemberSet, AllDiffer, Halved, HashRepeated, HashInherited, IdsFree, Parts, Inherits,
         HashOf;
    var th := cfg.overlapThreshold;
    PassIds(k, cfg, p, now, sets, f, rest);
    AllDifferIff(k, sets, p, th);
    forall c | c in sets
      ensures AssignedId(k, c, p, th) in rest <==> !Inherits(c, p, th) && HashOf(k, c) in rest.Keys
    {
      KeptIff(k, c, p, th, rest.Keys);
    }
  }

  // ----- The touched groups -----

  lemma ComponentsAreParts(g: Adjacency, minSize: int)
    requires Undirected(g)
    ensures Parts(Components(g, minSize))
  {
    hide Component, Undirected;
    forall c | c in Components(g, minSize) ensures c != {} {
      var a :| a in g && c == Component(g, a);
      ComponentFacts(g, a);
    }
    forall c, d | c in Components(g, minSize) && d in Components(g, minSize) && c != d ensures c * d == {} {
      var a :| a in g && c == Component(g, a);
      var b :| b in g && d == Component(g, b);
      if c * d != {} {
        ComponentsDisjoint(g, a, b);
      }
    }
  }

  /** A pass over part of the population, with the touched groups offered in the order their set is walked. */
  lemma PassIdsFreeIff(k: StoreKernel, cfg: StoreConfig, groups: map<Id, TrackGroup>, trackGroup: map<Id, Id>,
                       touched: set<Id>, obs: Population, rest: map<Id, TrackGroup>, now: real)
    requires ListsSets(k) && cfg.grouping.overlapThreshold >= 0.5 && Owned(groups, trackGroup)
    requires rest.Keys * touched == {}
    ensures var p := Pick(groups, k.setOrder(touched));
            IdsFree(rest, Clusters(k.base, cfg.grouping, obs, p, now))
            <==> IdsClear(k.base, Components(GridGraph(k.base, cfg.grouping, obs), cfg.grouping.minGroupSize), p,
                          cfg.grouping.overlapThreshold, rest.Keys)
  {
    hide Clusters, Components, GridGraph, Represents, IdsFree, IdsClear, Parts, Apart, DistinctIds, MemberSet, Owned,
         Pick;
    var p, g := Pick(groups, k.setOrder(touched)), GridGraph(k.base, cfg.grouping, obs);
    var f := Clusters(k.base, cfg.grouping, obs, p, now);
    PickApart(groups, trackGroup, k.setOrder(touched));
    ElementsOf(k.setOrder(touched), touched);
    ClustersAreComponents(k.base, cfg.grouping, obs, p, now);
    GridGraphUndirected(k.base, cfg.grouping, obs);
    ComponentsAreParts(g, cfg.grouping.minGroupSize);
    forall i, j | 0 <= i < j < |f| ensures MemberSet(f[i]) != MemberSet(f[j]) {
      MembersDiffer(k.base, cfg.grouping, g, p, now, f, i, j);
    }
    forall i | 0 <= i < |p| ensures p[i].groupId !in rest {
      assert p[i].groupId in touched;
      assert p[i].groupId !in rest.Keys * touched;
    }
    IdsFreeIff(k.base, cfg.grouping, p, now, Components(g, cfg.grouping.minGroupSize), f, rest);
  }

  lemma ElementsOf(q: seq<Id>, s: set<Id>)
    requires Elements(q) == s
    ensures forall x :: x in q <==> x in s
  {
    forall x ensures x in q <==> x in s {
      assert x in q <==> x in Elements(q);
    }
  }

  // ----- The store's operations -----

  /** The groups a local step is about to form. */
  ghost function NewSets(k: StoreKernel, cfg: StoreConfig, ch: Change): set<set<Id>> {
    Components(Restrict(GraphOf(k, cfg, ch.tracks), ch.affected), cfg.grouping.minGroupSize)
  }

  /** The identifiers a local step is about to assign are free. */
  ghost predicate StepIdsClear(k: StoreKernel, cfg: StoreConfig, s: State, ch: Change) {
    IdsClear(k.base, NewSets(k, cfg, ch), Pick(s.groups, k.setOrder(ch.touched)), cfg.grouping.overlapThreshold,
             (s.groups - ch.touched).Keys)
  }

  lemma StepIdsFreeIff(k: StoreKernel, cfg: StoreConfig, s: State, ch: Change, now: real)
    requires ListsSets(k) && cfg.grouping.overlapThreshold >= 0.5 && Owned(s.groups, s.trackGroup)
    requires ch.affected <= ch.tracks.Keys
    ensures IdsFree(s.groups - ch.touched, NewGroups(k, cfg, s, ch, now)) <==> StepIdsClear(k, cfg, s, ch)
  {
    hide Clusters, Components, GridGraph, IdsFree, IdsClear, Owned, Pick, Restrict, ListsSets;
    var part := map x | x in ch.affected :: ch.tracks[x];
    assert part == map x | x in ch.affected && x in ch.tracks :: ch.tracks[x];
    SubPopulationGraph(k.base, cfg.grouping, ch.tracks, ch.affected);
    PassIdsFreeIff(k, cfg, s.groups, s.trackGroup, ch.touched, part, s.groups - ch.touched, now);
  }

  /** One update on an exact store, with the condition on its inputs alone: no touched group sticks out,
      the new group was looked at whole, no touched group is halved by two new ones, no hash clashes. */
  lemma UpdateExactOnInputs(k: StoreKernel, cfg: StoreConfig, s: State, obs: Observation, score: Option<real>,
                            now: real)
    requires ListsSets(k) && cfg.grouping.overlapThreshold >= 0.5
    requires Exact(k, cfg, s) && Covers(k, cfg, s.tracks) && Covers(k, cfg, s.tracks[obs.id := obs])
    ensures var ch, r := UpdateChange(StoreGeometry(k, cfg), s, obs), UpdateTrack(k, cfg, s, obs, score, now);
            MemberSets(r.groups) == Components(GraphOf(k, cfg, r.tracks), cfg.grouping.minGroupSize)
            <==> StepClosed(k, cfg, s, ch, obs.id) && StepIdsClear(k, cfg, s, ch)
  {
    UpdateExactIff(k, cfg, s, obs, score, now);
    FiledOwned(s.groups, s.trackGroup);
    ChangeBasics(StoreGeometry(k, cfg), s, obs, obs.id);
    hide UpdateChange, UpdateTrack, Components, GraphOf, MemberSets, StepClosed, StepIdsClear, IdsFree, NewGroups,
         ListsSets;
    StepIdsFreeIff(k, cfg, s, UpdateChange(StoreGeometry(k, cfg), s, obs), now);
  }

  lemma DropExactOnInputs(k: StoreKernel, cfg: StoreConfig, s: State, t: Id, now: real)
    requires ListsSets(k) && cfg.grouping.overlapThreshold >= 0.5
    requires Exact(k, cfg, s) && Covers(k, cfg, s.tracks) && t in s.tracks
    ensures var ch, r := DropChange(StoreGeometry(k, cfg), s, t), DropTrack(k, cfg, s, t, now);
            MemberSets(r.groups) == Components(GraphOf(k, cfg, r.tracks), cfg.grouping.minGroupSize)
            <==> CoversTouchedGroups(GraphOf(k, cfg, s.tracks), t, ch.affected, cfg.grouping.minGroupSize)
                 && StepIdsClear(k, cfg, s, ch)
  {
    DropExactIff(k, cfg, s, t, now);
    FiledOwned(s.groups, s.trackGroup);
    DropBasics(StoreGeometry(k, cfg), s, t);
    hide DropChange, DropTrack, Components, GraphOf, MemberSets, CoversTouchedGroups, StepIdsClear, IdsFree,
         NewGroups, ListsSets;
    StepIdsFreeIff(k, cfg, s, DropChange(StoreGeometry(k, cfg), s, t), now);
  }

  /** The groups a batch is about to form find their identifiers free. */
  ghost predicate BatchIdsClear(k: StoreKernel, cfg: StoreConfig, s: State, tracks: Population) {
    IdsClear(k.base, Components(GraphOf(k, cfg, tracks), cfg.grouping.minGroupSize),
             Pick(s.groups, k.setOrder(s.groups.Keys)), cfg.grouping.overlapThreshold, {})
  }

  /** A batch is exact if and only if no old group is halved by two new ones and no hash clashes; the
      premise on the state holds in every run (`RunOwned`). */
  lemma BatchExactOnInputs(k: StoreKernel, cfg: StoreConfig, s: State, observations: seq<Observation>, now: real)
    requires ListsSets(k) && cfg.grouping.overlapThreshold >= 0.5 && Owned(s.groups, s.trackGroup) && observations != []
    ensures var r, tracks := UpdateBatch(k, cfg, s, observations, now), AddAll(s.tracks, observations);
            && r.tracks == tracks
            && (MemberSets(r.groups) == Components(GraphOf(k, cfg, tracks), cfg.grouping.minGroupSize)
                <==> BatchIdsClear(k, cfg, s, tracks))
            && (BatchIdsClear(k, cfg, s, tracks) ==> Exact(k, cfg, r))
  {
    BatchExactIff(k, cfg, s, observations, now);
    hide UpdateBatch, AddAll, Components, GridGraph, MemberSets, IdsFree, IdsClear, Clusters, Owned, Pick, Exact,
         ListsSets;
    var tracks := AddAll(s.tracks, observations);
    var none: map<Id, TrackGroup> := map[];
    PassIdsFreeIff(k, cfg, s.groups, s.trackGroup, s.groups.Keys, tracks, none, now);
    assert none.Keys == {};
  }

  // ----- Every member points at its group, in every run -----

  lemma RefiledOwned(groups: map<Id, TrackGroup>, trackGroup: map<Id, Id>, rest: map<Id, TrackGroup>, m: map<Id, Id>,
                     f: seq<TrackGroup>, a: set<Id>)
    requires Owned(rest, m) && (forall gid | gid in rest :: MemberSet(rest[gid]) * a == {})
    requires forall i, j | 0 <= i < j < |f| :: MemberSet(f[i]) * MemberSet(f[j]) == {}
    requires forall i | 0 <= i < |f| :: MemberSet(f[i]) <= a
    requires groups == InsertAll(rest, f) && trackGroup == MapAll(m - a, f)
    ensures Owned(groups, trackGroup)
  {
    hide MemberSet;
    InsertAllStored(rest, f);
    MapAllValues(m - a, f);
    hide InsertAll, MapAll;
    forall gid | gid in groups
      ensures groups[gid].groupId == gid
      ensures forall x | x in MemberSet(groups[gid]) :: x in trackGroup && trackGroup[x] == gid
    {
      assert Stored(rest, f, gid, groups[gid]);
      if gid in rest && groups[gid] == rest[gid] && forall j | 0 <= j < |f| :: f[j].groupId != gid {
        forall x | x in MemberSet(rest[gid]) ensures x in trackGroup && trackGroup[x] == gid {
          assert x !in MemberSet(rest[gid]) * a;
          assert Outside(f, x);
        }
      }
    }
  }

  /** Tracks of groups that are not touched are not affected. */
  lemma UntouchedUnaffected(s: State, ch: Change, t: Id)
    requires Owned(s.groups, s.trackGroup)
    requires ch.touched == GroupIdsOf(s.trackGroup, ch.affected + {t})
    requires ch.trackGroup == s.trackGroup || ch.trackGroup == s.trackGroup - {t}
    ensures var rest := s.groups - ch.touched;
            Owned(rest, ch.trackGroup) && forall gid | gid in rest :: MemberSet(rest[gid]) * ch.affected == {}
  {
    hide MemberSet;
    var rest := s.groups - ch.touched;
    forall gid, x | gid in rest && x in MemberSet(rest[gid])
      ensures x !in ch.affected && x in ch.trackGroup && ch.trackGroup[x] == gid
    {
      assert s.trackGroup[x] == gid;
    }
    forall gid | gid in rest ensures MemberSet(rest[gid]) * ch.affected == {} {
      forall x ensures x !in MemberSet(rest[gid]) * ch.affected {}
    }
  }

  lemma RegroupOwned(k: StoreKernel, cfg: StoreConfig, s: State, ch: Change, t: Id, now: real)
    requires Owned(s.groups, s.trackGroup) && ch.affected <= ch.tracks.Keys
    requires ch.touched == GroupIdsOf(s.trackGroup, ch.affected + {t})
    requires ch.trackGroup == s.trackGroup || ch.trackGroup == s.trackGroup - {t}
    ensures var r := Regroup(k, cfg, s, ch, now); Owned(r.groups, r.trackGroup)
  {
    hide MemberSet, InsertAll, MapAll, FormAll, NewGroups, Owned, GraphOf, Components, Restrict;
    var f := NewGroups(k, cfg, s, ch, now);
    NewGroupsAre(k, cfg, s, ch, now);
    UntouchedUnaffected(s, ch, t);
    RefiledOwned(InsertAll(s.groups - ch.touched, f), MapAll(ch.trackGroup - ch.affected, f),
                 s.groups - ch.touched, ch.trackGroup, f, ch.affected);
  }

  lemma UpdateOwned(k: StoreKernel, cfg: StoreConfig, s: State, obs: Observation, score: Option<real>, now: real)
    requires Owned(s.groups, s.trackGroup)
    ensures var r := UpdateTrack(k, cfg, s, obs, score, now); Owned(r.groups, r.trackGroup)
  {
    var ch := UpdateChange(StoreGeometry(k, cfg), s, obs);
    ChangeBasics(StoreGeometry(k, cfg), s, obs, obs.id);
    assert ch.affected + {obs.id} == ch.affected;
    assert ch.trackGroup == s.trackGroup && ch.touched == GroupIdsOf(s.trackGroup, ch.affected);
    hide UpdateChange, Owned, Snapshot, Classified, Assessed, NewGroups, InsertAll, MapAll, FormAll;
    RegroupOwned(k, cfg, s, ch, obs.id, now);
  }

  lemma DropOwned(k: StoreKernel, cfg: StoreConfig, s: State, t: Id, now: real)
    requires Owned(s.groups, s.trackGroup)
    ensures var r := DropTrack(k, cfg, s, t, now); Owned(r.groups, r.trackGroup)
  {
    if t in s.tracks {
      var ch := DropChange(StoreGeometry(k, cfg), s, t);
      DropBasics(StoreGeometry(k, cfg), s, t);
      DropTouched(StoreGeometry(k, cfg), s, t);
      assert ch.trackGroup == s.trackGroup - {t};
      hide DropChange, Owned, Snapshot, Assessed, NewGroups, InsertAll, MapAll, FormAll;
      var trimmed := s.(classifier := s.classifier - {t}, behaviors := s.behaviors - {t},
                        priorities := s.priorities - {t}, anomaly := s.anomaly - {t});
      RegroupOwned(k, cfg, trimmed, ch, t, now);
    }
  }

  lemma AnewOwned(f: seq<TrackGroup>)
    requires forall i, j | 0 <= i < j < |f| :: MemberSet(f[i]) * MemberSet(f[j]) == {}
    ensures Owned(InsertAll(map[], f), MapAll(map[], f))
  {
    hide MemberSet, InsertAll, MapAll;
    var a := set i, x | 0 <= i < |f| && x in MemberSet(f[i]) :: x;
    var nobody: map<Id, Id> := map[];
    assert nobody - a == nobody;
    RefiledOwned(InsertAll(map[], f), MapAll(map[], f), map[], nobody, f, a);
  }

  lemma BatchOwned(k: StoreKernel, cfg: StoreConfig, s: State, observations: seq<Observation>, now: real)
    requires Owned(s.groups, s.trackGroup)
    ensures var r := UpdateBatch(k, cfg, s, observations, now); Owned(r.groups, r.trackGroup)
  {
    if observations == [] {
      EmptyBatch(k, cfg, s, now);
    } else {
      var tracks := AddAll(s.tracks, observations);
      var p := Pick(s.groups, k.setOrder(s.groups.Keys));
      var f := Clusters(k.base, cfg.grouping, tracks, p, now);
      BatchFields(k, cfg, s, observations, now);
      ClustersDisjoint(k.base, cfg.grouping, tracks, p, now);
      hide UpdateBatch, Clusters, MemberSet, InsertAll, MapAll, AddAll, Pick, Owned;
      AnewOwned(f);
    }
  }

  lemma ApplyOwned(k: StoreKernel, cfg: StoreConfig, s: State, op: Op)
    requires Owned(s.groups, s.trackGroup)
    ensures var r := Apply(k, cfg, s, op); Owned(r.groups, r.trackGroup)
  {
    hide Owned, UpdateTrack, DropTrack, UpdateBatch;
    match op
    case Update(obs, score, now) => UpdateOwned(k, cfg, s, obs, score, now);
    case Drop(id, now) => DropOwned(k, cfg, s, id, now);
    case Batch(observations, now) => BatchOwned(k, cfg, s, observations, now);
    case Clear(now) => NothingOwned();
  }

  lemma NothingOwned()
    ensures Owned(map[], map[])
  {
  }

  /** After every operation of every run, exact or not, each group's members point at it, so groups never
      overlap, even where an identifier was taken twice. */
  lemma {:induction false} RunOwned(k: StoreKernel, cfg: StoreConfig, start: real, ops: seq<Op>)
    ensures var s := Run(k, cfg, start, ops);
            && Owned(s.groups, s.trackGroup)
            && forall a, b | a in s.groups && b in s.groups && a != b ::
                MemberSet(s.groups[a]) * MemberSet(s.groups[b]) == {}
    decreases |ops|
  {
    hide Apply, MemberSet;
    if ops == [] {
      NothingOwned();
    } else {
      RunOwned(k, cfg, start, ops[..|ops| - 1]);
      ApplyOwned(k, cfg, Run(k, cfg, start, ops[..|ops| - 1]), ops[|ops| - 1]);
    }
    var s := Run(k, cfg, start, ops);
    forall a, b | a in s.groups && b in s.groups
        && a != b ensures MemberSet(s.groups[a]) * MemberSet(s.groups[b]) == {} {
      OwnedApart(s.groups, s.trackGroup, a, b);
    }
  }

  // ----- Exact runs, with every step's condition on its inputs -----

  /** What an operation must meet, before any identifier is assigned, to keep the store exact. */
  ghost predicate Checked(k: StoreKernel, cfg: StoreConfig, s: State, op: Op) {
    match op
    case Update(obs, _, _) =>
      var ch := UpdateChange(StoreGeometry(k, cfg), s, obs);
      Covers(k, cfg, s.tracks) && Covers(k, cfg, ch.tracks) && StepClosed(k, cfg, s, ch, obs.id)
          && StepIdsClear(k, cfg, s, ch)
    case Batch(observations, _) => observations != [] ==> BatchIdsClear(k, cfg, s, AddAll(s.tracks, observations))
    case Drop(id, _) =>
      id in s.tracks ==>
        var ch := DropChange(StoreGeometry(k, cfg), s, id);
        Covers(k, cfg, s.tracks) && StepClosed(k, cfg, s, ch, id) && StepIdsClear(k, cfg, s, ch)
    case Clear(_) => true
  }

  lemma CheckedSafe(k: StoreKernel, cfg: StoreConfig, s: State, op: Op)
    requires ListsSets(k) && cfg.grouping.overlapThreshold >= 0.5 && Owned(s.groups, s.trackGroup)
    ensures Checked(k, cfg, s, op) <==> Safe(k, cfg, s, op)
  {
    hide UpdateChange, DropChange, Covers, StepClosed, StepIdsClear, IdsFree, NewGroups, Clusters, Components,
         GraphOf, Pick,
         ListsSets, Owned, AddAll, IdsClear;
    match op
    case Update(obs, _, now) =>
      ChangeBasics(StoreGeometry(k, cfg), s, obs, obs.id);
      StepIdsFreeIff(k, cfg, s, UpdateChange(StoreGeometry(k, cfg), s, obs), now);
    case Drop(id, now) =>
      DropBasics(StoreGeometry(k, cfg), s, id);
      StepIdsFreeIff(k, cfg, s, DropChange(StoreGeometry(k, cfg), s, id), now);
    case Batch(observations, now) =>
      var none: map<Id, TrackGroup> := map[];
      assert none.Keys == {};
      var tracks := AddAll(s.tracks, observations);
      SameGraph(k, cfg, tracks);
      PassIdsFreeIff(k, cfg, s.groups, s.trackGroup, s.groups.Keys, tracks, none, now);
    case Clear(_) =>
  }

  lemma SameGraph(k: StoreKernel, cfg: StoreConfig, tracks: Population)
    ensures GraphOf(k, cfg, tracks) == GridGraph(k.base, cfg.grouping, tracks)
  {
    hide GridGraph;
  }

  /** In every run whose steps meet their conditions the incrementally kept groups are, after every
      operation, the groups that clustering the whole population from scratch would give. */
  lemma {:induction false} RunExactOnInputs(k: StoreKernel, cfg: StoreConfig, start: real, ops: seq<Op>)
    requires ListsSets(k) && cfg.grouping.overlapThreshold >= 0.5
    requires forall i | 0 <= i < |ops| :: Checked(k, cfg, Run(k, cfg, start, ops[..i]), ops[i])
    ensures Exact(k, cfg, Run(k, cfg, start, ops))
  {
    hide Checked, Safe, Exact, Apply, ListsSets, Owned;
    forall i | 0 <= i < |ops| ensures Safe(k, cfg, Run(k, cfg, start, ops[..i]), ops[i]) {
      RunOwned(k, cfg, start, ops[..i]);
      CheckedSafe(k, cfg, Run(k, cfg, start, ops[..i]), ops[i]);
    }
    RunExact(k, cfg, start, ops);
  }

  /** In a run whose positions are covered the store is exact after every operation if and only if every
      operation met its condition. */
  lemma RunExactOnInputsIff(k: StoreKernel, cfg: StoreConfig, start: real, ops: seq<Op>)
    requires ListsSets(k) && cfg.grouping.overlapThreshold >= 0.5
    requires forall i | 0 <= i < |ops| :: Covered(k, cfg, Run(k, cfg, start, ops[..i]), ops[i])
    ensures (forall i | 0 <= i <= |ops| :: Exact(k, cfg, Run(k, cfg, start, ops[..i])))
            <==> forall i | 0 <= i < |ops| :: Checked(k, cfg, Run(k, cfg, start, ops[..i]), ops[i])
  {
    hide Checked, Safe, Exact, Apply, ListsSets, Owned, Covered;
    forall i | 0 <= i < |ops|
      ensures Checked(k, cfg, Run(k, cfg, start, ops[..i]), ops[i])
              <==> Safe(k, cfg, Run(k, cfg, start, ops[..i]), ops[i])
    {
      RunOwned(k, cfg, start, ops[..i]);
      CheckedSafe(k, cfg, Run(k, cfg, start, ops[..i]), ops[i]);
    }
    RunExactIff(k, cfg, start, ops);
  }
}
