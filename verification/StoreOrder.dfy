/** What the walking order of hash sets and dictionaries can decide in the store: nothing, except which of
    two merging groups of equal size passes on its identifier. */
module StoreOrder {
  import opened TrackIds
  import opened Graph
  import opened Grouping
  import opened StoreModel
  import opened StoreExactness

  lemma {:induction false} EmittedSame(k: Kernel, cfg: GroupingConfig, g: Adjacency, ids: seq<Id>,
                                       p: seq<TrackGroup>, q: seq<TrackGroup>, now: real)
    requires forall c | c in Met(g, ids, cfg.minGroupSize) ::
               AssignedId(k, c, p, cfg.overlapThreshold) == AssignedId(k, c, q, cfg.overlapThreshold)
    ensures Emitted(k, cfg, g, ids, p, now) == Emitted(k, cfg, g, ids, q, now)
    decreases |ids|
  {
    hide Component, AssignedId;
    if ids != [] {
      var rest, last := ids[..|ids| - 1], ids[|ids| - 1];
      assert last in ids && forall x | x in rest :: x in ids;
      EmittedSame(k, cfg, g, rest, p, q, now);
    }
  }

  /** At a threshold of exactly one half, one of the sets is the merger of two existing groups of equal size. */
  ghost predicate MergesSome(sets: set<set<Id>>, p: seq<TrackGroup>, threshold: real) {
    threshold == 0.5 && exists c :: c in sets && Merges(c, p)
  }

  lemma ClustersOrderFree(k: Kernel, cfg: GroupingConfig, obs: Population, p: seq<TrackGroup>, q: seq<TrackGroup>,
                          now: real)
    requires cfg.overlapThreshold >= 0.5 && forall g :: g in p <==> g in q
    requires Apart(p)
    requires !MergesSome(Components(GridGraph(k, cfg, obs), cfg.minGroupSize), p, cfg.overlapThreshold)
    ensures Clusters(k, cfg, obs, p, now) == Clusters(k, cfg, obs, q, now)
  {
    hide Component, AssignedId, GridGraph, Merges, MemberSet;
    var g, ids := GridGraph(k, cfg, obs), Sorted(obs.Keys);
    GridGraphUndirected(k, cfg, obs);
    forall c | c in Met(g, ids, cfg.minGroupSize)
      ensures AssignedId(k, c, p, cfg.overlapThreshold) == AssignedId(k, c, q, cfg.overlapThreshold)
    {
      var x :| x in ids && |Component(g, x)| >= cfg.minGroupSize && c == Component(g, x);
      assert x in g && c in Components(g, cfg.minGroupSize);
      ComponentFacts(g, x);
      ExistingOrderFree(k, c, p, q, cfg.overlapThreshold);
    }
    EmittedSame(k, cfg, g, ids, p, q, now);
  }

  lemma {:induction false} PickElements(groups: map<Id, TrackGroup>, ids: seq<Id>)
    ensures forall g :: g in Pick(groups, ids) <==> exists id :: id in ids && id in groups && groups[id] == g
    decreases |ids|
  {
    if ids != [] {
      var rest := ids[..|ids| - 1];
      PickElements(groups, rest);
      assert ids == rest + [ids[|ids| - 1]];
    }
  }

  /** Groups are filed under their identifiers, and every member of a group points back at it. Unlike
      `Filed` this does not exclude that a track points at a group it is not a member of. */
  ghost predicate Owned(groups: map<Id, TrackGroup>, trackGroup: map<Id, Id>) {
    && (forall gid | gid in groups :: groups[gid].groupId == gid)
    && (forall gid, x | gid in groups && x in MemberSet(groups[gid]) :: x in trackGroup && trackGroup[x] == gid)
  }

  lemma FiledOwned(groups: map<Id, TrackGroup>, trackGroup: map<Id, Id>)
    requires Filed(groups, trackGroup)
    ensures Owned(groups, trackGroup)
  {
  }

  lemma {:induction false} PickApart(groups: map<Id, TrackGroup>, trackGroup: map<Id, Id>, ids: seq<Id>)
    requires Owned(groups, trackGroup) && Distinct(ids)
    ensures Apart(Pick(groups, ids)) && DistinctIds(Pick(groups, ids))
    ensures forall i | 0 <= i < |Pick(groups, ids)| :: Pick(groups, ids)[i].groupId in ids
    decreases |ids|
  {
    hide MemberSet, Apart, DistinctIds;
    if ids == [] {
      NoneApart();
      return;
    }
    var rest, last := ids[..|ids| - 1], ids[|ids| - 1];
    assert forall x :: x in ids <==> x in rest || x == last;
    PickApart(groups, trackGroup, rest);
    PickElements(groups, rest);
    var p := Pick(groups, rest);
    if last in groups {
      forall j | 0 <= j < |p|
        ensures MemberSet(p[j]) * MemberSet(groups[last]) == {} && p[j].groupId != groups[last].groupId
      {
        assert p[j] in p;
        var id :| id in rest && id in groups && groups[id] == p[j];
        OwnedApart(groups, trackGroup, id, last);
      }
      OneMoreApart(p, groups[last]);
    }
    assert Pick(groups, ids) == if last in groups then p + [groups[last]] else p;
  }

  lemma NoneApart()
    ensures Apart([]) && DistinctIds([])
  {
  }

  lemma OneMoreApart(p: seq<TrackGroup>, g: TrackGroup)
    requires Apart(p) && DistinctIds(p)
    requires forall j | 0 <= j < |p| :: MemberSet(p[j]) * MemberSet(g) == {} && p[j].groupId != g.groupId
    ensures Apart(p + [g]) && DistinctIds(p + [g])
  {
    hide MemberSet;
  }

  lemma OwnedApart(groups: map<Id, TrackGroup>, trackGroup: map<Id, Id>, a: Id, b: Id)
    requires Owned(groups, trackGroup) && a in groups && b in groups && a != b
    ensures MemberSet(groups[a]) * MemberSet(groups[b]) == {}
  {
    hide MemberSet;
    forall x ensures x !in MemberSet(groups[a]) * MemberSet(groups[b]) {
      assert x in MemberSet(groups[a]) ==> trackGroup[x] == a;
    }
  }

  // ----- Every way of walking the touched groups -----

  /** The same sequence with its element x moved to the front. */
  function FrontedId(q: seq<Id>, x: int): seq<Id>
    requires 0 <= x < |q|
  {
    [q[x]] + (q[..x] + q[x + 1..])
  }

  lemma FrontedIdSame(q: seq<Id>, x: int)
    requires 0 <= x < |q| && Distinct(q)
    ensures Distinct(FrontedId(q, x)) && Elements(FrontedId(q, x)) == Elements(q)
  {
    var r := FrontedId(q, x);
    forall l | 0 <= l < |q| ensures r[l] == q[if l == 0 then x else if l <= x then l - 1 else l] {}
    forall l | 0 <= l < |q| ensures q[l] in r {
      assert r[if l == x then 0 else if l < x then l + 1 else l] == q[l];
    }
    hide FrontedId;
  }

  lemma {:induction false} PickAppend(groups: map<Id, TrackGroup>, a: seq<Id>, b: seq<Id>)
    ensures Pick(groups, a + b) == Pick(groups, a) + Pick(groups, b)
    decreases |b|
  {
    if b == [] {
      assert a + b == a;
    } else {
      assert (a + b)[..|a + b| - 1] == a + b[..|b| - 1];
      PickAppend(groups, a, b[..|b| - 1]);
    }
  }

  lemma PickFronted(groups: map<Id, TrackGroup>, q: seq<Id>, x: int)
    requires 0 <= x < |q| && q[x] in groups
    ensures var p := Pick(groups, FrontedId(q, x)); p != [] && p[0] == groups[q[x]]
  {
    PickAppend(groups, [q[x]], q[..x] + q[x + 1..]);
    assert [q[x]][..0] == [];
  }

  /** A kernel that walks one set in another order. */
  function Reordered(k: StoreKernel, touched: set<Id>, q: seq<Id>): StoreKernel {
    k.(setOrder := (s: set<Id>) => if s == touched then q else k.setOrder(s))
  }

  /** If a component merges two of the groups offered, some other order of offering them assigns it the
      other identifier. */
  lemma OtherOrder(k: StoreKernel, groups: map<Id, TrackGroup>, trackGroup: map<Id, Id>, touched: set<Id>, c: set<Id>)
    returns (h: StoreKernel)
    requires ListsSets(k) && Owned(groups, trackGroup) && c != {}
    requires Merges(c, Pick(groups, k.setOrder(touched)))
    ensures ListsSets(h) && h.base == k.base
    ensures AssignedId(k.base, c, Pick(groups, h.setOrder(touched)), 0.5)
            != AssignedId(k.base, c, Pick(groups, k.setOrder(touched)), 0.5)
  {
    hide AssignedId, MemberSet, Apart, Pick, Owned;
    var ids := k.setOrder(touched);
    var p := Pick(groups, ids);
    var i, j :| 0 <= i < j < |p| && MemberSet(p[i]) + MemberSet(p[j]) == c && |MemberSet(p[i])| == |MemberSet(p[j])|;
    PickApart(groups, trackGroup, ids);
    PickElements(groups, ids);
    assert p[i] in p && p[j] in p;
    var gid :| gid in ids && gid in groups && groups[gid] == p[j];
    var x :| 0 <= x < |ids| && ids[x] == gid;
    var q := FrontedId(ids, x);
    FrontedIdSame(ids, x);
    h := Reordered(k, touched, q);
    PickFronted(groups, ids, x);
    PickApart(groups, trackGroup, q);
    ElementsAlike(ids, q);
    PickElements(groups, q);
    var r := Pick(groups, q);
    assert p[i] in r;
    var l :| 0 <= l < |r| && r[l] == p[i];
    MergeTie(k.base, p, i, j);
    assert l > 0;
    MergeTie(k.base, r, 0, l);
    assert MemberSet(p[j]) + MemberSet(p[i]) == c;
  }

  /** A component's record tells the identifier it was assigned. */
  lemma SameClustersSameId(k: Kernel, cfg: GroupingConfig, obs: Population, p: seq<TrackGroup>, q: seq<TrackGroup>,
                           now: real, c: set<Id>)
    requires Clusters(k, cfg, obs, p, now) == Clusters(k, cfg, obs, q, now)
    requires c in Components(GridGraph(k, cfg, obs), cfg.minGroupSize)
    ensures AssignedId(k, c, p, cfg.overlapThreshold) == AssignedId(k, c, q, cfg.overlapThreshold)
  {
    hide Clusters, GridGraph, AssignedId, Components, GroupOf, Represents;
    var g := GridGraph(k, cfg, obs);
    var sets, f := Components(g, cfg.minGroupSize), Clusters(k, cfg, obs, p, now);
    GridGraphUndirected(k, cfg, obs);
    ClustersAreComponents(k, cfg, obs, p, now);
    ClustersAreComponents(k, cfg, obs, q, now);
    var i := RecordOfSet(k, cfg, p, now, sets, f, c);
    var j := RecordOfSet(k, cfg, q, now, sets, f, c);
    RecordMeans(k, cfg, p, now, c, f[i]);
    RecordMeans(k, cfg, q, now, c, f[j]);
    if i < j {
      MembersDiffer(k, cfg, g, p, now, f, i, j);
    } else if j < i {
      MembersDiffer(k, cfg, g, p, now, f, j, i);
    }
  }

  lemma PickedAlike(groups: map<Id, TrackGroup>, p: seq<Id>, q: seq<Id>)
    requires Elements(p) == Elements(q)
    ensures forall g :: g in Pick(groups, p) <==> g in Pick(groups, q)
  {
    hide Pick;
    PickElements(groups, p);
    PickElements(groups, q);
    ElementsAlike(p, q);
  }

  /** A clustering pass gives the same groups in every order of walking the set of touched groups if and
      only if no component, at a threshold of exactly one half, merges two of them of equal size. */
  lemma PassOrderFreeIff(k: StoreKernel, cfg: StoreConfig, groups: map<Id, TrackGroup>, trackGroup: map<Id, Id>,
                         touched: set<Id>, obs: Population, now: real)
    requires ListsSets(k) && Owned(groups, trackGroup) && cfg.grouping.overlapThreshold >= 0.5
    ensures (forall h: StoreKernel | ListsSets(h) && h.base == k.base ::
               Clusters(k.base, cfg.grouping, obs, Pick(groups, h.setOrder(touched)), now)
               == Clusters(k.base, cfg.grouping, obs, Pick(groups, k.setOrder(touched)), now))
            <==> !MergesSome(Components(GridGraph(k.base, cfg.grouping, obs), cfg.grouping.minGroupSize),
                             Pick(groups, k.setOrder(touched)), cfg.grouping.overlapThreshold)
  {
    hide Clusters, Components, GridGraph, Merges, Owned, Pick, MemberSet, Apart, AssignedId;
    var p := Pick(groups, k.setOrder(touched));
    var sets := Components(GridGraph(k.base, cfg.grouping, obs), cfg.grouping.minGroupSize);
    if MergesSome(sets, p, cfg.grouping.overlapThreshold) {
      var c :| c in sets && Merges(c, p);
      GridGraphUndirected(k.base, cfg.grouping, obs);
      NotEmpty(GridGraph(k.base, cfg.grouping, obs), cfg.grouping.minGroupSize, c);
      var h := OtherOrder(k, groups, trackGroup, touched, c);
      if Clusters(k.base, cfg.grouping, obs, Pick(groups, h.setOrder(touched)), now)
          == Clusters(k.base, cfg.grouping, obs, p, now) {
        SameClustersSameId(k.base, cfg.grouping, obs, Pick(groups, h.setOrder(touched)), p, now, c);
      }
    } else {
      PickApart(groups, trackGroup, k.setOrder(touched));
      forall h: StoreKernel | ListsSets(h) && h.base == k.base
        ensures Clusters(k.base, cfg.grouping, obs, Pick(groups, h.setOrder(touched)), now)
                == Clusters(k.base, cfg.grouping, obs, p, now)
      {
        PickedAlike(groups, k.setOrder(touched), h.setOrder(touched));
        ClustersOrderFree(k.base, cfg.grouping, obs, p, Pick(groups, h.setOrder(touched)), now);
      }
    }
  }

  /** The groups a local step forms do not depend on the order in which sets are walked if and only if no
      new component, at a threshold of exactly one half, merges two touched groups of equal size. */
  lemma StepOrderFreeIff(k: StoreKernel, cfg: StoreConfig, s: State, ch: Change, now: real)
    requires ListsSets(k) && Owned(s.groups, s.trackGroup) && cfg.grouping.overlapThreshold >= 0.5
    requires ch.affected <= ch.tracks.Keys
    ensures (forall h: StoreKernel | ListsSets(h) && h.base == k.base ::
             NewGroups(h, cfg, s, ch, now) == NewGroups(k, cfg, s, ch, now))
            <==> !MergesSome(Components(Restrict(GraphOf(k, cfg, ch.tracks), ch.affected), cfg.grouping.minGroupSize),
                             Pick(s.groups, k.setOrder(ch.touched)), cfg.grouping.overlapThreshold)
  {
    hide Clusters, Components, GridGraph, Restrict, MergesSome, Owned, Pick, ListsSets;
    var part := map x | x in ch.affected :: ch.tracks[x];
    assert part == map x | x in ch.affected && x in ch.tracks :: ch.tracks[x];
    SubPopulationGraph(k.base, cfg.grouping, ch.tracks, ch.affected);
    PassOrderFreeIff(k, cfg, s.groups, s.trackGroup, ch.touched, part, now);
  }

  /** The same for the groups of a batch. */
  lemma BatchOrderFreeIff(k: StoreKernel, cfg: StoreConfig, s: State, tracks: Population, now: real)
    requires ListsSets(k) && Owned(s.groups, s.trackGroup) && cfg.grouping.overlapThreshold >= 0.5
    ensures (forall h: StoreKernel | ListsSets(h) && h.base == k.base ::
               Clusters(h.base, cfg.grouping, tracks, Pick(s.groups, h.setOrder(s.groups.Keys)), now)
               == Clusters(k.base, cfg.grouping, tracks, Pick(s.groups, k.setOrder(s.groups.Keys)), now))
            <==> !MergesSome(Components(GraphOf(k, cfg, tracks), cfg.grouping.minGroupSize),
                             Pick(s.groups, k.setOrder(s.groups.Keys)), cfg.grouping.overlapThreshold)
  {
    hide Clusters, Components, GridGraph, MergesSome, Owned, Pick, ListsSets;
    PassOrderFreeIff(k, cfg, s.groups, s.trackGroup, s.groups.Keys, tracks, now);
  }

  lemma ElementsAlike(p: seq<Id>, q: seq<Id>)
    requires Elements(p) == Elements(q)
    ensures forall x :: x in p <==> x in q
  {
    forall x ensures x in p <==> x in q {
      assert x in p <==> x in Elements(p);
      assert x in q <==> x in Elements(q);
    }
  }
}
