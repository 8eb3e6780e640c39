/** The store's operations and whole runs: exactness of the grouping, and the coherence that holds
    whatever the grouping does. */
module StoreRuns {
  import opened TrackIds
  import opened Graph
  import opened Reclustering
  import opened SpatialGrid
  import opened Grouping
  import opened StoreModel
  import opened StoreExactness
  import A = Anomaly

  // ----- The two local operations -----

  lemma ExpandHolds(geo: Geometry, coords: map<Id, Coord>, groups: map<Id, TrackGroup>, trackGroup: map<Id, Id>,
                    seed: set<Id>, m: Id, x: Id)
    requires m in seed && x in GroupMates(groups, trackGroup, m) + Candidates(geo, coords, m)
    ensures x in Expand(geo, coords, groups, trackGroup, seed)
  {
    hide Candidates, GroupMates;
  }

  /** The track's own component, when it is a group, is the group it is filed under. */
  lemma OwnGroup(k: StoreKernel, cfg: StoreConfig, s: State, t: Id)
    requires Exact(k, cfg, s) && t in s.tracks
    requires |Component(GraphOf(k, cfg, s.tracks), t)| >= cfg.grouping.minGroupSize
    ensures GroupMates(s.groups, s.trackGroup, t) == Component(GraphOf(k, cfg, s.tracks), t)
  {
    var g := GraphOf(k, cfg, s.tracks);
    GraphUndirected(k, cfg, s.tracks);
    hide GraphOf;
    ComponentFacts(g, t);
    hide Component;
    assert Component(g, t) in MemberSets(s.groups);
    var gid :| gid in s.groups && MemberSet(s.groups[gid]) == Component(g, t);
    assert t in MemberSet(s.groups[gid]);
  }

  lemma UpdateNear(k: StoreKernel, cfg: StoreConfig, s: State, obs: Observation)
    requires Exact(k, cfg, s) && Covers(k, cfg, s.tracks) && Covers(k, cfg, s.tracks[obs.id := obs])
    ensures var ch := UpdateChange(StoreGeometry(k, cfg), s, obs);
            && obs.id in ch.affected && ch.affected <= ch.tracks.Keys
            && FirstHop(GraphOf(k, cfg, s.tracks), GraphOf(k, cfg, ch.tracks), obs.id, ch.affected,
                        cfg.grouping.minGroupSize)
  {
    var t, tracks := obs.id, s.tracks[obs.id := obs];
    var g, h := GraphOf(k, cfg, s.tracks), GraphOf(k, cfg, tracks);
    GraphUndirected(k, cfg, s.tracks);
    GraphUndirected(k, cfg, tracks);
    var ch := UpdateChange(StoreGeometry(k, cfg), s, obs);
    hide GraphOf, Candidates, Coords, StoreGeometry, GroupMates, Component;
    forall b | b in h[t] ensures b in ch.affected {
      assert b in Candidates(StoreGeometry(k, cfg), Coords(tracks), t);
    }
    if t in g {
      forall b | b in g[t] ensures b in ch.affected + {t} {
        assert b in Candidates(StoreGeometry(k, cfg), Coords(s.tracks), t);
        assert b in s.tracks;
      }
      if |Component(g, t)| >= cfg.grouping.minGroupSize {
        OwnGroup(k, cfg, s, t);
        ComponentFacts(g, t);
        assert Component(g, t) <= s.tracks.Keys;
      }
    }
  }

  lemma UpdateSecondHop(k: StoreKernel, cfg: StoreConfig, s: State, obs: Observation)
    requires Exact(k, cfg, s) && Covers(k, cfg, s.tracks) && Covers(k, cfg, s.tracks[obs.id := obs])
    ensures var ch := UpdateChange(StoreGeometry(k, cfg), s, obs);
            SecondHop(GraphOf(k, cfg, s.tracks), GraphOf(k, cfg, ch.tracks), obs.id, ch.affected)
  {
    var t, tracks := obs.id, s.tracks[obs.id := obs];
    var g, h := GraphOf(k, cfg, s.tracks), GraphOf(k, cfg, tracks);
    GraphDiffers(k, cfg, s.tracks, tracks, t);
    GraphUndirected(k, cfg, tracks);
    GraphUndirected(k, cfg, s.tracks);
    UpdateNear(k, cfg, s, obs);
    var geo := StoreGeometry(k, cfg);
    var ch := UpdateChange(geo, s, obs);
    hide GraphOf, Candidates, Coords, GroupMates, Expand, Component, UpdateChange;
    forall n, b | n in h[t] && n in g && b in g[n] && b != t && n != t ensures b in ch.affected {
      assert n in Candidates(geo, Coords(tracks), t);
      assert b in h[n] by { assert b in g[n] - {t}; }
      assert b in Candidates(geo, Coords(tracks), n);
      SecondCandidate(geo, s, obs, n, b);
    }
  }

  lemma SecondCandidate(geo: Geometry, s: State, obs: Observation, n: Id, b: Id)
    requires var p := Coords(s.tracks[obs.id := obs]); n in Candidates(geo, p, obs.id) && b in Candidates(geo, p, n)
    requires b in s.tracks
    ensures b in UpdateChange(geo, s, obs).affected
  {
    hide Candidates, Coords, GroupMates, Expand;
    var t, tracks := obs.id, s.tracks[obs.id := obs];
    var prior := if t in s.tracks then Candidates(geo, Coords(s.tracks), t) + GroupMates(s.groups, s.trackGroup, t)
        else {};
    var seed := {t} + prior + Candidates(geo, Coords(tracks), t);
    ExpandHolds(geo, Coords(tracks), s.groups, s.trackGroup, seed, n, b);
  }

  lemma UpdateIsLocal(k: StoreKernel, cfg: StoreConfig, s: State, obs: Observation)
    requires Exact(k, cfg, s) && Covers(k, cfg, s.tracks) && Covers(k, cfg, s.tracks[obs.id := obs])
    ensures LocalChange(k, cfg, s, UpdateChange(StoreGeometry(k, cfg), s, obs), obs.id)
  {
    GraphDiffers(k, cfg, s.tracks, s.tracks[obs.id := obs], obs.id);
    UpdateNear(k, cfg, s, obs);
    hide GraphOf, Candidates, DifferOnlyAt, FirstHop, Expand, StoreGeometry;
    var ch := UpdateChange(StoreGeometry(k, cfg), s, obs);
    assert ch.affected + {obs.id} == ch.affected;
  }

  lemma DropNear(k: StoreKernel, cfg: StoreConfig, s: State, t: Id)
    requires Exact(k, cfg, s) && Covers(k, cfg, s.tracks) && t in s.tracks
    ensures var ch := DropChange(StoreGeometry(k, cfg), s, t);
            && ch.affected <= ch.tracks.Keys
            && FirstHop(GraphOf(k, cfg, s.tracks), GraphOf(k, cfg, ch.tracks), t, ch.affected,
                        cfg.grouping.minGroupSize)
  {
    var g := GraphOf(k, cfg, s.tracks);
    GraphUndirected(k, cfg, s.tracks);
    GraphUndirected(k, cfg, s.tracks - {t});
    var ch := DropChange(StoreGeometry(k, cfg), s, t);
    hide GraphOf, Candidates, Coords, StoreGeometry, GroupMates, Component;
    forall b | b in g[t] ensures b in ch.affected + {t} {
      assert b in Candidates(StoreGeometry(k, cfg), Coords(s.tracks), t);
      assert b in s.tracks;
    }
    if |Component(g, t)| >= cfg.grouping.minGroupSize {
      OwnGroup(k, cfg, s, t);
      ComponentFacts(g, t);
      assert Component(g, t) <= s.tracks.Keys;
    }
  }

  lemma DropIsLocal(k: StoreKernel, cfg: StoreConfig, s: State, t: Id)
    requires Exact(k, cfg, s) && Covers(k, cfg, s.tracks) && t in s.tracks
    ensures LocalChange(k, cfg, s, DropChange(StoreGeometry(k, cfg), s, t), t)
  {
    GraphDiffers(k, cfg, s.tracks, s.tracks - {t}, t);
    DropNear(k, cfg, s, t);
    var ch := DropChange(StoreGeometry(k, cfg), s, t);
    DropTouched(StoreGeometry(k, cfg), s, t);
    hide GraphOf, DifferOnlyAt, FirstHop, DropChange;
  }

  lemma DropTouched(geo: Geometry, s: State, t: Id)
    ensures var ch := DropChange(geo, s, t);
            && ch.touched == GroupIdsOf(s.trackGroup, ch.affected + {t})
            && ch.trackGroup - ch.affected == s.trackGroup - (ch.affected + {t})
  {
    var ch := DropChange(geo, s, t);
    hide Candidates, Expand, Coords, GroupMates;
    assert t !in ch.affected;
    forall gid ensures gid in ch.touched <==> gid in GroupIdsOf(s.trackGroup, ch.affected + {t}) {
      if gid in GroupIdsOf(s.trackGroup, ch.affected + {t}) {
        var x :| x in ch.affected + {t} && x in s.trackGroup && s.trackGroup[x] == gid;
        assert x != t ==> x in ch.trackGroup;
      }
    }
  }

  /** One track update leaves exactly the groups of a full re-clustering if and only if no touched group
      sticks out of the affected set, the track's new group was looked at whole, and no identifier
      collides. */
  lemma UpdateExactIff(k: StoreKernel, cfg: StoreConfig, s: State, obs: Observation, score: Option<real>, now: real)
    requires Exact(k, cfg, s) && Covers(k, cfg, s.tracks) && Covers(k, cfg, s.tracks[obs.id := obs])
    ensures var ch, r := UpdateChange(StoreGeometry(k, cfg), s, obs), UpdateTrack(k, cfg, s, obs, score, now);
            MemberSets(r.groups) == Components(GraphOf(k, cfg, r.tracks), cfg.grouping.minGroupSize)
            <==> StepClosed(k, cfg, s, ch, obs.id) && IdsFree(s.groups - ch.touched, NewGroups(k, cfg, s, ch, now))
  {
    UpdateIsLocal(k, cfg, s, obs);
    hide UpdateChange, MemberSets, GraphOf, StepClosed, IdsFree, NewGroups, Snapshot, Classified, Assessed, Exact,
         LocalChange;
    RegroupExactIff(k, cfg, s, UpdateChange(StoreGeometry(k, cfg), s, obs), obs.id, now);
  }

  /** For the default group size (and for three) the middle condition is automatic. */
  lemma UpdateSmallExactIff(k: StoreKernel, cfg: StoreConfig, s: State, obs: Observation, score: Option<real>,
                            now: real)
    requires Exact(k, cfg, s) && Covers(k, cfg, s.tracks) && Covers(k, cfg, s.tracks[obs.id := obs])
    requires cfg.grouping.minGroupSize <= 3
    ensures var ch, r := UpdateChange(StoreGeometry(k, cfg), s, obs), UpdateTrack(k, cfg, s, obs, score, now);
            MemberSets(r.groups) == Components(GraphOf(k, cfg, r.tracks), cfg.grouping.minGroupSize)
            <==> CoversTouchedGroups(GraphOf(k, cfg, s.tracks), obs.id, ch.affected, cfg.grouping.minGroupSize)
                 && IdsFree(s.groups - ch.touched, NewGroups(k, cfg, s, ch, now))
  {
    var ch := UpdateChange(StoreGeometry(k, cfg), s, obs);
    UpdateExactIff(k, cfg, s, obs, score, now);
    UpdateIsLocal(k, cfg, s, obs);
    UpdateSecondHop(k, cfg, s, obs);
    hide UpdateChange, UpdateTrack, MemberSets, GraphOf, IdsFree, NewGroups, Components, DifferOnlyAt, FirstHop,
         SecondHop,
         CoversTouchedGroups, CoversNewGroup;
    if CoversTouchedGroups(GraphOf(k, cfg, s.tracks), obs.id, ch.affected, cfg.grouping.minGroupSize) {
      SmallGroupsCoverNew(GraphOf(k, cfg, s.tracks), GraphOf(k, cfg, ch.tracks), obs.id, ch.affected,
                          cfg.grouping.minGroupSize);
    }
  }

  /** A drop loses nothing but the track under the same test; there is no new group to look at. */
  lemma DropExactIff(k: StoreKernel, cfg: StoreConfig, s: State, t: Id, now: real)
    requires Exact(k, cfg, s) && Covers(k, cfg, s.tracks) && t in s.tracks
    ensures var ch, r := DropChange(StoreGeometry(k, cfg), s, t), DropTrack(k, cfg, s, t, now);
            MemberSets(r.groups) == Components(GraphOf(k, cfg, r.tracks), cfg.grouping.minGroupSize)
            <==> CoversTouchedGroups(GraphOf(k, cfg, s.tracks), t, ch.affected, cfg.grouping.minGroupSize)
                 && IdsFree(s.groups - ch.touched, NewGroups(k, cfg, s, ch, now))
  {
    var ch := DropChange(StoreGeometry(k, cfg), s, t);
    DropIsLocal(k, cfg, s, t);
    GraphUndirected(k, cfg, ch.tracks);
    assert t !in ch.tracks;
    hide DropChange, MemberSets, GraphOf, IdsFree, NewGroups, Snapshot, Assessed, Exact, LocalChange,
         CoversTouchedGroups;
    var trimmed := s.(classifier := s.classifier - {t}, behaviors := s.behaviors - {t},
                      priorities := s.priorities - {t}, anomaly := s.anomaly - {t});
    TrimmedSame(k, cfg, s, trimmed, ch, t, now);
    RegroupExactIff(k, cfg, trimmed, ch, t, now);
  }

  /** The grouping side of the state does not depend on the per-track records. */
  lemma TrimmedSame(k: StoreKernel, cfg: StoreConfig, s: State, r: State, ch: Change, t: Id, now: real)
    requires r.tracks == s.tracks && r.groups == s.groups && r.trackGroup == s.trackGroup
    ensures Exact(k, cfg, s) == Exact(k, cfg, r)
    ensures LocalChange(k, cfg, s, ch, t) == LocalChange(k, cfg, r, ch, t)
    ensures StepClosed(k, cfg, s, ch, t) == StepClosed(k, cfg, r, ch, t)
    ensures NewGroups(k, cfg, s, ch, now) == NewGroups(k, cfg, r, ch, now)
  {
    hide GraphOf, Clusters;
  }

  // ----- The batch -----

  /** A batch re-clusters everything, so it is exact whatever the state was, unless two new groups get
      one identifier. */
  lemma BatchExactIff(k: StoreKernel, cfg: StoreConfig, s: State, observations: seq<Observation>, now: real)
    requires observations != []
    ensures var r, tracks := UpdateBatch(k, cfg, s, observations, now), AddAll(s.tracks, observations);
            var f := Clusters(k.base, cfg.grouping, tracks, Pick(s.groups, k.setOrder(s.groups.Keys)), now);
            && r.tracks == tracks
            && (MemberSets(r.groups) == Components(GraphOf(k, cfg, tracks), cfg.grouping.minGroupSize)
                <==> IdsFree(map[], f))
            && (IdsFree(map[], f) ==> Exact(k, cfg, r))
  {
    hide Clusters, GridGraph, UpdateBatch, Pick, AddAll, Represents, Components, Component, InsertAll, MapAll;
    var tracks := AddAll(s.tracks, observations);
    var existing := Pick(s.groups, k.setOrder(s.groups.Keys));
    var f := Clusters(k.base, cfg.grouping, tracks, existing, now);
    ClustersAreComponents(k.base, cfg.grouping, tracks, existing, now);
    ClustersDisjoint(k.base, cfg.grouping, tracks, existing, now);
    GraphUndirected(k, cfg, tracks);
    BatchFields(k, cfg, s, observations, now);
    RepresentedSets(k.base, cfg.grouping, GraphOf(k, cfg, tracks), existing, now, f);
    BatchFiled(f);
  }

  lemma BatchFields(k: StoreKernel, cfg: StoreConfig, s: State, observations: seq<Observation>, now: real)
    requires observations != []
    ensures var r, tracks := UpdateBatch(k, cfg, s, observations, now), AddAll(s.tracks, observations);
            var f := Clusters(k.base, cfg.grouping, tracks, Pick(s.groups, k.setOrder(s.groups.Keys)), now);
            r.groups == InsertAll(map[], f) && r.trackGroup == MapAll(map[], f) && r.tracks == tracks
  {
    hide Clusters, Pick, AddAll, InsertAll, MapAll, FormAll, Snapshot, Classified, Assessed;
  }

  lemma BatchFiled(f: seq<TrackGroup>)
    requires forall i, j | 0 <= i < j < |f| :: MemberSet(f[i]) * MemberSet(f[j]) == {}
    requires forall i | 0 <= i < |f| :: MemberSet(f[i]) != {}
    ensures MemberSets(InsertAll(map[], f)) == SetsOf(f) <==> IdsFree(map[], f)
    ensures IdsFree(map[], f) ==> Filed(InsertAll(map[], f), MapAll(map[], f))
  {
    var none: map<Id, TrackGroup> := map[];
    assert MemberSets(none) == {} && MemberSets(none) + SetsOf(f) == SetsOf(f);
    InsertedAllIff(none, f);
    if IdsFree(none, f) {
      InsertedFiled(f);
    }
  }

  lemma InsertedFiled(f: seq<TrackGroup>)
    requires forall i, j | 0 <= i < j < |f| :: MemberSet(f[i]) * MemberSet(f[j]) == {}
    requires IdsFree(map[], f)
    ensures Filed(InsertAll(map[], f), MapAll(map[], f))
  {
    hide MemberSet, InsertAll, MapAll, Stored, IdsFree, Outside, Filed, Refiled;
    InsertAllStored(map[], f);
    MapAllValues(map[], f);
    NoneRefiled(f, InsertAll(map[], f), map[], MapAll(map[], f));
    FiledAgain(map[], map[], map[], f, MapAll(map[], f).Keys, InsertAll(map[], f), MapAll(map[], f));
  }

  lemma NoneRefiled(f: seq<TrackGroup>, g: map<Id, TrackGroup>, none: map<Id, Id>, m: map<Id, Id>)
    requires none == map[] && IdsFree(map[], f)
    requires forall gid, v :: gid in g && g[gid] == v <==> Stored(map[], f, gid, v)
    requires forall i, x | 0 <= i < |f| && x in MemberSet(f[i]) :: x in m && m[x] == f[i].groupId
    requires forall x | Outside(f, x) :: (x in m <==> x in none) && (x in none ==> m[x] == none[x])
    ensures Refiled(map[], map[], map[], f, m.Keys, g, m)
  {
    hide MemberSet, Outside, IdsFree, Stored;
  }

  // ----- Runs -----

  datatype Op =
    | Update(obs: Observation, score: Option<real>, now: real)
    | Batch(observations: seq<Observation>, now: real)
    | Drop(id: Id, now: real)
    | Clear(now: real)

  ghost function Apply(k: StoreKernel, cfg: StoreConfig, s: State, op: Op): State {
    match op
    case Update(obs, score, now) => UpdateTrack(k, cfg, s, obs, score, now)
    case Batch(observations, now) => UpdateBatch(k, cfg, s, observations, now)
    case Drop(id, now) => DropTrack(k, cfg, s, id, now)
    case Clear(now) => Cleared(s, now)
  }

  ghost function Run(k: StoreKernel, cfg: StoreConfig, start: real, ops: seq<Op>): State {
    if ops == [] then Initial(start)
    else Apply(k, cfg, Run(k, cfg, start, ops[..|ops| - 1]), ops[|ops| - 1])
  }

  /** What an operation must meet to keep the store exact. */
  ghost predicate Safe(k: StoreKernel, cfg: StoreConfig, s: State, op: Op) {
    match op
    case Update(obs, _, now) =>
      var ch := UpdateChange(StoreGeometry(k, cfg), s, obs);
      && Covers(k, cfg, s.tracks) && Covers(k, cfg, ch.tracks)
      && StepClosed(k, cfg, s, ch, obs.id) && IdsFree(s.groups - ch.touched, NewGroups(k, cfg, s, ch, now))
    case Batch(observations, now) =>
      observations != [] ==>
        IdsFree(map[], Clusters(k.base, cfg.grouping, AddAll(s.tracks, observations),
                                Pick(s.groups, k.setOrder(s.groups.Keys)), now))
    case Drop(id, now) =>
      id in s.tracks ==>
        var ch := DropChange(StoreGeometry(k, cfg), s, id);
        && Covers(k, cfg, s.tracks)
        && StepClosed(k, cfg, s, ch, id) && IdsFree(s.groups - ch.touched, NewGroups(k, cfg, s, ch, now))
    case Clear(_) => true
  }

  lemma UpdateKeepsExact(k: StoreKernel, cfg: StoreConfig, s: State, obs: Observation, score: Option<real>, now: real)
    requires Exact(k, cfg, s) && Safe(k, cfg, s, Update(obs, score, now))
    ensures Exact(k, cfg, UpdateTrack(k, cfg, s, obs, score, now))
  {
    var ch := UpdateChange(StoreGeometry(k, cfg), s, obs);
    assert ch.tracks == s.tracks[obs.id := obs];
    UpdateIsLocal(k, cfg, s, obs);
    hide UpdateChange, MemberSets, GraphOf, StepClosed, IdsFree, NewGroups, Snapshot, Classified, Assessed,
         LocalChange, Filed;
    RegroupKeepsExact(k, cfg, s, ch, obs.id, now);
  }

  lemma DropKeepsExact(k: StoreKernel, cfg: StoreConfig, s: State, id: Id, now: real)
    requires Exact(k, cfg, s) && Safe(k, cfg, s, Drop(id, now))
    ensures Exact(k, cfg, DropTrack(k, cfg, s, id, now))
  {
    hide DropChange, Exact, StepClosed, IdsFree, NewGroups, LocalChange, DropTrack, Regroup, GraphOf;
    if id in s.tracks {
      var ch := DropChange(StoreGeometry(k, cfg), s, id);
      DropIsLocal(k, cfg, s, id);
      var trimmed := Trimmed(s, id);
      TrimmedSame(k, cfg, s, trimmed, ch, id, now);
      RegroupKeepsExact(k, cfg, trimmed, ch, id, now);
      DropFields(k, cfg, s, id, now);
      TrimmedSame(k, cfg, Regroup(k, cfg, trimmed, ch, now), DropTrack(k, cfg, s, id, now), ch, id, now);
    } else {
      assert DropTrack(k, cfg, s, id, now) == s by { DropNothing(k, cfg, s, id, now); }
    }
  }

  ghost function Trimmed(s: State, id: Id): State {
    s.(classifier := s.classifier - {id}, behaviors := s.behaviors - {id},
       priorities := s.priorities - {id}, anomaly := s.anomaly - {id})
  }

  lemma DropNothing(k: StoreKernel, cfg: StoreConfig, s: State, id: Id, now: real)
    requires id !in s.tracks
    ensures DropTrack(k, cfg, s, id, now) == s
  {
  }

  lemma DropFields(k: StoreKernel, cfg: StoreConfig, s: State, id: Id, now: real)
    requires id in s.tracks
    ensures var r, q := DropTrack(k, cfg, s, id, now),
                        Regroup(k, cfg, Trimmed(s, id), DropChange(StoreGeometry(k, cfg), s, id), now);
            r.tracks == q.tracks && r.groups == q.groups && r.trackGroup == q.trackGroup
  {
    hide DropChange, Regroup, Snapshot, Assessed;
  }

  lemma EmptyExact(k: StoreKernel, cfg: StoreConfig, s: State)
    requires s.tracks == map[] && s.groups == map[] && s.trackGroup == map[]
    ensures Exact(k, cfg, s)
  {
    GraphUndirected(k, cfg, s.tracks);
  }

  lemma ApplyKeepsExact(k: StoreKernel, cfg: StoreConfig, s: State, op: Op)
    requires Exact(k, cfg, s) && Safe(k, cfg, s, op)
    ensures Exact(k, cfg, Apply(k, cfg, s, op))
  {
    hide Exact, UpdateTrack, DropTrack, UpdateBatch;
    match op
    case Update(obs, score, now) => UpdateKeepsExact(k, cfg, s, obs, score, now);
    case Drop(id, now) => DropKeepsExact(k, cfg, s, id, now);
    case Batch(observations, now) =>
      if observations != [] {
        BatchExactIff(k, cfg, s, observations, now);
      } else {
        EmptyBatch(k, cfg, s, now);
      }
    case Clear(now) => EmptyExact(k, cfg, Cleared(s, now));
  }

  lemma EmptyBatch(k: StoreKernel, cfg: StoreConfig, s: State, now: real)
    ensures UpdateBatch(k, cfg, s, [], now) == s
  {
    hide Clusters;
  }

  /** In every run whose steps pass the test, the incrementally kept groups are, after every operation,
      the groups that clustering the whole population from scratch would give. */
  lemma {:induction false} RunExact(k: StoreKernel, cfg: StoreConfig, start: real, ops: seq<Op>)
    requires forall i | 0 <= i < |ops| :: Safe(k, cfg, Run(k, cfg, start, ops[..i]), ops[i])
    ensures Exact(k, cfg, Run(k, cfg, start, ops))
    decreases |ops|
  {
    hide Exact, Safe, Apply;
    if ops == [] {
      EmptyExact(k, cfg, Initial(start));
    } else {
      var prefix := ops[..|ops| - 1];
      forall i | 0 <= i < |prefix| ensures Safe(k, cfg, Run(k, cfg, start, prefix[..i]), prefix[i]) {
        assert prefix[..i] == ops[..i];
      }
      RunExact(k, cfg, start, prefix);
      ApplyKeepsExact(k, cfg, Run(k, cfg, start, prefix), ops[|ops| - 1]);
    }
  }

  /** The positions before and after an operation keep correlated tracks within reach of the grid. */
  ghost predicate Covered(k: StoreKernel, cfg: StoreConfig, s: State, op: Op) {
    match op
    case Update(obs, _, _) => Covers(k, cfg, s.tracks) && Covers(k, cfg, s.tracks[obs.id := obs])
    case Drop(id, _) => id in s.tracks ==> Covers(k, cfg, s.tracks)
    case _ => true
  }

  /** On an exact store no operation that is not safe leaves an exact one. */
  lemma ExactOnlyIfSafe(k: StoreKernel, cfg: StoreConfig, s: State, op: Op)
    requires Exact(k, cfg, s) && Covered(k, cfg, s, op) && Exact(k, cfg, Apply(k, cfg, s, op))
    ensures Safe(k, cfg, s, op)
  {
    hide UpdateChange, DropChange, UpdateTrack, DropTrack, UpdateBatch, StepClosed, IdsFree, NewGroups, Clusters,
         Components,
         GraphOf, Covers, Filed, MemberSets, AddAll, Pick;
    match op
    case Update(obs, score, now) =>
      UpdateExactIff(k, cfg, s, obs, score, now);
      ChangeBasics(StoreGeometry(k, cfg), s, obs, obs.id);
    case Drop(id, now) =>
      if id in s.tracks {
        DropExactIff(k, cfg, s, id, now);
        DropBasics(StoreGeometry(k, cfg), s, id);
        DroppedClosed(k, cfg, s, DropChange(StoreGeometry(k, cfg), s, id), id);
      }
    case Batch(observations, now) =>
      if observations != [] {
        BatchExactIff(k, cfg, s, observations, now);
      }
    case Clear(_) =>
  }

  lemma DroppedClosed(k: StoreKernel, cfg: StoreConfig, s: State, ch: Change, id: Id)
    requires ch.tracks == s.tracks - {id}
    requires CoversTouchedGroups(GraphOf(k, cfg, s.tracks), id, ch.affected, cfg.grouping.minGroupSize)
    ensures StepClosed(k, cfg, s, ch, id)
  {
    GraphUndirected(k, cfg, ch.tracks);
    hide GraphOf, CoversTouchedGroups, Component;
  }

  /** In a run whose positions are covered the store is exact after every operation if and only if every
      operation was safe. */
  lemma {:induction false} RunExactIff(k: StoreKernel, cfg: StoreConfig, start: real, ops: seq<Op>)
    requires forall i | 0 <= i < |ops| :: Covered(k, cfg, Run(k, cfg, start, ops[..i]), ops[i])
    ensures (forall i | 0 <= i <= |ops| :: Exact(k, cfg, Run(k, cfg, start, ops[..i])))
            <==> forall i | 0 <= i < |ops| :: Safe(k, cfg, Run(k, cfg, start, ops[..i]), ops[i])
  {
    hide Exact, Safe, Apply, Covered;
    if forall i | 0 <= i <= |ops| :: Exact(k, cfg, Run(k, cfg, start, ops[..i])) {
      forall i | 0 <= i < |ops| ensures Safe(k, cfg, Run(k, cfg, start, ops[..i]), ops[i]) {
        assert ops[..i + 1][..i] == ops[..i];
        assert Run(k, cfg, start, ops[..i + 1]) == Apply(k, cfg, Run(k, cfg, start, ops[..i]), ops[i]);
        ExactOnlyIfSafe(k, cfg, Run(k, cfg, start, ops[..i]), ops[i]);
      }
    }
    if forall i | 0 <= i < |ops| :: Safe(k, cfg, Run(k, cfg, start, ops[..i]), ops[i]) {
      forall i | 0 <= i <= |ops| ensures Exact(k, cfg, Run(k, cfg, start, ops[..i])) {
        forall j | 0 <= j < |ops[..i]| ensures Safe(k, cfg, Run(k, cfg, start, ops[..i][..j]), ops[..i][j]) {
          assert ops[..i][..j] == ops[..j];
        }
        RunExact(k, cfg, start, ops[..i]);
      }
    }
  }

  // ----- Coherence, unconditionally -----

  /** One record per active track, groups and formations under their own identifiers, every formation with
      its group, and the cached summary equal to one rebuilt from the parts. */
  ghost predicate Coherent(s: State) {
    && Keyed(s.tracks)
    && s.behaviors.Keys == s.tracks.Keys && s.priorities.Keys == s.tracks.Keys && s.classifier.Keys == s.tracks.Keys
    && s.anomaly.Keys <= s.tracks.Keys
    && (forall id | id in s.tracks :: s.behaviors[id].trackId == id && s.priorities[id].trackId == id)
    && (forall gid | gid in s.groups :: s.groups[gid].groupId == gid)
    && (forall gid | gid in s.formations :: gid in s.groups && Named(s.formations[gid], gid))
    && s.summary == Snapshot(s, s.summary.evaluatedAt)
  }

  lemma {:induction false} InsertedIds(groups: map<Id, TrackGroup>, f: seq<TrackGroup>)
    requires forall gid | gid in groups :: groups[gid].groupId == gid
    ensures forall gid | gid in InsertAll(groups, f) :: InsertAll(groups, f)[gid].groupId == gid
    ensures groups.Keys <= InsertAll(groups, f).Keys
    ensures forall i | 0 <= i < |f| :: f[i].groupId in InsertAll(groups, f)
    decreases |f|
  {
    if f != [] {
      InsertedIds(groups, f[..|f| - 1]);
    }
  }

  lemma {:induction false} FormedIds(k: StoreKernel, tracks: Population, formations: map<Id, Formation>,
                                     f: seq<TrackGroup>, now: real)
    requires forall gid | gid in formations :: Named(formations[gid], gid)
    ensures var r := FormAll(k, tracks, formations, f, now);
            forall gid | gid in r :: Named(r[gid], gid)
                                     && (gid in formations || exists i :: 0 <= i < |f| && f[i].groupId == gid)
    decreases |f|
  {
    if f != [] {
      var p := f[..|f| - 1];
      FormedIds(k, tracks, formations, p, now);
      var r, q := FormAll(k, tracks, formations, f, now), FormAll(k, tracks, formations, p, now);
      forall gid | gid in r && gid !in formations ensures exists i :: 0 <= i < |f| && f[i].groupId == gid {
        if gid != f[|f| - 1].groupId {
          var i :| 0 <= i < |p| && p[i].groupId == gid;
          assert f[i].groupId == gid;
        }
      }
    }
  }

  /** Groups and formations stay under their own identifiers, and formations with their groups. */
  ghost predicate WellLabelled(groups: map<Id, TrackGroup>, formations: map<Id, Formation>) {
    && (forall gid | gid in groups :: groups[gid].groupId == gid)
    && (forall gid | gid in formations :: gid in groups && Named(formations[gid], gid))
  }

  /** A formation carries its group's identifier, and its own is made from it. */
  predicate Named(f: Formation, gid: Id) { f.groupId == gid && f.formationId == "FMT-" + gid }

  lemma RelabelledWell(k: StoreKernel, tracks: Population, groups: map<Id, TrackGroup>, formations: map<Id, Formation>,
                       touched: set<Id>, f: seq<TrackGroup>, now: real)
    requires WellLabelled(groups, formations)
    ensures WellLabelled(InsertAll(groups - touched, f), FormAll(k, tracks, formations - touched, f, now))
  {
    InsertedIds(groups - touched, f);
    FormedIds(k, tracks, formations - touched, f, now);
    hide InsertAll, FormAll;
    var r := FormAll(k, tracks, formations - touched, f, now);
    forall gid | gid in r ensures gid in InsertAll(groups - touched, f) {
      if gid !in formations - touched {
        var i :| 0 <= i < |f| && f[i].groupId == gid;
      }
    }
  }

  ghost predicate Recorded(s: State) {
    && Keyed(s.tracks)
    && s.behaviors.Keys == s.tracks.Keys && s.priorities.Keys == s.tracks.Keys && s.classifier.Keys == s.tracks.Keys
    && s.anomaly.Keys <= s.tracks.Keys
    && (forall id | id in s.tracks :: s.behaviors[id].trackId == id && s.priorities[id].trackId == id)
  }

  lemma CoherentParts(s: State)
    ensures Coherent(s)
            <==> Recorded(s) && WellLabelled(s.groups, s.formations) && s.summary == Snapshot(s, s.summary.evaluatedAt)
  {
  }

  lemma ClassifiedIds(cfg: StoreConfig, s: State, id: Id, now: real)
    ensures Classified(cfg, s, id, now).0.trackId == id
  {
  }

  lemma AssessedIds(cfg: StoreConfig, s: State, id: Id, now: real)
    requires id in s.tracks
    ensures forall b :: Assessed(cfg, s, id, b, now).trackId == id
  {
  }

  /** With records for the tracks in `a` the state is recorded. */
  ghost predicate Ready(s: State, a: set<Id>) {
    && Keyed(s.tracks) && a <= s.tracks.Keys && s.anomaly.Keys <= s.tracks.Keys
    && s.behaviors.Keys + a == s.tracks.Keys && s.priorities.Keys + a == s.tracks.Keys
        && s.classifier.Keys + a == s.tracks.Keys
    && (forall id | id in s.behaviors && id !in a :: s.behaviors[id].trackId == id)
    && (forall id | id in s.priorities && id !in a :: s.priorities[id].trackId == id)
  }

  lemma ReadyAfterUpdate(s: State, r: State, obs: Observation, a: set<Id>)
    requires Recorded(s) && obs.id in a && a <= r.tracks.Keys && r.tracks == s.tracks[obs.id := obs]
    requires r.behaviors == s.behaviors && r.priorities == s.priorities && r.classifier == s.classifier
    requires r.anomaly.Keys == s.anomaly.Keys + {obs.id}
    ensures Ready(r, a)
  {
  }

  lemma RecordedAfterDrop(s: State, r: State, id: Id)
    requires Recorded(s) && r.tracks == s.tracks - {id}
    requires r.behaviors == s.behaviors - {id} && r.priorities == s.priorities - {id}
    requires r.classifier == s.classifier - {id} && r.anomaly == s.anomaly - {id}
    ensures Recorded(r)
  {
  }

  lemma ReadyForBatch(s: State, r: State)
    requires Recorded(s) && Keyed(r.tracks) && s.tracks.Keys <= r.tracks.Keys
    requires r.behaviors == map[] && r.priorities == map[] && r.classifier == s.classifier && r.anomaly == s.anomaly
    ensures Ready(r, r.tracks.Keys)
  {
  }

  /** Regrouping leaves the per-track records and the labels in order. */
  lemma RegroupParts(k: StoreKernel, cfg: StoreConfig, s: State, ch: Change, now: real)
    requires WellLabelled(s.groups, s.formations)
    ensures var r := Regroup(k, cfg, s, ch, now);
            && WellLabelled(r.groups, r.formations) && r.tracks == ch.tracks
            && r.behaviors == s.behaviors && r.priorities == s.priorities && r.classifier == s.classifier
            && r.anomaly == s.anomaly && r.version == s.version
  {
    RelabelledWell(k, ch.tracks, s.groups, s.formations, ch.touched, NewGroups(k, cfg, s, ch, now), now);
    hide NewGroups, InsertAll, MapAll, FormAll, WellLabelled;
  }

  lemma ReassessParts(cfg: StoreConfig, s: State, a: set<Id>, now: real)
    ensures var r := Reassess(cfg, s, a, now);
            r.groups == s.groups && r.formations == s.formations && r.version == s.version
    ensures var r := Reprioritize(cfg, s, a, now);
            r.groups == s.groups && r.formations == s.formations && r.version == s.version
  {
    hide Classified, Assessed;
  }

  /** Re-assessing the affected tracks gives each of them its records and leaves the others alone. */
  lemma ReassessRecords(cfg: StoreConfig, s: State, a: set<Id>, now: real)
    requires Ready(s, a)
    ensures Recorded(Reassess(cfg, s, a, now))
  {
    hide Classified, Assessed;
    var r := Reassess(cfg, s, a, now);
    forall id | id in s.tracks ensures r.behaviors[id].trackId == id && r.priorities[id].trackId == id {
      ClassifiedIds(cfg, s, id, now);
      AssessedIds(cfg, s, id, now);
    }
  }

  lemma ReprioritizeRecords(cfg: StoreConfig, s: State, a: set<Id>, now: real)
    requires Recorded(s) && a <= s.tracks.Keys
    ensures Recorded(Reprioritize(cfg, s, a, now))
  {
    hide Assessed;
    var r := Reprioritize(cfg, s, a, now);
    forall id | id in s.tracks ensures r.priorities[id].trackId == id {
      AssessedIds(cfg, s, id, now);
    }
  }

  /** Publishing a well-kept state makes it coherent: the snapshot looks only at the parts it is built from. */
  lemma PublishedCoherent(s: State, now: real)
    requires Recorded(s) && WellLabelled(s.groups, s.formations)
    ensures Coherent(Published(s, now)) && Published(s, now).version == s.version + 1
  {
    CoherentParts(Published(s, now));
  }

  lemma ChangeBasics(geo: Geometry, s: State, obs: Observation, id: Id)
    requires id == obs.id
    ensures var ch := UpdateChange(geo, s, obs);
            id in ch.affected && ch.affected <= ch.tracks.Keys && ch.tracks == s.tracks[id := obs]
  {
    hide Candidates, Coords, GroupMates;
  }

  lemma DropBasics(geo: Geometry, s: State, id: Id)
    ensures var ch := DropChange(geo, s, id); ch.affected <= ch.tracks.Keys && ch.tracks == s.tracks - {id}
  {
    hide Candidates, Coords, GroupMates;
  }

  lemma UpdateCoherent(k: StoreKernel, cfg: StoreConfig, s: State, obs: Observation, score: Option<real>, now: real)
    requires Coherent(s)
    ensures Coherent(UpdateTrack(k, cfg, s, obs, score, now))
    ensures UpdateTrack(k, cfg, s, obs, score, now).version == s.version + 1
  {
    hide UpdateChange, Regroup, Reassess, Published, Coherent, Recorded, WellLabelled, Ready, Snapshot, A.UpdateState;
    CoherentParts(s);
    var ch := UpdateChange(StoreGeometry(k, cfg), s, obs);
    ChangeBasics(StoreGeometry(k, cfg), s, obs, obs.id);
    RegroupParts(k, cfg, s, ch, now);
    var prior := if obs.id in s.anomaly then s.anomaly[obs.id] else A.FRESH;
    var r := Regroup(k, cfg, s, ch,
                     now).(anomaly := s.anomaly[obs.id := A.UpdateState(cfg.anomaly, prior, score, now)]);
    ReadyAfterUpdate(s, r, obs, ch.affected);
    ReassessRecords(cfg, r, ch.affected, now);
    ReassessParts(cfg, r, ch.affected, now);
    PublishedCoherent(Reassess(cfg, r, ch.affected, now), now);
  }

  lemma DropCoherent(k: StoreKernel, cfg: StoreConfig, s: State, id: Id, now: real)
    requires Coherent(s)
    ensures Coherent(DropTrack(k, cfg, s, id, now))
    ensures DropTrack(k, cfg, s, id, now).version == if id in s.tracks then s.version + 1 else s.version
  {
    hide DropChange, Regroup, Reprioritize, Published, Coherent, Recorded, WellLabelled, Snapshot;
    if id in s.tracks {
      CoherentParts(s);
      var ch := DropChange(StoreGeometry(k, cfg), s, id);
      DropBasics(StoreGeometry(k, cfg), s, id);
      var trimmed := s.(classifier := s.classifier - {id}, behaviors := s.behaviors - {id},
                        priorities := s.priorities - {id}, anomaly := s.anomaly - {id});
      RegroupParts(k, cfg, trimmed, ch, now);
      var r := Regroup(k, cfg, trimmed, ch, now);
      RecordedAfterDrop(s, r, id);
      ReprioritizeRecords(cfg, r, ch.affected, now);
      ReassessParts(cfg, r, ch.affected, now);
      PublishedCoherent(Reprioritize(cfg, r, ch.affected, now), now);
    }
  }

  lemma {:induction false} AddAllKeyed(tracks: Population, observations: seq<Observation>)
    requires Keyed(tracks)
    ensures Keyed(AddAll(tracks, observations)) && tracks.Keys <= AddAll(tracks, observations).Keys
    decreases |observations|
  {
    if observations != [] {
      AddAllKeyed(tracks, observations[..|observations| - 1]);
    }
  }

  lemma NoneLabelled()
    ensures WellLabelled(map[], map[])
  {
  }

  lemma RecordedKeyed(s: State)
    requires Recorded(s)
    ensures Keyed(s.tracks)
  {
  }

  lemma BatchCoherent(k: StoreKernel, cfg: StoreConfig, s: State, observations: seq<Observation>, now: real)
    requires Coherent(s)
    ensures Coherent(UpdateBatch(k, cfg, s, observations, now))
    ensures UpdateBatch(k, cfg, s, observations, now).version == if observations != [] then s.version + 1 else s.version
  {
    hide Clusters, Pick, AddAll, InsertAll, MapAll, FormAll, Reassess, Published, Coherent, Recorded, Ready,
         WellLabelled, Snapshot;
    if observations != [] {
      CoherentParts(s);
      var tracks := AddAll(s.tracks, observations);
      RecordedKeyed(s);
      AddAllKeyed(s.tracks, observations);
      var f := Clusters(k.base, cfg.grouping, tracks, Pick(s.groups, k.setOrder(s.groups.Keys)), now);
      var noGroups: map<Id, TrackGroup>, noFormations: map<Id, Formation> := map[], map[];
      NoneLabelled();
      RelabelledWell(k, tracks, noGroups, noFormations, {}, f, now);
      assert noGroups - {} == noGroups && noFormations - {} == noFormations;
      var r := s.(tracks := tracks, groups := InsertAll(noGroups, f), trackGroup := MapAll(map[], f),
                  formations := FormAll(k, tracks, noFormations, f, now), behaviors := map[], priorities := map[]);
      ReadyForBatch(s, r);
      ReassessRecords(cfg, r, tracks.Keys, now);
      ReassessParts(cfg, r, tracks.Keys, now);
      PublishedCoherent(Reassess(cfg, r, tracks.Keys, now), now);
    }
  }

  /** An operation with an effect raises the version by one; one without leaves the state as it is. */
  ghost predicate Effective(s: State, op: Op) {
    match op
    case Update(_, _, _) => true
    case Batch(observations, _) => observations != []
    case Drop(id, _) => id in s.tracks
    case Clear(_) => true
  }

  lemma ApplyCoherent(k: StoreKernel, cfg: StoreConfig, s: State, op: Op)
    requires Coherent(s)
    ensures Coherent(Apply(k, cfg, s, op))
    ensures Apply(k, cfg, s, op).version == if Effective(s, op) then s.version + 1 else s.version
    ensures !Effective(s, op) ==> Apply(k, cfg, s, op) == s
  {
    hide Coherent, UpdateTrack, DropTrack, UpdateBatch;
    match op
    case Update(obs, score, now) => UpdateCoherent(k, cfg, s, obs, score, now);
    case Drop(id, now) => DropCoherent(k, cfg, s, id, now); DropAbsent(k, cfg, s, id, now);
    case Batch(observations, now) => BatchCoherent(k, cfg, s, observations, now); EmptyBatch(k, cfg, s, now);
    case Clear(now) => ClearCoherent(s, now);
  }

  lemma DropAbsent(k: StoreKernel, cfg: StoreConfig, s: State, id: Id, now: real)
    ensures id !in s.tracks ==> DropTrack(k, cfg, s, id, now) == s
  {
    hide Regroup;
  }

  lemma ClearCoherent(s: State, now: real)
    ensures Coherent(Cleared(s, now)) && Coherent(Initial(now))
  {
  }

  /** After every operation of every run the cached summary equals one rebuilt from the groups,
      formations, behaviours and priorities, and the key sets agree. */
  lemma {:induction false} RunCoherent(k: StoreKernel, cfg: StoreConfig, start: real, ops: seq<Op>)
    ensures Coherent(Run(k, cfg, start, ops)) && Run(k, cfg, start, ops).version >= 0
    decreases |ops|
  {
    hide Coherent, Apply;
    if ops == [] {
      ClearCoherent(Initial(start), start);
    } else {
      RunCoherent(k, cfg, start, ops[..|ops| - 1]);
      ApplyCoherent(k, cfg, Run(k, cfg, start, ops[..|ops| - 1]), ops[|ops| - 1]);
    }
  }

  /** The version is a true change counter: in one run, equal versions mean equal states. */
  lemma {:induction false} VersionsIdentifyStates(k: StoreKernel, cfg: StoreConfig, start: real, ops: seq<Op>, i: nat,
                                                  j: nat)
    requires i <= j <= |ops|
    ensures var p, q := Run(k, cfg, start, ops[..i]), Run(k, cfg, start, ops[..j]);
            p.version <= q.version && (p.version == q.version ==> p == q)
    decreases j
  {
    hide Coherent, Apply;
    if i < j {
      VersionsIdentifyStates(k, cfg, start, ops, i, j - 1);
      var prefix := ops[..j];
      assert prefix[..j - 1] == ops[..j - 1];
      RunCoherent(k, cfg, start, ops[..j - 1]);
      ApplyCoherent(k, cfg, Run(k, cfg, start, ops[..j - 1]), ops[j - 1]);
    }
  }
}
