/** The incremental intelligence store as a class: its dictionaries, the grid and the accumulator it owns,
    and the loops of its operations, each proved to compute the operation of StoreModel. */
module Store {
  import opened TrackIds
  import opened SpatialGrid
  import opened Grouping
  import opened StoreModel
  import A = Anomaly
  import B = Behavior
  import P = Priority

  lemma ExpandStep(geo: Geometry, coords: map<Id, Coord>, groups: map<Id, TrackGroup>, trackGroup: map<Id, Id>,
                   done: set<Id>, m: Id)
    ensures Expand(geo, coords, groups, trackGroup, done + {m})
            == Expand(geo, coords, groups, trackGroup, done) + {m} + GroupMates(groups, trackGroup, m)
                + Candidates(geo, coords, m)
  {
    hide GroupMates, Candidates;
    var p, q := Expand(geo, coords, groups, trackGroup, done), Expand(geo, coords, groups, trackGroup, done + {m});
    forall x ensures x in q <==> x in p + {m} + GroupMates(groups, trackGroup, m) + Candidates(geo, coords, m) {
      if x in q && x !in done + {m} {
        var n :| n in done + {m} && x in GroupMates(groups, trackGroup, n) + Candidates(geo, coords, n);
        assert n == m || x in p;
      }
      if x in p && x !in done {
        var n :| n in done && x in GroupMates(groups, trackGroup, n) + Candidates(geo, coords, n);
        assert n in done + {m};
      }
      if x in GroupMates(groups, trackGroup, m) + Candidates(geo, coords, m) {
        assert m in done + {m};
        assert x in q;
      }
    }
  }

  /** The observations of a set of tracks, sorted, make up that part of the population. */
  lemma ByIdOfSorted(tracks: Population, a: set<Id>, ids: seq<Id>, list: seq<Observation>)
    requires Keyed(tracks) && a <= tracks.Keys && |list| == |ids|
    requires Ascending(ids) && forall x :: x in ids <==> x in a
    requires forall i | 0 <= i < |list| :: ids[i] in tracks && list[i] == tracks[ids[i]]
    ensures ById(list) == map x | x in a && x in tracks :: tracks[x]
  {
    hide ById;
    forall i, j | 0 <= i < j < |list| ensures list[i].id != list[j].id {
      BelowAsymmetric(ids[i], ids[j]);
    }
    ByIdDistinct(list);
    ById1(tracks, ids, list);
    assert ById(list) == map x | x in a && x in tracks :: tracks[x];
  }

  lemma ById1(tracks: Population, ids: seq<Id>, list: seq<Observation>)
    requires Keyed(tracks) && |list| == |ids|
    requires forall i | 0 <= i < |list| :: ids[i] in tracks && list[i] == tracks[ids[i]]
    requires forall o | o in list :: o.id in ById(list) && ById(list)[o.id] == o
    requires forall id | id in ById(list) :: ById(list)[id] in list
    ensures forall x :: x in ById(list) <==> x in ids
    ensures forall x | x in ids :: ById(list)[x] == tracks[x]
  {
    var m := ById(list);
    hide ById;
    forall x | x in ids ensures x in m && m[x] == tracks[x] {
      var i :| 0 <= i < |ids| && ids[i] == x;
      assert list[i] in list;
    }
    forall x | x in m ensures x in ids {
      var i :| 0 <= i < |list| && list[i] == m[x];
      assert Keyed(m);
      assert ids[i] in ids;
    }
  }

  lemma ReassessNone(cfg: StoreConfig, s: State, now: real)
    ensures Reassess(cfg, s, {}, now) == s && Reprioritize(cfg, s, {}, now) == s
  {
    hide Classified, Assessed;
    var r, q := Reassess(cfg, s, {}, now), Reprioritize(cfg, s, {}, now);
    assert r.classifier == s.classifier && r.behaviors == s.behaviors && r.priorities == s.priorities;
    assert q.priorities == s.priorities;
  }

  /** Records already replaced do not influence the next one. */
  lemma ClassifiedSame(cfg: StoreConfig, s: State, r: State, id: Id, now: real)
    requires r.tracks == s.tracks && r.groups == s.groups && r.trackGroup == s.trackGroup
             && r.formations == s.formations
    requires r.anomaly == s.anomaly
    ensures (id in r.classifier <==> id in s.classifier)
            && (id in s.classifier ==> r.classifier[id] == s.classifier[id]) ==>
              Classified(cfg, r, id, now) == Classified(cfg, s, id, now)
    ensures id in s.tracks ==> forall b :: Assessed(cfg, r, id, b, now) == Assessed(cfg, s, id, b, now)
  {
    hide B.Classify, P.Evaluate;
  }

  lemma ReassessStep(cfg: StoreConfig, s: State, done: set<Id>, id: Id, now: real)
    requires id in s.tracks && id !in done
    ensures var r := Reassess(cfg, s, done, now);
            var c := Classified(cfg, r, id, now);
            Reassess(cfg, s, done + {id}, now)
            == r.(classifier := r.classifier[id := c.1], behaviors := r.behaviors[id := c.0],
                  priorities := r.priorities[id := Assessed(cfg, r, id, Some(c.0.state), now)])
  {
    hide Classified, Assessed;
    var r, q := Reassess(cfg, s, done, now), Reassess(cfg, s, done + {id}, now);
    ClassifiedSame(cfg, s, r, id, now);
    var c := Classified(cfg, r, id, now);
    ReassessClassifier(cfg, s, done, id, now);
    ReassessBehaviors(cfg, s, done, id, now);
    ReassessPriorities(cfg, s, done, id, now);
    hide Reassess;
    SameOtherFields(cfg, s, done, id, now);
  }

  lemma ReassessClassifier(cfg: StoreConfig, s: State, done: set<Id>, id: Id, now: real)
    requires id !in done
    ensures Reassess(cfg, s, done + {id}, now).classifier
            == Reassess(cfg, s, done, now).classifier[id := Classified(cfg, s, id, now).1]
  {
    hide Classified, Assessed;
    var p, q := Reassess(cfg, s, done, now).classifier, Reassess(cfg, s, done + {id}, now).classifier;
    assert q.Keys == p.Keys + {id};
  }

  lemma ReassessBehaviors(cfg: StoreConfig, s: State, done: set<Id>, id: Id, now: real)
    requires id !in done
    ensures Reassess(cfg, s, done + {id}, now).behaviors
            == Reassess(cfg, s, done, now).behaviors[id := Classified(cfg, s, id, now).0]
  {
    hide Classified, Assessed;
    var p, q := Reassess(cfg, s, done, now).behaviors, Reassess(cfg, s, done + {id}, now).behaviors;
    assert q.Keys == p.Keys + {id};
  }

  lemma ReassessPriorities(cfg: StoreConfig, s: State, done: set<Id>, id: Id, now: real)
    requires id in s.tracks && id !in done
    ensures Reassess(cfg, s, done + {id}, now).priorities
            == Reassess(cfg, s, done, now).priorities[id := Assessed(cfg, s, id,
                                                                     Some(Classified(cfg, s, id, now).0.state), now)]
  {
    hide Classified, Assessed;
    var p, q := Reassess(cfg, s, done, now).priorities, Reassess(cfg, s, done + {id}, now).priorities;
    assert q.Keys == p.Keys + {id};
  }

  lemma SameOtherFields(cfg: StoreConfig, s: State, done: set<Id>, id: Id, now: real)
    ensures var r, q := Reassess(cfg, s, done, now), Reassess(cfg, s, done + {id}, now);
            q == r.(classifier := q.classifier, behaviors := q.behaviors, priorities := q.priorities)
  {
    hide Classified, Assessed;
  }

  lemma ReprioritizePriorities(cfg: StoreConfig, s: State, done: set<Id>, id: Id, now: real)
    requires id in s.tracks && id !in done
    ensures var b := if id in s.behaviors then Some(s.behaviors[id].state) else None;
            Reprioritize(cfg, s, done + {id}, now).priorities
            == Reprioritize(cfg, s, done, now).priorities[id := Assessed(cfg, s, id, b, now)]
  {
    hide Assessed;
    var p, q := Reprioritize(cfg, s, done, now).priorities, Reprioritize(cfg, s, done + {id}, now).priorities;
    assert q.Keys == p.Keys + {id};
  }

  lemma ReprioritizeStep(cfg: StoreConfig, s: State, done: set<Id>, id: Id, now: real)
    requires id in s.tracks && id !in done
    ensures var r := Reprioritize(cfg, s, done, now);
            var b := if id in r.behaviors then Some(r.behaviors[id].state) else None;
            Reprioritize(cfg, s, done + {id}, now) == r.(priorities := r.priorities[id := Assessed(cfg, r, id, b, now)])
  {
    hide Classified, Assessed;
    ReprioritizePriorities(cfg, s, done, id, now);
    ClassifiedSame(cfg, s, Reprioritize(cfg, s, done, now), id, now);
  }

  class IncrementalIntelligenceStore {
    const k: StoreKernel
    const cfg: StoreConfig
    const grid: SpatialHashGrid
    const accumulator: A.PersistentAnomalyAccumulator
    var tracks: Population
    var groups: map<Id, TrackGroup>
    var trackGroup: map<Id, Id>
    var formations: map<Id, Formation>
    var classifier: map<Id, B.ClassifierState>
    var behaviors: map<Id, B.BehaviorClassification>
    var priorities: map<Id, P.Assessment>
    var version: int
    var cachedSummary: Summary

    function State(): StoreModel.State
      reads this, accumulator
    {
      StoreModel.State(tracks, groups, trackGroup, formations, classifier, behaviors, accumulator.states, priorities,
                       version, cachedSummary)
    }

    /** The grid indexes exactly the active tracks, at their positions. */
    ghost predicate Valid()
      reads this, grid, accumulator
    {
      && grid.Valid() && grid.geo == StoreGeometry(k, cfg) && grid.trackCoords == Coords(tracks)
      && Keyed(tracks) && accumulator.cfg == cfg.anomaly
    }

    constructor (k: StoreKernel, cfg: StoreConfig, now: real)
      ensures Valid() && this.k == k && this.cfg == cfg && fresh(grid) && fresh(accumulator)
      ensures State() == Initial(now)
    {
      this.k, this.cfg := k, cfg;
      grid := new SpatialHashGrid(StoreGeometry(k, cfg));
      accumulator := new A.PersistentAnomalyAccumulator(cfg.anomaly);
      tracks, groups, trackGroup, formations := map[], map[], map[], map[];
      classifier, behaviors, priorities, version := map[], map[], map[], 0;
      cachedSummary := Summary([], [], [], [], now);
    }

    method CandidateSet(id: Id) returns (c: set<Id>)
      requires Valid()
      modifies grid`rowCache
      ensures Valid() && c == Candidates(grid.geo, Coords(tracks), id)
    {
      var list := grid.GetCandidateNeighbors(id);
      c := set x | x in list;
      SortedBack(Candidates(grid.geo, Coords(tracks), id), list);
    }

    static lemma SortedBack(s: set<Id>, list: seq<Id>)
      requires list == Sorted(s)
      ensures (set x | x in list) == s
    {
    }

    /** Walk the seed in any order, adding group mates and candidates. */
    method ExpandSeed(seed: set<Id>, mates: map<Id, Id>) returns (affected: set<Id>)
      requires Valid()
      modifies grid`rowCache
      ensures Valid() && affected == Expand(grid.geo, Coords(tracks), groups, mates, seed)
    {
      hide GroupMates, Candidates, Coords, SpatialHashGrid.Valid, StoreGeometry;
      affected := seed;
      var todo := seed;
      while todo != {}
        invariant Valid() && todo <= seed
        invariant affected == seed + Expand(grid.geo, Coords(tracks), groups, mates, seed - todo)
        decreases todo
      {
        var m :| m in todo;
        var candidates := CandidateSet(m);
        affected := affected + GroupMates(groups, mates, m) + candidates;
        ExpandStep(grid.geo, Coords(tracks), groups, mates, seed - todo, m);
        assert seed - (todo - {m}) == (seed - todo) + {m};
        todo := todo - {m};
      }
      assert seed - todo == seed;
    }

    /** The observations of the given tracks, in identifier order. */
    method ListTracks(ids: set<Id>) returns (list: seq<Observation>)
      requires Keyed(tracks) && ids <= tracks.Keys
      ensures ById(list) == map x | x in ids && x in tracks :: tracks[x]
    {
      var sorted := Sorted(ids);
      list := [];
      for i := 0 to |sorted|
        invariant |list| == i && forall j | 0 <= j < i :: sorted[j] in tracks && list[j] == tracks[sorted[j]]
      {
        assert sorted[i] in sorted;
        list := list + [tracks[sorted[i]]];
      }
      ByIdOfSorted(tracks, ids, sorted, list);
    }

    method PickGroups(ids: seq<Id>) returns (list: seq<TrackGroup>)
      ensures list == Pick(groups, ids)
    {
      list := [];
      for i := 0 to |ids|
        invariant list == Pick(groups, ids[..i])
      {
        assert ids[..i + 1][..i] == ids[..i];
        if ids[i] in groups {
          list := list + [groups[ids[i]]];
        }
      }
      assert ids[..|ids|] == ids;
    }

    /** Insert the new groups and point their members at them. */
    method FileGroups(fresher: seq<TrackGroup>)
      modifies this`groups, this`trackGroup
      ensures groups == InsertAll(old(groups), fresher) && trackGroup == MapAll(old(trackGroup), fresher)
    {
      for i := 0 to |fresher|
        invariant groups == InsertAll(old(groups), fresher[..i]) && trackGroup == MapAll(old(trackGroup), fresher[..i])
      {
        assert fresher[..i + 1][..i] == fresher[..i];
        groups := groups[fresher[i].groupId := fresher[i]];
        PointMembers(fresher[i]);
      }
      assert fresher[..|fresher|] == fresher;
    }

    method PointMembers(g: TrackGroup)
      modifies this`trackGroup
      ensures trackGroup == MapMembers(old(trackGroup), g)
    {
      assert trackGroup == MapMembers(trackGroup, g.(members := []));
      for j := 0 to |g.members|
        invariant trackGroup == MapMembers(old(trackGroup), g.(members := g.members[..j]))
      {
        PointStep(old(trackGroup), g, j);
        trackGroup := trackGroup[g.members[j] := g.groupId];
      }
      assert g.members[..|g.members|] == g.members;
    }

    static lemma PointStep(m: map<Id, Id>, g: TrackGroup, j: nat)
      requires j < |g.members|
      ensures MapMembers(m, g.(members := g.members[..j + 1]))
              == MapMembers(m, g.(members := g.members[..j]))[g.members[j] := g.groupId]
    {
      assert g.members[..j + 1] == g.members[..j] + [g.members[j]];
    }

    /** Compute the formation of each new group from its active members. */
    method FormGroups(fresher: seq<TrackGroup>, now: real)
      modifies this`formations
      ensures formations == FormAll(k, tracks, old(formations), fresher, now)
    {
      for i := 0 to |fresher|
        invariant formations == FormAll(k, tracks, old(formations), fresher[..i], now)
      {
        assert fresher[..i + 1][..i] == fresher[..i];
        var f := FormationOf(k, tracks, fresher[i], now);
        if f.Some? {
          formations := formations[fresher[i].groupId := f.value];
        }
      }
      assert fresher[..|fresher|] == fresher;
    }

    /** Re-cluster the affected tracks; replace the touched groups and formations. */
    method Recluster(affected: set<Id>, touched: set<Id>, now: real, ghost s: StoreModel.State, ghost ch: Change)
      requires Keyed(tracks) && affected <= tracks.Keys
      requires ch == Change(tracks, trackGroup, affected, touched)
      requires s == State().(tracks := s.tracks, trackGroup := s.trackGroup)
      modifies this`groups, this`trackGroup, this`formations
      ensures State() == Regroup(k, cfg, s, ch, now)
    {
      hide ById, Clusters, Pick, InsertAll, MapAll, FormAll;
      var affectedObs := ListTracks(affected);
      var existing := PickGroups(k.setOrder(touched));
      var fresher := CorrelateTracks(k.base, cfg.grouping, affectedObs, existing, now);
      assert fresher == NewGroups(k, cfg, s, ch, now);
      groups := groups - touched;
      formations := formations - touched;
      trackGroup := trackGroup - affected;
      FileGroups(fresher);
      FormGroups(fresher, now);
    }

    /** Classify and assess the given tracks in order. */
    method Reevaluate(affected: set<Id>, now: real)
      requires affected <= tracks.Keys
      modifies this`classifier, this`behaviors, this`priorities
      ensures State() == Reassess(cfg, old(State()), affected, now)
    {
      hide Reassess, Classified, Assessed, Sorted;
      var ids := Sorted(affected);
      ReassessNone(cfg, State(), now);
      ghost var done: set<Id> := {};
      for i := 0 to |ids|
        invariant State() == Reassess(cfg, old(State()), done, now)
        invariant done <= affected && (forall j | 0 <= j < i :: ids[j] in done)
            && (forall j | i <= j < |ids| :: ids[j] !in done)
        invariant tracks == old(tracks)
      {
        var id := ids[i];
        assert id in ids;
        ReassessStep(cfg, old(State()), done, id, now);
        ghost var r := State();
        var c := Classified(cfg, State(), id, now);
        var assessment := Assessed(cfg, State(), id, Some(c.0.state), now);
        classifier := classifier[id := c.1];
        behaviors := behaviors[id := c.0];
        priorities := priorities[id := assessment];
        DistinctFrom(ids, i);
        done := done + {id};
      }
      assert done == affected by {
        forall x | x in affected ensures x in done { assert x in ids; }
      }
    }

    static lemma DistinctFrom(ids: seq<Id>, i: int)
      requires Ascending(ids) && 0 <= i < |ids|
      ensures forall j | i < j < |ids| :: ids[j] != ids[i]
    {
      forall j | i < j < |ids| ensures ids[j] != ids[i] {
        BelowAsymmetric(ids[i], ids[j]);
      }
    }

    /** After a drop: re-assess priorities only. */
    method ReevaluatePriorities(affected: set<Id>, now: real)
      requires affected <= tracks.Keys
      modifies this`priorities
      ensures State() == Reprioritize(cfg, old(State()), affected, now)
    {
      hide Reprioritize, Assessed, Sorted;
      var ids := Sorted(affected);
      ReassessNone(cfg, State(), now);
      ghost var done: set<Id> := {};
      for i := 0 to |ids|
        invariant State() == Reprioritize(cfg, old(State()), done, now)
        invariant done <= affected && (forall j | 0 <= j < i :: ids[j] in done)
            && (forall j | i <= j < |ids| :: ids[j] !in done)
      {
        var id := ids[i];
        assert id in ids;
        ReprioritizeStep(cfg, old(State()), done, id, now);
        var behavior := if id in behaviors then Some(behaviors[id].state) else None;
        priorities := priorities[id := Assessed(cfg, State(), id, behavior, now)];
        DistinctFrom(ids, i);
        done := done + {id};
      }
      assert done == affected by {
        forall x | x in affected ensures x in done { assert x in ids; }
      }
    }

    method Publish(now: real)
      modifies this`cachedSummary, this`version
      ensures State() == Published(old(State()), now)
    {
      cachedSummary := Snapshot(State(), now);
      version := version + 1;
    }

    method UpdateTrack(obs: Observation, score: Option<real>, now: real) returns (result: P.Assessment)
      requires Valid()
      modifies this, grid, accumulator
      ensures Valid()
      ensures State() == StoreModel.UpdateTrack(k, cfg, old(State()), obs, score, now)
      ensures obs.id in priorities && result == priorities[obs.id]
    {
      hide SpatialHashGrid.Valid, Coords, StoreGeometry, Candidates, GroupMates, Expand, Regroup, Reassess, Published,
           A.UpdateState;
      ghost var s := State();
      var id := obs.id;
      var prior: set<Id> := {};
      if id in tracks {
        var oldCandidates := CandidateSet(id);
        prior := oldCandidates + GroupMates(groups, trackGroup, id);
      }
      tracks := tracks[id := obs];
      var _ := grid.Update(id, obs.latitude, obs.longitude);
      CoordsUpdate(s.tracks, obs);
      var newCandidates := CandidateSet(id);
      var expanded := ExpandSeed({id} + prior + newCandidates, trackGroup);
      var affected := expanded * tracks.Keys;
      var touched := GroupIdsOf(trackGroup, affected);
      ghost var ch := Change(tracks, trackGroup, affected, touched);
      assert ch == UpdateChange(StoreGeometry(k, cfg), s, obs);
      Recluster(affected, touched, now, s, ch);
      var _ := accumulator.Update(id, score, now);
      Reevaluate(affected, now);
      Publish(now);
      HasPriority(k, cfg, s, obs, score, now);
      result := priorities[id];
    }

    static lemma CoordsUpdate(p: Population, obs: Observation)
      ensures Coords(p[obs.id := obs]) == Coords(p)[obs.id := Normalize((obs.latitude, obs.longitude))]
    {
    }

    static lemma CoordsDrop(p: Population, id: Id)
      ensures Coords(p - {id}) == Coords(p) - {id}
    {
    }

    static lemma HasPriority(k: StoreKernel, cfg: StoreConfig, s: StoreModel.State, obs: Observation,
                             score: Option<real>, now: real)
      ensures obs.id in StoreModel.UpdateTrack(k, cfg, s, obs, score, now).priorities
    {
      hide NewGroups, InsertAll, MapAll, FormAll, Classified, Assessed, Snapshot, Candidates, GroupMates, A.UpdateState;
    }

    /** Remove every per-track record, but not yet the track from its group. */
    method Forget(id: Id)
      requires Valid()
      modifies this`tracks, this`classifier, this`behaviors, this`priorities, this`trackGroup, grid, accumulator
      ensures Valid()
      ensures State() == Forgotten(old(State()), id)
    {
      hide SpatialHashGrid.Valid, Coords, StoreGeometry;
      ghost var before := tracks;
      tracks := tracks - {id};
      var _ := grid.Remove(id);
      CoordsDrop(before, id);
      ForgetRecords(id);
      accumulator.ResetTrack(id);
    }

    method ForgetRecords(id: Id)
      modifies this`classifier, this`behaviors, this`priorities, this`trackGroup
      ensures classifier == old(classifier) - {id} && behaviors == old(behaviors) - {id}
      ensures priorities == old(priorities) - {id} && trackGroup == old(trackGroup) - {id}
    {
      classifier, behaviors, priorities := classifier - {id}, behaviors - {id}, priorities - {id};
      trackGroup := trackGroup - {id};
    }

    static function Forgotten(s: StoreModel.State, id: Id): StoreModel.State {
      s.(tracks := s.tracks - {id}, classifier := s.classifier - {id}, behaviors := s.behaviors - {id},
         priorities := s.priorities - {id}, anomaly := s.anomaly - {id}, trackGroup := s.trackGroup - {id})
    }

    /** How the pieces of a drop make up the drop. */
    static lemma DropPieces(k: StoreKernel, cfg: StoreConfig, s: StoreModel.State, id: Id, expanded: set<Id>, now: real)
      requires id in s.tracks
      requires expanded == Expand(StoreGeometry(k, cfg), Coords(s.tracks - {id}), s.groups, s.trackGroup - {id},
                                  (Candidates(StoreGeometry(k, cfg), Coords(s.tracks), id)
                                   + GroupMates(s.groups, s.trackGroup, id)) - {id})
      ensures var affected := expanded * (s.tracks - {id}).Keys;
              var touched := GroupIdsOf(s.trackGroup - {id}, affected)
                  + (if id in s.trackGroup then {s.trackGroup[id]} else {});
              var ch := Change(s.tracks - {id}, s.trackGroup - {id}, affected, touched);
              StoreModel.DropTrack(k, cfg, s, id, now)
              == Published(Reprioritize(cfg, Regroup(k, cfg, Forgotten(s, id), ch, now), affected, now), now)
    {
      hide Coords, StoreGeometry, Candidates, GroupMates, Expand, Reprioritize, Published, NewGroups, InsertAll,
           MapAll, FormAll;
      var affected := expanded * (s.tracks - {id}).Keys;
      var touched := GroupIdsOf(s.trackGroup - {id}, affected)
          + (if id in s.trackGroup then {s.trackGroup[id]} else {});
      var ch := Change(s.tracks - {id}, s.trackGroup - {id}, affected, touched);
      assert ch == DropChange(StoreGeometry(k, cfg), s, id);
      var trimmed := s.(classifier := s.classifier - {id}, behaviors := s.behaviors - {id},
                        priorities := s.priorities - {id}, anomaly := s.anomaly - {id});
      SameNewGroups(k, cfg, trimmed, Forgotten(s, id), ch, now);
      assert Regroup(k, cfg, trimmed, ch, now) == Regroup(k, cfg, Forgotten(s, id), ch, now);
    }

    static lemma SameNewGroups(k: StoreKernel, cfg: StoreConfig, s: StoreModel.State, r: StoreModel.State, ch: Change,
                               now: real)
      requires s.groups == r.groups
      ensures NewGroups(k, cfg, s, ch, now) == NewGroups(k, cfg, r, ch, now)
    {
      hide Clusters, Pick;
    }

    method DropTrack(id: Id, now: real) returns (found: bool)
      requires Valid()
      modifies this, grid, accumulator
      ensures Valid()
      ensures State() == StoreModel.DropTrack(k, cfg, old(State()), id, now)
      ensures found == (id in old(tracks))
    {
      hide SpatialHashGrid.Valid, Coords, StoreGeometry, Candidates, GroupMates, Expand, Regroup, Reprioritize,
           Published;
      if id !in tracks {
        return false;
      }
      ghost var s := State();
      var oldCandidates := CandidateSet(id);
      var oldMates := GroupMates(groups, trackGroup, id);
      var oldGroup := if id in trackGroup then {trackGroup[id]} else {};
      Forget(id);
      hide StoreModel.DropTrack;
      var expanded := ExpandSeed((oldCandidates + oldMates) - {id}, trackGroup);
      var affected := expanded * tracks.Keys;
      var touched := GroupIdsOf(trackGroup, affected) + oldGroup;
      DropPieces(k, cfg, s, id, expanded, now);
      Recluster(affected, touched, now, State(), Change(tracks, trackGroup, affected, touched));
      ReevaluatePriorities(affected, now);
      Publish(now);
      found := true;
    }

    method AddObservations(observations: seq<Observation>)
      requires Valid()
      modifies this`tracks, grid
      ensures Valid() && tracks == AddAll(old(tracks), observations)
    {
      hide SpatialHashGrid.Valid, StoreGeometry, Normalize;
      for i := 0 to |observations|
        invariant Valid() && tracks == AddAll(old(tracks), observations[..i])
      {
        assert observations[..i + 1][..i] == observations[..i];
        var obs := observations[i];
        CoordsUpdate(tracks, obs);
        tracks := tracks[obs.id := obs];
        var _ := grid.Update(obs.id, obs.latitude, obs.longitude);
      }
      assert observations[..|observations|] == observations;
    }

    /** Re-cluster the whole population and drop every recorded behaviour and priority. */
    method ReclusterAll(now: real)
      requires Keyed(tracks)
      modifies this`groups, this`trackGroup, this`formations, this`behaviors, this`priorities
      ensures State() == RegroupedAll(k, cfg, old(State()), now)
    {
      hide ById, Clusters, Pick, InsertAll, MapAll, FormAll;
      var existing := PickGroups(k.setOrder(groups.Keys));
      var all := ListTracks(tracks.Keys);
      assert (map x | x in tracks.Keys && x in tracks :: tracks[x]) == tracks;
      var fresher := CorrelateTracks(k.base, cfg.grouping, all, existing, now);
      groups, trackGroup := map[], map[];
      FileGroups(fresher);
      formations := map[];
      FormGroups(fresher, now);
      behaviors, priorities := map[], map[];
    }

    static ghost function RegroupedAll(k: StoreKernel, cfg: StoreConfig, s: StoreModel.State,
                                       now: real): StoreModel.State {
      var fresher := Clusters(k.base, cfg.grouping, s.tracks, Pick(s.groups, k.setOrder(s.groups.Keys)), now);
      s.(groups := InsertAll(map[], fresher), trackGroup := MapAll(map[], fresher),
         formations := FormAll(k, s.tracks, map[], fresher, now), behaviors := map[], priorities := map[])
    }

    static lemma BatchPieces(k: StoreKernel, cfg: StoreConfig, s: StoreModel.State, observations: seq<Observation>,
                             now: real)
      requires observations != []
      ensures var r := RegroupedAll(k, cfg, s.(tracks := AddAll(s.tracks, observations)), now);
              && UpdateBatch(k, cfg, s, observations, now) == Published(Reassess(cfg, r, r.tracks.Keys, now), now)
              && forall o | o in observations :: o.id in UpdateBatch(k, cfg, s, observations, now).priorities
    {
      AddedIds(s.tracks, observations);
      hide Clusters, Pick, InsertAll, MapAll, FormAll, AddAll;
      var r := RegroupedAll(k, cfg, s.(tracks := AddAll(s.tracks, observations)), now);
      BatchPriorities(cfg, r, now);
    }

    method UpdateTracksBatch(observations: seq<Observation>, now: real) returns (result: seq<P.Assessment>)
      requires Valid()
      modifies this, grid, accumulator
      ensures Valid()
      ensures State() == UpdateBatch(k, cfg, old(State()), observations, now)
      ensures |result| == |observations|
      ensures forall i | 0 <= i < |observations| ::
              observations[i].id in priorities && result[i] == priorities[observations[i].id]
    {
      if observations == [] {
        return [];
      }
      ApplyBatch(observations, now);
      result := Reported(observations);
    }

    method ApplyBatch(observations: seq<Observation>, now: real)
      requires Valid() && observations != []
      modifies this, grid, accumulator
      ensures Valid()
      ensures State() == UpdateBatch(k, cfg, old(State()), observations, now)
      ensures forall o | o in observations :: o.id in priorities
    {
      hide SpatialHashGrid.Valid, Coords, StoreGeometry, AddAll, Reassess, Published, UpdateBatch, RegroupedAll;
      BatchPieces(k, cfg, State(), observations, now);
      AddObservations(observations);
      ReclusterAll(now);
      Reevaluate(tracks.Keys, now);
      Publish(now);
    }

    /** One assessment per observation, in order. */
    method Reported(observations: seq<Observation>) returns (result: seq<P.Assessment>)
      requires forall o | o in observations :: o.id in priorities
      ensures |result| == |observations|
      ensures forall i | 0 <= i < |observations| ::
              observations[i].id in priorities && result[i] == priorities[observations[i].id]
    {
      result := [];
      for i := 0 to |observations|
        invariant |result| == i && forall j | 0 <= j < i ::
            observations[j].id in priorities && result[j] == priorities[observations[j].id]
      {
        assert observations[i] in observations;
        result := result + [priorities[observations[i].id]];
      }
    }

    static lemma BatchPriorities(cfg: StoreConfig, r: StoreModel.State, now: real)
      requires r.priorities == map[]
      ensures Published(Reassess(cfg, r, r.tracks.Keys, now), now).priorities.Keys == r.tracks.Keys
    {
      hide Classified, Assessed, Snapshot;
    }

    static lemma {:induction false} AddedIds(p: Population, observations: seq<Observation>)
      ensures forall i | 0 <= i < |observations| :: observations[i].id in AddAll(p, observations)
      decreases |observations|
    {
      if observations != [] {
        AddedIds(p, observations[..|observations| - 1]);
        forall i | 0 <= i < |observations| ensures observations[i].id in AddAll(p, observations) {
          if i < |observations| - 1 {
            assert observations[..|observations| - 1][i] == observations[i];
          }
        }
      }
    }

    method Clear(now: real)
      requires Valid()
      modifies this, grid, accumulator
      ensures Valid() && State() == Cleared(old(State()), now)
    {
      hide SpatialHashGrid.Valid, StoreGeometry, Coords, Normalize;
      NoCoords();
      tracks := map[];
      grid.Clear();
      DropRecords();
      accumulator.ResetAll();
      version := version + 1;
      cachedSummary := Summary([], [], [], [], now);
    }

    static lemma NoCoords()
      ensures Coords(map[]) == map[]
    {
    }

    method DropRecords()
      modifies this`groups, this`trackGroup, this`formations, this`classifier, this`behaviors, this`priorities
      ensures groups == map[] && trackGroup == map[] && formations == map[]
      ensures classifier == map[] && behaviors == map[] && priorities == map[]
    {
      groups, trackGroup, formations := map[], map[], map[];
      classifier, behaviors, priorities := map[], map[], map[];
    }

    /** Readers get a copy of the cached summary; the state is not touched. */
    method GetSummarySnapshot() returns (summary: Summary)
      ensures summary == cachedSummary
    {
      summary := Summary(cachedSummary.groups, cachedSummary.behaviors, cachedSummary.formations,
                         cachedSummary.priorities, cachedSummary.evaluatedAt);
    }
  }
}
