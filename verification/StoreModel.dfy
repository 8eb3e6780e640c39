/** The incremental store as a state and its operations on values: what the class in Store.dfy is proved
    against, and what the theorems about whole runs are about. */
module StoreModel {
  import opened TrackIds
  import opened Graph
  import opened SpatialGrid
  import opened Grouping
  import A = Anomaly
  import B = Behavior
  import P = Priority

  /** `sync` is the synchronization index of some observations; `setOrder` the order in which a hash set
      (or dictionary) is walked, about which nothing is known but that it lists every element once. */
  datatype StoreKernel = StoreKernel(base: Kernel, sync: seq<Observation> -> real, setOrder: set<Id> -> seq<Id>)

  ghost predicate ListsSets(k: StoreKernel) {
    forall s :: Distinct(k.setOrder(s)) && Elements(k.setOrder(s)) == s
  }

  datatype StoreConfig = StoreConfig(
    gridCellSize: real, grouping: GroupingConfig, behavior: B.ClassifierConfig, anomaly: A.AnomalyConfig,
    priority: P.PriorityConfig)

  datatype Formation = Formation(formationId: Id, groupId: Id, members: seq<Id>, sync: real, evaluatedAt: real)

  datatype Summary = Summary(
    groups: seq<TrackGroup>, behaviors: seq<B.BehaviorClassification>, formations: seq<Formation>,
    priorities: seq<P.Assessment>, evaluatedAt: real)

  datatype State = State(
    tracks: Population, groups: map<Id, TrackGroup>, trackGroup: map<Id, Id>, formations: map<Id, Formation>,
    classifier: map<Id, B.ClassifierState>, behaviors: map<Id, B.BehaviorClassification>,
    anomaly: map<Id, A.TrackAnomalyState>, priorities: map<Id, P.Assessment>, version: int, summary: Summary)

  function Initial(now: real): State {
    State(map[], map[], map[], map[], map[], map[], map[], map[], 0, Summary([], [], [], [], now))
  }

  function StoreGeometry(k: StoreKernel, cfg: StoreConfig): Geometry {
    Geometry(cfg.gridCellSize, k.base.metersPerDegree, k.base.cosMax(cfg.gridCellSize))
  }

  // ----- The dirty neighbourhood -----

  /** The members of the group a track is mapped to, if that group still exists. */
  function GroupMates(groups: map<Id, TrackGroup>, trackGroup: map<Id, Id>, id: Id): set<Id> {
    if id in trackGroup && trackGroup[id] in groups then set x | x in groups[trackGroup[id]].members else {}
  }

  /** The seed, and for each of its members the members of its group and its grid candidates. */
  function Expand(geo: Geometry, coords: map<Id, Coord>, groups: map<Id, TrackGroup>, trackGroup: map<Id, Id>,
                  seed: set<Id>): set<Id> {
    seed + (set m, x | m in seed && x in GroupMates(groups, trackGroup, m) + Candidates(geo, coords, m) :: x)
  }

  /** What one local step works on: the tracks afterwards, the reverse map before regrouping, the
      affected active tracks and the identifiers of the groups they touch. */
  datatype Change = Change(tracks: Population, trackGroup: map<Id, Id>, affected: set<Id>, touched: set<Id>)

  function GroupIdsOf(trackGroup: map<Id, Id>, a: set<Id>): set<Id> {
    set x | x in a && x in trackGroup :: trackGroup[x]
  }

  function UpdateChange(geo: Geometry, s: State, obs: Observation): Change {
    var id := obs.id;
    var prior := if id in s.tracks then Candidates(geo, Coords(s.tracks), id)
        + GroupMates(s.groups, s.trackGroup, id) else {};
    var tracks := s.tracks[id := obs];
    var seed := {id} + prior + Candidates(geo, Coords(tracks), id);
    var affected := Expand(geo, Coords(tracks), s.groups, s.trackGroup, seed) * tracks.Keys;
    Change(tracks, s.trackGroup, affected, GroupIdsOf(s.trackGroup, affected))
  }

  function DropChange(geo: Geometry, s: State, id: Id): Change {
    var tracks, trackGroup := s.tracks - {id}, s.trackGroup - {id};
    var seed := (Candidates(geo, Coords(s.tracks), id) + GroupMates(s.groups, s.trackGroup, id)) - {id};
    var affected := Expand(geo, Coords(tracks), s.groups, trackGroup, seed) * tracks.Keys;
    Change(tracks, trackGroup, affected,
           GroupIdsOf(trackGroup, affected) + (if id in s.trackGroup then {s.trackGroup[id]} else {}))
  }

  // ----- Regrouping -----

  /** The existing groups of the given identifiers, in that order. */
  function Pick(groups: map<Id, TrackGroup>, ids: seq<Id>): seq<TrackGroup> {
    if ids == [] then []
    else
      var last := ids[|ids| - 1];
      Pick(groups, ids[..|ids| - 1]) + (if last in groups then [groups[last]] else [])
  }

  /** File each new group under its identifier, in turn; a later one replaces an earlier one. */
  function InsertAll(groups: map<Id, TrackGroup>, fresher: seq<TrackGroup>): map<Id, TrackGroup> {
    if fresher == [] then groups
    else
      var last := fresher[|fresher| - 1];
      InsertAll(groups, fresher[..|fresher| - 1])[last.groupId := last]
  }

  function MapMembers(trackGroup: map<Id, Id>, g: TrackGroup): map<Id, Id> {
    map x | x in trackGroup.Keys + (set y | y in g.members) :: if x in g.members then g.groupId else trackGroup[x]
  }

  /** Point every member of each new group at that group, in turn. */
  function MapAll(trackGroup: map<Id, Id>, fresher: seq<TrackGroup>): map<Id, Id> {
    if fresher == [] then trackGroup
    else MapMembers(MapAll(trackGroup, fresher[..|fresher| - 1]), fresher[|fresher| - 1])
  }

  /** The observations of those members that are active, in member order. */
  function Observed(tracks: Population, members: seq<Id>): seq<Observation> {
    if members == [] then []
    else
      var last := members[|members| - 1];
      Observed(tracks, members[..|members| - 1]) + (if last in tracks then [tracks[last]] else [])
  }

  /** `compute_coordination_index`: a formation needs two observed members. */
  function FormationOf(k: StoreKernel, tracks: Population, g: TrackGroup, now: real): Option<Formation> {
    var seen := Observed(tracks, g.members);
    if |seen| < 2 then None
    else Some(Formation("FMT-" + g.groupId, g.groupId, seq(|seen|, i requires 0 <= i < |seen| => seen[i].id),
                        k.sync(seen), now))
  }

  function FormAll(k: StoreKernel, tracks: Population, formations: map<Id, Formation>, fresher: seq<TrackGroup>,
                   now: real)
    : map<Id, Formation>
  {
    if fresher == [] then formations
    else
      var last, before := fresher[|fresher| - 1], FormAll(k, tracks, formations, fresher[..|fresher| - 1], now);
      var f := FormationOf(k, tracks, last, now);
      if f.Some? then before[last.groupId := f.value] else before
  }

  ghost function NewGroups(k: StoreKernel, cfg: StoreConfig, s: State, ch: Change, now: real): seq<TrackGroup> {
    Clusters(k.base, cfg.grouping, map x | x in ch.affected && x in ch.tracks :: ch.tracks[x],
             Pick(s.groups, k.setOrder(ch.touched)), now)
  }

  /** Re-cluster the affected tracks and replace exactly the touched groups and formations. */
  ghost function Regroup(k: StoreKernel, cfg: StoreConfig, s: State, ch: Change, now: real): State {
    var fresher := NewGroups(k, cfg, s, ch, now);
    s.(tracks := ch.tracks,
       groups := InsertAll(s.groups - ch.touched, fresher),
       trackGroup := MapAll(ch.trackGroup - ch.affected, fresher),
       formations := FormAll(k, ch.tracks, s.formations - ch.touched, fresher, now))
  }

  // ----- Re-evaluation -----

  function GroupIdOf(s: State, id: Id): Option<Id> {
    if id in s.trackGroup then Some(s.trackGroup[id]) else None
  }

  function InputOf(s: State, id: Id, now: real): B.ClassifierInput {
    var gid := GroupIdOf(s, id);
    B.ClassifierInput(id, now, 0.0, 0.0, None, None, None, None, gid,
                      if gid.Some? && gid.value in s.groups then Some(s.groups[gid.value].memberCount) else None)
  }

  function Classified(cfg: StoreConfig, s: State, id: Id, now: real): (B.BehaviorClassification, B.ClassifierState) {
    B.Classify(InputOf(s, id, now), if id in s.classifier then Some(s.classifier[id]) else None, cfg.behavior)
  }

  function Assessed(cfg: StoreConfig, s: State, id: Id, behavior: Option<B.BehavioralState>, now: real): P.Assessment
    requires id in s.tracks
  {
    var o, gid := s.tracks[id], GroupIdOf(s, id);
    var fmt := if gid.Some? && gid.value in s.formations
        then Some(P.CoordinationEvidence.Formation(s.formations[gid.value].sync)) else None;
    var score := if id in s.anomaly then s.anomaly[id].persistentScore else 0.0;
    var speed := if o.velocity.Some? then o.velocity.value else 0.0;
    P.Evaluate(cfg.priority, id, gid,
               P.Components(P.GeofenceComponent([], None), P.BehaviorComponent(behavior, None),
                            P.AnomalyComponent(Some(score), None), P.CoordinationComponent(fmt, None),
                            P.KinematicComponent(Some(P.Score(speed)), None)),
               Some(o.confidence), now)
  }

  /** Classify and assess the tracks in `a`; every other record stays. */
  function Reassess(cfg: StoreConfig, s: State, a: set<Id>, now: real): State {
    s.(classifier := map id | id in s.classifier.Keys + a ::
       if id in a then Classified(cfg, s, id, now).1 else s.classifier[id],
       behaviors := map id | id in s.behaviors.Keys + a ::
           if id in a then Classified(cfg, s, id, now).0 else s.behaviors[id],
       priorities := map id | id in s.priorities.Keys + (a * s.tracks.Keys) ::
         if id in a && id in s.tracks then Assessed(cfg, s, id, Some(Classified(cfg, s, id, now).0.state), now)
             else s.priorities[id])
  }

  /** After a drop only the priorities are re-assessed, from the recorded behaviours. */
  function Reprioritize(cfg: StoreConfig, s: State, a: set<Id>, now: real): State {
    s.(priorities := map id | id in s.priorities.Keys + (a * s.tracks.Keys) ::
         if id in a && id in s.tracks then
           Assessed(cfg, s, id, if id in s.behaviors then Some(s.behaviors[id].state) else None, now)
         else s.priorities[id])
  }

  // ----- The snapshot -----

  function ValuesInOrder<V>(m: map<Id, V>, ids: seq<Id>): (r: seq<V>)
    requires forall id | id in ids :: id in m
    ensures |r| == |ids| && forall i | 0 <= i < |ids| :: r[i] == m[ids[i]]
  {
    seq(|ids|, i requires 0 <= i < |ids| => assert ids[i] in ids; m[ids[i]])
  }

  /** The summary rebuilt from the groups, behaviours, formations and priorities. */
  function Snapshot(s: State, now: real): Summary {
    Summary(ValuesInOrder(s.groups, Sorted(s.groups.Keys)), ValuesInOrder(s.behaviors, Sorted(s.behaviors.Keys)),
            ValuesInOrder(s.formations, Sorted(s.formations.Keys)),
            ValuesInOrder(s.priorities, Sorted(s.priorities.Keys)), now)
  }

  function Published(s: State, now: real): State {
    s.(summary := Snapshot(s, now), version := s.version + 1)
  }

  // ----- The operations -----

  ghost function UpdateTrack(k: StoreKernel, cfg: StoreConfig, s: State, obs: Observation, score: Option<real>,
                             now: real): State {
    var ch := UpdateChange(StoreGeometry(k, cfg), s, obs);
    var r := Regroup(k, cfg, s, ch, now);
    var prior := if obs.id in s.anomaly then s.anomaly[obs.id] else A.FRESH;
    var anomalous := r.(anomaly := s.anomaly[obs.id := A.UpdateState(cfg.anomaly, prior, score, now)]);
    Published(Reassess(cfg, anomalous, ch.affected, now), now)
  }

  /** A track that is not there leaves everything as it is. */
  ghost function DropTrack(k: StoreKernel, cfg: StoreConfig, s: State, id: Id, now: real): State {
    if id !in s.tracks then s
    else
      var ch := DropChange(StoreGeometry(k, cfg), s, id);
      var trimmed := s.(classifier := s.classifier - {id}, behaviors := s.behaviors - {id},
                        priorities := s.priorities - {id}, anomaly := s.anomaly - {id});
      Published(Reprioritize(cfg, Regroup(k, cfg, trimmed, ch, now), ch.affected, now), now)
  }

  function AddAll(tracks: Population, observations: seq<Observation>): Population {
    if observations == [] then tracks
    else
      var last := observations[|observations| - 1];
      AddAll(tracks, observations[..|observations| - 1])[last.id := last]
  }

  /** The whole population is re-clustered; an empty batch does nothing. */
  ghost function UpdateBatch(k: StoreKernel, cfg: StoreConfig, s: State, observations: seq<Observation>,
                             now: real): State {
    if observations == [] then s
    else
      var tracks := AddAll(s.tracks, observations);
      var fresher := Clusters(k.base, cfg.grouping, tracks, Pick(s.groups, k.setOrder(s.groups.Keys)), now);
      var r := s.(tracks := tracks, groups := InsertAll(map[], fresher), trackGroup := MapAll(map[], fresher),
                  formations := FormAll(k, tracks, map[], fresher, now), behaviors := map[], priorities := map[]);
      Published(Reassess(cfg, r, tracks.Keys, now), now)
  }

  function Cleared(s: State, now: real): State { Initial(now).(version := s.version + 1) }
}
