/** What the store's records say, in terms of what it was given: the last sighting of each track, its
    behaviour, its priority, and its group's formation. */
module StoreRecords {
  import opened TrackIds
  import opened Grouping
  import opened StoreModel
  import opened StoreRuns
  import A = Anomaly
  import B = Behavior
  import P = Priority

  // ----- Sightings -----

  lemma AddedLast(tracks: Population, seen: seq<Observation>)
    ensures AddAll(tracks, seen)
            == if seen == [] then tracks
               else AddAll(tracks, seen[..|seen| - 1])[seen[|seen| - 1].id := seen[|seen| - 1]]
  {
  }

  /** Of several sightings of one track in a batch the last one counts. */
  lemma {:induction false} LastSightingCounts(tracks: Population, seen: seq<Observation>, i: nat)
    requires i < |seen| && forall j | i < j < |seen| :: seen[j].id != seen[i].id
    ensures seen[i].id in AddAll(tracks, seen) && AddAll(tracks, seen)[seen[i].id] == seen[i]
    decreases |seen|
  {
    hide AddAll;
    AddedLast(tracks, seen);
    if i < |seen| - 1 {
      LastSightingCounts(tracks, seen[..|seen| - 1], i);
    }
  }

  /** A track that was not sighted stays as it was. */
  lemma {:induction false} OthersStay(tracks: Population, seen: seq<Observation>, id: Id)
    requires forall i | 0 <= i < |seen| :: seen[i].id != id
    ensures id in AddAll(tracks, seen) <==> id in tracks
    ensures id in tracks ==> AddAll(tracks, seen)[id] == tracks[id]
    decreases |seen|
  {
    hide AddAll;
    AddedLast(tracks, seen);
    if seen != [] {
      OthersStay(tracks, seen[..|seen| - 1], id);
    }
  }

  // ----- Behaviours -----

  /** The track is in a stored group of at least the configured size. */
  predicate InLargeGroup(cfg: StoreConfig, s: State, id: Id) {
    && id in s.trackGroup && s.trackGroup[id] in s.groups
    && s.groups[s.trackGroup[id]].memberCount >= cfg.behavior.coordinatedMinSize
  }

  /** The store gives the classifier no evidence but group membership. */
  lemma OnlyGroupsAreEvidence(cfg: StoreConfig, s: State, id: Id, now: real)
    requires cfg.behavior.rapidTurnRate >= 0.0 && cfg.behavior.rapidAcceleration >= 0.0
    ensures B.Candidate(InputOf(s, id, now), cfg.behavior)
            == if InLargeGroup(cfg, s, id) then B.COORDINATED else B.NORMAL
    ensures InputOf(s, id, now).trackId == id && InputOf(s, id, now).timestamp == now
  {
  }

  predicate Plain(kind: B.BehavioralState) { kind == B.NORMAL || kind == B.COORDINATED }

  /** No track is, or is about to become, anything but normal or coordinated. */
  ghost predicate TwoStates(s: State) {
    && (forall id | id in s.classifier ::
          Plain(s.classifier[id].currentState)
          && (s.classifier[id].candidateState.Some? ==> Plain(s.classifier[id].candidateState.value)))
    && (forall id | id in s.behaviors :: Plain(s.behaviors[id].state))
  }

  lemma ClassifiedTwo(cfg: StoreConfig, s: State, id: Id, now: real)
    requires cfg.behavior.rapidTurnRate >= 0.0 && cfg.behavior.rapidAcceleration >= 0.0 && TwoStates(s)
    ensures var (b, c) := Classified(cfg, s, id, now);
            Plain(b.state) && Plain(c.currentState) && (c.candidateState.Some? ==> Plain(c.candidateState.value))
  {
    OnlyGroupsAreEvidence(cfg, s, id, now);
    hide B.Candidate, InputOf;
  }

  lemma ReassessTwo(cfg: StoreConfig, s: State, a: set<Id>, now: real)
    requires cfg.behavior.rapidTurnRate >= 0.0 && cfg.behavior.rapidAcceleration >= 0.0 && TwoStates(s)
    ensures TwoStates(Reassess(cfg, s, a, now))
  {
    hide Classified, Assessed;
    forall id ensures var (b, c) := Classified(cfg, s, id, now);
                      Plain(b.state) && Plain(c.currentState)
                      && (c.candidateState.Some? ==> Plain(c.candidateState.value))
    {
      ClassifiedTwo(cfg, s, id, now);
    }
  }

  lemma ApplyTwo(k: StoreKernel, cfg: StoreConfig, s: State, op: Op)
    requires cfg.behavior.rapidTurnRate >= 0.0 && cfg.behavior.rapidAcceleration >= 0.0 && TwoStates(s)
    ensures TwoStates(Apply(k, cfg, s, op))
  {
    hide UpdateChange, DropChange, NewGroups, Clusters, InsertAll, MapAll, FormAll, Snapshot, Pick, AddAll, Reassess,
         Classified, Assessed, A.UpdateState;
    match op
    case Update(obs, score, now) =>
      var ch := UpdateChange(StoreGeometry(k, cfg), s, obs);
      var prior := if obs.id in s.anomaly then s.anomaly[obs.id] else A.FRESH;
      var scored := A.UpdateState(cfg.anomaly, prior, score, now);
      var r := Regroup(k, cfg, s, ch, now).(anomaly := s.anomaly[obs.id := scored]);
      ReassessTwo(cfg, r, ch.affected, now);
    case Batch(observations, now) =>
      if observations != [] {
        var tracks := AddAll(s.tracks, observations);
        var fresher := Clusters(k.base, cfg.grouping, tracks, Pick(s.groups, k.setOrder(s.groups.Keys)), now);
        var r := s.(tracks := tracks, groups := InsertAll(map[], fresher), trackGroup := MapAll(map[], fresher),
                    formations := FormAll(k, tracks, map[], fresher, now), behaviors := map[], priorities := map[]);
        ReassessTwo(cfg, r, tracks.Keys, now);
      }
    case Drop(id, now) =>
    case Clear(now) =>
  }

  /** In every run of the store each track is reported as normal or as coordinated, whatever it does. */
  lemma {:induction false} RunTwoStates(k: StoreKernel, cfg: StoreConfig, start: real, ops: seq<Op>)
    requires cfg.behavior.rapidTurnRate >= 0.0 && cfg.behavior.rapidAcceleration >= 0.0
    ensures TwoStates(Run(k, cfg, start, ops))
    decreases |ops|
  {
    hide Apply;
    if ops != [] {
      RunTwoStates(k, cfg, start, ops[..|ops| - 1]);
      ApplyTwo(k, cfg, Run(k, cfg, start, ops[..|ops| - 1]), ops[|ops| - 1]);
    }
  }

  // ----- Priorities -----

  /** The evidence behind a priority: no geofence; the behaviour; the stored anomaly score, 0 without one; the
      synchronization of the formation of the track's group in percent, 0 without one; and the speed as a
      score, 0 when unknown. */
  ghost predicate Evidence(s: State, id: Id, behavior: Option<B.BehavioralState>, p: P.Components)
    requires id in s.tracks
  {
    && p.geofence == 0.0
    && p.behavior == P.BehaviorComponent(behavior, None)
    && P.Shown(p.anomaly, if id in s.anomaly then s.anomaly[id].persistentScore else 0.0)
    && P.Shown(p.coordination,
               if id in s.trackGroup && s.trackGroup[id] in s.formations
               then 100.0 * s.formations[s.trackGroup[id]].sync else 0.0)
    && P.Shown(p.kinematic, if s.tracks[id].velocity.Some? then s.tracks[id].velocity.value else 0.0)
  }

  /** The five components that the store hands over. */
  function Gathered(s: State, id: Id, behavior: Option<B.BehavioralState>): P.Components
    requires id in s.tracks
  {
    var gid := GroupIdOf(s, id);
    var fmt := if gid.Some? && gid.value in s.formations
               then Some(P.CoordinationEvidence.Formation(s.formations[gid.value].sync)) else None;
    P.Components(P.GeofenceComponent([], None), P.BehaviorComponent(behavior, None),
                 P.AnomalyComponent(Some(if id in s.anomaly then s.anomaly[id].persistentScore else 0.0), None),
                 P.CoordinationComponent(fmt, None),
                 P.KinematicComponent(Some(P.Score(if s.tracks[id].velocity.Some? then s.tracks[id].velocity.value
                                                   else 0.0)), None))
  }

  lemma GatheredEvidence(s: State, id: Id, behavior: Option<B.BehavioralState>)
    requires id in s.tracks
    ensures Evidence(s, id, behavior, Gathered(s, id, behavior))
  {
    hide P.BehaviorComponent, P.GeofenceComponent, P.AnomalyComponent, P.CoordinationComponent, P.KinematicComponent;
    P.OverrideOrNeutral([], None, None, None, None, 0.0);
    P.MeasuresAre(if id in s.anomaly then s.anomaly[id].persistentScore else 0.0,
                  if id in s.trackGroup && s.trackGroup[id] in s.formations
                  then s.formations[s.trackGroup[id]].sync else 0.0);
    P.MeasuresAre(if s.tracks[id].velocity.Some? then s.tracks[id].velocity.value else 0.0, 0.0);
  }

  /** A priority is the evaluation of the track's own evidence, for its group and its confidence. */
  lemma AssessedFromEvidence(cfg: StoreConfig, s: State, id: Id, behavior: Option<B.BehavioralState>, now: real)
    requires id in s.tracks
    ensures exists p :: Evidence(s, id, behavior, p)
                        && Assessed(cfg, s, id, behavior, now)
                           == P.Evaluate(cfg.priority, id,
                                         if id in s.trackGroup then Some(s.trackGroup[id]) else None, p,
                                         Some(s.tracks[id].confidence), now)
  {
    hide Evidence, P.Evaluate, P.GeofenceComponent, P.BehaviorComponent, P.AnomalyComponent, P.CoordinationComponent,
         P.KinematicComponent;
    GatheredEvidence(s, id, behavior);
  }

  // ----- Formations -----

  lemma {:induction false} ObservedAre(tracks: Population, members: seq<Id>)
    requires Keyed(tracks)
    ensures var r := Observed(tracks, members);
            && |r| <= |members|
            && (forall i | 0 <= i < |r| :: r[i].id in members && r[i].id in tracks && tracks[r[i].id] == r[i])
            && (forall x | x in members && x in tracks :: tracks[x] in r)
            && ((forall x | x in members :: x in tracks) ==>
                  |r| == |members| && forall i | 0 <= i < |r| :: r[i].id == members[i])
    decreases |members|
  {
    if members != [] {
      var prefix := members[..|members| - 1];
      ObservedAre(tracks, prefix);
      assert members == prefix + [members[|members| - 1]];
    }
  }

  /** A group of at least two active members has a formation of exactly those members, under an identifier
      made from the group's, with the synchronization of their observations; a smaller one has none. */
  lemma FormationIs(k: StoreKernel, tracks: Population, g: TrackGroup, now: real)
    requires Keyed(tracks) && forall x | x in g.members :: x in tracks
    ensures var f := FormationOf(k, tracks, g, now);
            && (f.Some? <==> |g.members| >= 2)
            && (f.Some? ==>
                  && f.value.members == g.members && f.value.groupId == g.groupId
                  && f.value.formationId == "FMT-" + g.groupId && f.value.evaluatedAt == now
                  && exists seen :: |seen| == |g.members| && f.value.sync == k.sync(seen)
                                    && forall i | 0 <= i < |seen| :: seen[i] == tracks[g.members[i]])
  {
    ObservedAre(tracks, g.members);
    var seen := Observed(tracks, g.members);
    hide Observed;
    if |seen| >= 2 {
      assert FormationOf(k, tracks, g, now).value.members == g.members;
      assert forall i | 0 <= i < |seen| :: g.members[i] in g.members && seen[i] == tracks[g.members[i]];
    }
  }
}
