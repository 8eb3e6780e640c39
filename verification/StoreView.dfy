/** Whether the two halves of a summary agree: the group a track's priority names, and the group that lists
    the track. Unlike exactness this needs no look at the correlation graph, so any reader can see it. */
module StoreView {
  import opened TrackIds
  import opened Graph
  import opened Reclustering
  import opened SpatialGrid
  import opened Grouping
  import opened StoreModel
  import opened StoreExactness
  import opened StoreOrder
  import opened StoreRuns
  import opened StoreIds
  import opened StoreSummary
  import A = Anomaly
  import P = Priority

  /** Every priority names the listed group with its track among the members, and names none if there is none. */
  ghost predicate SummaryAgrees(m: Summary) {
    forall p | p in m.priorities :: LineAgrees(m, p)
  }

  ghost predicate LineAgrees(m: Summary, p: P.Assessment) {
    match p.groupId
    case Some(gid) => exists g :: g in m.groups && g.groupId == gid && p.trackId in g.members
    case None => forall g | g in m.groups :: p.trackId !in g.members
  }

  ghost predicate NamesItsGroup(groups: map<Id, TrackGroup>, named: Option<Id>, x: Id) {
    match named
    case Some(gid) => gid in groups && x in MemberSet(groups[gid])
    case None => forall gid | gid in groups :: x !in MemberSet(groups[gid])
  }

  /** The same of the state. */
  ghost predicate Agrees(s: State) {
    && s.tracks.Keys <= s.priorities.Keys
    && forall x | x in s.tracks :: NamesItsGroup(s.groups, s.priorities[x].groupId, x)
  }

  /** No group is empty or lists a track that is not active. */
  ghost predicate Manned(groups: map<Id, TrackGroup>, active: set<Id>) {
    forall gid | gid in groups :: MemberSet(groups[gid]) != {} && MemberSet(groups[gid]) <= active
  }

  // ----- One step -----

  /** What an update, a drop and a batch have in common: the groups that the tracks in `a` or `gone` point at
      make way for the groups `f` of tracks in `a`, and the tracks in `a` get new priorities. */
  ghost predicate Replaces(s: State, r: State, f: seq<TrackGroup>, a: set<Id>, gone: set<Id>, touched: set<Id>) {
    && touched == GroupIdsOf(s.trackGroup, a + gone)
    && r.groups == InsertAll(s.groups - touched, f)
    && (forall i, j | 0 <= i < j < |f| :: MemberSet(f[i]) * MemberSet(f[j]) == {})
    && (forall i | 0 <= i < |f| :: MemberSet(f[i]) != {} && MemberSet(f[i]) <= a)
    && a <= r.tracks.Keys && s.tracks.Keys - gone <= r.tracks.Keys <= s.tracks.Keys + a
    && gone * (r.tracks.Keys - a) == {}
    && r.tracks.Keys <= r.priorities.Keys
    && (forall x | x in a :: r.priorities[x].groupId == GroupIdOf(r, x))
    && (forall x | x in r.tracks && x !in a :: x in s.priorities && r.priorities[x] == s.priorities[x])
  }

  ghost predicate Pointing(s: State, r: State, f: seq<TrackGroup>, a: set<Id>) {
    && (forall i, x | 0 <= i < |f| && x in MemberSet(f[i]) :: x in r.trackGroup && r.trackGroup[x] == f[i].groupId)
    && (forall x | x in a && Outside(f, x) :: x !in r.trackGroup)
  }

  /** No touched group has a member that is neither looked at again nor dropped. */
  ghost predicate NoneSticksOut(groups: map<Id, TrackGroup>, touched: set<Id>, a: set<Id>) {
    forall gid | gid in groups && gid in touched :: MemberSet(groups[gid]) <= a
  }

  /** A stored group stays with its members, or is one of the new ones. */
  lemma StoredIs(rest: map<Id, TrackGroup>, f: seq<TrackGroup>, gid: Id)
    ensures gid in InsertAll(rest, f)
            ==> (gid in rest && InsertAll(rest, f)[gid] == rest[gid] && forall i | 0 <= i < |f| :: f[i].groupId != gid)
                || exists i :: 0 <= i < |f| && f[i].groupId == gid && f[i] == InsertAll(rest, f)[gid]
                               && LastWithId(f, i)
    ensures gid in rest ==> gid in InsertAll(rest, f)
  {
    InsertAllStored(rest, f);
    InsertedKeys(rest, f);
    hide InsertAll;
    if gid in InsertAll(rest, f) {
      assert Stored(rest, f, gid, InsertAll(rest, f)[gid]);
    }
  }

  lemma {:induction false} InsertedKeys(rest: map<Id, TrackGroup>, f: seq<TrackGroup>)
    ensures InsertAll(rest, f).Keys == rest.Keys + (set i | 0 <= i < |f| :: f[i].groupId)
    decreases |f|
  {
    if f != [] {
      InsertedKeys(rest, f[..|f| - 1]);
    }
  }

  lemma RestApart(s: State, r: State, f: seq<TrackGroup>, a: set<Id>, gone: set<Id>, touched: set<Id>, gid: Id, x: Id)
    requires Owned(s.groups, s.trackGroup) && Replaces(s, r, f, a, gone, touched)
    requires gid in s.groups && gid !in touched && x in MemberSet(s.groups[gid])
    ensures x !in a && x !in gone
  {
    hide MemberSet, InsertAll;
    assert s.trackGroup[x] == gid;
  }

  /** A track looked at again agrees when its group is stored under its own identifier. */
  lemma LookedAtAgrees(s: State, r: State, f: seq<TrackGroup>, a: set<Id>, gone: set<Id>, touched: set<Id>, x: Id)
    requires Owned(s.groups, s.trackGroup) && Replaces(s, r, f, a, gone, touched) && Pointing(s, r, f, a)
    requires IdsFree(s.groups - touched, f) && x in a && x in r.priorities
    ensures NamesItsGroup(r.groups, r.priorities[x].groupId, x)
  {
    hide NamesItsGroup, Owned, Replaces;
    if i :| 0 <= i < |f| && x in MemberSet(f[i]) {
      RegroupedAgrees(s, r, f, a, gone, touched, x, i);
    } else {
      assert Outside(f, x);
      UngroupedAgrees(s, r, f, a, gone, touched, x);
    }
  }

  lemma RegroupedAgrees(s: State, r: State, f: seq<TrackGroup>, a: set<Id>, gone: set<Id>, touched: set<Id>, x: Id,
                        i: int)
    requires Replaces(s, r, f, a, gone, touched) && Pointing(s, r, f, a) && IdsFree(s.groups - touched, f)
    requires 0 <= i < |f| && x in MemberSet(f[i]) && x in a && x in r.priorities
    ensures NamesItsGroup(r.groups, r.priorities[x].groupId, x)
  {
    hide MemberSet, InsertAll, IdsFree, GroupIdsOf, Outside;
    FreeStored(s.groups - touched, f, i);
    assert r.priorities[x].groupId == Some(f[i].groupId);
  }

  lemma FreeStored(rest: map<Id, TrackGroup>, f: seq<TrackGroup>, i: int)
    requires IdsFree(rest, f) && 0 <= i < |f|
    ensures f[i].groupId in InsertAll(rest, f) && InsertAll(rest, f)[f[i].groupId] == f[i]
  {
    InsertAllStored(rest, f);
    hide InsertAll;
    assert LastWithId(f, i);
    assert Stored(rest, f, f[i].groupId, f[i]);
  }

  lemma UngroupedAgrees(s: State, r: State, f: seq<TrackGroup>, a: set<Id>, gone: set<Id>, touched: set<Id>, x: Id)
    requires Owned(s.groups, s.trackGroup) && Replaces(s, r, f, a, gone, touched) && Pointing(s, r, f, a)
    requires x in a && x in r.priorities && Outside(f, x)
    ensures NamesItsGroup(r.groups, r.priorities[x].groupId, x)
  {
    hide MemberSet, InsertAll, Owned;
    var rest := s.groups - touched;
    assert r.priorities[x].groupId == None;
    forall gid | gid in r.groups ensures x !in MemberSet(r.groups[gid]) {
      StoredIs(rest, f, gid);
      if gid in rest && x in MemberSet(rest[gid]) {
        RestApart(s, r, f, a, gone, touched, gid, x);
      }
    }
  }

  lemma LeftAloneAgrees(s: State, r: State, f: seq<TrackGroup>, a: set<Id>, gone: set<Id>, touched: set<Id>, x: Id)
    requires Owned(s.groups, s.trackGroup) && Replaces(s, r, f, a, gone, touched) && Agrees(s)
    requires IdsFree(s.groups - touched, f) && NoneSticksOut(s.groups, touched, a + gone)
    requires x in r.tracks && x !in a
    ensures NamesItsGroup(r.groups, r.priorities[x].groupId, x)
  {
    hide MemberSet, InsertAll;
    var rest, named := s.groups - touched, s.priorities[x].groupId;
    assert x !in gone by { assert x !in gone * (r.tracks.Keys - a); }
    assert NamesItsGroup(s.groups, named, x);
    match named
    case Some(gid) =>
      assert gid in rest;
      StoredIs(rest, f, gid);
    case None =>
      forall gid | gid in r.groups ensures x !in MemberSet(r.groups[gid]) {
        StoredIs(rest, f, gid);
      }
  }

  /** Where the summary agreed before, a member of a group stands in its own line as such. */
  lemma NamedBefore(s: State, gid: Id, x: Id)
    requires Owned(s.groups, s.trackGroup) && Agrees(s) && x in s.tracks
    requires gid in s.groups && x in MemberSet(s.groups[gid])
    ensures s.priorities[x].groupId == Some(gid)
  {
    hide MemberSet;
    assert NamesItsGroup(s.groups, s.priorities[x].groupId, x);
    assert s.trackGroup[x] == gid;
  }

  lemma StickingOutShows(s: State, r: State, f: seq<TrackGroup>, a: set<Id>, gone: set<Id>, touched: set<Id>, gid: Id,
                         x: Id)
    requires Owned(s.groups, s.trackGroup) && Manned(s.groups, s.tracks.Keys)
    requires Replaces(s, r, f, a, gone, touched) && Agrees(s) && Agrees(r)
    requires gid in s.groups && x in MemberSet(s.groups[gid]) && x !in a + gone
    ensures gid !in touched && forall i | 0 <= i < |f| :: f[i].groupId != gid
  {
    hide MemberSet, InsertAll;
    assert x in s.tracks && x in r.tracks;
    NamedBefore(s, gid, x);
    assert NamesItsGroup(r.groups, Some(gid), x);
    StoredIs(s.groups - touched, f, gid);
  }

  lemma RepeatedShows(s: State, r: State, f: seq<TrackGroup>, a: set<Id>, gone: set<Id>, touched: set<Id>, i: int)
    requires Replaces(s, r, f, a, gone, touched) && Pointing(s, r, f, a) && Agrees(r) && 0 <= i < |f|
    ensures LastWithId(f, i)
  {
    hide InsertAll;
    var gid := f[i].groupId;
    var x :| x in MemberSet(f[i]);
    assert NamesItsGroup(r.groups, r.priorities[x].groupId, x);
    hide MemberSet;
    StoredIs(s.groups - touched, f, gid);
    var j :| 0 <= j < |f| && f[j].groupId == gid && f[j] == r.groups[gid] && LastWithId(f, j);
    OnlyOneHas(f, x, i, j);
  }

  lemma OnlyOneHas(f: seq<TrackGroup>, x: Id, i: int, j: int)
    requires forall i, j | 0 <= i < j < |f| :: MemberSet(f[i]) * MemberSet(f[j]) == {}
    requires 0 <= i < |f| && 0 <= j < |f| && x in MemberSet(f[i]) && x in MemberSet(f[j])
    ensures i == j
  {
    hide MemberSet;
    assert x in MemberSet(f[i]) * MemberSet(f[j]) && x in MemberSet(f[j]) * MemberSet(f[i]);
  }

  /** The heart: after a step the summary agrees if and only if no touched group sticks out and no identifier is
      taken twice. */
  lemma StepAgreesIff(s: State, r: State, f: seq<TrackGroup>, a: set<Id>, gone: set<Id>, touched: set<Id>)
    requires Owned(s.groups, s.trackGroup) && Manned(s.groups, s.tracks.Keys) && Agrees(s)
    requires Replaces(s, r, f, a, gone, touched) && Pointing(s, r, f, a)
    ensures Agrees(r) <==> NoneSticksOut(s.groups, touched, a + gone) && IdsFree(s.groups - touched, f)
  {
    hide NamesItsGroup, Pointing, LastWithId;
    if NoneSticksOut(s.groups, touched, a + gone) && IdsFree(s.groups - touched, f) {
      forall x | x in r.tracks ensures NamesItsGroup(r.groups, r.priorities[x].groupId, x) {
        if x in a {
          LookedAtAgrees(s, r, f, a, gone, touched, x);
        } else {
          LeftAloneAgrees(s, r, f, a, gone, touched, x);
        }
      }
    }
    if Agrees(r) {
      DisagreementsShow(s, r, f, a, gone, touched);
    }
  }

  lemma DisagreementsShow(s: State, r: State, f: seq<TrackGroup>, a: set<Id>, gone: set<Id>, touched: set<Id>)
    requires Owned(s.groups, s.trackGroup) && Manned(s.groups, s.tracks.Keys) && Agrees(s)
    requires Replaces(s, r, f, a, gone, touched) && Pointing(s, r, f, a) && Agrees(r)
    ensures NoneSticksOut(s.groups, touched, a + gone) && IdsFree(s.groups - touched, f)
  {
    hide Agrees, Pointing, Owned;
    forall gid, x | gid in s.groups && gid in touched && x in MemberSet(s.groups[gid]) ensures x in a + gone {
      if x !in a + gone {
        StickingOutShows(s, r, f, a, gone, touched, gid, x);
      }
    }
    forall i | 0 <= i < |f| ensures LastWithId(f, i) && f[i].groupId !in s.groups - touched {
      RepeatedShows(s, r, f, a, gone, touched, i);
      if f[i].groupId in s.groups - touched {
        var x :| x in MemberSet(s.groups[f[i].groupId]);
        RestApart(s, r, f, a, gone, touched, f[i].groupId, x);
        StickingOutShows(s, r, f, a, gone, touched, f[i].groupId, x);
      }
    }
  }

  lemma StepManned(s: State, r: State, f: seq<TrackGroup>, a: set<Id>, gone: set<Id>, touched: set<Id>)
    requires Owned(s.groups, s.trackGroup) && Manned(s.groups, s.tracks.Keys)
    requires Replaces(s, r, f, a, gone, touched)
    ensures Manned(r.groups, r.tracks.Keys)
  {
    hide MemberSet, InsertAll;
    forall gid | gid in r.groups ensures MemberSet(r.groups[gid]) != {} && MemberSet(r.groups[gid]) <= r.tracks.Keys {
      StoredIs(s.groups - touched, f, gid);
      if gid in s.groups - touched && r.groups[gid] == s.groups[gid] {
        forall x | x in MemberSet(s.groups[gid]) ensures x in r.tracks {
          RestApart(s, r, f, a, gone, touched, gid, x);
        }
      }
    }
  }

  // ----- The operations -----

  lemma PointedAt(s: State, r: State, m: map<Id, Id>, f: seq<TrackGroup>, a: set<Id>)
    requires forall i, j | 0 <= i < j < |f| :: MemberSet(f[i]) * MemberSet(f[j]) == {}
    requires r.trackGroup == MapAll(m - a, f)
    ensures Pointing(s, r, f, a)
  {
    hide MapAll, MemberSet;
    MapAllValues(m - a, f);
  }

  lemma AssessedGroup(cfg: StoreConfig, s: State, id: Id, now: real)
    requires id in s.tracks
    ensures forall b :: Assessed(cfg, s, id, b, now).groupId == GroupIdOf(s, id)
  {
  }

  lemma UpdateTrackParts(k: StoreKernel, cfg: StoreConfig, s: State, obs: Observation, score: Option<real>, now: real)
    requires var ch := UpdateChange(StoreGeometry(k, cfg), s, obs); ch.affected <= ch.tracks.Keys
    ensures var ch, r := UpdateChange(StoreGeometry(k, cfg), s, obs), UpdateTrack(k, cfg, s, obs, score, now);
            && r.tracks == ch.tracks && r.priorities.Keys == s.priorities.Keys + ch.affected
            && r.groups == InsertAll(s.groups - ch.touched, NewGroups(k, cfg, s, ch, now))
            && r.trackGroup == MapAll(ch.trackGroup - ch.affected, NewGroups(k, cfg, s, ch, now))
            && (forall x | x in ch.affected :: r.priorities[x].groupId == GroupIdOf(r, x))
            && (forall x | x in s.priorities && x !in ch.affected :: r.priorities[x] == s.priorities[x])
  {
    hide UpdateChange, NewGroups, InsertAll, MapAll, FormAll, Snapshot, Classified, Assessed, A.UpdateState;
    var ch := UpdateChange(StoreGeometry(k, cfg), s, obs);
    var prior := if obs.id in s.anomaly then s.anomaly[obs.id] else A.FRESH;
    var r := Regroup(k, cfg, s, ch, now).(
      anomaly := s.anomaly[obs.id := A.UpdateState(cfg.anomaly, prior, score, now)]);
    forall x | x in ch.affected ensures forall b :: Assessed(cfg, r, x, b, now).groupId == GroupIdOf(r, x) {
      AssessedGroup(cfg, r, x, now);
    }
  }

  lemma UpdateTouched(geo: Geometry, s: State, obs: Observation)
    ensures var ch := UpdateChange(geo, s, obs);
            ch.trackGroup == s.trackGroup && ch.touched == GroupIdsOf(s.trackGroup, ch.affected)
  {
    hide Candidates, Expand, Coords, GroupMates;
  }

  /** What an update does, for the theorem above. */
  lemma UpdateReplaces(k: StoreKernel, cfg: StoreConfig, s: State, obs: Observation, score: Option<real>, now: real)
    requires s.tracks.Keys <= s.priorities.Keys
    ensures var ch, r := UpdateChange(StoreGeometry(k, cfg), s, obs), UpdateTrack(k, cfg, s, obs, score, now);
            var f := NewGroups(k, cfg, s, ch, now);
            && Replaces(s, r, f, ch.affected, {}, ch.touched) && Pointing(s, r, f, ch.affected)
            && ch.affected + {} == ch.affected
  {
    hide UpdateChange, UpdateTrack, NewGroups, InsertAll, MapAll, MemberSet, Pointing, Components, GraphOf, GroupIdsOf,
         NamesItsGroup, StoreGeometry, GroupIdOf;
    var ch, r := UpdateChange(StoreGeometry(k, cfg), s, obs), UpdateTrack(k, cfg, s, obs, score, now);
    var f := NewGroups(k, cfg, s, ch, now);
    ChangeBasics(StoreGeometry(k, cfg), s, obs, obs.id);
    UpdateTouched(StoreGeometry(k, cfg), s, obs);
    NewGroupsAre(k, cfg, s, ch, now);
    UpdateTrackParts(k, cfg, s, obs, score, now);
    assert ch.affected + {} == ch.affected;
    PointedAt(s, r, s.trackGroup, f, ch.affected);
  }

  lemma DropReplaces(k: StoreKernel, cfg: StoreConfig, s: State, id: Id, now: real)
    requires s.tracks.Keys <= s.priorities.Keys && id in s.tracks
    ensures var ch, r := DropChange(StoreGeometry(k, cfg), s, id), DropTrack(k, cfg, s, id, now);
            var f := NewGroups(k, cfg, s, ch, now);
            Replaces(s, r, f, ch.affected, {id}, ch.touched) && Pointing(s, r, f, ch.affected)
  {
    hide DropChange, DropTrack, NewGroups, InsertAll, MapAll, MemberSet, Pointing, Components, GraphOf, GroupIdsOf,
         NamesItsGroup, StoreGeometry, GroupIdOf;
    var ch, r := DropChange(StoreGeometry(k, cfg), s, id), DropTrack(k, cfg, s, id, now);
    var f := NewGroups(k, cfg, s, ch, now);
    DropBasics(StoreGeometry(k, cfg), s, id);
    DropTouched(StoreGeometry(k, cfg), s, id);
    NewGroupsAre(k, cfg, s, ch, now);
    DropTrackParts(k, cfg, s, id, now);
    forall x | x in r.tracks && (x in ch.affected || x in s.priorities)
      ensures x in r.priorities
              && if x in ch.affected then r.priorities[x].groupId == GroupIdOf(r, x)
                 else r.priorities[x] == s.priorities[x]
    {
      DroppedPriority(k, cfg, s, id, now, x);
    }
    PointedAt(s, r, ch.trackGroup, f, ch.affected);
  }

  lemma DropTrackParts(k: StoreKernel, cfg: StoreConfig, s: State, id: Id, now: real)
    requires id in s.tracks
    requires var ch := DropChange(StoreGeometry(k, cfg), s, id); ch.affected <= ch.tracks.Keys
    ensures var ch, r := DropChange(StoreGeometry(k, cfg), s, id), DropTrack(k, cfg, s, id, now);
            && r.tracks == ch.tracks && r.priorities.Keys == (s.priorities.Keys - {id}) + ch.affected
            && r.groups == InsertAll(s.groups - ch.touched, NewGroups(k, cfg, s, ch, now))
            && r.trackGroup == MapAll(ch.trackGroup - ch.affected, NewGroups(k, cfg, s, ch, now))
  {
    hide DropChange, NewGroups, InsertAll, MapAll, FormAll, Snapshot, Assessed;
    TrimmedSame(k, cfg, s, Trimmed(s, id), DropChange(StoreGeometry(k, cfg), s, id), id, now);
  }

  lemma DroppedPriority(k: StoreKernel, cfg: StoreConfig, s: State, id: Id, now: real, x: Id)
    requires id in s.tracks && x != id
    requires var ch := DropChange(StoreGeometry(k, cfg), s, id); ch.affected <= ch.tracks.Keys
    requires x in DropChange(StoreGeometry(k, cfg), s, id).affected || x in s.priorities
    ensures var ch, r := DropChange(StoreGeometry(k, cfg), s, id), DropTrack(k, cfg, s, id, now);
            && x in r.priorities
            && if x in ch.affected then r.priorities[x].groupId == GroupIdOf(r, x)
               else r.priorities[x] == s.priorities[x]
  {
    hide DropChange, NewGroups, InsertAll, MapAll, FormAll, Snapshot, Assessed;
    var ch := DropChange(StoreGeometry(k, cfg), s, id);
    var r := Regroup(k, cfg, Trimmed(s, id), ch, now);
    if x in ch.affected {
      AssessedGroup(cfg, r, x, now);
    }
  }

  lemma BatchParts(k: StoreKernel, cfg: StoreConfig, s: State, observations: seq<Observation>, now: real)
    requires observations != []
    ensures var r, tracks := UpdateBatch(k, cfg, s, observations, now), AddAll(s.tracks, observations);
            && r.tracks == tracks && r.priorities.Keys == tracks.Keys
            && forall x | x in tracks :: r.priorities[x].groupId == GroupIdOf(r, x)
  {
    hide Clusters, Pick, AddAll, InsertAll, MapAll, FormAll, Snapshot, Classified, Assessed;
    var tracks := AddAll(s.tracks, observations);
    var f := Clusters(k.base, cfg.grouping, tracks, Pick(s.groups, k.setOrder(s.groups.Keys)), now);
    var r := s.(tracks := tracks, groups := InsertAll(map[], f), trackGroup := MapAll(map[], f),
                formations := FormAll(k, tracks, map[], f, now), behaviors := map[], priorities := map[]);
    forall x | x in tracks ensures forall b :: Assessed(cfg, r, x, b, now).groupId == GroupIdOf(r, x) {
      AssessedGroup(cfg, r, x, now);
    }
  }

  /** A batch starts from an empty store as far as groups and priorities go. */
  lemma BatchReplaces(k: StoreKernel, cfg: StoreConfig, s: State, observations: seq<Observation>, now: real)
    requires observations != []
    ensures var r, tracks := UpdateBatch(k, cfg, s, observations, now), AddAll(s.tracks, observations);
            var f := Clusters(k.base, cfg.grouping, tracks, Pick(s.groups, k.setOrder(s.groups.Keys)), now);
            Replaces(Initial(now), r, f, tracks.Keys, {}, {}) && Pointing(Initial(now), r, f, tracks.Keys)
  {
    hide Clusters, GridGraph, UpdateBatch, Pick, AddAll, Represents, Components, Component, InsertAll, MapAll,
         Pointing, MemberSet;
    var r, tracks := UpdateBatch(k, cfg, s, observations, now), AddAll(s.tracks, observations);
    var existing := Pick(s.groups, k.setOrder(s.groups.Keys));
    var f := Clusters(k.base, cfg.grouping, tracks, existing, now);
    ClustersAreComponents(k.base, cfg.grouping, tracks, existing, now);
    ClustersDisjoint(k.base, cfg.grouping, tracks, existing, now);
    GraphUndirected(k, cfg, tracks);
    RepresentedSets(k.base, cfg.grouping, GraphOf(k, cfg, tracks), existing, now, f);
    BatchFields(k, cfg, s, observations, now);
    BatchParts(k, cfg, s, observations, now);
    Nobody(tracks.Keys);
    PointedAt(Initial(now), r, map[], f, tracks.Keys);
  }

  lemma Nobody(a: set<Id>)
    ensures var none: map<Id, Id> := map[]; none - a == none && GroupIdsOf(none, a + {}) == {}
    ensures var empty: map<Id, TrackGroup> := map[]; empty - {} == empty
  {
  }

  // ----- Runs -----

  /** What an operation must meet for the summary to keep agreeing with itself. */
  ghost predicate Clean(k: StoreKernel, cfg: StoreConfig, s: State, op: Op) {
    match op
    case Update(obs, _, now) =>
      var ch := UpdateChange(StoreGeometry(k, cfg), s, obs);
      && NoneSticksOut(s.groups, ch.touched, ch.affected)
      && IdsFree(s.groups - ch.touched, NewGroups(k, cfg, s, ch, now))
    case Batch(observations, now) =>
      observations != [] ==>
        IdsFree(map[], Clusters(k.base, cfg.grouping, AddAll(s.tracks, observations),
                                Pick(s.groups, k.setOrder(s.groups.Keys)), now))
    case Drop(id, now) =>
      id in s.tracks ==>
        var ch := DropChange(StoreGeometry(k, cfg), s, id);
        && NoneSticksOut(s.groups, ch.touched, ch.affected + {id})
        && IdsFree(s.groups - ch.touched, NewGroups(k, cfg, s, ch, now))
    case Clear(_) => true
  }

  lemma EmptyAgrees(s: State)
    requires s.tracks == map[] && s.groups == map[]
    ensures Agrees(s) && Manned(s.groups, s.tracks.Keys)
  {
  }

  /** Whatever the state, if its summary agrees then after an operation it does exactly when the operation is
      clean. */
  lemma ApplyAgreesIff(k: StoreKernel, cfg: StoreConfig, s: State, op: Op)
    requires Owned(s.groups, s.trackGroup) && Manned(s.groups, s.tracks.Keys) && Agrees(s)
    ensures Agrees(Apply(k, cfg, s, op)) <==> Clean(k, cfg, s, op)
  {
    hide Owned, Manned, Replaces, Pointing, IdsFree, NoneSticksOut, NewGroups, Clusters, Pick, AddAll, UpdateChange,
         DropChange, UpdateTrack, DropTrack, UpdateBatch, StoreGeometry, NamesItsGroup;
    match op
    case Update(obs, score, now) =>
      var ch, r := UpdateChange(StoreGeometry(k, cfg), s, obs), UpdateTrack(k, cfg, s, obs, score, now);
      UpdateReplaces(k, cfg, s, obs, score, now);
      StepAgreesIff(s, r, NewGroups(k, cfg, s, ch, now), ch.affected, {}, ch.touched);
    case Drop(id, now) =>
      if id in s.tracks {
        var ch, r := DropChange(StoreGeometry(k, cfg), s, id), DropTrack(k, cfg, s, id, now);
        DropReplaces(k, cfg, s, id, now);
        StepAgreesIff(s, r, NewGroups(k, cfg, s, ch, now), ch.affected, {id}, ch.touched);
      } else {
        DropNothing(k, cfg, s, id, now);
      }
    case Batch(observations, now) =>
      if observations != [] {
        BatchAgreesIff(k, cfg, s, observations, now);
      } else {
        EmptyBatch(k, cfg, s, now);
      }
    case Clear(now) => EmptyAgrees(Cleared(s, now));
  }

  lemma BatchAgreesIff(k: StoreKernel, cfg: StoreConfig, s: State, observations: seq<Observation>, now: real)
    requires observations != []
    ensures Agrees(UpdateBatch(k, cfg, s, observations, now)) <==> Clean(k, cfg, s, Batch(observations, now))
  {
    hide Replaces, Pointing, IdsFree, NewGroups, Clusters, Pick, AddAll, UpdateBatch, NamesItsGroup;
    var r, tracks := UpdateBatch(k, cfg, s, observations, now), AddAll(s.tracks, observations);
    var f := Clusters(k.base, cfg.grouping, tracks, Pick(s.groups, k.setOrder(s.groups.Keys)), now);
    BatchReplaces(k, cfg, s, observations, now);
    EmptyAgrees(Initial(now));
    Nobody({});
    StepAgreesIff(Initial(now), r, f, tracks.Keys, {}, {});
  }

  lemma ApplyManned(k: StoreKernel, cfg: StoreConfig, s: State, op: Op)
    requires Owned(s.groups, s.trackGroup) && Manned(s.groups, s.tracks.Keys) && s.tracks.Keys <= s.priorities.Keys
    ensures var r := Apply(k, cfg, s, op); Manned(r.groups, r.tracks.Keys)
  {
    hide Owned, Manned, Replaces, Pointing, NewGroups, Clusters, Pick, AddAll, UpdateChange, DropChange, UpdateTrack,
         DropTrack, UpdateBatch, StoreGeometry, Agrees;
    match op
    case Update(obs, score, now) =>
      var ch, r := UpdateChange(StoreGeometry(k, cfg), s, obs), UpdateTrack(k, cfg, s, obs, score, now);
      UpdateReplaces(k, cfg, s, obs, score, now);
      StepManned(s, r, NewGroups(k, cfg, s, ch, now), ch.affected, {}, ch.touched);
    case Drop(id, now) =>
      if id in s.tracks {
        var ch, r := DropChange(StoreGeometry(k, cfg), s, id), DropTrack(k, cfg, s, id, now);
        DropReplaces(k, cfg, s, id, now);
        StepManned(s, r, NewGroups(k, cfg, s, ch, now), ch.affected, {id}, ch.touched);
      } else {
        DropNothing(k, cfg, s, id, now);
      }
    case Batch(observations, now) =>
      if observations != [] {
        BatchReplaces(k, cfg, s, observations, now);
        EmptyAgrees(Initial(now));
        NothingOwned();
        StepManned(Initial(now), UpdateBatch(k, cfg, s, observations, now),
                   Clusters(k.base, cfg.grouping, AddAll(s.tracks, observations),
                            Pick(s.groups, k.setOrder(s.groups.Keys)), now),
                   AddAll(s.tracks, observations).Keys, {}, {});
      } else {
        EmptyBatch(k, cfg, s, now);
      }
    case Clear(now) => EmptyAgrees(Cleared(s, now));
  }

  /** After every operation of every run, exact or not, no group is empty or lists a track that was dropped. */
  lemma {:induction false} RunManned(k: StoreKernel, cfg: StoreConfig, start: real, ops: seq<Op>)
    ensures var s := Run(k, cfg, start, ops); Manned(s.groups, s.tracks.Keys) && s.tracks.Keys == s.priorities.Keys
    decreases |ops|
  {
    hide Apply, Manned, Owned;
    RunCoherent(k, cfg, start, ops);
    if ops == [] {
      EmptyAgrees(Initial(start));
    } else {
      var prefix := ops[..|ops| - 1];
      RunManned(k, cfg, start, prefix);
      RunOwned(k, cfg, start, prefix);
      ApplyManned(k, cfg, Run(k, cfg, start, prefix), ops[|ops| - 1]);
    }
  }

  /** In a run what a reader sees agrees exactly when the state does. */
  lemma RunSummaryAgreesIff(k: StoreKernel, cfg: StoreConfig, start: real, ops: seq<Op>)
    ensures var s := Run(k, cfg, start, ops); SummaryAgrees(s.summary) <==> Agrees(s)
  {
    var s := Run(k, cfg, start, ops);
    RunCoherent(k, cfg, start, ops);
    SummaryListsEverything(k, cfg, start, ops);
    hide Run, Snapshot, Coherent;
    OwnKeys(s);
    ListedAgreesIff(s);
  }

  lemma OwnKeys(s: State)
    requires Coherent(s)
    ensures forall id | id in s.tracks :: id in s.priorities && s.priorities[id].trackId == id
    ensures forall gid | gid in s.groups :: s.groups[gid].groupId == gid
  {
    hide Snapshot;
  }

  lemma ListedAgreesIff(s: State)
    requires forall p :: p in s.summary.priorities <==> exists id :: id in s.priorities && s.priorities[id] == p
    requires forall g :: g in s.summary.groups <==> exists gid :: gid in s.groups && s.groups[gid] == g
    requires s.priorities.Keys == s.tracks.Keys
    requires forall id | id in s.tracks :: s.priorities[id].trackId == id
    requires forall gid | gid in s.groups :: s.groups[gid].groupId == gid
    ensures SummaryAgrees(s.summary) <==> Agrees(s)
  {
    assert forall gid | gid in s.groups :: s.groups[gid] in s.summary.groups;
    assert forall id | id in s.tracks :: s.priorities[id] in s.summary.priorities;
    forall x | x in s.tracks
      ensures NamesItsGroup(s.groups, s.priorities[x].groupId, x) <==> LineAgrees(s.summary, s.priorities[x])
    {
    }
  }

  lemma OneStepAgreesIff(k: StoreKernel, cfg: StoreConfig, start: real, ops: seq<Op>, i: nat)
    requires i < |ops|
    ensures Agrees(Run(k, cfg, start, ops[..i])) ==>
              (Agrees(Run(k, cfg, start, ops[..i + 1])) <==> Clean(k, cfg, Run(k, cfg, start, ops[..i]), ops[i]))
  {
    hide Apply, Clean, Agrees, Manned, Owned;
    assert ops[..i + 1][..i] == ops[..i];
    RunOwned(k, cfg, start, ops[..i]);
    RunManned(k, cfg, start, ops[..i]);
    if Agrees(Run(k, cfg, start, ops[..i])) {
      ApplyAgreesIff(k, cfg, Run(k, cfg, start, ops[..i]), ops[i]);
    }
  }

  lemma {:induction false} CleanAgrees(k: StoreKernel, cfg: StoreConfig, start: real, ops: seq<Op>, n: nat)
    requires n <= |ops| && forall i | 0 <= i < |ops| :: Clean(k, cfg, Run(k, cfg, start, ops[..i]), ops[i])
    ensures Agrees(Run(k, cfg, start, ops[..n]))
    decreases n
  {
    hide Clean, Agrees;
    if n == 0 {
      EmptyAgrees(Initial(start));
    } else {
      CleanAgrees(k, cfg, start, ops, n - 1);
      OneStepAgreesIff(k, cfg, start, ops, n - 1);
    }
  }

  /** In every run the summary agrees with itself after every operation if and only if every operation is clean:
      no touched group sticks out of the affected set and no identifier is taken twice. */
  lemma RunAgreesIff(k: StoreKernel, cfg: StoreConfig, start: real, ops: seq<Op>)
    ensures (forall n | 0 <= n <= |ops| :: SummaryAgrees(Run(k, cfg, start, ops[..n]).summary))
            <==> (forall i | 0 <= i < |ops| :: Clean(k, cfg, Run(k, cfg, start, ops[..i]), ops[i]))
  {
    hide Run, Clean, SummaryAgrees, Agrees;
    forall n | 0 <= n <= |ops|
      ensures SummaryAgrees(Run(k, cfg, start, ops[..n]).summary) <==> Agrees(Run(k, cfg, start, ops[..n]))
    {
      RunSummaryAgreesIff(k, cfg, start, ops[..n]);
    }
    if forall i | 0 <= i < |ops| :: Clean(k, cfg, Run(k, cfg, start, ops[..i]), ops[i]) {
      forall n | 0 <= n <= |ops| ensures Agrees(Run(k, cfg, start, ops[..n])) {
        CleanAgrees(k, cfg, start, ops, n);
      }
    }
    if forall n | 0 <= n <= |ops| :: SummaryAgrees(Run(k, cfg, start, ops[..n]).summary) {
      forall i | 0 <= i < |ops| ensures Clean(k, cfg, Run(k, cfg, start, ops[..i]), ops[i]) {
        OneStepAgreesIff(k, cfg, start, ops, i);
      }
    }
  }

  // ----- Exactness is visible -----

  /** On an exact store the groups that the affected set touches are the components that it meets. */
  lemma SticksOutIff(k: StoreKernel, cfg: StoreConfig, s: State, a: set<Id>, t: Id)
    requires Exact(k, cfg, s)
    ensures CoversTouchedGroups(GraphOf(k, cfg, s.tracks), t, a, cfg.grouping.minGroupSize)
            <==> NoneSticksOut(s.groups, GroupIdsOf(s.trackGroup, a + {t}), a + {t})
  {
    hide GraphOf, MemberSet, Components;
    var b := a + {t};
    forall gid | gid in s.groups ensures gid in GroupIdsOf(s.trackGroup, b) <==> MemberSet(s.groups[gid]) * b != {} {
      TouchedIff(s.groups, s.trackGroup, b, gid);
    }
    assert forall gid | gid in s.groups :: MemberSet(s.groups[gid]) in MemberSets(s.groups);
  }

  lemma TouchedIff(groups: map<Id, TrackGroup>, trackGroup: map<Id, Id>, b: set<Id>, gid: Id)
    requires Filed(groups, trackGroup) && gid in groups
    ensures gid in GroupIdsOf(trackGroup, b) <==> MemberSet(groups[gid]) * b != {}
  {
    hide MemberSet;
    if gid in GroupIdsOf(trackGroup, b) {
      var x :| x in b && x in trackGroup && trackGroup[x] == gid;
      assert x in MemberSet(groups[gid]) * b;
    }
    if MemberSet(groups[gid]) * b != {} {
      var x :| x in MemberSet(groups[gid]) * b;
      assert trackGroup[x] == gid;
    }
  }

  lemma SafeIffClean(k: StoreKernel, cfg: StoreConfig, s: State, op: Op)
    requires Exact(k, cfg, s) && Covered(k, cfg, s, op) && cfg.grouping.minGroupSize <= 3
    ensures Safe(k, cfg, s, op) <==> Clean(k, cfg, s, op)
  {
    hide UpdateChange, DropChange, UpdateTrack, DropTrack, StepClosed, IdsFree, NewGroups, Clusters, Components,
         GraphOf, Covers, Exact, MemberSets, AddAll, Pick, CoversTouchedGroups, NoneSticksOut, GroupIdsOf,
         StoreGeometry;
    match op
    case Update(obs, score, now) =>
      var ch := UpdateChange(StoreGeometry(k, cfg), s, obs);
      UpdateExactIff(k, cfg, s, obs, score, now);
      UpdateSmallExactIff(k, cfg, s, obs, score, now);
      ChangeBasics(StoreGeometry(k, cfg), s, obs, obs.id);
      UpdateTouched(StoreGeometry(k, cfg), s, obs);
      assert ch.affected + {obs.id} == ch.affected;
      SticksOutIff(k, cfg, s, ch.affected, obs.id);
    case Drop(id, now) =>
      if id in s.tracks {
        var ch := DropChange(StoreGeometry(k, cfg), s, id);
        DropBasics(StoreGeometry(k, cfg), s, id);
        DropTouched(StoreGeometry(k, cfg), s, id);
        SticksOutIff(k, cfg, s, ch.affected, id);
        ClosedIff(k, cfg, s, ch, id);
      }
    case Batch(observations, now) =>
    case Clear(_) =>
  }

  lemma ClosedIff(k: StoreKernel, cfg: StoreConfig, s: State, ch: Change, id: Id)
    requires ch.tracks == s.tracks - {id}
    ensures StepClosed(k, cfg, s, ch, id)
            <==> CoversTouchedGroups(GraphOf(k, cfg, s.tracks), id, ch.affected, cfg.grouping.minGroupSize)
  {
    hide GraphOf, CoversTouchedGroups, Component;
    if CoversTouchedGroups(GraphOf(k, cfg, s.tracks), id, ch.affected, cfg.grouping.minGroupSize) {
      DroppedClosed(k, cfg, s, ch, id);
    }
  }

  ghost predicate AllCovered(k: StoreKernel, cfg: StoreConfig, start: real, ops: seq<Op>) {
    forall i | 0 <= i < |ops| :: Covered(k, cfg, Run(k, cfg, start, ops[..i]), ops[i])
  }

  lemma {:induction false} SafeRunIffClean(k: StoreKernel, cfg: StoreConfig, start: real, ops: seq<Op>)
    requires AllCovered(k, cfg, start, ops) && cfg.grouping.minGroupSize <= 3
    ensures (forall i | 0 <= i < |ops| :: Safe(k, cfg, Run(k, cfg, start, ops[..i]), ops[i]))
            <==> (forall i | 0 <= i < |ops| :: Clean(k, cfg, Run(k, cfg, start, ops[..i]), ops[i]))
    decreases |ops|
  {
    hide Run, Safe, Clean, Covered, Exact;
    if ops != [] {
      var m := |ops| - 1;
      var prefix := ops[..m];
      assert forall i | 0 <= i < m :: prefix[..i] == ops[..i];
      SafeRunIffClean(k, cfg, start, prefix);
      if forall i | 0 <= i < m :: Safe(k, cfg, Run(k, cfg, start, ops[..i]), ops[i]) {
        RunExact(k, cfg, start, prefix);
        SafeIffClean(k, cfg, Run(k, cfg, start, prefix), ops[m]);
      }
    }
  }

  /** With the default group size (or three), in a run whose positions the grid covers, the groups are right after
      every operation if and only if the summary agrees with itself after every operation: a store that has lost
      or split a group says so. */
  lemma RunExactIffAgrees(k: StoreKernel, cfg: StoreConfig, start: real, ops: seq<Op>)
    requires AllCovered(k, cfg, start, ops) && cfg.grouping.minGroupSize <= 3
    ensures (forall n | 0 <= n <= |ops| :: Exact(k, cfg, Run(k, cfg, start, ops[..n])))
            <==> (forall n | 0 <= n <= |ops| :: SummaryAgrees(Run(k, cfg, start, ops[..n]).summary))
  {
    hide Run, Safe, Clean, Covered, Exact, SummaryAgrees;
    RunExactIff(k, cfg, start, ops);
    SafeRunIffClean(k, cfg, start, ops);
    RunAgreesIff(k, cfg, start, ops);
  }
}
