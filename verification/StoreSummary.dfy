/** What a reader finds in the cached summary, over every run. */
module StoreSummary {
  import opened TrackIds
  import opened Graph
  import opened Grouping
  import opened StoreModel
  import opened StoreExactness
  import opened StoreRuns
  import B = Behavior
  import P = Priority

  /** The list holds exactly the values of the dictionary, each once, in strictly ascending key order. */
  ghost predicate Lists<V(!new)>(values: seq<V>, m: map<Id, V>, key: V -> Id) {
    && |values| == |m|
    && (forall v :: v in values <==> exists id :: id in m && m[id] == v)
    && (forall i, j | 0 <= i < j < |values| :: Below(key(values[i]), key(values[j])))
  }

  lemma ValuesAre<V(!new)>(m: map<Id, V>, ids: seq<Id>)
    requires forall id :: id in ids <==> id in m
    ensures forall v :: v in ValuesInOrder(m, ids) <==> exists id :: id in m && m[id] == v
  {
    var values := ValuesInOrder(m, ids);
    hide ValuesInOrder;
    forall id | id in m ensures m[id] in values {
      var i :| 0 <= i < |ids| && ids[i] == id;
      assert values[i] == m[id];
    }
    forall v | v in values ensures exists id :: id in m && m[id] == v {
      var i :| 0 <= i < |values| && values[i] == v;
      assert ids[i] in ids;
    }
  }

  lemma ListsInOrder<V(!new)>(m: map<Id, V>, key: V -> Id, prefix: string)
    requires forall id | id in m :: key(m[id]) == prefix + id
    ensures Lists(ValuesInOrder(m, Sorted(m.Keys)), m, key)
  {
    hide Sorted, ValuesInOrder, Below;
    var ids := Sorted(m.Keys);
    ValuesAre(m, ids);
    var values := ValuesInOrder(m, ids);
    forall i, j | 0 <= i < j < |values| ensures Below(key(values[i]), key(values[j])) {
      assert ids[i] in ids && ids[j] in ids;
      BelowPrefixed(prefix, ids[i], ids[j]);
    }
  }

  lemma OwnOrder<V(!new)>(m: map<Id, V>, key: V -> Id)
    requires forall id | id in m :: key(m[id]) == id
    ensures Lists(ValuesInOrder(m, Sorted(m.Keys)), m, key)
  {
    hide Lists, ValuesInOrder, Sorted;
    forall id | id in m ensures key(m[id]) == "" + id {
      assert "" + id == id;
    }
    ListsInOrder(m, key, "");
  }

  /** After every operation of every run the summary lists every group in the order of group identifiers,
      every formation in the order of formation identifiers, and one behaviour and one priority for every
      active track in the order of track identifiers, and nothing else. */
  lemma SummaryListsEverything(k: StoreKernel, cfg: StoreConfig, start: real, ops: seq<Op>)
    ensures var s := Run(k, cfg, start, ops);
            && Lists(s.summary.groups, s.groups, (g: TrackGroup) => g.groupId)
            && Lists(s.summary.formations, s.formations, (f: Formation) => f.formationId)
            && Lists(s.summary.behaviors, s.behaviors, (b: B.BehaviorClassification) => b.trackId)
            && Lists(s.summary.priorities, s.priorities, (p: P.Assessment) => p.trackId)
            && s.behaviors.Keys == s.priorities.Keys == s.tracks.Keys
  {
    RunCoherent(k, cfg, start, ops);
    var s := Run(k, cfg, start, ops);
    hide Run, Lists, Sorted, ValuesInOrder;
    OwnOrder(s.groups, (g: TrackGroup) => g.groupId);
    ListsInOrder(s.formations, (f: Formation) => f.formationId, "FMT-");
    OwnOrder(s.behaviors, (b: B.BehaviorClassification) => b.trackId);
    OwnOrder(s.priorities, (p: P.Assessment) => p.trackId);
  }

  /** So each active track has exactly one line of either kind, and other tracks have none. */
  lemma OneLineEach(k: StoreKernel, cfg: StoreConfig, start: real, ops: seq<Op>, id: Id)
    ensures var s := Run(k, cfg, start, ops);
            && (id in s.tracks <==>
                  exists i :: 0 <= i < |s.summary.behaviors| && s.summary.behaviors[i].trackId == id)
            && (id in s.tracks <==>
                  exists i :: 0 <= i < |s.summary.priorities| && s.summary.priorities[i].trackId == id)
            && (forall i, j | 0 <= i < j < |s.summary.behaviors| ::
                  s.summary.behaviors[i].trackId != s.summary.behaviors[j].trackId)
            && (forall i, j | 0 <= i < j < |s.summary.priorities| ::
                  s.summary.priorities[i].trackId != s.summary.priorities[j].trackId)
  {
    SummaryListsEverything(k, cfg, start, ops);
    RunCoherent(k, cfg, start, ops);
    var s := Run(k, cfg, start, ops);
    hide Run, Snapshot;
    assert forall i | 0 <= i < |s.summary.behaviors| :: s.summary.behaviors[i] in s.summary.behaviors;
    assert forall i | 0 <= i < |s.summary.priorities| :: s.summary.priorities[i] in s.summary.priorities;
    if id in s.tracks {
      assert s.behaviors[id] in s.summary.behaviors && s.priorities[id] in s.summary.priorities;
    }
    forall i, j | 0 <= i < j < |s.summary.behaviors|
      ensures s.summary.behaviors[i].trackId != s.summary.behaviors[j].trackId
    {
      BelowIrreflexive(s.summary.behaviors[i].trackId);
    }
    forall i, j | 0 <= i < j < |s.summary.priorities|
      ensures s.summary.priorities[i].trackId != s.summary.priorities[j].trackId
    {
      BelowIrreflexive(s.summary.priorities[i].trackId);
    }
  }

  /** On an exact store the groups a reader sees are the components of all active tracks. */
  lemma SummaryIsExact(k: StoreKernel, cfg: StoreConfig, start: real, ops: seq<Op>)
    requires Exact(k, cfg, Run(k, cfg, start, ops))
    ensures var s := Run(k, cfg, start, ops);
            (set g | g in s.summary.groups :: MemberSet(g))
            == Components(GraphOf(k, cfg, s.tracks), cfg.grouping.minGroupSize)
  {
    SummaryListsEverything(k, cfg, start, ops);
    var s := Run(k, cfg, start, ops);
    hide Run, GraphOf, Components, MemberSet, Filed;
    var listed := set g | g in s.summary.groups :: MemberSet(g);
    forall c ensures c in listed <==> c in MemberSets(s.groups) {
      if c in MemberSets(s.groups) {
        var gid :| gid in s.groups && MemberSet(s.groups[gid]) == c;
        assert s.groups[gid] in s.summary.groups;
      }
    }
  }

  /** The summary is as of the last operation that changed anything. */
  lemma SummaryIsTimely(k: StoreKernel, cfg: StoreConfig, s: State, op: Op)
    ensures var r := Apply(k, cfg, s, op);
            if Effective(s, op) then r.summary.evaluatedAt == op.now && r.version == s.version + 1 else r == s
  {
    hide UpdateChange, DropChange, Regroup, Clusters, InsertAll, MapAll, FormAll, Classified, Assessed, Pick, AddAll;
    match op
    case Update(obs, score, now) => UpdateVersion(k, cfg, s, obs, score, now);
    case Batch(observations, now) =>
    case Drop(id, now) => DropVersion(k, cfg, s, id, now);
    case Clear(now) =>
  }

  lemma UpdateVersion(k: StoreKernel, cfg: StoreConfig, s: State, obs: Observation, score: Option<real>, now: real)
    ensures var r := UpdateTrack(k, cfg, s, obs, score, now);
            r.summary.evaluatedAt == now && r.version == s.version + 1
  {
    hide UpdateChange, NewGroups, InsertAll, MapAll, FormAll, Classified, Assessed, ValuesInOrder;
  }

  lemma DropVersion(k: StoreKernel, cfg: StoreConfig, s: State, id: Id, now: real)
    ensures var r := DropTrack(k, cfg, s, id, now);
            if id in s.tracks then r.summary.evaluatedAt == now && r.version == s.version + 1 else r == s
  {
    hide DropChange, NewGroups, InsertAll, MapAll, FormAll, Assessed, ValuesInOrder;
  }
}
