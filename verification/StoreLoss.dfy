/** Runs of the store that lose a group, each reached from the start in a few operations on the equator:
    through the second hop of an update or a drop, through a halved group, and through a repeated hash. */
module StoreLoss {
  import opened TrackIds
  import opened Graph
  import opened SpatialGrid
  import opened Grouping
  import opened StoreModel
  import opened StoreExactness
  import opened StoreRuns
  import opened StoreIds
  import opened EquatorLine

  datatype Five = Five(a: Id, b: Id, c: Id, d: Id, e: Id) {
    predicate Distinct() { FourDistinct() && a != e && b != e && c != e && d != e }

    predicate FourDistinct() { a != b && a != c && a != d && b != c && b != d && c != d }
  }

  // ----- Batches of sightings -----

  type Move = (Id, real)

  function Moved(at: Places, moves: seq<Move>): Places {
    if moves == [] then at
    else Moved(at, moves[..|moves| - 1])[moves[|moves| - 1].0 := moves[|moves| - 1].1]
  }

  function Sightings(k: StoreKernel, cfg: StoreConfig, moves: seq<Move>): (r: seq<Observation>)
    ensures |r| == |moves|
  {
    seq(|moves|, i requires 0 <= i < |moves| => Seen(k, cfg, moves[i].0, moves[i].1))
  }

  lemma {:induction false} MovedLine(k: StoreKernel, cfg: StoreConfig, at: Places, moves: seq<Move>)
    ensures AddAll(Line(k, cfg, at), Sightings(k, cfg, moves)) == Line(k, cfg, Moved(at, moves))
    decreases |moves|
  {
    if moves != [] {
      var prefix, last := moves[..|moves| - 1], moves[|moves| - 1];
      MovedLine(k, cfg, at, prefix);
      assert Sightings(k, cfg, moves)[..|moves| - 1] == Sightings(k, cfg, prefix);
      assert Line(k, cfg, Moved(at, moves)) == Line(k, cfg, Moved(at, prefix))[last.0 := Seen(k, cfg, last.0, last.1)];
    }
  }

  lemma NobodyInLine(k: StoreKernel, cfg: StoreConfig)
    ensures Line(k, cfg, map[]) == map[]
  {
  }

  /** The default grouping, at a threshold of exactly one half. */
  ghost predicate Setting(k: StoreKernel, cfg: StoreConfig) {
    Sized(k, cfg) && Equator(k, cfg) && cfg.grouping.minGroupSize == 2
  }

  /** The store has one group, filed under `id`. */
  ghost predicate Sole(s: State, id: Id, members: set<Id>) {
    s.groups.Keys == {id} && s.groups[id].groupId == id && MemberSet(s.groups[id]) == members
  }

  lemma SolePick(k: StoreKernel, groups: map<Id, TrackGroup>, id: Id)
    requires ListsSets(k) && groups.Keys == {id}
    ensures Pick(groups, k.setOrder(groups.Keys)) == [groups[id]]
  {
    var q := k.setOrder({id});
    assert Distinct(q) && Elements(q) == {id};
    DistinctSize(q);
    assert |q| == 1 && q[0] in Elements(q);
    assert q == [id] && [id][..0] == [];
  }

  /** What a batch on a population in a row starts from. */
  lemma BatchBasics(k: StoreKernel, cfg: StoreConfig, s: State, at: Places, moves: seq<Move>, now: real)
    requires Setting(k, cfg) && s.tracks == Line(k, cfg, at) && Spaced(Moved(at, moves)) && moves != []
    ensures var r, to := UpdateBatch(k, cfg, s, Sightings(k, cfg, moves), now), Line(k, cfg, Moved(at, moves));
            var p := Pick(s.groups, k.setOrder(s.groups.Keys));
            var f := Clusters(k.base, cfg.grouping, to, p, now);
            && r.tracks == to && r.groups == InsertAll(map[], f) && GraphOf(k, cfg, to) == CloseGraph(Moved(at, moves))
            && Represents(k.base, cfg.grouping, p, now, Components(CloseGraph(Moved(at, moves)), 2), f)
            && (IdsFree(map[], f) ==> Exact(k, cfg, r))
  {
    MovedLine(k, cfg, at, moves);
    LineGraph(k, cfg, Moved(at, moves));
    var p := Pick(s.groups, k.setOrder(s.groups.Keys));
    hide Clusters, Components, GridGraph, Represents, UpdateBatch, Sightings, Moved, Line, CloseGraph, AddAll,
         InsertAll, IdsFree, Exact,
         Pick, Spaced, Sized, Equator, MemberSets;
    BatchFields(k, cfg, s, Sightings(k, cfg, moves), now);
    BatchExactIff(k, cfg, s, Sightings(k, cfg, moves), now);
    ClustersAreComponents(k.base, cfg.grouping, Line(k, cfg, Moved(at, moves)), p, now);
    SameGraph(k, cfg, Line(k, cfg, Moved(at, moves)));
  }

  /** Records of a single set are a single record. */
  lemma OneRecord(k: Kernel, cfg: GroupingConfig, p: seq<TrackGroup>, now: real, c: set<Id>, f: seq<TrackGroup>)
    requires Represents(k, cfg, p, now, {c}, f)
    ensures |f| == 1 && MemberSet(f[0]) == c && f[0].groupId == AssignedId(k, c, p, cfg.overlapThreshold)
  {
    hide AssignedId, GroupOf, MemberSet;
    var i := RecordOfSet(k, cfg, p, now, {c}, f, c);
    RecordMeans(k, cfg, p, now, c, f[i]);
    assert f[i] in f;
    forall j | 0 <= j < |f| ensures f[j] == f[i] {
      var d := SetOfRecord(k, cfg, p, now, {c}, f, j);
    }
    if |f| > 1 {
      TwiceCounts(f, 0, 1);
    }
  }

  lemma OneInserted(f: seq<TrackGroup>)
    requires |f| == 1
    ensures InsertAll(map[], f) == map[f[0].groupId := f[0]] && IdsFree(map[], f)
  {
    assert f[..0] == [];
  }

  /** A batch that leaves one component leaves one group. */
  lemma BatchSole(k: StoreKernel, cfg: StoreConfig, s: State, at: Places, moves: seq<Move>, now: real, c: set<Id>)
    requires Setting(k, cfg) && s.tracks == Line(k, cfg, at) && Spaced(Moved(at, moves)) && moves != []
    requires Components(CloseGraph(Moved(at, moves)), 2) == {c}
    ensures var r := UpdateBatch(k, cfg, s, Sightings(k, cfg, moves), now);
            && r.tracks == Line(k, cfg, Moved(at, moves)) && Exact(k, cfg, r)
            && Sole(r, AssignedId(k.base, c, Pick(s.groups, k.setOrder(s.groups.Keys)),
                                  cfg.grouping.overlapThreshold), c)
  {
    hide Clusters, Components, CloseGraph, Represents, UpdateBatch, Sightings, Moved, Line, Exact, Pick, Spaced,
         AssignedId, GraphOf,
         Sized, Equator, MemberSet;
    BatchBasics(k, cfg, s, at, moves, now);
    var p := Pick(s.groups, k.setOrder(s.groups.Keys));
    var f := Clusters(k.base, cfg.grouping, Line(k, cfg, Moved(at, moves)), p, now);
    OneRecord(k.base, cfg.grouping, p, now, c, f);
    OneInserted(f);
  }

  lemma InheritsSole(k: Kernel, c: set<Id>, g: TrackGroup, threshold: real)
    requires Jaccard(c, MemberSet(g)) >= threshold >= 0.5
    ensures AssignedId(k, c, [g], threshold) == g.groupId
  {
    hide Jaccard, MemberSet;
    assert IsBest(c, [g], threshold, 0);
  }

  lemma HashesSole(k: Kernel, c: set<Id>, g: TrackGroup, threshold: real)
    requires Jaccard(c, MemberSet(g)) < threshold
    ensures AssignedId(k, c, [g], threshold) == HashOf(k, c)
  {
    hide Jaccard, MemberSet;
    assert !Inherits(c, [g], threshold);
  }

  lemma HashesAlone(k: Kernel, c: set<Id>, threshold: real)
    ensures AssignedId(k, c, [], threshold) == HashOf(k, c)
  {
    assert !Inherits(c, [], threshold);
  }

  /** A batch whose two components are assigned one identifier leaves a single group. */
  lemma BatchOverwrites(k: StoreKernel, cfg: StoreConfig, s: State, at: Places, moves: seq<Move>, now: real,
                        x: set<Id>, y: set<Id>, id: Id)
    requires Setting(k, cfg) && s.tracks == Line(k, cfg, at) && Spaced(Moved(at, moves)) && moves != []
    requires Components(CloseGraph(Moved(at, moves)), 2) == {x, y}
    requires var p := Pick(s.groups, k.setOrder(s.groups.Keys));
             AssignedId(k.base, x, p, cfg.grouping.overlapThreshold)
                 == AssignedId(k.base, y, p, cfg.grouping.overlapThreshold) == id
    ensures var r := UpdateBatch(k, cfg, s, Sightings(k, cfg, moves), now);
            && r.tracks == Line(k, cfg, Moved(at, moves)) && r.groups.Keys == {id}
            && Components(GraphOf(k, cfg, r.tracks), 2) == {x, y}
  {
    hide Clusters, Components, CloseGraph, Represents, UpdateBatch, Sightings, Moved, Line, Exact, Pick, Spaced,
         AssignedId, GraphOf, GroupOf,
         MemberSet, InsertAll, Sized, Equator;
    BatchBasics(k, cfg, s, at, moves, now);
    var p := Pick(s.groups, k.setOrder(s.groups.Keys));
    var f := Clusters(k.base, cfg.grouping, Line(k, cfg, Moved(at, moves)), p, now);
    forall i | 0 <= i < |f| ensures f[i].groupId == id {
      var c := SetOfRecord(k.base, cfg.grouping, p, now, {x, y}, f, i);
      RecordMeans(k.base, cfg.grouping, p, now, c, f[i]);
    }
    var i := RecordOfSet(k.base, cfg.grouping, p, now, {x, y}, f, x);
    OneKey(f, id);
  }

  lemma OneKey(f: seq<TrackGroup>, id: Id)
    requires f != [] && forall i | 0 <= i < |f| :: f[i].groupId == id
    ensures InsertAll(map[], f).Keys == {id}
  {
    InsertAllStored(map[], f);
    var r := InsertAll(map[], f);
    assert LastWithId(f, |f| - 1) && Stored(map[], f, id, f[|f| - 1]);
    forall gid | gid in r ensures gid == id {
      assert Stored(map[], f, gid, r[gid]);
    }
  }

  lemma RunMore(k: StoreKernel, cfg: StoreConfig, start: real, ops: seq<Op>, op: Op)
    ensures Run(k, cfg, start, ops + [op]) == Apply(k, cfg, Run(k, cfg, start, ops), op)
  {
    hide Apply;
    assert (ops + [op])[..|ops + [op]| - 1] == ops;
  }

  // ----- A halved group -----

  function ChainOfFour(q: Five): seq<Move> { [(q.a, 0.0), (q.b, 0.9), (q.c, 1.8), (q.d, 2.7)] }

  lemma MovedFour(q: Five, u: real, v: real, w: real, z: real)
    requires q.FourDistinct()
    ensures Moved(map[], [(q.a, u), (q.b, v), (q.c, w), (q.d, z)]) == map[q.a := u, q.b := v, q.c := w, q.d := z]
  {
    var o: seq<Move> := [(q.a, u), (q.b, v), (q.c, w), (q.d, z)];
    var none: Places := map[];
    assert o[..3] == [o[0], o[1], o[2]] && o[..3][..2] == [o[0], o[1]] && o[..3][..2][..1] == [o[0]]
        && [o[0]][..0] == [];
    assert Moved(none, [o[0]]) == none[q.a := u];
    assert Moved(none, [o[0], o[1]]) == none[q.a := u][q.b := v];
    assert Moved(none, [o[0], o[1], o[2]]) == none[q.a := u][q.b := v][q.c := w];
  }

  lemma MovedOne(at: Places, x: Id, u: real)
    ensures Moved(at, [(x, u)]) == at[x := u]
  {
    assert [(x, u)][..0] == [];
  }

  lemma SpacedMore(at: Places, x: Id, u: real)
    requires Spaced(at) && 0.0 <= u <= 8.0 && x !in at && forall y | y in at :: Gap(at[y], u)
    ensures Spaced(at[x := u])
  {
    assert forall y | y in at :: Gap(u, at[y]);
    assert Gap(u, u);
    hide Gap;
  }

  lemma SpacedFour(q: Five, u: real, v: real, w: real, z: real)
    requires q.FourDistinct() && 0.0 <= u <= 8.0 && 0.0 <= v <= 8.0 && 0.0 <= w <= 8.0 && 0.0 <= z <= 8.0
    requires Gap(u, v) && Gap(u, w) && Gap(u, z) && Gap(v, w) && Gap(v, z) && Gap(w, z)
    ensures Spaced(map[q.a := u, q.b := v, q.c := w, q.d := z])
  {
    var none: Places := map[];
    assert Spaced(none);
    hide Gap, Spaced;
    SpacedMore(none, q.a, u);
    SpacedMore(none[q.a := u], q.b, v);
    SpacedMore(none[q.a := u][q.b := v], q.c, w);
    SpacedMore(none[q.a := u][q.b := v][q.c := w], q.d, z);
    assert none[q.a := u][q.b := v][q.c := w][q.d := z] == map[q.a := u, q.b := v, q.c := w, q.d := z];
  }

  lemma SpacedFive(q: Five, u: real, v: real, w: real, z: real, t: real)
    requires q.Distinct() && 0.0 <= u <= 8.0 && 0.0 <= v <= 8.0 && 0.0 <= w <= 8.0 && 0.0 <= z <= 8.0 && 0.0 <= t <= 8.0
    requires Gap(u, v) && Gap(u, w) && Gap(u, z) && Gap(v, w) && Gap(v, z) && Gap(w, z)
    requires Gap(u, t) && Gap(v, t) && Gap(w, t) && Gap(z, t)
    ensures Spaced(map[q.a := u, q.b := v, q.c := w, q.d := z, q.e := t])
  {
    hide Gap, Spaced;
    SpacedFour(q, u, v, w, z);
    var at: Places := map[q.a := u, q.b := v, q.c := w, q.d := z];
    SpacedMore(at, q.e, t);
    assert at[q.e := t] == map[q.a := u, q.b := v, q.c := w, q.d := z, q.e := t];
  }

  function FourInChain(q: Five): Places { map[q.a := 0.0, q.b := 0.9, q.c := 1.8, q.d := 2.7] }

  function TwoPairs(q: Five): Places { map[q.a := 0.0, q.b := 0.45, q.c := 1.8, q.d := 2.7] }

  /** The components are the given sets, when every track's component is one of them or it is alone. */
  lemma ComponentsAre(g: Adjacency, sets: set<set<Id>>)
    requires forall x | x in g :: Component(g, x) in sets || |Component(g, x)| < 2
    requires forall c | c in sets :: |c| >= 2 && exists x :: x in g && Component(g, x) == c
    ensures Components(g, 2) == sets
  {
    hide Component;
    forall c ensures c in Components(g, 2) <==> c in sets {}
  }

  lemma FourInChainIs(q: Five)
    requires q.FourDistinct()
    ensures Spaced(FourInChain(q)) && Chain(FourInChain(q), [q.a, q.b, q.c, q.d])
  {
    var at := FourInChain(q);
    assert Close(at, q.a, q.b) && Close(at, q.b, q.c) && Close(at, q.c, q.d);
    assert at.Keys == {q.a, q.b, q.c, q.d} == Elements([q.a, q.b, q.c, q.d]);
    SpacedFour(q, 0.0, 0.9, 1.8, 2.7);
    hide Close, Spaced, FourInChain;
    assert Shut(at, Elements([q.a, q.b, q.c, q.d]));
  }

  lemma FourInChainParts(q: Five)
    requires q.FourDistinct()
    ensures Spaced(FourInChain(q)) && Components(CloseGraph(FourInChain(q)), 2) == {{q.a, q.b, q.c, q.d}}
  {
    hide Component, Chain, Spaced, CloseGraph;
    var at, all := FourInChain(q), [q.a, q.b, q.c, q.d];
    FourInChainIs(q);
    assert Elements(all) == {q.a, q.b, q.c, q.d};
    assert CloseGraph(at).Keys == {q.a, q.b, q.c, q.d} by { CloseKeys(at); }
    forall x | x in at ensures Component(CloseGraph(at), x) == {q.a, q.b, q.c, q.d} {
      ChainIsComponent(at, all, x);
    }
    FourSize(q);
    assert q.a in at;
    hide FourInChain;
    ComponentsAre(CloseGraph(at), {{q.a, q.b, q.c, q.d}});
  }

  lemma CloseKeys(at: Places)
    ensures CloseGraph(at).Keys == at.Keys
  {
  }

  lemma TwoPairsAre(q: Five)
    requires q.FourDistinct()
    ensures Spaced(TwoPairs(q)) && Chain(TwoPairs(q), [q.a, q.b]) && Chain(TwoPairs(q), [q.c, q.d])
  {
    hide Spaced;
    var at := TwoPairs(q);
    SpacedFour(q, 0.0, 0.45, 1.8, 2.7);
    TwoPairsShut(q);
    assert Close(at, q.a, q.b) && Close(at, q.c, q.d);
    assert {q.a, q.b} == Elements([q.a, q.b]) && {q.c, q.d} == Elements([q.c, q.d]);
    assert q.a in at && q.b in at && q.c in at && q.d in at;
    hide Close, Spaced, TwoPairs, Shut;
  }

  lemma TwoPairsShut(q: Five)
    requires q.FourDistinct()
    ensures Shut(TwoPairs(q), {q.a, q.b}) && Shut(TwoPairs(q), {q.c, q.d})
  {
  }

  lemma PairChain(at: Places, x: Id, y: Id)
    requires Chain(at, [x, y]) && x != y
    ensures Component(CloseGraph(at), x) == Component(CloseGraph(at), y) == {x, y} && |{x, y}| == 2
            && x in CloseGraph(at)
  {
    hide Component;
    assert Elements([x, y]) == {x, y};
    ChainIsComponent(at, [x, y], x);
    ChainIsComponent(at, [x, y], y);
    assert [x, y][0] in at;
  }

  lemma TwoPairsParts(q: Five)
    requires q.FourDistinct()
    ensures Spaced(TwoPairs(q)) && Components(CloseGraph(TwoPairs(q)), 2) == {{q.a, q.b}, {q.c, q.d}}
  {
    hide Component, Chain, Spaced, CloseGraph;
    var at := TwoPairs(q);
    TwoPairsAre(q);
    PairChain(at, q.a, q.b);
    PairChain(at, q.c, q.d);
    assert CloseGraph(at).Keys == {q.a, q.b, q.c, q.d} by { CloseKeys(at); }
    hide TwoPairs;
    ComponentsAre(CloseGraph(at), {{q.a, q.b}, {q.c, q.d}});
  }

  lemma FourSize(q: Five)
    requires q.FourDistinct()
    ensures |{q.a, q.b, q.c, q.d}| == 4
  {
  }

  /** At the default threshold a group of four that splits into two pairs becomes a single pair: the second
      pair takes the identifier of the first, and its place in the dictionary. */
  lemma StoreLosesHalf(k: StoreKernel, cfg: StoreConfig, q: Five, start: real, now: real, later: real)
    requires Setting(k, cfg) && ListsSets(k) && cfg.grouping.overlapThreshold == 0.5 && q.FourDistinct()
    ensures var first := Batch(Sightings(k, cfg, ChainOfFour(q)), now);
            var s := Run(k, cfg, start, [first]);
            var r := Run(k, cfg, start, [first, Batch(Sightings(k, cfg, [(q.b, 0.45)]), later)]);
            && Exact(k, cfg, s) && (exists id :: Sole(s, id, {q.a, q.b, q.c, q.d}) && r.groups.Keys == {id})
            && Components(GraphOf(k, cfg, r.tracks), cfg.grouping.minGroupSize) == {{q.a, q.b}, {q.c, q.d}}
  {
    hide Sightings, Spaced, CloseGraph, Components, UpdateBatch, Exact, Line, GraphOf, AssignedId, Pick, MemberSet,
         Sized, Equator, Run;
    var first, second := Batch(Sightings(k, cfg, ChainOfFour(q)), now), Batch(Sightings(k, cfg, [(q.b, 0.45)]), later);
    RunTwo(k, cfg, start, first, second);
    MovedFour(q, 0.0, 0.9, 1.8, 2.7);
    FourInChainParts(q);
    NobodyInLine(k, cfg);
    var all := {q.a, q.b, q.c, q.d};
    BatchSole(k, cfg, Initial(start), map[], ChainOfFour(q), now, all);
    var s := UpdateBatch(k, cfg, Initial(start), Sightings(k, cfg, ChainOfFour(q)), now);
    var id := AssignedId(k.base, all, Pick(Initial(start).groups, k.setOrder({})), 0.5);
    assert Initial(start).groups.Keys == {};
    assert Sole(s, id, all);
    MovedOne(FourInChain(q), q.b, 0.45);
    assert FourInChain(q)[q.b := 0.45] == TwoPairs(q);
    hide FourInChain, TwoPairs, Moved;
    TwoPairsParts(q);
    SolePick(k, s.groups, id);
    HalvesInherit(k.base, q, s.groups[id]);
    BatchOverwrites(k, cfg, s, FourInChain(q), [(q.b, 0.45)], later, {q.a, q.b}, {q.c, q.d}, id);
  }

  lemma RunTwo(k: StoreKernel, cfg: StoreConfig, start: real, o: Op, p: Op)
    ensures Run(k, cfg, start, [o]) == Apply(k, cfg, Initial(start), o)
    ensures Run(k, cfg, start, [o, p]) == Apply(k, cfg, Run(k, cfg, start, [o]), p)
  {
    hide Apply;
    assert [] + [o] == [o] && [o] + [p] == [o, p];
    RunMore(k, cfg, start, [], o);
    RunMore(k, cfg, start, [o], p);
  }

  lemma HalvesInherit(k: Kernel, q: Five, g: TrackGroup)
    requires q.FourDistinct() && MemberSet(g) == {q.a, q.b, q.c, q.d}
    ensures AssignedId(k, {q.a, q.b}, [g], 0.5) == g.groupId == AssignedId(k, {q.c, q.d}, [g], 0.5)
  {
    hide AssignedId, MemberSet, Jaccard;
    HalfOfUnion({q.a, q.b}, {q.c, q.d});
    HalfOfUnion({q.c, q.d}, {q.a, q.b});
    assert {q.a, q.b} + {q.c, q.d} == MemberSet(g) == {q.c, q.d} + {q.a, q.b};
    InheritsSole(k, {q.a, q.b}, g, 0.5);
    InheritsSole(k, {q.c, q.d}, g, 0.5);
  }

  // ----- A repeated hash -----

  /** a and b together, the others on their own; then c and d join them, then e, then b leaves c behind. */
  function Apart5(q: Five): Places { map[q.a := 0.0, q.b := 0.9, q.c := 3.0, q.d := 5.0, q.e := 7.0] }

  function Joined4(q: Five): Places { map[q.a := 0.0, q.b := 0.9, q.c := 1.8, q.d := 2.7, q.e := 7.0] }

  function Joined5(q: Five): Places { map[q.a := 0.0, q.b := 0.9, q.c := 1.8, q.d := 2.7, q.e := 3.6] }

  function Split5(q: Five): Places { map[q.a := 0.0, q.b := 0.45, q.c := 1.8, q.d := 2.7, q.e := 3.6] }

  function FiveAlone(q: Five): seq<Move> { [(q.a, 0.0), (q.b, 0.9), (q.c, 3.0), (q.d, 5.0), (q.e, 7.0)] }

  lemma MovedFive(q: Five)
    requires q.Distinct()
    ensures Moved(map[], FiveAlone(q)) == Apart5(q)
  {
    var o := FiveAlone(q);
    assert o[..4] == [(q.a, 0.0), (q.b, 0.9), (q.c, 3.0), (q.d, 5.0)];
    MovedFour(q, 0.0, 0.9, 3.0, 5.0);
  }

  lemma SpacedParts(q: Five)
    requires q.Distinct()
    ensures Spaced(Apart5(q)) && Spaced(Joined4(q)) && Spaced(Joined5(q)) && Spaced(Split5(q))
  {
    SpacedFive(q, 0.0, 0.9, 3.0, 5.0, 7.0);
    SpacedFive(q, 0.0, 0.9, 1.8, 2.7, 7.0);
    SpacedFive(q, 0.0, 0.9, 1.8, 2.7, 3.6);
    SpacedFive(q, 0.0, 0.45, 1.8, 2.7, 3.6);
    hide Spaced;
  }

  lemma AloneChain(at: Places, x: Id)
    requires x in at && Shut(at, {x})
    ensures |Component(CloseGraph(at), x)| < 2
  {
    assert Elements([x]) == {x};
    ChainIsComponent(at, [x], x);
  }

  lemma Apart5Shut(q: Five)
    requires q.Distinct()
    ensures var at := Apart5(q);
            Shut(at, {q.a, q.b}) && Shut(at, {q.c}) && Shut(at, {q.d}) && Shut(at, {q.e}) && Close(at, q.a, q.b)
  {
  }

  lemma Apart5Parts(q: Five)
    requires q.Distinct()
    ensures Components(CloseGraph(Apart5(q)), 2) == {{q.a, q.b}}
  {
    hide Component, CloseGraph, Shut, Close;
    var at := Apart5(q);
    Apart5Shut(q);
    assert Elements([q.a, q.b]) == {q.a, q.b} && q.a in at && q.b in at;
    PairChain(at, q.a, q.b);
    AloneChain(at, q.c);
    AloneChain(at, q.d);
    AloneChain(at, q.e);
    CloseKeys(at);
    assert at.Keys == {q.a, q.b, q.c, q.d, q.e};
    hide Apart5;
    ComponentsAre(CloseGraph(at), {{q.a, q.b}});
  }

  lemma Joined4Shut(q: Five)
    requires q.Distinct()
    ensures var at := Joined4(q);
            && Shut(at, {q.a, q.b, q.c, q.d}) && Shut(at, {q.e})
            && Close(at, q.a, q.b) && Close(at, q.b, q.c) && Close(at, q.c, q.d)
  {
  }

  lemma Joined4Parts(q: Five)
    requires q.Distinct()
    ensures Components(CloseGraph(Joined4(q)), 2) == {{q.a, q.b, q.c, q.d}}
  {
    hide Component, CloseGraph, Shut, Close;
    var at, all := Joined4(q), [q.a, q.b, q.c, q.d];
    Joined4Shut(q);
    assert Elements(all) == {q.a, q.b, q.c, q.d};
    assert at.Keys == {q.a, q.b, q.c, q.d, q.e};
    hide Joined4;
    assert Chain(at, all);
    hide Chain;
    forall x | x in all ensures Component(CloseGraph(at), x) == {q.a, q.b, q.c, q.d} {
      ChainIsComponent(at, all, x);
    }
    AloneChain(at, q.e);
    CloseKeys(at);
    FourSize(q);
    assert q.a in all && q.b in all && q.c in all && q.d in all;
    ComponentsAre(CloseGraph(at), {{q.a, q.b, q.c, q.d}});
  }

  lemma Joined5Close(q: Five)
    requires q.Distinct()
    ensures var at := Joined5(q);
            Close(at, q.a, q.b) && Close(at, q.b, q.c) && Close(at, q.c, q.d) && Close(at, q.d, q.e)
  {
  }

  lemma FiveSize(q: Five)
    requires q.Distinct()
    ensures |{q.a, q.b, q.c, q.d, q.e}| == 5 && |{q.c, q.d, q.e}| == 3
  {
  }

  lemma Joined5Parts(q: Five)
    requires q.Distinct()
    ensures Components(CloseGraph(Joined5(q)), 2) == {{q.a, q.b, q.c, q.d, q.e}}
  {
    hide Component, CloseGraph, Close;
    var at, all := Joined5(q), [q.a, q.b, q.c, q.d, q.e];
    Joined5Close(q);
    assert Elements(all) == {q.a, q.b, q.c, q.d, q.e} == at.Keys;
    hide Joined5;
    assert Chain(at, all);
    hide Chain;
    forall x | x in at ensures Component(CloseGraph(at), x) == at.Keys {
      ChainIsComponent(at, all, x);
    }
    CloseKeys(at);
    FiveSize(q);
    assert q.a in at;
    ComponentsAre(CloseGraph(at), {{q.a, q.b, q.c, q.d, q.e}});
  }

  lemma Split5Shut(q: Five)
    requires q.Distinct()
    ensures var at := Split5(q);
            Shut(at, {q.a, q.b}) && Shut(at, {q.c, q.d, q.e}) && Close(at, q.a, q.b) && Close(at, q.c, q.d)
                && Close(at, q.d, q.e)
  {
  }

  lemma Split5Parts(q: Five)
    requires q.Distinct()
    ensures Components(CloseGraph(Split5(q)), 2) == {{q.a, q.b}, {q.c, q.d, q.e}}
  {
    hide Component, CloseGraph, Shut, Close;
    var at, tail := Split5(q), [q.c, q.d, q.e];
    Split5Shut(q);
    assert Elements([q.a, q.b]) == {q.a, q.b} && Elements(tail) == {q.c, q.d, q.e};
    assert at.Keys == {q.a, q.b, q.c, q.d, q.e};
    hide Split5;
    PairChain(at, q.a, q.b);
    assert Chain(at, tail);
    hide Chain;
    forall x | x in tail ensures Component(CloseGraph(at), x) == {q.c, q.d, q.e} {
      ChainIsComponent(at, tail, x);
    }
    CloseKeys(at);
    FiveSize(q);
    assert q.c in tail && q.d in tail && q.e in tail;
    ComponentsAre(CloseGraph(at), {{q.a, q.b}, {q.c, q.d, q.e}});
  }

  lemma JaccardIs(a: set<Id>, b: set<Id>, both: set<Id>, either: set<Id>)
    requires a * b == both && a + b == either && either != {}
    ensures Jaccard(a, b) == |both| as real / |either| as real
  {
  }

  /** The overlaps along the way: one half, four fifths, three fifths and two fifths. */
  lemma FiveOverlaps(q: Five)
    requires q.Distinct()
    ensures var four, five := {q.a, q.b, q.c, q.d}, {q.a, q.b, q.c, q.d, q.e};
            && Jaccard(four, {q.a, q.b}) == 0.5 && Jaccard(five, four) == 0.8
            && Jaccard({q.c, q.d, q.e}, five) == 0.6 && Jaccard({q.a, q.b}, five) == 0.4
  {
    var four, five := {q.a, q.b, q.c, q.d}, {q.a, q.b, q.c, q.d, q.e};
    FourSize(q);
    FiveSize(q);
    hide Jaccard;
    JaccardIs(four, {q.a, q.b}, {q.a, q.b}, four);
    JaccardIs(five, four, four, five);
    JaccardIs({q.c, q.d, q.e}, five, {q.c, q.d, q.e}, five);
    JaccardIs({q.a, q.b}, five, {q.a, q.b}, five);
  }

  ghost predicate InLine(k: StoreKernel, cfg: StoreConfig, s: State, at: Places, id: Id, members: set<Id>) {
    s.tracks == Line(k, cfg, at) && Exact(k, cfg, s) && Sole(s, id, members)
  }

  /** A batch that leaves one component, overlapping the one group by at least a half, keeps its identifier. */
  lemma BatchKeeps(k: StoreKernel, cfg: StoreConfig, s: State, at: Places, moves: seq<Move>, now: real, id: Id,
                   was: set<Id>,
                   c: set<Id>)
    requires Setting(k, cfg) && ListsSets(k) && cfg.grouping.overlapThreshold == 0.5
    requires InLine(k, cfg, s, at, id, was) && Spaced(Moved(at, moves)) && moves != []
    requires Components(CloseGraph(Moved(at, moves)), 2) == {c} && Jaccard(c, was) >= 0.5
    ensures InLine(k, cfg, UpdateBatch(k, cfg, s, Sightings(k, cfg, moves), now), Moved(at, moves), id, c)
  {
    hide Sightings, Spaced, CloseGraph, Components, UpdateBatch, Exact, Line, AssignedId, Pick, MemberSet, Sized,
         Equator, Moved, Jaccard;
    SolePick(k, s.groups, id);
    InheritsSole(k.base, c, s.groups[id], 0.5);
    BatchSole(k, cfg, s, at, moves, now, c);
  }

  lemma MovedTwo(at: Places, x: Id, u: real, y: Id, v: real)
    ensures Moved(at, [(x, u), (y, v)]) == at[x := u][y := v]
  {
    assert [(x, u), (y, v)][..1] == [(x, u)];
    MovedOne(at, x, u);
  }

  /** The four batches. */
  function FirstPair(k: StoreKernel, cfg: StoreConfig, q: Five, t: real): Op {
      Batch(Sightings(k, cfg, FiveAlone(q)), t) }

  function TwoJoin(k: StoreKernel, cfg: StoreConfig, q: Five, t: real): Op {
    Batch(Sightings(k, cfg, [(q.c, 1.8), (q.d, 2.7)]), t)
  }

  function LastJoins(k: StoreKernel, cfg: StoreConfig, q: Five, t: real): Op {
      Batch(Sightings(k, cfg, [(q.e, 3.6)]), t) }

  function PairLeaves(k: StoreKernel, cfg: StoreConfig, q: Five, t: real): Op {
      Batch(Sightings(k, cfg, [(q.b, 0.45)]), t) }

  lemma PairAlone(k: StoreKernel, cfg: StoreConfig, q: Five, start: real, t: real)
    requires Setting(k, cfg) && ListsSets(k) && cfg.grouping.overlapThreshold == 0.5 && q.Distinct()
    ensures InLine(k, cfg, Apply(k, cfg, Initial(start), FirstPair(k, cfg, q, t)), Apart5(q),
                   HashOf(k.base, {q.a, q.b}), {q.a, q.b})
  {
    hide Sightings, Spaced, CloseGraph, Components, UpdateBatch, Exact, Line, AssignedId, Pick, MemberSet, Sized,
         Equator, Moved, Apart5,
         HashOf;
    MovedFive(q);
    SpacedParts(q);
    Apart5Parts(q);
    NobodyInLine(k, cfg);
    assert Initial(start).groups == map[];
    assert Pick(map[], k.setOrder(Initial(start).groups.Keys)) == [] by {
        NothingPicked(k.setOrder(Initial(start).groups.Keys)); }
    HashesAlone(k.base, {q.a, q.b}, 0.5);
    BatchSole(k, cfg, Initial(start), map[], FiveAlone(q), t, {q.a, q.b});
  }

  lemma {:induction false} NothingPicked(ids: seq<Id>)
    ensures Pick(map[], ids) == []
    decreases |ids|
  {
    if ids != [] {
      NothingPicked(ids[..|ids| - 1]);
    }
  }

  lemma FourAndFive(k: StoreKernel, cfg: StoreConfig, q: Five, s: State, id: Id, t: real, u: real)
    requires Setting(k, cfg) && ListsSets(k) && cfg.grouping.overlapThreshold == 0.5 && q.Distinct()
    requires InLine(k, cfg, s, Apart5(q), id, {q.a, q.b})
    ensures var r := Apply(k, cfg, s, TwoJoin(k, cfg, q, t));
            && InLine(k, cfg, r, Joined4(q), id, {q.a, q.b, q.c, q.d})
            && InLine(k, cfg, Apply(k, cfg, r, LastJoins(k, cfg, q, u)), Joined5(q), id, {q.a, q.b, q.c, q.d, q.e})
  {
    hide Sightings, Spaced, CloseGraph, Components, UpdateBatch, InLine, Sized, Equator, Moved, Jaccard, ListsSets;
    MovedTwo(Apart5(q), q.c, 1.8, q.d, 2.7);
    MovedOne(Joined4(q), q.e, 3.6);
    assert Apart5(q)[q.c := 1.8][q.d := 2.7] == Joined4(q);
    assert Joined4(q)[q.e := 3.6] == Joined5(q);
    hide Apart5, Joined4, Joined5;
    SpacedParts(q);
    Joined4Parts(q);
    Joined5Parts(q);
    FiveOverlaps(q);
    BatchKeeps(k, cfg, s, Apart5(q), [(q.c, 1.8), (q.d, 2.7)], t, id, {q.a, q.b}, {q.a, q.b, q.c, q.d});
    var r := Apply(k, cfg, s, TwoJoin(k, cfg, q, t));
    BatchKeeps(k, cfg, r, Joined4(q), [(q.e, 3.6)], u, id, {q.a, q.b, q.c, q.d}, {q.a, q.b, q.c, q.d, q.e});
  }

  lemma PairRehashed(k: StoreKernel, cfg: StoreConfig, q: Five, s: State, t: real)
    requires Setting(k, cfg) && ListsSets(k) && cfg.grouping.overlapThreshold == 0.5 && q.Distinct()
    requires InLine(k, cfg, s, Joined5(q), HashOf(k.base, {q.a, q.b}), {q.a, q.b, q.c, q.d, q.e})
    ensures var r := Apply(k, cfg, s, PairLeaves(k, cfg, q, t));
            && r.groups.Keys == {HashOf(k.base, {q.a, q.b})}
            && Components(GraphOf(k, cfg, r.tracks), 2) == {{q.a, q.b}, {q.c, q.d, q.e}}
  {
    hide Sightings, Spaced, CloseGraph, Components, UpdateBatch, Exact, Sized, Equator, Moved, Jaccard, GraphOf, Line,
         Pick, AssignedId,
         HashOf, MemberSet;
    var id := HashOf(k.base, {q.a, q.b});
    MovedOne(Joined5(q), q.b, 0.45);
    assert Joined5(q)[q.b := 0.45] == Split5(q);
    hide Joined5, Split5;
    SpacedParts(q);
    Split5Parts(q);
    FiveOverlaps(q);
    SolePick(k, s.groups, id);
    InheritsSole(k.base, {q.c, q.d, q.e}, s.groups[id], 0.5);
    HashesSole(k.base, {q.a, q.b}, s.groups[id], 0.5);
    hide ListsSets;
    BatchOverwrites(k, cfg, s, Joined5(q), [(q.b, 0.45)], t, {q.a, q.b}, {q.c, q.d, q.e}, id);
  }

  /** At the default threshold a pair that grows into a group of five and then leaves it is hashed to the
      identifier that the group kept from the pair: two components, one group. */
  lemma StoreRepeatsHash(k: StoreKernel, cfg: StoreConfig, q: Five, start: real, t: real, u: real, v: real, w: real)
    requires Setting(k, cfg) && ListsSets(k) && cfg.grouping.overlapThreshold == 0.5 && q.Distinct()
    ensures var ops := [FirstPair(k, cfg, q, t), TwoJoin(k, cfg, q, u), LastJoins(k, cfg, q, v)];
            var s, r := Run(k, cfg, start, ops), Run(k, cfg, start, ops + [PairLeaves(k, cfg, q, w)]);
            && Exact(k, cfg, s) && Sole(s, HashOf(k.base, {q.a, q.b}), {q.a, q.b, q.c, q.d, q.e})
            && r.groups.Keys == {HashOf(k.base, {q.a, q.b})}
            && Components(GraphOf(k, cfg, r.tracks), cfg.grouping.minGroupSize) == {{q.a, q.b}, {q.c, q.d, q.e}}
  {
    var x, y, z := FirstPair(k, cfg, q, t), TwoJoin(k, cfg, q, u), LastJoins(k, cfg, q, v);
    hide Run, Apply, Exact, Line, Sole, GraphOf, Components, HashOf, FirstPair, TwoJoin, LastJoins, PairLeaves,
         ListsSets, Equator, Sized;
    RunTwo(k, cfg, start, x, y);
    RunMore(k, cfg, start, [x, y], z);
    assert [x, y] + [z] == [x, y, z];
    RunMore(k, cfg, start, [x, y, z], PairLeaves(k, cfg, q, w));
    PairAlone(k, cfg, q, start, t);
    FourAndFive(k, cfg, q, Run(k, cfg, start, [x]), HashOf(k.base, {q.a, q.b}), u, v);
    PairRehashed(k, cfg, q, Run(k, cfg, start, [x, y, z]), w);
  }

  // ----- The second hop -----

  /** a and b, b and c are too far apart; c and d are not. */
  function Row(q: Five): Places { map[q.a := 0.05, q.b := 1.15, q.c := 2.3, q.d := 3.2] }

  function RowOfFour(q: Five): seq<Move> { [(q.a, 0.05), (q.b, 1.15), (q.c, 2.3), (q.d, 3.2)] }

  lemma RowSpaced(q: Five)
    requires q.FourDistinct()
    ensures Spaced(Row(q))
  {
    SpacedFour(q, 0.05, 1.15, 2.3, 3.2);
    hide Spaced;
  }

  lemma RowShut(q: Five)
    requires q.FourDistinct()
    ensures var at := Row(q);
            Spaced(at) && Shut(at, {q.a}) && Shut(at, {q.b}) && Shut(at, {q.c, q.d}) && Close(at, q.c, q.d)
  {
    hide Spaced;
    RowSpaced(q);
    forall x, y | x in Row(q) && y in Row(q) && Close(Row(q), x, y)
      ensures (x == q.c && y == q.d) || (x == q.d && y == q.c)
    {
      RowClose(q, x, y);
    }
  }

  lemma RowParts(q: Five)
    requires q.FourDistinct()
    ensures Components(CloseGraph(Row(q)), 2) == {{q.c, q.d}}
  {
    hide Component, CloseGraph, Shut, Close, Spaced;
    var at := Row(q);
    RowShut(q);
    assert Elements([q.c, q.d]) == {q.c, q.d} && q.c in at && q.d in at;
    PairChain(at, q.c, q.d);
    AloneChain(at, q.a);
    AloneChain(at, q.b);
    CloseKeys(at);
    assert at.Keys == {q.a, q.b, q.c, q.d};
    hide Row;
    ComponentsAre(CloseGraph(at), {{q.c, q.d}});
  }

  /** After the batch c and d are the one group. */
  lemma PairGrouped(k: StoreKernel, cfg: StoreConfig, q: Five, start: real, now: real) returns (id: Id)
    requires Setting(k, cfg) && q.FourDistinct()
    ensures InLine(k, cfg, UpdateBatch(k, cfg, Initial(start), Sightings(k, cfg, RowOfFour(q)), now), Row(q), id,
                   {q.c, q.d})
  {
    hide Sightings, Spaced, CloseGraph, Components, UpdateBatch, Exact, Line, AssignedId, Pick, MemberSet, Sized,
         Equator, Moved, Row;
    assert Moved(map[], RowOfFour(q)) == Row(q) by { MovedRow(q); }
    RowShut(q);
    RowParts(q);
    NobodyInLine(k, cfg);
    BatchSole(k, cfg, Initial(start), map[], RowOfFour(q), now, {q.c, q.d});
    id := AssignedId(k.base, {q.c, q.d}, Pick(Initial(start).groups, k.setOrder(Initial(start).groups.Keys)),
                     cfg.grouping.overlapThreshold);
  }

  lemma MovedRow(q: Five)
    requires q.FourDistinct()
    ensures Moved(map[], RowOfFour(q)) == Row(q)
  {
    MovedFour(q, 0.05, 1.15, 2.3, 3.2);
  }

  lemma SoleSets(s: State, id: Id, c: set<Id>)
    requires Sole(s, id, c)
    ensures MemberSets(s.groups) == {c}
  {
    hide MemberSet;
  }

  lemma OwnSet(groups: map<Id, TrackGroup>, trackGroup: map<Id, Id>, x: Id)
    requires Filed(groups, trackGroup)
    ensures x in trackGroup ==> exists c :: c in MemberSets(groups) && x in c
  {
    hide MemberSet;
    if x in trackGroup {
      assert MemberSet(groups[trackGroup[x]]) in MemberSets(groups);
    }
  }

  /** Tracks outside the pair have no group. */
  lemma NoMates(k: StoreKernel, cfg: StoreConfig, s: State, q: Five, x: Id)
    requires Exact(k, cfg, s) && MemberSets(s.groups) == {{q.c, q.d}} && x != q.c && x != q.d
    ensures x !in s.trackGroup && GroupMates(s.groups, s.trackGroup, x) == {}
  {
    OwnSet(s.groups, s.trackGroup, x);
    hide GraphOf, MemberSets, Components, Filed;
  }

  /** A local step that reaches c but not d, and finds no new group, leaves none. */
  lemma NothingRegrouped(k: StoreKernel, cfg: StoreConfig, s: State, ch: Change, q: Five, now: real)
    requires Exact(k, cfg, s) && MemberSets(s.groups) == {{q.c, q.d}} && cfg.grouping.minGroupSize == 2
    requires ch.affected <= ch.tracks.Keys && q.c in ch.affected
             && ch.touched == GroupIdsOf(s.trackGroup, ch.affected + {q.a})
    requires Components(Restrict(GraphOf(k, cfg, ch.tracks), ch.affected), 2) == {}
    ensures Regroup(k, cfg, s, ch, now).groups == map[]
  {
    hide GraphOf, Components, Restrict, NewGroups, InsertAll, MapAll, FormAll, SetsOf, MemberSet, Exact;
    var rest, f := s.groups - ch.touched, NewGroups(k, cfg, s, ch, now);
    RestIsUntouched(k, cfg, s, ch, q.a);
    NewGroupsAre(k, cfg, s, ch, now);
    InsertedAreSome(rest, f);
    assert MemberSets(rest) <= MemberSets(s.groups);
    assert q.c in {q.c, q.d} * (ch.affected + {q.a});
    assert MemberSets(rest) == {};
    var r := InsertAll(rest, f);
    assert forall gid | gid in r :: MemberSet(r[gid]) in MemberSets(r);
    assert r.Keys == {};
  }

  lemma RowFloors(q: Five)
    requires q.FourDistinct()
    ensures var at := Row(q);
            at.Keys == {q.a, q.b, q.c, q.d} && at[q.a].Floor == 0 && at[q.b].Floor == 1 && at[q.c].Floor == 2
                && at[q.d].Floor == 3
  {
  }

  lemma RowCandidates(k: StoreKernel, cfg: StoreConfig, q: Five)
    requires Setting(k, cfg) && q.FourDistinct()
    ensures var geo, coords := StoreGeometry(k, cfg), Coords(Line(k, cfg, Row(q)));
            Candidates(geo, coords, q.a) == {q.b} && Candidates(geo, coords, q.b) == {q.a, q.c}
  {
    hide Spaced, Shut, Close, Candidates, Coords, Line, StoreGeometry, Sized, Equator, Row;
    RowShut(q);
    RowFloors(q);
    LineCandidates(k, cfg, Row(q), q.a);
    LineCandidates(k, cfg, Row(q), q.b);
  }

  lemma ExpandTwo(geo: Geometry, coords: map<Id, Coord>, groups: map<Id, TrackGroup>, trackGroup: map<Id, Id>, q: Five)
    requires Candidates(geo, coords, q.a) == {q.b} && Candidates(geo, coords, q.b) == {q.a, q.c}
    requires GroupMates(groups, trackGroup, q.a) == {} && GroupMates(groups, trackGroup, q.b) == {}
    ensures Expand(geo, coords, groups, trackGroup, {q.a, q.b}) == {q.a, q.b, q.c}
  {
    hide Candidates, GroupMates;
    assert q.b in {q.a, q.b} && q.c in GroupMates(groups, trackGroup, q.b) + Candidates(geo, coords, q.b);
    assert q.c in Expand(geo, coords, groups, trackGroup, {q.a, q.b});
  }

  /** What the affected set of an update is made of, when the track has no group. */
  lemma AffectedIs(geo: Geometry, s: State, obs: Observation)
    requires obs.id in s.tracks && s.tracks[obs.id := obs] == s.tracks
    requires GroupMates(s.groups, s.trackGroup, obs.id) == {}
    ensures UpdateChange(geo, s, obs).affected
            == Expand(geo, Coords(s.tracks), s.groups, s.trackGroup,
                      {obs.id} + Candidates(geo, Coords(s.tracks), obs.id)) * s.tracks.Keys
  {
    hide Candidates, Coords, GroupMates, Expand;
    var c := Candidates(geo, Coords(s.tracks), obs.id);
    assert {obs.id} + (c + {}) + c == {obs.id} + c;
  }

  lemma SameRow(k: StoreKernel, cfg: StoreConfig, q: Five)
    requires q.FourDistinct()
    ensures Line(k, cfg, Row(q))[q.a := Seen(k, cfg, q.a, 0.05)] == Line(k, cfg, Row(q))
    ensures Line(k, cfg, Row(q)).Keys == {q.a, q.b, q.c, q.d}
    ensures Line(k, cfg, Row(q)) - {q.a} == Line(k, cfg, Row(q) - {q.a})
  {
  }

  lemma AffectedThree(k: StoreKernel, cfg: StoreConfig, s: State, q: Five)
    requires Setting(k, cfg) && q.FourDistinct() && Exact(k, cfg, s) && MemberSets(s.groups) == {{q.c, q.d}}
    requires s.tracks == Line(k, cfg, Row(q))
    ensures UpdateChange(StoreGeometry(k, cfg), s, Seen(k, cfg, q.a, 0.05)).affected == {q.a, q.b, q.c}
  {
    hide Candidates, Coords, GroupMates, Exact, MemberSets, Line, Expand, UpdateChange, Sized, Equator, StoreGeometry;
    var geo := StoreGeometry(k, cfg);
    SameRow(k, cfg, q);
    RowCandidates(k, cfg, q);
    NoMates(k, cfg, s, q, q.a);
    NoMates(k, cfg, s, q, q.b);
    ExpandTwo(geo, Coords(s.tracks), s.groups, s.trackGroup, q);
    hide Row;
    assert {q.a} + {q.b} == {q.a, q.b};
    AffectedIs(geo, s, Seen(k, cfg, q.a, 0.05));
    assert {q.a, q.b, q.c} * {q.a, q.b, q.c, q.d} == {q.a, q.b, q.c};
  }

  lemma RowClose(q: Five, x: Id, y: Id)
    requires q.FourDistinct() && x in Row(q) && y in Row(q) && Close(Row(q), x, y)
    ensures (x == q.c && y == q.d) || (x == q.d && y == q.c)
  {
  }

  /** Whatever part of the row the local pass sees, it finds no pair without both c and d. */
  lemma NoPairWithout(q: Five, at: Places, part: set<Id>)
    requires q.FourDistinct() && (at == Row(q) || at == Row(q) - {q.a}) && q.d !in part
    ensures Components(Restrict(CloseGraph(at), part), 2) == {}
  {
    var g := Restrict(CloseGraph(at), part);
    forall x, y | x in g && y in part && y in at ensures !Close(at, x, y) {
      if Close(Row(q), x, y) {
        RowClose(q, x, y);
      }
    }
    hide Row, Close;
    forall x | x in g ensures |Component(g, x)| < 2 {
      NobodyNear(g, x);
    }
    hide Component;
  }

  lemma NobodyNear(g: Adjacency, x: Id)
    requires x in g && g[x] == {}
    ensures |Component(g, x)| < 2
  {
    ClosedHoldsComponent(g, {x}, x);
    SubsetSize(Component(g, x), {x});
  }

  lemma UpdateLoses(k: StoreKernel, cfg: StoreConfig, s: State, q: Five, score: Option<real>, now: real)
    requires Setting(k, cfg) && q.FourDistinct() && Exact(k, cfg, s) && MemberSets(s.groups) == {{q.c, q.d}}
    requires s.tracks == Line(k, cfg, Row(q))
    ensures var r := UpdateTrack(k, cfg, s, Seen(k, cfg, q.a, 0.05), score, now);
            r.tracks == s.tracks && r.groups == map[]
  {
    hide UpdateChange, NewGroups, InsertAll, MapAll, FormAll, MemberSets, Exact, GraphOf, Components, Restrict, Row,
         Line, CloseGraph,
         Snapshot, Equator, Sized, Spaced, UpdateTrack, Regroup, Seen, StoreGeometry;
    var obs := Seen(k, cfg, q.a, 0.05);
    var geo := StoreGeometry(k, cfg);
    var ch := UpdateChange(geo, s, obs);
    AffectedThree(k, cfg, s, q);
    SameRow(k, cfg, q);
    SeenId(k, cfg, q.a, 0.05);
    ChangeBasics(geo, s, obs, q.a);
    UpdateTouched(geo, s, obs);
    RowSpaced(q);
    LineGraph(k, cfg, Row(q));
    NoPairWithout(q, Row(q), ch.affected);
    NothingRegrouped(k, cfg, s, ch, q, now);
    UpdateFields(k, cfg, s, obs, score, now);
  }

  lemma SeenId(k: StoreKernel, cfg: StoreConfig, id: Id, u: real)
    ensures Seen(k, cfg, id, u).id == id
  {
  }

  lemma UpdateTouched(geo: Geometry, s: State, obs: Observation)
    ensures var ch := UpdateChange(geo, s, obs); ch.touched == GroupIdsOf(s.trackGroup, ch.affected + {obs.id})
  {
    hide Candidates, Coords, GroupMates;
    var ch := UpdateChange(geo, s, obs);
    assert obs.id in ch.affected;
    assert ch.affected + {obs.id} == ch.affected;
  }

  lemma UpdateFields(k: StoreKernel, cfg: StoreConfig, s: State, obs: Observation, score: Option<real>, now: real)
    ensures var r, ch := UpdateTrack(k, cfg, s, obs, score, now), UpdateChange(StoreGeometry(k, cfg), s, obs);
            r.tracks == ch.tracks && r.groups == Regroup(k, cfg, s, ch, now).groups
  {
    hide UpdateChange, NewGroups, InsertAll, MapAll, FormAll, Snapshot, Classified, Assessed;
  }

  lemma ExpandOne(geo: Geometry, coords: map<Id, Coord>, groups: map<Id, TrackGroup>, trackGroup: map<Id, Id>, q: Five)
    requires Candidates(geo, coords, q.b) == {q.c} && GroupMates(groups, trackGroup, q.b) == {}
    ensures Expand(geo, coords, groups, trackGroup, {q.b}) == {q.b, q.c}
  {
    hide Candidates, GroupMates;
    assert q.c in GroupMates(groups, trackGroup, q.b) + Candidates(geo, coords, q.b);
    assert q.c in Expand(geo, coords, groups, trackGroup, {q.b});
  }

  /** What the affected set of a drop is made of, when the track has no group. */
  lemma DropAffectedIs(geo: Geometry, s: State, id: Id)
    requires id !in s.trackGroup
    ensures DropChange(geo, s, id).affected
            == Expand(geo, Coords(s.tracks - {id}), s.groups, s.trackGroup,
                      Candidates(geo, Coords(s.tracks), id) - {id})
               * (s.tracks - {id}).Keys
  {
    hide Candidates, Coords, Expand;
    assert s.trackGroup - {id} == s.trackGroup;
    assert Candidates(geo, Coords(s.tracks), id) + {} == Candidates(geo, Coords(s.tracks), id);
  }

  /** The drop of a reaches b and, from b, c. */
  lemma DropReaches(k: StoreKernel, cfg: StoreConfig, s: State, q: Five)
    requires Setting(k, cfg) && q.FourDistinct() && Exact(k, cfg, s) && MemberSets(s.groups) == {{q.c, q.d}}
    requires s.tracks == Line(k, cfg, Row(q))
    ensures DropChange(StoreGeometry(k, cfg), s, q.a).affected == {q.b, q.c}
  {
    hide Candidates, Coords, GroupMates, Exact, MemberSets, Line, Sized, Equator, StoreGeometry, Row, Expand,
         DropChange;
    var geo := StoreGeometry(k, cfg);
    SameRow(k, cfg, q);
    RowCandidates(k, cfg, q);
    NoMates(k, cfg, s, q, q.a);
    NoMates(k, cfg, s, q, q.b);
    LeftCandidates(k, cfg, q);
    DropAffectedIs(geo, s, q.a);
    assert {q.b} - {q.a} == {q.b};
    ExpandOne(geo, Coords(s.tracks - {q.a}), s.groups, s.trackGroup, q);
    assert (s.tracks - {q.a}).Keys == {q.b, q.c, q.d};
    assert {q.b, q.c} * {q.b, q.c, q.d} == {q.b, q.c};
  }

  lemma LeftCandidates(k: StoreKernel, cfg: StoreConfig, q: Five)
    requires Setting(k, cfg) && q.FourDistinct()
    ensures Candidates(StoreGeometry(k, cfg), Coords(Line(k, cfg, Row(q)) - {q.a}), q.b) == {q.c}
  {
    hide Spaced, Shut, Close, Candidates, Coords, Line, StoreGeometry, Sized, Equator, Row;
    LeftShut(q);
    RowFloors(q);
    SameRow(k, cfg, q);
    LineCandidates(k, cfg, Row(q) - {q.a}, q.b);
  }

  lemma LeftParts(q: Five)
    requires q.FourDistinct()
    ensures Spaced(Row(q) - {q.a}) && Components(CloseGraph(Row(q) - {q.a}), 2) == {{q.c, q.d}}
  {
    hide Component, CloseGraph, Close, Shut, Spaced, Row;
    var at := Row(q) - {q.a};
    LeftShut(q);
    RowFloors(q);
    assert Elements([q.c, q.d]) == {q.c, q.d} && at.Keys == {q.b, q.c, q.d};
    assert Chain(at, [q.c, q.d]);
    hide Chain;
    PairChain(at, q.c, q.d);
    AloneChain(at, q.b);
    CloseKeys(at);
    ComponentsAre(CloseGraph(at), {{q.c, q.d}});
  }

  lemma LeftShut(q: Five)
    requires q.FourDistinct()
    ensures var at := Row(q) - {q.a}; Shut(at, {q.b}) && Shut(at, {q.c, q.d}) && Close(at, q.c, q.d) && Spaced(at)
  {
    RowShut(q);
    RowFloors(q);
    var at := Row(q) - {q.a};
    assert forall x, y | x in at && y in at :: Close(at, x, y) == Close(Row(q), x, y);
    assert Spaced(at);
    hide Row, Close, Spaced;
  }

  lemma DropLoses(k: StoreKernel, cfg: StoreConfig, s: State, q: Five, now: real)
    requires Setting(k, cfg) && q.FourDistinct() && Exact(k, cfg, s) && MemberSets(s.groups) == {{q.c, q.d}}
    requires s.tracks == Line(k, cfg, Row(q))
    ensures var r := DropTrack(k, cfg, s, q.a, now); r.tracks == Line(k, cfg, Row(q) - {q.a}) && r.groups == map[]
  {
    var geo := StoreGeometry(k, cfg);
    var ch := DropChange(geo, s, q.a);
    DropReaches(k, cfg, s, q);
    DropBasics(geo, s, q.a);
    DropTouched(geo, s, q.a);
    SameRow(k, cfg, q);
    LeftParts(q);
    LineGraph(k, cfg, Row(q) - {q.a});
    NoPairWithout(q, Row(q) - {q.a}, ch.affected);
    hide DropChange, NewGroups, InsertAll, MapAll, FormAll, MemberSets, Exact, GraphOf, Components, Restrict, Row,
         Line, CloseGraph,
         Equator, Sized, StoreGeometry, DropTrack, Regroup, Spaced;
    TrimmedSame(k, cfg, s, Trimmed(s, q.a), ch, q.a, now);
    NothingRegrouped(k, cfg, Trimmed(s, q.a), ch, q, now);
    DropFields(k, cfg, s, q.a, now);
    assert Regroup(k, cfg, Trimmed(s, q.a), ch, now).tracks == ch.tracks by {
        RegroupTracks(k, cfg, Trimmed(s, q.a), ch, now); }
  }

  lemma RegroupTracks(k: StoreKernel, cfg: StoreConfig, s: State, ch: Change, now: real)
    ensures Regroup(k, cfg, s, ch, now).tracks == ch.tracks
  {
  }

  /** Two operations after the start the store has lost a group. The batch finds the pair c, d and leaves an
      exact store, in which correlated tracks are candidates of each other; then an update of a that moves
      nothing, or a drop of a, leaves no group at all, although c and d are still correlated. */
  lemma StoreLosesPair(k: StoreKernel, cfg: StoreConfig, q: Five, start: real, now: real, score: Option<real>,
                       later: real)
    requires Setting(k, cfg) && q.FourDistinct()
    ensures var first := Batch(Sightings(k, cfg, RowOfFour(q)), now);
            var s := Run(k, cfg, start, [first]);
            var updated := Run(k, cfg, start, [first, Update(Seen(k, cfg, q.a, 0.05), score, later)]);
            var dropped := Run(k, cfg, start, [first, Drop(q.a, later)]);
            && Exact(k, cfg, s) && Covers(k, cfg, s.tracks) && MemberSets(s.groups) == {{q.c, q.d}}
            && updated.tracks == s.tracks && dropped.tracks == s.tracks - {q.a}
            && Components(GraphOf(k, cfg, updated.tracks), cfg.grouping.minGroupSize) == {{q.c, q.d}}
                && updated.groups == map[]
            && Components(GraphOf(k, cfg, dropped.tracks), cfg.grouping.minGroupSize) == {{q.c, q.d}}
                && dropped.groups == map[]
  {
    hide Run, Exact, Covers, Line, GraphOf, Components, Sightings, UpdateBatch, UpdateTrack, DropTrack, MemberSets,
         Equator, Sized, Row, Seen, CloseGraph, Spaced, Sole;
    var first := Batch(Sightings(k, cfg, RowOfFour(q)), now);
    RunTwo(k, cfg, start, first, Update(Seen(k, cfg, q.a, 0.05), score, later));
    RunTwo(k, cfg, start, first, Drop(q.a, later));
    var id := PairGrouped(k, cfg, q, start, now);
    var s := UpdateBatch(k, cfg, Initial(start), Sightings(k, cfg, RowOfFour(q)), now);
    SoleSets(s, id, {q.c, q.d});
    UpdateLoses(k, cfg, s, q, score, later);
    DropLoses(k, cfg, s, q, later);
    SameRow(k, cfg, q);
    RowSpaced(q);
    RowParts(q);
    LineGraph(k, cfg, Row(q));
    LineCovered(k, cfg, Row(q));
    LeftParts(q);
    LineGraph(k, cfg, Row(q) - {q.a});
  }
}
