/** Why re-clustering only a neighbourhood of one moved track can agree with re-clustering
    everything, and exactly when it does.

    `before` and `after` are the correlation graphs around one change to track `t` (insert, move
    or drop), `a` is the affected set handed to the clustering pass, and `minSize` the smallest
    group that is emitted. */
module Reclustering {
  import opened TrackIds
  import opened Graph

  /** The two graphs differ only in `t` and its edges. */
  ghost predicate DifferOnlyAt(before: Adjacency, after: Adjacency, t: Id) {
    && Undirected(before) && Undirected(after)
    && before.Keys - {t} == after.Keys - {t}
    && forall x | x in before && x in after && x != t :: before[x] - {t} == after[x] - {t}
  }

  /** What the store guarantees of its affected set: the changed track (while it is active), its
      old and new correlated neighbours, and the whole of its old group. */
  ghost predicate FirstHop(before: Adjacency, after: Adjacency, t: Id, a: set<Id>, minSize: int) {
    && a <= after.Keys
    && (t in after ==> t in a && after[t] <= a)
    && (t in before ==> before[t] <= a + {t}
                        && (|Component(before, t)| >= minSize ==> Component(before, t) <= a + {t}))
  }

  /** The further tracks the store adds: neighbours of the new neighbours. */
  ghost predicate SecondHop(before: Adjacency, after: Adjacency, t: Id, a: set<Id>) {
    t in after ==> forall n | n in after[t] && n in before :: before[n] <= a + {t}
  }

  /** No old group sticks out of the affected set. */
  ghost predicate CoversTouchedGroups(before: Adjacency, t: Id, a: set<Id>, minSize: int) {
    forall c | c in Components(before, minSize) && c * (a + {t}) != {} :: c <= a + {t}
  }

  /** The changed track's new component, when it is large enough to be a group, was looked at whole. */
  ghost predicate CoversNewGroup(after: Adjacency, t: Id, a: set<Id>, minSize: int) {
    t in after && |Component(after, t)| >= minSize ==> Component(after, t) <= a
  }

  /** The old groups that the local pass leaves alone. */
  ghost function Untouched(before: Adjacency, t: Id, a: set<Id>, minSize: int): set<set<Id>> {
    set c | c in Components(before, minSize) && c * (a + {t}) == {}
  }

  /** What the local pass produces. */
  ghost function Local(before: Adjacency, after: Adjacency, t: Id, a: set<Id>, minSize: int): set<set<Id>> {
    Untouched(before, t, a, minSize) + Components(Restrict(after, a), minSize)
  }

  lemma RestrictUndirected(g: Adjacency, a: set<Id>)
    requires Undirected(g)
    ensures Undirected(Restrict(g, a))
  {
  }

  lemma DisjointParts(u: set<Id>, c: set<Id>)
    requires c * u == {}
    ensures forall x | x in u :: x !in c
  {
    assert forall x | x in u && x in c :: x in c * u;
  }

  /** Away from `t` and its neighbours nothing changes: such a component belongs to both graphs. */
  lemma FarComponentSurvives(g: Adjacency, h: Adjacency, t: Id, x: Id)
    requires DifferOnlyAt(g, h, t) && x in g
    requires t !in Component(g, x)
    requires t in h ==> h[t] * Component(g, x) == {}
    ensures x in h && Component(h, x) == Component(g, x)
  {
    var c := Component(g, x);
    ComponentFacts(g, x);
    forall y | y in c ensures y in h && g[y] == h[y] {
      assert y in g.Keys - {t};
      assert t !in g[y];
      assert t !in h[y] by {
        if t in h { DisjointParts(h[t], c); }
      }
      assert g[y] == g[y] - {t} == h[y] - {t} == h[y];
    }
    AgreeingComponents(g, h, c, x);
  }

  lemma DifferSymmetric(g: Adjacency, h: Adjacency, t: Id)
    requires DifferOnlyAt(g, h, t)
    ensures DifferOnlyAt(h, g, t)
  {
  }

  /** A new group that the affected set meets lies inside it. */
  lemma NewGroupsInside(before: Adjacency, after: Adjacency, t: Id, a: set<Id>, minSize: int, x: Id)
    requires DifferOnlyAt(before, after, t) && FirstHop(before, after, t, a, minSize)
    requires CoversTouchedGroups(before, t, a, minSize) && CoversNewGroup(after, t, a, minSize)
    requires x in after && |Component(after, x)| >= minSize
    requires Component(after, x) * (a + {t}) != {}
    ensures Component(after, x) <= a
  {
    var c := Component(after, x);
    ComponentFacts(after, x);
    if t in c {
      SameComponent(after, x, t);
    } else if t in before && before[t] * c != {} {
      var y :| y in before[t] && y in c;
      InsideOldComponent(before, after, t, x, y);
      SubsetSize(c, Component(before, t));
    } else {
      DifferSymmetric(before, after, t);
      FarComponentSurvives(after, before, t, x);
      assert c in Components(before, minSize);
    }
  }

  /** A new component without `t` that holds an old neighbour of `t` came out of `t`'s component. */
  lemma InsideOldComponent(before: Adjacency, after: Adjacency, t: Id, x: Id, y: Id)
    requires DifferOnlyAt(before, after, t) && t in before && x in after
    requires t !in Component(after, x) && y in Component(after, x) && y in before[t]
    ensures Component(after, x) <= Component(before, t)
  {
    var c := Component(after, x);
    ComponentFacts(after, x);
    SameComponent(after, x, y);
    forall z | z in c ensures z in before && after[z] <= before[z] {
      assert z in after.Keys - {t};
      assert t !in after[z];
      assert after[z] == after[z] - {t} == before[z] - {t};
    }
    ComponentGrows(after, before, c, y);
    ComponentFacts(before, t);
    SameComponent(before, t, y);
  }

  /** A group of the whole graph that lies inside the affected set is found by the local pass. */
  lemma LocalFinds(after: Adjacency, a: set<Id>, x: Id)
    requires Undirected(after) && x in after && a <= after.Keys
    requires Component(after, x) <= a
    ensures x in Restrict(after, a) && Component(Restrict(after, a), x) == Component(after, x)
  {
    var l := Restrict(after, a);
    var c := Component(after, x);
    RestrictUndirected(after, a);
    ComponentFacts(after, x);
    forall y | y in c ensures after[y] == l[y] {
      assert after[y] <= c;
    }
    AgreeingComponents(after, l, c, x);
  }

  /** Every component of the induced subgraph is part of one of the whole graph. */
  lemma LocalIsPart(after: Adjacency, a: set<Id>, x: Id)
    requires Undirected(after) && x in after && x in a
    ensures x in Restrict(after, a) && Component(Restrict(after, a), x) <= Component(after, x)
    ensures Component(Restrict(after, a), x) <= a
  {
    RestrictUndirected(after, a);
    ComponentFacts(Restrict(after, a), x);
    ComponentGrows(Restrict(after, a), after, Component(Restrict(after, a), x), x);
  }

  lemma LocalComplete(before: Adjacency, after: Adjacency, t: Id, a: set<Id>, minSize: int)
    requires DifferOnlyAt(before, after, t) && FirstHop(before, after, t, a, minSize)
    requires CoversTouchedGroups(before, t, a, minSize) && CoversNewGroup(after, t, a, minSize)
    ensures Components(after, minSize) <= Local(before, after, t, a, minSize)
  {
    forall c | c in Components(after, minSize)
      ensures c in Local(before, after, t, a, minSize)
    {
      var x :| x in after && c == Component(after, x) && |c| >= minSize;
      ComponentFacts(after, x);
      if c * (a + {t}) != {} {
        NewGroupsInside(before, after, t, a, minSize, x);
        LocalFinds(after, a, x);
      } else {
        DisjointParts(a + {t}, c);
        DifferSymmetric(before, after, t);
        FarComponentSurvives(after, before, t, x);
      }
    }
  }

  lemma LocalSound(before: Adjacency, after: Adjacency, t: Id, a: set<Id>, minSize: int)
    requires DifferOnlyAt(before, after, t) && FirstHop(before, after, t, a, minSize)
    requires CoversTouchedGroups(before, t, a, minSize) && CoversNewGroup(after, t, a, minSize)
    ensures Local(before, after, t, a, minSize) <= Components(after, minSize)
  {
    forall x | x in before && |Component(before, x)| >= minSize && Component(before, x) * (a + {t}) == {}
      ensures Component(before, x) in Components(after, minSize)
    {
      DisjointParts(a + {t}, Component(before, x));
      FarComponentSurvives(before, after, t, x);
    }
    var l := Restrict(after, a);
    forall x | x in l && |Component(l, x)| >= minSize
      ensures Component(l, x) in Components(after, minSize)
    {
      LocalGroupIsGroup(before, after, t, a, minSize, x);
    }
  }

  lemma LocalGroupIsGroup(before: Adjacency, after: Adjacency, t: Id, a: set<Id>, minSize: int, x: Id)
    requires DifferOnlyAt(before, after, t) && FirstHop(before, after, t, a, minSize)
    requires CoversTouchedGroups(before, t, a, minSize) && CoversNewGroup(after, t, a, minSize)
    requires x in Restrict(after, a) && |Component(Restrict(after, a), x)| >= minSize
    ensures x in after && Component(Restrict(after, a), x) == Component(after, x)
  {
    var c := Component(Restrict(after, a), x);
    RestrictUndirected(after, a);
    ComponentFacts(Restrict(after, a), x);
    LocalIsPart(after, a, x);
    ComponentFacts(after, x);
    SubsetSize(c, Component(after, x));
    assert x in Component(after, x) * (a + {t});
    NewGroupsInside(before, after, t, a, minSize, x);
    LocalFinds(after, a, x);
  }

  /** If the local pass agrees with the full one then no touched group stuck out ... */
  lemma ExactCoversTouched(before: Adjacency, after: Adjacency, t: Id, a: set<Id>, minSize: int)
    requires DifferOnlyAt(before, after, t) && FirstHop(before, after, t, a, minSize)
    requires Components(after, minSize) <= Local(before, after, t, a, minSize)
    ensures CoversTouchedGroups(before, t, a, minSize)
  {
    hide Component, Components, Local, DifferOnlyAt, FirstHop;
    forall c | c in Components(before, minSize) && c * (a + {t}) != {}
      ensures c <= a + {t}
    {
      var x := ComponentOf(before, minSize, c);
      if t in c {
        OwnIsCovered(before, after, t, a, minSize, x);
      } else {
        SurvivorIsCovered(before, after, t, a, minSize, x);
      }
    }
  }

  lemma ComponentOf(g: Adjacency, minSize: int, c: set<Id>) returns (x: Id)
    requires c in Components(g, minSize)
    ensures x in g && c == Component(g, x) && |c| >= minSize
  {
    hide Component;
    x :| x in g && c == Component(g, x) && |c| >= minSize;
  }

  lemma OwnIsCovered(before: Adjacency, after: Adjacency, t: Id, a: set<Id>, minSize: int, x: Id)
    requires DifferOnlyAt(before, after, t) && FirstHop(before, after, t, a, minSize)
    requires x in before && |Component(before, x)| >= minSize && t in Component(before, x)
    ensures Component(before, x) <= a + {t}
  {
    ComponentFacts(before, x);
    SameComponent(before, x, t);
    hide Component;
  }

  /** A component without t only grows, so the local pass holds it whole if it meets it. */
  lemma SurvivorIsCovered(before: Adjacency, after: Adjacency, t: Id, a: set<Id>, minSize: int, x: Id)
    requires DifferOnlyAt(before, after, t) && Components(after, minSize) <= Local(before, after, t, a, minSize)
    requires x in before && |Component(before, x)| >= minSize && t !in Component(before, x)
    requires Component(before, x) * (a + {t}) != {}
    ensures Component(before, x) <= a + {t}
  {
    var c := Component(before, x);
    ComponentFacts(before, x);
    hide Component;
    forall y | y in c ensures y in after && before[y] <= after[y] {
      assert y in before.Keys - {t};
      assert t !in before[y];
      assert before[y] == before[y] - {t};
    }
    ComponentGrows(before, after, c, x);
    var d := Component(after, x);
    SubsetSize(c, d);
    assert d in Components(after, minSize);
    assert d * (a + {t}) != {};
    InLocalPass(after, a, minSize, d);
  }

  lemma InLocalPass(after: Adjacency, a: set<Id>, minSize: int, d: set<Id>)
    requires d in Components(Restrict(after, a), minSize)
    ensures d <= a
  {
  }

  /** ... and the changed track's own new group was looked at whole. */
  lemma ExactCoversNew(before: Adjacency, after: Adjacency, t: Id, a: set<Id>, minSize: int)
    requires DifferOnlyAt(before, after, t)
    requires Components(after, minSize) <= Local(before, after, t, a, minSize)
    ensures CoversNewGroup(after, t, a, minSize)
  {
    if t in after && |Component(after, t)| >= minSize {
      var d := Component(after, t);
      ComponentFacts(after, t);
      assert d in Components(after, minSize);
      assert t in d * (a + {t});
      InLocalPass(after, a, minSize, d);
    }
  }

  /** The local pass gives the groups of the whole population exactly when every old group that
      meets the affected set lies in it and so does the changed track's new group. */
  lemma LocalExactIff(before: Adjacency, after: Adjacency, t: Id, a: set<Id>, minSize: int)
    requires DifferOnlyAt(before, after, t) && FirstHop(before, after, t, a, minSize)
    ensures Local(before, after, t, a, minSize) == Components(after, minSize)
            <==> CoversTouchedGroups(before, t, a, minSize) && CoversNewGroup(after, t, a, minSize)
  {
    if CoversTouchedGroups(before, t, a, minSize) && CoversNewGroup(after, t, a, minSize) {
      LocalComplete(before, after, t, a, minSize);
      LocalSound(before, after, t, a, minSize);
    }
    if Local(before, after, t, a, minSize) == Components(after, minSize) {
      ExactCoversTouched(before, after, t, a, minSize);
      ExactCoversNew(before, after, t, a, minSize);
    }
  }

  /** For groups of two or three the second hop makes the new group whole by itself. */
  lemma SmallGroupsCoverNew(before: Adjacency, after: Adjacency, t: Id, a: set<Id>, minSize: int)
    requires DifferOnlyAt(before, after, t) && FirstHop(before, after, t, a, minSize)
    requires minSize <= 2 || (minSize <= 3 && SecondHop(before, after, t, a))
    requires CoversTouchedGroups(before, t, a, minSize)
    ensures CoversNewGroup(after, t, a, minSize)
  {
    if t in after {
      var s := {t} + (set n, y | n in after[t] && n in before && y in Component(before, n) :: y);
      forall x, y | x in s && x in after && y in after[x] ensures y in s {
        if x == t {
          if y != t {
            assert y in before.Keys - {t};
            LinkedSelf(before, y);
            assert y in Component(before, y);
          }
        } else if y != t {
          var n :| n in after[t] && n in before && x in Component(before, n);
          ComponentFacts(before, n);
          assert x in before.Keys - {t};
          assert y in before[x] by { assert y in after[x] - {t}; }
          assert y in Component(before, n);
        }
      }
      ClosedHoldsComponent(after, s, t);
      ComponentFacts(after, t);
      forall y | y in Component(after, t) ensures y in a {
        if y != t {
          var n :| n in after[t] && n in before && y in Component(before, n);
          SmallComponentInside(before, t, a, minSize, n);
        }
      }
    }
  }

  lemma SmallComponentInside(g: Adjacency, t: Id, a: set<Id>, minSize: int, n: Id)
    requires Undirected(g) && n in g && n in a
    requires minSize <= 2 || (minSize <= 3 && g[n] <= a + {t})
    requires CoversTouchedGroups(g, t, a, minSize)
    ensures Component(g, n) <= a + {t}
  {
    var c := Component(g, n);
    ComponentFacts(g, n);
    if |c| >= minSize {
      assert n in c * (a + {t});
      assert c in Components(g, minSize);
    } else {
      forall m | m in c ensures m in a + {t} {
        if m != n {
          SubsetSize({n, m}, c);
          assert c == {n, m};
          if m !in g[n] {
            assert g[n] <= {n};
            ClosedHoldsComponent(g, {n}, n);
          }
        }
      }
    }
  }

  /** With the default `min_group_size` of two (or three, thanks to the second hop), local
      re-clustering is exact exactly when no old group sticks out of the affected set. */
  lemma SmallGroupsExactIff(before: Adjacency, after: Adjacency, t: Id, a: set<Id>, minSize: int)
    requires DifferOnlyAt(before, after, t) && FirstHop(before, after, t, a, minSize)
    requires minSize <= 2 || (minSize <= 3 && SecondHop(before, after, t, a))
    ensures Local(before, after, t, a, minSize) == Components(after, minSize)
            <==> CoversTouchedGroups(before, t, a, minSize)
  {
    LocalExactIff(before, after, t, a, minSize);
    if CoversTouchedGroups(before, t, a, minSize) {
      SmallGroupsCoverNew(before, after, t, a, minSize);
    }
  }

  /** The changed track with its old and new neighbours. */
  ghost function Hop(before: Adjacency, after: Adjacency, t: Id): set<Id> {
    {t} + (if t in before then before[t] else {}) + (if t in after then after[t] else {})
  }

  /** Every member of an old group that meets `hop`. */
  ghost function WholeGroups(before: Adjacency, hop: set<Id>, minSize: int): set<Id> {
    set c, x | c in Components(before, minSize) && c * hop != {} && x in c :: x
  }

  /** The first hop with the whole of every group it touches, without the changed track if it is gone. */
  ghost function HopAndGroups(before: Adjacency, after: Adjacency, t: Id, minSize: int): set<Id> {
    (Hop(before, after, t) + WholeGroups(before, Hop(before, after, t), minSize)) * after.Keys
  }

  /** That set is closed, whatever the group size: no old group sticks out of it. */
  lemma FirstHopGroupsAreClosed(before: Adjacency, after: Adjacency, t: Id, minSize: int)
    requires DifferOnlyAt(before, after, t)
    ensures var a := HopAndGroups(before, after, t, minSize);
            && FirstHop(before, after, t, a, minSize)
            && CoversTouchedGroups(before, t, a, minSize)
  {
    var hop := Hop(before, after, t);
    var a := (hop + WholeGroups(before, hop, minSize)) * after.Keys;
    forall c, x | c in Components(before, minSize) && c * hop != {} && x in c
      ensures x in a + {t}
    {
      var y :| y in before && c == Component(before, y);
      ComponentFacts(before, y);
      assert x in WholeGroups(before, hop, minSize);
      assert x in before.Keys - {t} || x == t;
    }
    if t in before {
      ComponentFacts(before, t);
      assert t in Component(before, t) * hop;
      assert before[t] <= Component(before, t);
    }
    if t in after {
      assert t in hop;
    }
    forall y | t in before && y in before[t] ensures y in a + {t} {
      assert y in hop;
      assert y in before.Keys - {t} || y == t;
    }
    forall c | c in Components(before, minSize) && c * (a + {t}) != {}
      ensures c * hop != {}
    {
      var x :| x in c * (a + {t});
      if x !in hop {
        assert x in WholeGroups(before, hop, minSize);
        var d :| d in Components(before, minSize) && d * hop != {} && x in d;
        var y :| y in before && c == Component(before, y);
        var z :| z in before && d == Component(before, z);
        assert x in c * d;
        ComponentsDisjoint(before, y, z);
      } else {
        assert x in c * hop;
      }
    }
  }

  /** So re-clustering exactly that set is exact if and only if it holds the whole new group of the
      changed track, and always for groups of two. */
  lemma FirstHopGroupsAreExact(before: Adjacency, after: Adjacency, t: Id, minSize: int)
    requires DifferOnlyAt(before, after, t)
    ensures var a := HopAndGroups(before, after, t, minSize);
            && (Local(before, after, t, a, minSize) == Components(after, minSize)
                <==> CoversNewGroup(after, t, a, minSize))
            && (minSize <= 2 ==> Local(before, after, t, a, minSize) == Components(after, minSize))
  {
    var a := HopAndGroups(before, after, t, minSize);
    FirstHopGroupsAreClosed(before, after, t, minSize);
    hide HopAndGroups, CoversTouchedGroups, CoversNewGroup, FirstHop, Local, Components, DifferOnlyAt;
    LocalExactIff(before, after, t, a, minSize);
    if minSize <= 2 {
      SmallGroupsExactIff(before, after, t, a, minSize);
    }
  }

  /** Without the closure the local pass loses groups: here `n` is next to the updated track `t`, the
      second hop pulls in one member `x` of the pair {x, y}, nothing moves, and the pair disappears. */
  lemma SecondHopLosesGroup(t: Id, n: Id, x: Id, y: Id)
    requires |{t, n, x, y}| == 4
    ensures var g := map[t := {}, n := {}, x := {y}, y := {x}];
            var a := {t, n, x};
            && DifferOnlyAt(g, g, t) && FirstHop(g, g, t, a, 2) && SecondHop(g, g, t, a)
            && {x, y} in Components(g, 2)
            && {x, y} !in Local(g, g, t, a, 2)
  {
    FourDistinct(t, n, x, y);
    var g := map[t := {}, n := {}, x := {y}, y := {x}];
    var a := {t, n, x};
    ClosedHoldsComponent(g, {t}, t);
    SubsetSize(Component(g, t), {t});
    LinkedSelf(g, x);
    LinkedStep(g, x, x, y);
    ComponentIs(g, {x, y}, x);
    assert x in {x, y} * (a + {t});
    assert y !in a;
  }

  lemma FourDistinct(t: Id, n: Id, x: Id, y: Id)
    requires |{t, n, x, y}| == 4
    ensures t != n && t != x && t != y && n != x && n != y && x != y
  {
    if t == n || t == x || t == y {
      SubsetSize({t, n, x, y}, {n, x, y});
    }
    if n == x || n == y {
      SubsetSize({t, n, x, y}, {t, x, y});
    }
    if x == y {
      SubsetSize({t, n, x, y}, {t, n, y});
    }
  }
}
