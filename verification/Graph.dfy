/** Reachability in a finite adjacency map: walks, components, and the facts that let
    one graph's components be read off another's. */
module Graph {
  import opened TrackIds

  type Adjacency = map<Id, set<Id>>

  /** Edges stay inside the vertex set and run both ways. */
  ghost predicate Undirected(g: Adjacency) {
    forall a, b {:trigger b in g[a]} :: a in g && b in g[a] ==> b in g && a in g[b]
  }

  ghost predicate IsWalk(g: Adjacency, p: seq<Id>) {
    && p != []
    && (forall i | 0 <= i < |p| :: p[i] in g)
    && (forall i | 0 < i < |p| :: p[i] in g[p[i - 1]])
  }

  /** Some walk leads from a to b. */
  ghost predicate Linked(g: Adjacency, a: Id, b: Id) {
    exists p :: IsWalk(g, p) && p[0] == a && p[|p| - 1] == b
  }

  ghost function Component(g: Adjacency, a: Id): set<Id> {
    set b | b in g && Linked(g, a, b)
  }

  /** The connected components with at least `minSize` vertices. */
  ghost function Components(g: Adjacency, minSize: int): set<set<Id>> {
    set a | a in g && |Component(g, a)| >= minSize :: Component(g, a)
  }

  ghost predicate Closed(g: Adjacency, s: set<Id>) {
    forall a | a in s && a in g :: g[a] <= s
  }

  /** The subgraph induced by the vertices in `a`. */
  function Restrict(g: Adjacency, a: set<Id>): Adjacency {
    map x | x in g && x in a :: g[x] * a
  }

  /** The undirected graph on `nodes` whose edges are the given pairs. */
  ghost function FromPairs(nodes: set<Id>, pairs: set<(Id, Id)>): Adjacency {
    map a | a in nodes :: set b | b in nodes && ((a, b) in pairs || (b, a) in pairs)
  }

  lemma FromPairsUndirected(nodes: set<Id>, pairs: set<(Id, Id)>)
    ensures Undirected(FromPairs(nodes, pairs))
  {
  }

  lemma FromPairsEmpty(nodes: set<Id>)
    ensures FromPairs(nodes, {}) == map x | x in nodes :: {}
  {
    var g: Adjacency := map x | x in nodes :: {};
    assert forall x | x in nodes :: FromPairs(nodes, {})[x] == g[x];
  }

  lemma FromPairsAdd(nodes: set<Id>, pairs: set<(Id, Id)>, a: Id, b: Id)
    requires a in nodes && b in nodes && a != b
    ensures var g := FromPairs(nodes, pairs);
            FromPairs(nodes, pairs + {(a, b)}) == g[a := g[a] + {b}][b := g[b] + {a}]
  {
    var g, h := FromPairs(nodes, pairs), FromPairs(nodes, pairs + {(a, b)});
    forall x | x in nodes ensures h[x] == if x == a then g[x] + {b} else if x == b then g[x] + {a} else g[x] {
      forall y | y in nodes
        ensures (x, y) in pairs + {(a, b)} <==> (x, y) in pairs || (x == a && y == b)
        ensures (y, x) in pairs + {(a, b)} <==> (y, x) in pairs || (x == b && y == a)
      {
      }
    }
  }

  /** Keeping the edges inside `s` gives the induced subgraph. */
  lemma FromPairsRestrict(nodes: set<Id>, pairs: set<(Id, Id)>, part: set<(Id, Id)>, s: set<Id>)
    requires s <= nodes
    requires forall a, b | a in s && b in s :: (a, b) in pairs <==> (a, b) in part
    ensures FromPairs(s, part) == Restrict(FromPairs(nodes, pairs), s)
  {
    var g, h := FromPairs(s, part), Restrict(FromPairs(nodes, pairs), s);
    assert g.Keys == h.Keys;
    forall x | x in s ensures g[x] == h[x] {
      forall y ensures y in g[x] <==> y in h[x] {
      }
    }
  }

  lemma LinkedSelf(g: Adjacency, a: Id)
    requires a in g
    ensures Linked(g, a, a)
  {
    assert IsWalk(g, [a]);
  }

  lemma LinkedStep(g: Adjacency, a: Id, b: Id, c: Id)
    requires Linked(g, a, b) && c in g && b in g && c in g[b]
    ensures Linked(g, a, c)
  {
    var p :| IsWalk(g, p) && p[0] == a && p[|p| - 1] == b;
    assert IsWalk(g, p + [c]);
  }

  lemma LinkedTransitive(g: Adjacency, a: Id, b: Id, c: Id)
    requires Linked(g, a, b) && Linked(g, b, c)
    ensures Linked(g, a, c)
  {
    var p :| IsWalk(g, p) && p[0] == a && p[|p| - 1] == b;
    var q :| IsWalk(g, q) && q[0] == b && q[|q| - 1] == c;
    var r := p + q[1..];
    forall i | 0 < i < |r| ensures r[i] in g[r[i - 1]] {
      if i >= |p| {
        assert r[i] == q[i - |p| + 1] && r[i - 1] == q[i - |p|];
      }
    }
    assert IsWalk(g, r);
  }

  function Reversed(p: seq<Id>): (q: seq<Id>)
    ensures |q| == |p|
    ensures forall i | 0 <= i < |p| :: q[i] == p[|p| - 1 - i]
  {
    seq(|p|, i requires 0 <= i < |p| => p[|p| - 1 - i])
  }

  lemma LinkedSymmetric(g: Adjacency, a: Id, b: Id)
    requires Undirected(g) && Linked(g, a, b)
    ensures Linked(g, b, a)
  {
    var p :| IsWalk(g, p) && p[0] == a && p[|p| - 1] == b;
    var q := Reversed(p);
    forall i | 0 < i < |q| ensures q[i] in g[q[i - 1]] {
      assert q[i] == p[|p| - 1 - i] && q[i - 1] == p[|p| - i];
      assert p[|p| - i] in g[p[|p| - i - 1]];
    }
    assert IsWalk(g, q);
  }

  /** A walk cannot leave a closed set. */
  lemma {:induction false} WalkStaysInside(g: Adjacency, s: set<Id>, p: seq<Id>)
    requires Closed(g, s) && IsWalk(g, p) && p[0] in s
    ensures forall i | 0 <= i < |p| :: p[i] in s
    decreases |p|
  {
    if |p| > 1 {
      var q := p[..|p| - 1];
      WalkStaysInside(g, s, q);
      assert q[|q| - 1] in s && p[|p| - 1] in g[p[|p| - 2]];
    }
  }

  lemma ClosedHoldsComponent(g: Adjacency, s: set<Id>, a: Id)
    requires Closed(g, s) && a in s
    ensures Component(g, a) <= s
  {
    forall b | b in Component(g, a) ensures b in s {
      var p :| IsWalk(g, p) && p[0] == a && p[|p| - 1] == b;
      WalkStaysInside(g, s, p);
    }
  }

  lemma ComponentFacts(g: Adjacency, a: Id)
    requires Undirected(g) && a in g
    ensures a in Component(g, a)
    ensures Closed(g, Component(g, a))
    ensures Component(g, a) <= g.Keys
  {
    LinkedSelf(g, a);
    forall b, c | b in Component(g, a) && c in g[b] ensures c in Component(g, a) {
      LinkedStep(g, a, b, c);
    }
  }

  /** A closed set all of whose members are linked to one of them is that member's component. */
  lemma ComponentIs(g: Adjacency, s: set<Id>, a: Id)
    requires Undirected(g) && a in s && Closed(g, s)
    requires forall b | b in s :: b in g && Linked(g, a, b)
    ensures s == Component(g, a)
  {
    ClosedHoldsComponent(g, s, a);
  }

  /** Components are equivalence classes. */
  lemma SameComponent(g: Adjacency, a: Id, b: Id)
    requires Undirected(g) && a in g && b in Component(g, a)
    ensures Component(g, b) == Component(g, a)
  {
    LinkedSymmetric(g, a, b);
    forall c | c in g ensures Linked(g, a, c) <==> Linked(g, b, c) {
      if Linked(g, a, c) { LinkedTransitive(g, b, a, c); }
      if Linked(g, b, c) { LinkedTransitive(g, a, b, c); }
    }
  }

  lemma ComponentsDisjoint(g: Adjacency, a: Id, b: Id)
    requires Undirected(g) && a in g && b in g
    requires Component(g, a) * Component(g, b) != {}
    ensures Component(g, a) == Component(g, b)
  {
    var c :| c in Component(g, a) * Component(g, b);
    SameComponent(g, a, c);
    SameComponent(g, b, c);
  }

  /** Two graphs that agree on a set closed in the first have the same components inside it. */
  lemma AgreeingComponents(g: Adjacency, h: Adjacency, s: set<Id>, a: Id)
    requires Undirected(g) && Undirected(h) && a in s && s <= g.Keys && s <= h.Keys
    requires Closed(g, s) && forall x | x in s :: g[x] == h[x]
    ensures Component(g, a) == Component(h, a) <= s
  {
    ComponentFacts(g, a);
    ClosedHoldsComponent(g, s, a);
    forall b | b in Component(g, a) ensures Linked(h, a, b) {
      var p :| IsWalk(g, p) && p[0] == a && p[|p| - 1] == b;
      WalkStaysInside(g, s, p);
      assert IsWalk(h, p);
    }
    ComponentIs(h, Component(g, a), a);
  }

  /** A walk that keeps to the vertices of `h`, where `h` has the edges used, is a walk of `h`. */
  lemma ComponentGrows(g: Adjacency, h: Adjacency, c: set<Id>, a: Id)
    requires Undirected(g) && Undirected(h) && a in g && c == Component(g, a)
    requires c <= h.Keys && forall x | x in c :: g[x] <= h[x]
    ensures c <= Component(h, a)
  {
    ComponentFacts(g, a);
    forall b | b in c ensures Linked(h, a, b) {
      var p :| IsWalk(g, p) && p[0] == a && p[|p| - 1] == b;
      WalkStaysInside(g, c, p);
      assert IsWalk(h, p);
    }
  }

  /** Closed sets are unions of components: one that misses a vertex misses its whole component. */
  lemma ClosedMissesComponent(g: Adjacency, s: set<Id>, a: Id)
    requires Undirected(g) && Closed(g, s) && a in g && a !in s
    ensures Component(g, a) * s == {}
    ensures forall b | b in s :: b !in Component(g, a)
  {
    forall b | b in s ensures b !in Component(g, a) {
      if b in Component(g, a) {
        SameComponent(g, a, b);
        LinkedSelf(g, a);
        ClosedHoldsComponent(g, s, b);
      }
    }
  }

  ghost predicate Distinct(q: seq<Id>) {
    forall i, j | 0 <= i < j < |q| :: q[i] != q[j]
  }

  ghost function Elements(q: seq<Id>): set<Id> { set x | x in q }

  lemma DistinctSize(q: seq<Id>)
    requires Distinct(q)
    ensures |Elements(q)| == |q|
  {
    if q != [] {
      var r := q[..|q| - 1];
      DistinctSize(r);
      assert Elements(q) == Elements(r) + {q[|q| - 1]};
    }
  }

  lemma SubsetSize(a: set<Id>, b: set<Id>)
    requires a <= b
    ensures |a| <= |b|
    ensures |a| == |b| ==> a == b
  {
    assert b == a + (b - a);
  }
}
