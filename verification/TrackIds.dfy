/** Track and group identifiers, ordered the way Python orders strings, and the
    `sorted(...)` of a finite set of them. */
module TrackIds {

  type Id = string

  datatype Option<+T> = None | Some(value: T)

  /** Strict lexicographic order by code point. */
  predicate Below(a: Id, b: Id) {
    if a == [] then b != []
    else if b == [] then false
    else if a[0] == b[0] then Below(a[1..], b[1..])
    else a[0] < b[0]
  }

  /** What the order means: the first is a proper prefix of the second, or at the first place where they
      differ it has the smaller character. */
  lemma {:induction false} BelowIs(a: Id, b: Id)
    ensures Below(a, b) <==> exists n: nat :: n <= |a| && n < |b| && a[..n] == b[..n] && (n == |a| || a[n] < b[n])
    decreases |a|
  {
    if a != [] && b != [] && a[0] == b[0] {
      BelowIs(a[1..], b[1..]);
      if Below(a[1..], b[1..]) {
        var n: nat :| n <= |a[1..]| && n < |b[1..]| && a[1..][..n] == b[1..][..n]
                      && (n == |a[1..]| || a[1..][n] < b[1..][n]);
        assert a[..n + 1] == [a[0]] + a[1..][..n] && b[..n + 1] == [b[0]] + b[1..][..n];
        assert n + 1 <= |a| && n + 1 < |b| && a[..n + 1] == b[..n + 1] && (n + 1 == |a| || a[n + 1] < b[n + 1]);
      }
      if n: nat :| n <= |a| && n < |b| && a[..n] == b[..n] && (n == |a| || a[n] < b[n]) {
        assert a[1..][..n - 1] == a[..n][1..] && b[1..][..n - 1] == b[..n][1..];
      }
    } else {
      assert a[..0] == b[..0];
      forall n: nat | 1 <= n <= |a| && n < |b| ensures a[..n] != b[..n] {
        assert a[..n][0] != b[..n][0];
      }
    }
  }

  /** A common prefix does not change the order. */
  lemma {:induction false} BelowPrefixed(p: Id, a: Id, b: Id)
    ensures Below(p + a, p + b) <==> Below(a, b)
    decreases |p|
  {
    if p == [] {
      assert p + a == a && p + b == b;
    } else {
      BelowPrefixed(p[1..], a, b);
      assert (p + a)[1..] == p[1..] + a && (p + b)[1..] == p[1..] + b;
    }
  }

  lemma BelowIrreflexive(a: Id)
    ensures !Below(a, a)
  {
  }

  lemma {:induction false} BelowTransitive(a: Id, b: Id, c: Id)
    requires Below(a, b) && Below(b, c)
    ensures Below(a, c)
  {
    if a != [] && a[0] == b[0] && b[0] == c[0] {
      BelowTransitive(a[1..], b[1..], c[1..]);
    }
  }

  lemma {:induction false} BelowTotal(a: Id, b: Id)
    ensures a == b || Below(a, b) || Below(b, a)
  {
    if a != [] && b != [] && a[0] == b[0] {
      BelowTotal(a[1..], b[1..]);
      assert a == [a[0]] + a[1..] && b == [b[0]] + b[1..];
    }
  }

  lemma BelowAsymmetric(a: Id, b: Id)
    requires Below(a, b)
    ensures !Below(b, a) && a != b
  {
    BelowIrreflexive(a);
    if Below(b, a) {
      BelowTransitive(a, b, a);
    }
  }

  predicate IsLeast(m: Id, s: set<Id>) {
    m in s && forall x | x in s :: x == m || Below(m, x)
  }

  lemma {:induction false} LeastExists(s: set<Id>)
    requires s != {}
    ensures exists m :: IsLeast(m, s)
    decreases |s|
  {
    var x :| x in s;
    var rest := s - {x};
    assert s == rest + {x};
    if rest == {} {
      assert IsLeast(x, s);
    } else {
      LeastExists(rest);
      var m :| IsLeast(m, rest);
      BelowTotal(x, m);
      if Below(x, m) {
        forall y | y in s ensures y == x || Below(x, y) {
          if y != x && y != m {
            BelowTransitive(x, m, y);
          }
        }
        assert IsLeast(x, s);
      } else {
        assert IsLeast(m, s);
      }
    }
  }

  lemma LeastIsUnique(s: set<Id>)
    ensures forall m, n :: IsLeast(m, s) && IsLeast(n, s) ==> m == n
  {
    forall m, n | IsLeast(m, s) && IsLeast(n, s)
      ensures m == n
    {
      if m != n {
        BelowAsymmetric(m, n);
      }
    }
  }

  /** The least of a non-empty set of identifiers. */
  function Least(s: set<Id>): (m: Id)
    requires s != {}
    ensures IsLeast(m, s)
  {
    LeastExists(s);
    LeastIsUnique(s);
    var m :| m in s && IsLeast(m, s);
    m
  }

  predicate Ascending(q: seq<Id>) {
    forall i, j | 0 <= i < j < |q| :: Below(q[i], q[j])
  }

  /** The elements of a finite set in ascending order. */
  function Sorted(s: set<Id>): (q: seq<Id>)
    ensures Ascending(q)
    ensures |q| == |s|
    ensures forall x :: x in q <==> x in s
    decreases |s|
  {
    if s == {} then []
    else
      var m := Least(s);
      var tail := Sorted(s - {m});
      assert forall j | 0 <= j < |tail| :: tail[j] in s - {m};
      [m] + tail
  }

  /** There is only one ascending arrangement of a set of identifiers. */
  lemma {:induction false} AscendingUnique(p: seq<Id>, q: seq<Id>)
    requires Ascending(p) && Ascending(q)
    requires forall x :: x in p <==> x in q
    ensures p == q
    decreases |p|
  {
    assert p != [] ==> p[0] in q;
    assert q != [] ==> q[0] in p;
    if p != [] && q != [] {
      if p[0] != q[0] {
        BelowAsymmetric(p[0], q[0]);
      }
      forall x ensures x in p[1..] <==> x in q[1..] {
        BelowIrreflexive(p[0]);
        assert x in p <==> x == p[0] || x in p[1..];
        assert x in q <==> x == q[0] || x in q[1..];
      }
      AscendingUnique(p[1..], q[1..]);
      assert p == [p[0]] + p[1..] && q == [q[0]] + q[1..];
    }
  }
}
