/**
 Undirected connectivity over device ids: the reference notion that both
 clustering algorithms (union-find and table relabelling) are measured against.
 It is defined by explicit paths and knows nothing of parents, labels or tables.
 */
module Connectivity {
  type Edges = set<(int, int)>

  predicate Adjacent(es: Edges, x: int, y: int) {
    (x, y) in es || (y, x) in es
  }

  ghost predicate IsPath(es: Edges, p: seq<int>, x: int, y: int) {
    if |p| == 0 then x == y
    else Adjacent(es, x, p[0]) && IsPath(es, p[1..], p[0], y)
  }

  /** Some walk along edges, in either direction, leads from `x` to `y`. */
  ghost predicate Connected(es: Edges, x: int, y: int) {
    exists p :: IsPath(es, p, x, y)
  }

  lemma Reflexive(es: Edges, x: int)
    ensures Connected(es, x, x)
  {
    assert IsPath(es, [], x, x);
  }

  lemma {:induction false} PathAppend(es: Edges, p: seq<int>, q: seq<int>, x: int, y: int, z: int)
    requires IsPath(es, p, x, y) && IsPath(es, q, y, z)
    ensures IsPath(es, p + q, x, z)
    decreases |p|
  {
    if |p| == 0 {
      assert p + q == q;
    } else {
      PathAppend(es, p[1..], q, p[0], y, z);
      assert (p + q)[1..] == p[1..] + q;
    }
  }

  lemma Transitive(es: Edges, x: int, y: int, z: int)
    requires Connected(es, x, y) && Connected(es, y, z)
    ensures Connected(es, x, z)
  {
    var p :| IsPath(es, p, x, y);
    var q :| IsPath(es, q, y, z);
    PathAppend(es, p, q, x, y, z);
  }

  lemma AdjacentConnected(es: Edges, x: int, y: int)
    requires Adjacent(es, x, y)
    ensures Connected(es, x, y)
  {
    assert IsPath(es, [], y, y);
    assert [y][1..] == [];
    assert IsPath(es, [y], x, y);
  }

  lemma {:induction false} PathReverse(es: Edges, p: seq<int>, x: int, y: int)
    requires IsPath(es, p, x, y)
    ensures Connected(es, y, x)
    decreases |p|
  {
    if |p| == 0 {
      Reflexive(es, x);
    } else {
      PathReverse(es, p[1..], p[0], y);
      AdjacentConnected(es, p[0], x);
      Transitive(es, y, p[0], x);
    }
  }

  lemma Symmetric(es: Edges, x: int, y: int)
    requires Connected(es, x, y)
    ensures Connected(es, y, x)
  {
    var p :| IsPath(es, p, x, y);
    PathReverse(es, p, x, y);
  }

  lemma {:induction false} PathInLarger(es: Edges, fs: Edges, p: seq<int>, x: int, y: int)
    requires IsPath(es, p, x, y)
    requires forall a, b :: (a, b) in es ==> Adjacent(fs, a, b)
    ensures IsPath(fs, p, x, y)
    decreases |p|
  {
    if |p| != 0 {
      PathInLarger(es, fs, p[1..], p[0], y);
    }
  }

  /** Every edge being present, in one direction or the other, is enough to carry paths over. */
  lemma Monotone(es: Edges, fs: Edges, x: int, y: int)
    requires Connected(es, x, y)
    requires forall a, b :: (a, b) in es ==> Adjacent(fs, a, b)
    ensures Connected(fs, x, y)
  {
    var p :| IsPath(es, p, x, y);
    PathInLarger(es, fs, p, x, y);
  }

  lemma {:induction false} PathRespectsLabel<T>(es: Edges, f: int -> T, p: seq<int>, x: int, y: int)
    requires forall a, b :: (a, b) in es ==> f(a) == f(b)
    requires IsPath(es, p, x, y)
    ensures f(x) == f(y)
    decreases |p|
  {
    if |p| != 0 {
      PathRespectsLabel(es, f, p[1..], p[0], y);
    }
  }

  /** A labelling constant along every edge is constant on every component. */
  lemma LabelRespectsConnectivity<T>(es: Edges, f: int -> T, x: int, y: int)
    requires forall a, b :: (a, b) in es ==> f(a) == f(b)
    requires Connected(es, x, y)
    ensures f(x) == f(y)
  {
    var p :| IsPath(es, p, x, y);
    PathRespectsLabel(es, f, p, x, y);
  }

  /** Two edge sets whose edges are each implied by the other connect the same pairs. */
  lemma SameComponents(es: Edges, fs: Edges, x: int, y: int)
    requires forall a, b :: (a, b) in es ==> Connected(fs, a, b)
    requires forall a, b :: (a, b) in fs ==> Connected(es, a, b)
    ensures Connected(es, x, y) <==> Connected(fs, x, y)
  {
    if Connected(es, x, y) {
      var p :| IsPath(es, p, x, y);
      PathOfConnections(es, fs, p, x, y);
    }
    if Connected(fs, x, y) {
      var p :| IsPath(fs, p, x, y);
      PathOfConnections(fs, es, p, x, y);
    }
  }

  lemma {:induction false} PathOfConnections(es: Edges, fs: Edges, p: seq<int>, x: int, y: int)
    requires IsPath(es, p, x, y)
    requires forall a, b :: (a, b) in es ==> Connected(fs, a, b)
    ensures Connected(fs, x, y)
    decreases |p|
  {
    if |p| == 0 {
      Reflexive(fs, x);
    } else {
      if (x, p[0]) !in es { Symmetric(fs, p[0], x); }
      PathOfConnections(es, fs, p[1..], p[0], y);
      Transitive(fs, x, p[0], y);
    }
  }
}
