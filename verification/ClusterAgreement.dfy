/**
 The two closure algorithms side by side: union-find counts in `run_once`, and table
 relabelling in `apply_run`, give the same partition and the same number of clusters.
 */
module ClusterAgreement {
  import opened Wrappers
  import opened Connectivity
  import opened ClusterTable
  import opened ClusterRuns
  import opened ClusterStickiness
  import UnionFind
  import ClusterRunner

  function Empty(devices: set<int>): Tables {
    Tables(devices, map[], map[], 1)
  }

  function PairsOf(ds: seq<Proposal>): seq<(int, int)> {
    seq(|ds|, i requires 0 <= i < |ds| => (ds[i].a, ds[i].b))
  }

  lemma EdgesCoincide(ids: set<int>, ds: seq<Proposal>, source: string)
    requires AllKnown(Empty(ids), ds)
    ensures RunEdges(Empty(ids), ds, source) == UnionFind.InnerEdges(ids, PairsOf(ds))
  {
    var es, fs := RunEdges(Empty(ids), ds, source), UnionFind.InnerEdges(ids, PairsOf(ds));
    assert SharedPairs(Wipe(Empty(ids), source)) == {};
    forall e
      ensures e in es <==> e in fs
    {
      if e in es {
        var p :| p in ds && e == (p.a, p.b);
        var i :| 0 <= i < |ds| && ds[i] == p;
        assert PairsOf(ds)[i] == e && Known(Empty(ids), ds[i]);
      }
      if e in fs {
        var i :| 0 <= i < |PairsOf(ds)| && PairsOf(ds)[i] == e;
        assert ds[i] in ds;
      }
    }
  }

  /** From empty tables, `apply_run` groups two devices exactly when union-find gives them one root. */
  lemma SamePartition(ids: set<int>, ds: seq<Proposal>, now: real, source: string, root: map<int, int>, x: int, y: int)
    requires ds != [] && AllKnown(Empty(ids), ds)
    requires root.Keys == ids && UnionFind.RootsAreComponents(root, UnionFind.InnerEdges(ids, PairsOf(ds)))
    requires x in ids && y in ids && x != y
    ensures Together(ApplyRun(Empty(ids), ds, now, source), x, y) <==> root[x] == root[y]
  {
    EdgesCoincide(ids, ds, source);
    RunPartition(Empty(ids), ds, now, source, x, y);
  }

  ghost predicate NoEmptyRow(t: Tables) {
    forall c :: c in t.clusters ==> HasMember(t, c)
  }

  lemma {:induction false} FoldLeavesNoEmptyRow(t: Tables, ds: seq<Proposal>, df: Lookup, now: real, source: string)
    requires Good(t) && AllKnown(t, ds) && NoEmptyRow(t)
    ensures NoEmptyRow(Fold(t, ds, df, now, source))
    decreases |ds|
  {
    if ds != [] {
      var pre, p := ds[..|ds| - 1], ds[|ds| - 1];
      var mid, r := Fold(t, pre, df, now, source), Fold(t, ds, df, now, source);
      FoldLeavesNoEmptyRow(t, pre, df, now, source);
      StepRows(mid, p, df, now, source);
      StepShape(mid, p, df, now, source);
      forall c | c in r.clusters
        ensures HasMember(r, c)
      {
        assert RowFrom(mid, r, c);
        if c in mid.clusters {
          var y :| (c, y) in mid.members;
          StepKeepsLiveRow(mid, p, df, now, source, c, y);
        } else {
          StepNewRow(mid, p, df, now, source, c);
          assert (c, p.a) in r.members;
        }
      }
    }
  }

  lemma StepNewRow(t: Tables, p: Proposal, df: Lookup, now: real, source: string, c: int)
    requires Good(t) && c in Step(t, p, df, now, source).clusters && c !in t.clusters
    ensures (c, p.a) in Step(t, p, df, now, source).members
  {
  }

  ghost function Unclustered(t: Tables, ids: set<int>): set<int> {
    set x | x in ids && ClusterOf(t, x).None?
  }

  /** The labels of the partition: one per cluster row, one per device in no cluster. */
  ghost function Labels(t: Tables, ids: set<int>): set<(bool, int)> {
    (set c | c in t.clusters :: (true, c)) + (set x | x in Unclustered(t, ids) :: (false, x))
  }

  lemma LabelCount(t: Tables, ids: set<int>)
    ensures |Labels(t, ids)| == |t.clusters| + |Unclustered(t, ids)|
  {
    var rows, alone := set c | c in t.clusters :: (true, c), set x | x in Unclustered(t, ids) :: (false, x);
    var f := (c: int) => (true, c);
    forall c | c in t.clusters.Keys
      ensures f(c) in rows
    {
      assert c in t.clusters;
    }
    ClusterRunner.ImageSize(t.clusters.Keys, f, rows);
    ClusterRunner.ImageSize(Unclustered(t, ids), x => (false, x), alone);
    assert rows !! alone;
    assert |t.clusters.Keys| == |t.clusters|;
  }

  /** The cluster count of a run equals the rows `apply_run` writes plus the devices it leaves alone. */
  lemma SameCount(ids: set<int>, ds: seq<Proposal>, now: real, source: string)
    requires ds != [] && AllKnown(Empty(ids), ds)
    ensures var r := ApplyRun(Empty(ids), ds, now, source);
      |ClusterRunner.Components(ids, UnionFind.InnerEdges(ids, PairsOf(ds)))| == |r.clusters| + |Unclustered(r, ids)|
  {
    var r, es := ApplyRun(Empty(ids), ds, now, source), UnionFind.InnerEdges(ids, PairsOf(ds));
    EdgesCoincide(ids, ds, source);
    NothingInEmpty(ids, source);
    FoldLeavesNoEmptyRow(Empty(ids), ds, LookupOf(ds), now, source);
    var labels := Labels(r, ids);
    var member := (l: (bool, int)) => if l.0 then Pick(r, l.1) else l.1;
    forall x, y | x in ids && y in ids
      ensures Label(r, x) == Label(r, y) <==> Connected(es, x, y)
    {
      Reflexive(es, x);
      if x != y {
        LabelsAreClusters(r, x, y);
        RunPartition(Empty(ids), ds, now, source, x, y);
      }
    }
    forall l | l in labels
      ensures member(l) in ids && Label(r, member(l)) == l
    {
      if l.0 { assert HasMember(r, l.1); PickIs(r, l.1); }
    }
    ComponentsByLabel(r, ids, es, labels, member);
    LabelCount(r, ids);
  }

  lemma NothingInEmpty(ids: set<int>, source: string)
    ensures Wipe(Empty(ids), source) == Empty(ids) && NoEmptyRow(Empty(ids)) && Good(Empty(ids))
  {
  }

  ghost function Pick(t: Tables, c: int): int {
    if d :| (c, d) in t.members then d else 0
  }

  lemma PickIs(t: Tables, c: int)
    requires Good(t) && HasMember(t, c)
    ensures (c, Pick(t, c)) in t.members && ClusterOf(t, Pick(t, c)) == Some(c) && Pick(t, c) in t.devices
  {
  }

  lemma ComponentsByLabel(t: Tables, ids: set<int>, es: Edges, labels: set<(bool, int)>, member: ((bool, int)) -> int)
    requires forall x, y :: x in ids && y in ids ==> (Label(t, x) == Label(t, y) <==> Connected(es, x, y))
    requires forall x :: x in ids ==> Label(t, x) in labels
    requires forall l :: l in labels ==> member(l) in ids && Label(t, member(l)) == l
    ensures |ClusterRunner.Components(ids, es)| == |labels|
  {
    var all := ClusterRunner.Components(ids, es);
    var f := (l: (bool, int)) => ClusterRunner.Component(ids, es, member(l));
    forall l, m | l in labels && m in labels && f(l) == f(m)
      ensures l == m
    {
      Reflexive(es, member(l));
      assert member(l) in f(m);
    }
    forall c | c in all
      ensures exists l :: l in labels && f(l) == c
    {
      var x :| x in ids && c == ClusterRunner.Component(ids, es, x);
      assert Connected(es, x, member(Label(t, x)));
      ClusterRunner.SameComponent(ids, es, x, member(Label(t, x)));
      assert f(Label(t, x)) == c;
    }
    ClusterRunner.ImageSize(labels, f, all);
  }
}
