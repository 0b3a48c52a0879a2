/**
 What one call of `Clusters.apply_run`, and any sequence of calls, does to the
 partition of devices stored in the cluster tables.
 */
module ClusterRuns {
  import opened Wrappers
  import opened Connectivity
  import opened ClusterTable

  /** The whole method: nothing to do, a foreign-key failure rolled back, or wipe and fold. */
  ghost function ApplyRun(t: Tables, ds: seq<Proposal>, now: real, source: string): (r: Tables)
    requires Good(t)
    ensures Good(r) && r.devices == t.devices
  {
    if ds == [] || !AllKnown(t, ds) then t
    else Fold(Wipe(t, source), ds, LookupOf(ds), now, source)
  }

  /** Edges that carry the surviving rows: one per pair of devices sharing a cluster. */
  ghost function SharedPairs(t: Tables): Edges {
    set k, l | k in t.members && l in t.members && k.0 == l.0 :: (k.1, l.1)
  }

  function DecisionEdges(ds: seq<Proposal>): Edges {
    set p | p in ds :: (p.a, p.b)
  }

  // -------------------------------------------------- the shape of one step

  /** The devices that end up in one cluster because of edge `p`. */
  ghost predicate Joined(t: Tables, p: Proposal, d: int) {
    d == p.a || d == p.b || Together(t, d, p.a) || Together(t, d, p.b)
  }

  /** The cluster that receives them: the older of the existing ones, or a new id. */
  ghost function Target(t: Tables, p: Proposal): int {
    match (ClusterOf(t, p.a), ClusterOf(t, p.b))
    case (None, None) => t.nextId
    case (Some(c), None) => c
    case (None, Some(c)) => c
    case (Some(c), Some(e)) => if c < e then c else e
  }

  /** All four branches have the same effect on membership: the joined devices move to the target, nobody else moves. */
  lemma StepShape(t: Tables, p: Proposal, df: Lookup, now: real, source: string)
    requires Good(t)
    ensures var r := Step(t, p, df, now, source);
      forall c, d :: (c, d) in r.members <==> if Joined(t, p, d) then c == Target(t, p) else (c, d) in t.members
  {
  }

  // ------------------------------------------------- the partition of one run

  /** Folding only joins pairs that edges and surviving rows connect. */
  lemma {:induction false} FoldSound(t: Tables, ds: seq<Proposal>, df: Lookup, now: real, source: string, es: Edges)
    requires Good(t) && AllKnown(t, ds)
    requires forall k, l :: k in t.members && l in t.members && k.0 == l.0 ==> Connected(es, k.1, l.1)
    requires forall p :: p in ds ==> Connected(es, p.a, p.b)
    ensures var r := Fold(t, ds, df, now, source);
      forall k, l :: k in r.members && l in r.members && k.0 == l.0 ==> Connected(es, k.1, l.1)
    decreases |ds|
  {
    if ds != [] {
      var pre := ds[..|ds| - 1];
      FoldSound(t, pre, df, now, source, es);
      StepSound(Fold(t, pre, df, now, source), ds[|ds| - 1], df, now, source, es);
    }
  }

  lemma StepSound(t: Tables, p: Proposal, df: Lookup, now: real, source: string, es: Edges)
    requires Good(t)
    requires forall k, l :: k in t.members && l in t.members && k.0 == l.0 ==> Connected(es, k.1, l.1)
    requires Connected(es, p.a, p.b)
    ensures var r := Step(t, p, df, now, source);
      forall k, l :: k in r.members && l in r.members && k.0 == l.0 ==> Connected(es, k.1, l.1)
  {
    var r := Step(t, p, df, now, source);
    StepShape(t, p, df, now, source);
    Symmetric(es, p.a, p.b);
    Reflexive(es, p.a);
    Reflexive(es, p.b);
    forall k, l | k in r.members && l in r.members && k.0 == l.0
      ensures Connected(es, k.1, l.1)
    {
      // Each end was in the cluster of `p.a` or of `p.b` before, or is that device itself.
      if !Together(t, k.1, l.1) {
        var u := if k.1 == p.a || Together(t, k.1, p.a) then p.a else p.b;
        var v := if l.1 == p.b || Together(t, l.1, p.b) then p.b else p.a;
        Transitive(es, k.1, u, v);
        Transitive(es, k.1, v, l.1);
      }
    }
  }

  /** A step puts its two ends together and separates nobody. */
  lemma StepJoins(t: Tables, p: Proposal, df: Lookup, now: real, source: string, x: int, y: int)
    requires Good(t)
    ensures Together(Step(t, p, df, now, source), p.a, p.b)
    ensures Together(t, x, y) ==> Together(Step(t, p, df, now, source), x, y)
  {
    StepShape(t, p, df, now, source);
    hide Step, Target, ClusterOf;
    var r, to := Step(t, p, df, now, source), Target(t, p);
    assert (to, p.a) in r.members && (to, p.b) in r.members;
    if Together(t, x, y) {
      var c :| (c, x) in t.members && (c, y) in t.members;
      assert Joined(t, p, x) <==> Joined(t, p, y);
      assert if Joined(t, p, x) then (to, x) in r.members && (to, y) in r.members
        else (c, x) in r.members && (c, y) in r.members;
    }
  }

  lemma {:induction false} FoldJoins(t: Tables, ds: seq<Proposal>, df: Lookup, now: real, source: string)
    requires Good(t) && AllKnown(t, ds)
    ensures forall p :: p in ds ==> Together(Fold(t, ds, df, now, source), p.a, p.b)
    ensures forall x, y :: Together(t, x, y) ==> Together(Fold(t, ds, df, now, source), x, y)
    decreases |ds|
  {
    if ds != [] {
      var pre, last := ds[..|ds| - 1], ds[|ds| - 1];
      var mid, r := Fold(t, pre, df, now, source), Fold(t, ds, df, now, source);
      FoldJoins(t, pre, df, now, source);
      forall x, y | Together(mid, x, y)
        ensures Together(r, x, y)
      {
        StepJoins(mid, last, df, now, source, x, y);
      }
      StepJoins(mid, last, df, now, source, last.a, last.b);
      forall p | p in ds
        ensures Together(r, p.a, p.b)
      {
        if p != last { assert p in pre; }
      }
    }
  }

  ghost function Label(t: Tables, d: int): (bool, int) {
    match ClusterOf(t, d)
    case Some(c) => (true, c)
    case None => (false, d)
  }

  lemma LabelsAreClusters(t: Tables, x: int, y: int)
    requires Good(t) && x != y
    ensures Label(t, x) == Label(t, y) <==> Together(t, x, y)
  {
  }

  /** What connects devices after a run: surviving shared rows, and the decisions. */
  ghost function RunEdges(t: Tables, ds: seq<Proposal>, source: string): Edges {
    SharedPairs(Wipe(t, source)) + DecisionEdges(ds)
  }

  lemma RunSound(t: Tables, ds: seq<Proposal>, now: real, source: string, x: int, y: int)
    requires Good(t) && ds != [] && AllKnown(t, ds)
    requires Together(ApplyRun(t, ds, now, source), x, y)
    ensures Connected(RunEdges(t, ds, source), x, y)
  {
    var w, es, r := Wipe(t, source), RunEdges(t, ds, source), ApplyRun(t, ds, now, source);
    forall k, l | k in w.members && l in w.members && k.0 == l.0
      ensures Connected(es, k.1, l.1)
    {
      assert (k.1, l.1) in SharedPairs(w);
      AdjacentConnected(es, k.1, l.1);
    }
    forall p | p in ds
      ensures Connected(es, p.a, p.b)
    {
      assert (p.a, p.b) in DecisionEdges(ds);
      AdjacentConnected(es, p.a, p.b);
    }
    FoldSound(w, ds, LookupOf(ds), now, source, es);
    var c :| (c, x) in r.members && (c, y) in r.members;
    assert (c, x).0 == (c, y).0;
  }

  lemma RunComplete(t: Tables, ds: seq<Proposal>, now: real, source: string, x: int, y: int)
    requires Good(t) && ds != [] && AllKnown(t, ds) && x != y
    requires Connected(RunEdges(t, ds, source), x, y)
    ensures Together(ApplyRun(t, ds, now, source), x, y)
  {
    var es, r := RunEdges(t, ds, source), ApplyRun(t, ds, now, source);
    forall a, b | (a, b) in es
      ensures Label(r, a) == Label(r, b)
    {
      EdgeTogether(t, ds, now, source, a, b);
    }
    LabelRespectsConnectivity(es, d => Label(r, d), x, y);
    LabelsAreClusters(r, x, y);
  }

  /**
   After a run, two distinct devices share a cluster exactly when they are connected by
   pairs that survived the wipe together with the run's decisions.
   */
  lemma RunPartition(t: Tables, ds: seq<Proposal>, now: real, source: string, x: int, y: int)
    requires Good(t) && ds != [] && AllKnown(t, ds) && x != y
    ensures Together(ApplyRun(t, ds, now, source), x, y) <==> Connected(RunEdges(t, ds, source), x, y)
  {
    if Together(ApplyRun(t, ds, now, source), x, y) {
      RunSound(t, ds, now, source, x, y);
    }
    if Connected(RunEdges(t, ds, source), x, y) {
      RunComplete(t, ds, now, source, x, y);
    }
  }

  lemma EdgeTogether(t: Tables, ds: seq<Proposal>, now: real, source: string, a: int, b: int)
    requires Good(t) && ds != [] && AllKnown(t, ds)
    requires (a, b) in RunEdges(t, ds, source)
    ensures Together(ApplyRun(t, ds, now, source), a, b)
  {
    FoldJoins(Wipe(t, source), ds, LookupOf(ds), now, source);
    if (a, b) in SharedPairs(Wipe(t, source)) {
      assert Together(Wipe(t, source), a, b);
    } else {
      var p :| p in ds && (p.a, p.b) == (a, b);
    }
  }
}
