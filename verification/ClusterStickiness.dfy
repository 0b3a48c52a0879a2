/**
 Which clusters survive later runs: the age order on cluster ids, the exact
 condition under which a pair can never be separated, and repeat runs.
 */
module ClusterStickiness {
  import opened Wrappers
  import opened Connectivity
  import opened ClusterTable
  import opened ClusterRuns

  // ------------------------------------------------------------ ages of rows

  /** Device `d` is in cluster `c` or an older one. */
  ghost predicate InOrBelow(t: Tables, c: int, d: int) {
    exists e :: e <= c && (e, d) in t.members
  }

  ghost predicate HasMember(t: Tables, c: int) {
    exists d :: (c, d) in t.members
  }

  ghost predicate RowFrom(w: Tables, t: Tables, c: int)
    requires c in t.clusters
  {
    if c < w.nextId then
      && c in w.clusters && t.clusters[c].source == w.clusters[c].source
      && t.clusters[c].confirmed == w.clusters[c].confirmed
    else t.clusters[c].confirmed
  }

  ghost predicate RowsFrom(w: Tables, t: Tables) {
    w.nextId <= t.nextId && forall c :: c in t.clusters ==> RowFrom(w, t, c)
  }

  /**
   Membership only moves to older clusters; a row kept from `w` is unchanged in source and flag, a new one is confirmed.
   */
  ghost predicate Aged(w: Tables, t: Tables) {
    && RowsFrom(w, t)
    && (forall c, d :: (c, d) in w.members ==> InOrBelow(t, c, d))
    && (forall c, d :: (c, d) in t.members && c < w.nextId ==> HasMember(w, c))
  }

  lemma StepRows(t: Tables, p: Proposal, df: Lookup, now: real, source: string)
    requires Good(t)
    ensures RowsFrom(t, Step(t, p, df, now, source))
  {
  }

  lemma AgedByShape(w: Tables, t: Tables, p: Proposal, r: Tables)
    requires Good(t) && Aged(w, t) && RowsFrom(t, r)
    requires forall c, d :: (c, d) in r.members <==> if Joined(t, p, d) then c == Target(t, p) else (c, d) in t.members
    ensures Aged(w, r)
  {
    forall c, d | (c, d) in w.members
      ensures InOrBelow(r, c, d)
    {
      assert InOrBelow(t, c, d);
      var e :| e <= c && (e, d) in t.members;
      var f := if Joined(t, p, d) then Target(t, p) else e;
      assert (f, d) in r.members;
    }
    forall c, d | (c, d) in r.members && c < w.nextId
      ensures HasMember(w, c)
    {
      if Joined(t, p, d) {
        assert (c, p.a) in t.members || (c, p.b) in t.members;
      }
    }
    forall c | c in r.clusters
      ensures RowFrom(w, r, c)
    {
      assert RowFrom(t, r, c);
      if c < t.nextId { assert RowFrom(w, t, c); }
    }
  }

  lemma {:induction false} FoldAged(t: Tables, ds: seq<Proposal>, df: Lookup, now: real, source: string)
    requires Good(t) && AllKnown(t, ds)
    ensures Aged(t, Fold(t, ds, df, now, source))
    decreases |ds|
  {
    if ds != [] {
      var pre, last := ds[..|ds| - 1], ds[|ds| - 1];
      var mid := Fold(t, pre, df, now, source);
      FoldAged(t, pre, df, now, source);
      StepShape(mid, last, df, now, source);
      StepRows(mid, last, df, now, source);
      AgedByShape(t, mid, last, Step(mid, last, df, now, source));
    }
  }

  /**
   The id a component ends up under: the lowest id among its surviving clusters, and a
   fresh, confirmed one only if none survived.
   */
  lemma FinalCluster(t: Tables, ds: seq<Proposal>, now: real, source: string, c: int, x: int)
    requires Good(t) && ds != [] && AllKnown(t, ds)
    requires (c, x) in ApplyRun(t, ds, now, source).members
    ensures forall e, y :: (e, y) in Wipe(t, source).members && Connected(RunEdges(t, ds, source), x, y) ==> c <= e
    ensures c < t.nextId ==>
      exists y :: (c, y) in Wipe(t, source).members && Connected(RunEdges(t, ds, source), x, y)
    ensures c >= t.nextId ==> ApplyRun(t, ds, now, source).clusters[c].confirmed
  {
    var w, r := Wipe(t, source), ApplyRun(t, ds, now, source);
    FoldAged(w, ds, LookupOf(ds), now, source);
    assert RowFrom(w, r, c);
    forall e, y | (e, y) in w.members && Connected(RunEdges(t, ds, source), x, y)
      ensures c <= e
    {
      assert InOrBelow(r, e, y);
      var f :| f <= e && (f, y) in r.members;
      if x != y { RunPartition(t, ds, now, source, x, y); }
    }
    if c < t.nextId {
      assert HasMember(w, c);
      var y :| (c, y) in w.members;
      FoldKeepsOldest(w, ds, LookupOf(ds), now, source, c, y);
      if x == y { Reflexive(RunEdges(t, ds, source), x); }
      else { RunPartition(t, ds, now, source, x, y); }
    }
  }

  /** While a cluster row remains, its first members remain in it. */
  lemma {:induction false} FoldKeepsOldest(
    t: Tables, ds: seq<Proposal>, df: Lookup, now: real, source: string, c: int, y: int)
    requires Good(t) && AllKnown(t, ds)
    requires (c, y) in t.members && c in Fold(t, ds, df, now, source).clusters
    ensures (c, y) in Fold(t, ds, df, now, source).members
    decreases |ds|
  {
    if ds != [] {
      var pre, last := ds[..|ds| - 1], ds[|ds| - 1];
      var mid := Fold(t, pre, df, now, source);
      FoldAged(t, pre, df, now, source);
      StepRows(mid, last, df, now, source);
      assert RowFrom(mid, Fold(t, ds, df, now, source), c);
      FoldKeepsOldest(t, pre, df, now, source, c, y);
      StepKeepsLiveRow(mid, last, df, now, source, c, y);
    }
  }

  lemma StepKeepsLiveRow(t: Tables, p: Proposal, df: Lookup, now: real, source: string, c: int, y: int)
    requires Good(t) && (c, y) in t.members && c in Step(t, p, df, now, source).clusters
    ensures (c, y) in Step(t, p, df, now, source).members
  {
  }

  // ------------------------------------------------------- sequences of runs

  datatype Run = Run(decisions: seq<Proposal>, now: real, source: string)

  /** Decisions as the runner makes them, always about two different devices; the source is free. */
  ghost predicate Issued(run: Run) {
    forall p :: p in run.decisions ==> p.a != p.b
  }

  ghost predicate AllIssued(runs: seq<Run>) {
    forall run :: run in runs ==> Issued(run)
  }

  ghost function RunAll(t: Tables, runs: seq<Run>): (r: Tables)
    requires Good(t)
    ensures Good(r) && r.devices == t.devices
    decreases |runs|
  {
    if runs == [] then t
    else RunAll(ApplyRun(t, runs[0].decisions, runs[0].now, runs[0].source), runs[1..])
  }

  ghost predicate ConfirmedUpTo(t: Tables, c: int)
    requires Good(t)
  {
    forall e, d :: (e, d) in t.members && e <= c ==> t.clusters[e].confirmed
  }

  /** `x` and `y` share a cluster such that it and every older non-empty cluster are confirmed. */
  ghost predicate Protected(t: Tables, x: int, y: int)
    requires Good(t)
  {
    exists c :: (c, x) in t.members && (c, y) in t.members && ConfirmedUpTo(t, c)
  }

  lemma RunProtects(t: Tables, run: Run, x: int, y: int)
    requires Good(t) && Protected(t, x, y)
    ensures Protected(ApplyRun(t, run.decisions, run.now, run.source), x, y)
  {
    var ds, source := run.decisions, run.source;
    var w, r := Wipe(t, source), ApplyRun(t, ds, run.now, source);
    if ds != [] && AllKnown(t, ds) {
      var c :| (c, x) in t.members && (c, y) in t.members && ConfirmedUpTo(t, c);
      assert (c, x) in w.members && (c, y) in w.members;
      FoldAged(w, ds, LookupOf(ds), run.now, source);
      FoldJoins(w, ds, LookupOf(ds), run.now, source);
      assert Together(w, x, y);
      assert Together(r, x, y) && InOrBelow(r, c, x);
      var f :| (f, x) in r.members && (f, y) in r.members;
      assert f <= c;
      forall e, d | (e, d) in r.members && e <= f
        ensures r.clusters[e].confirmed
      {
        assert RowFrom(w, r, e) && HasMember(w, e);
        var d0 :| (e, d0) in w.members;
        assert (e, d0) in t.members;
      }
      assert ConfirmedUpTo(r, f);
    }
  }

  lemma {:induction false} RunsProtect(t: Tables, runs: seq<Run>, x: int, y: int)
    requires Good(t) && Protected(t, x, y)
    ensures Together(RunAll(t, runs), x, y)
    decreases |runs|
  {
    if runs == [] {
    } else {
      RunProtects(t, runs[0], x, y);
      RunsProtect(ApplyRun(t, runs[0].decisions, runs[0].now, runs[0].source), runs[1..], x, y);
    }
  }

  /** One decision, about `a` and `b`. */
  function Single(a: int, b: int, source: string): Run {
    Run([Proposal(a, b, Verdict(1.0, "", ""))], 0.0, source)
  }

  /** A run about any other pair, under the source of an unconfirmed cluster, tears that cluster down. */
  lemma WipingRunSeparates(t: Tables, c: int, a: int, b: int, x: int, y: int)
    requires Good(t) && x != y && {a, b} != {x, y} && a in t.devices && b in t.devices
    requires (c, x) in t.members && (c, y) in t.members && !t.clusters[c].confirmed
    ensures var run := Single(a, b, t.clusters[c].source);
      !Together(ApplyRun(t, run.decisions, run.now, run.source), x, y)
  {
    var run := Single(a, b, t.clusters[c].source);
    WipedStandsAlone(t, c, run.decisions, x, y, if x == a || x == b then y else x);
    assert AllKnown(t, run.decisions);
    RunPartition(t, run.decisions, run.now, run.source, x, y);
  }

  /** Once its cluster is wiped, nothing connects a device to another unless a decision is about it. */
  lemma WipedStandsAlone(t: Tables, c: int, ds: seq<Proposal>, x: int, y: int, z: int)
    requires Good(t) && (c, z) in t.members && !t.clusters[c].confirmed && x != y && (z == x || z == y)
    requires forall p :: p in ds ==> p.a != z && p.b != z
    ensures !Connected(RunEdges(t, ds, t.clusters[c].source), x, y)
  {
    var source := t.clusters[c].source;
    var es := RunEdges(t, ds, source);
    if Connected(es, x, y) {
      forall k | k in Wipe(t, source).members
        ensures k.1 != z
      {
        assert k == (k.0, k.1) && (k.1 == z ==> k.0 == c);
      }
      forall u, v | (u, v) in es
        ensures (u == z) == (v == z)
      {
        if (u, v) in DecisionEdges(ds) {
          var p :| p in ds && (p.a, p.b) == (u, v);
        }
      }
      LabelRespectsConnectivity(es, d => d == z, x, y);
    }
  }

  /** Some device besides the pair is known. */
  ghost predicate ThirdDevice(t: Tables, x: int, y: int) {
    exists z :: z in t.devices && z != x && z != y
  }

  /** Where the pair are the only devices, every run joins them again. */
  lemma LonePairStays(t: Tables, run: Run, x: int, y: int)
    requires Good(t) && x != y && Together(t, x, y) && !ThirdDevice(t, x, y) && Issued(run)
    ensures Together(ApplyRun(t, run.decisions, run.now, run.source), x, y)
  {
    var ds := run.decisions;
    if ds != [] && AllKnown(t, ds) {
      assert Known(t, ds[0]) && ds[0] in ds;
      FoldJoins(Wipe(t, run.source), ds, LookupOf(ds), run.now, run.source);
    }
  }

  lemma {:induction false} LonePairStaysForever(t: Tables, runs: seq<Run>, x: int, y: int)
    requires Good(t) && x != y && Together(t, x, y) && !ThirdDevice(t, x, y) && AllIssued(runs)
    ensures Together(RunAll(t, runs), x, y)
    decreases |runs|
  {
    if runs != [] {
      LonePairStays(t, runs[0], x, y);
      LonePairStaysForever(ApplyRun(t, runs[0].decisions, runs[0].now, runs[0].source), runs[1..], x, y);
    }
  }

  /**
   One run can separate a pair sharing a cluster exactly when that cluster is unconfirmed and some third device
   is known for the run to be about.
   */
  lemma OneRunSeparates(t: Tables, c: int, x: int, y: int)
    requires Good(t) && x != y && (c, x) in t.members && (c, y) in t.members
    ensures (exists run: Run :: Issued(run) && !Together(ApplyRun(t, run.decisions, run.now, run.source), x, y))
       <==> !t.clusters[c].confirmed && ThirdDevice(t, x, y)
  {
    if !t.clusters[c].confirmed && ThirdDevice(t, x, y) {
      var z :| z in t.devices && z != x && z != y;
      var run := Single(x, z, t.clusters[c].source);
      WipingRunSeparates(t, c, x, z, x, y);
      assert Issued(run) && !Together(ApplyRun(t, run.decisions, run.now, run.source), x, y);
    } else {
      forall run: Run | Issued(run)
        ensures Together(ApplyRun(t, run.decisions, run.now, run.source), x, y)
      {
        assert Together(t, x, y);
        if t.clusters[c].confirmed {
          var w := Wipe(t, run.source);
          assert (c, x) in w.members && (c, y) in w.members;
          assert Together(w, x, y);
          if run.decisions != [] && AllKnown(t, run.decisions) {
            FoldJoins(w, run.decisions, LookupOf(run.decisions), run.now, run.source);
          }
        } else {
          LonePairStays(t, run, x, y);
        }
      }
    }
  }

  lemma OneRun(t: Tables, run: Run)
    requires Good(t)
    ensures RunAll(t, [run]) == ApplyRun(t, run.decisions, run.now, run.source)
  {
    assert [run][1..] == [];
    assert RunAll(ApplyRun(t, run.decisions, run.now, run.source), [])
      == ApplyRun(t, run.decisions, run.now, run.source);
  }

  /** An older unconfirmed cluster first swallows the pair's cluster, keeping its own flag, and is then wiped. */
  lemma OlderUnconfirmedExposes(t: Tables, c: int, e: int, a: int, x: int, y: int) returns (runs: seq<Run>)
    requires Good(t) && x != y && ThirdDevice(t, x, y)
    requires (c, x) in t.members && (c, y) in t.members && (e, a) in t.members
    requires e <= c && !t.clusters[e].confirmed
    ensures AllIssued(runs) && !Together(RunAll(t, runs), x, y)
  {
    hide ApplyRun, RunAll, Together;
    if !t.clusters[c].confirmed {
      var z :| z in t.devices && z != x && z != y;
      var only := Single(x, z, t.clusters[c].source);
      WipingRunSeparates(t, c, x, z, x, y);
      OneRun(t, only);
      runs := [only];
    } else {
      var source := t.clusters[e].source;
      var first, last := Single(a, x, source + "+"), Single(a, x, source);
      var mid := ApplyRun(t, first.decisions, first.now, first.source);
      SwallowingRun(t, c, e, a, x, y, first);
      WipingRunSeparates(mid, e, a, x, x, y);
      OneRun(mid, last);
      TwoRuns(t, first, last);
      runs := [first, last];
    }
  }

  lemma TwoRuns(t: Tables, first: Run, second: Run)
    requires Good(t)
    ensures RunAll(t, [first, second]) == RunAll(ApplyRun(t, first.decisions, first.now, first.source), [second])
  {
    hide ApplyRun;
    assert [first, second][1..] == [second];
  }

  lemma SwallowingRun(t: Tables, c: int, e: int, a: int, x: int, y: int, run: Run)
    requires Good(t) && (c, x) in t.members && (c, y) in t.members && (e, a) in t.members
    requires e < c && t.clusters[c].confirmed && run.source != t.clusters[e].source
    requires |run.decisions| == 1 && run.decisions[0].a == a && run.decisions[0].b == x
    ensures var r := ApplyRun(t, run.decisions, run.now, run.source);
      (e, x) in r.members && (e, y) in r.members
      && r.clusters[e].confirmed == t.clusters[e].confirmed && r.clusters[e].source == t.clusters[e].source
  {
    var w, ds := Wipe(t, run.source), run.decisions;
    assert (c, x) in w.members && (c, y) in w.members && (e, a) in w.members;
    assert AllKnown(t, ds);
    assert ds[..0] == [] && Fold(w, [], LookupOf(ds), run.now, run.source) == w;
    var r := Step(w, ds[0], LookupOf(ds), run.now, run.source);
    assert ApplyRun(t, ds, run.now, run.source) == r;
    StepShape(w, ds[0], LookupOf(ds), run.now, run.source);
    assert ClusterOf(w, a) == Some(e) && ClusterOf(w, x) == Some(c);
    assert Joined(w, ds[0], x) && Joined(w, ds[0], y);
    StepRows(w, ds[0], LookupOf(ds), run.now, run.source);
    assert RowFrom(w, r, e);
  }

  /**
   A pair sharing a cluster stays together under every sequence of runs, of whatever sources, exactly when its cluster
   and every older non-empty cluster are confirmed, or the pair are the only devices. Confirming the pair's own cluster
   is not enough, because a merge keeps the lower id together with its flag.
   */
  lemma StickyExactly(t: Tables, x: int, y: int)
    requires Good(t) && x != y && Together(t, x, y)
    ensures (forall runs: seq<Run> :: AllIssued(runs) ==> Together(RunAll(t, runs), x, y))
       <==> Protected(t, x, y) || !ThirdDevice(t, x, y)
  {
    var c :| (c, x) in t.members && (c, y) in t.members;
    if Protected(t, x, y) || !ThirdDevice(t, x, y) {
      forall runs: seq<Run> | AllIssued(runs)
        ensures Together(RunAll(t, runs), x, y)
      {
        if Protected(t, x, y) { RunsProtect(t, runs, x, y); } else { LonePairStaysForever(t, runs, x, y); }
      }
    } else {
      assert !ConfirmedUpTo(t, c);
      var e, a :| (e, a) in t.members && e <= c && !t.clusters[e].confirmed;
      var runs := OlderUnconfirmedExposes(t, c, e, a, x, y);
      assert AllIssued(runs) && !Together(RunAll(t, runs), x, y);
    }
  }

  // --------------------------------------------------------------- one source

  /** Runs as the clustering tick issues them: about different devices, all under one source. */
  ghost predicate AllUnder(runs: seq<Run>, source: string) {
    AllIssued(runs) && forall run :: run in runs ==> run.source == source
  }

  /** The pair share a cluster that a run of this source does not wipe. */
  ghost predicate SharedForGood(t: Tables, source: string, x: int, y: int)
    requires Good(t)
  {
    exists c :: (c, x) in t.members && (c, y) in t.members && !Speculative(t.clusters[c], source)
  }

  /** A run leaves only clusters behind that the next run of its source does not wipe. */
  lemma RunKeepsShared(t: Tables, run: Run, x: int, y: int)
    requires Good(t) && SharedForGood(t, run.source, x, y)
    ensures SharedForGood(ApplyRun(t, run.decisions, run.now, run.source), run.source, x, y)
  {
    var ds, w := run.decisions, Wipe(t, run.source);
    if ds != [] && AllKnown(t, ds) {
      var c :| (c, x) in t.members && (c, y) in t.members && !Speculative(t.clusters[c], run.source);
      assert (c, x) in w.members && (c, y) in w.members;
      assert Together(w, x, y);
      FoldJoins(w, ds, LookupOf(ds), run.now, run.source);
      FoldAged(w, ds, LookupOf(ds), run.now, run.source);
      var r := ApplyRun(t, ds, run.now, run.source);
      var f :| (f, x) in r.members && (f, y) in r.members;
      assert RowFrom(w, r, f);
    }
  }

  lemma {:induction false} RunsKeepShared(t: Tables, runs: seq<Run>, source: string, x: int, y: int)
    requires Good(t) && SharedForGood(t, source, x, y) && AllUnder(runs, source)
    ensures Together(RunAll(t, runs), x, y)
    decreases |runs|
  {
    if runs != [] {
      RunKeepsShared(t, runs[0], x, y);
      RunsKeepShared(ApplyRun(t, runs[0].decisions, runs[0].now, runs[0].source), runs[1..], source, x, y);
    }
  }

  /**
   Under runs of one source the promise holds: a pair sharing a cluster stays together under every sequence of them
   exactly when its own cluster is confirmed or of another source, or the pair are the only devices.
   */
  lemma StickyUnderOneSource(t: Tables, source: string, c: int, x: int, y: int)
    requires Good(t) && x != y && (c, x) in t.members && (c, y) in t.members
    ensures (forall runs: seq<Run> :: AllUnder(runs, source) ==> Together(RunAll(t, runs), x, y))
       <==> !Speculative(t.clusters[c], source) || !ThirdDevice(t, x, y)
  {
    if Speculative(t.clusters[c], source) && ThirdDevice(t, x, y) {
      var z :| z in t.devices && z != x && z != y;
      var run := Single(x, z, source);
      WipingRunSeparates(t, c, x, z, x, y);
      OneRun(t, run);
      assert AllUnder([run], source) && !Together(RunAll(t, [run]), x, y);
    } else {
      assert Together(t, x, y);
      forall runs: seq<Run> | AllUnder(runs, source)
        ensures Together(RunAll(t, runs), x, y)
      {
        if ThirdDevice(t, x, y) {
          RunsKeepShared(t, runs, source, x, y);
        } else {
          LonePairStaysForever(t, runs, x, y);
        }
      }
    }
  }
}
