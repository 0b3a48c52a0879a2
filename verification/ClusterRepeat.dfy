/**
 Repeat runs, the count of cluster rows, runs on all-confirmed tables, and the
 evidence stored beside a member.
 */
module ClusterRepeat {
  import opened Wrappers
  import opened Connectivity
  import opened ClusterTable
  import opened ClusterRuns
  import opened ClusterStickiness

  // ------------------------------------------------------------ row counting

  ghost predicate Inserts(t: Tables, p: Proposal) {
    ClusterOf(t, p.a).None? && ClusterOf(t, p.b).None?
  }

  ghost predicate Merges(t: Tables, p: Proposal) {
    ClusterOf(t, p.a).Some? && ClusterOf(t, p.b).Some? && ClusterOf(t, p.a) != ClusterOf(t, p.b)
  }

  ghost function InsertCount(t: Tables, ds: seq<Proposal>, df: Lookup, now: real, source: string): nat
    requires Good(t) && AllKnown(t, ds)
    decreases |ds|
  {
    if ds == [] then 0
    else
      var pre := ds[..|ds| - 1];
      InsertCount(t, pre, df, now, source)
      + if Inserts(Fold(t, pre, df, now, source), ds[|ds| - 1]) then 1 else 0
  }

  ghost function MergeCount(t: Tables, ds: seq<Proposal>, df: Lookup, now: real, source: string): nat
    requires Good(t) && AllKnown(t, ds)
    decreases |ds|
  {
    if ds == [] then 0
    else
      var pre := ds[..|ds| - 1];
      MergeCount(t, pre, df, now, source)
      + if Merges(Fold(t, pre, df, now, source), ds[|ds| - 1]) then 1 else 0
  }

  lemma StepRowCount(t: Tables, p: Proposal, df: Lookup, now: real, source: string)
    requires Good(t)
    ensures |Step(t, p, df, now, source).clusters|
         == |t.clusters| + (if Inserts(t, p) then 1 else 0) - (if Merges(t, p) then 1 else 0)
  {
  }

  /** Cluster rows after the wipe, plus inserts, minus merges, are the rows at the end. */
  lemma {:induction false} RowCount(t: Tables, ds: seq<Proposal>, df: Lookup, now: real, source: string)
    requires Good(t) && AllKnown(t, ds)
    ensures |Fold(t, ds, df, now, source).clusters|
         == |t.clusters| + InsertCount(t, ds, df, now, source) - MergeCount(t, ds, df, now, source)
    decreases |ds|
  {
    if ds != [] {
      var pre := ds[..|ds| - 1];
      RowCount(t, pre, df, now, source);
      StepRowCount(Fold(t, pre, df, now, source), ds[|ds| - 1], df, now, source);
    }
  }

  // -------------------------------------------------------------- repeat runs

  lemma {:induction false} FoldOfJoined(t: Tables, ds: seq<Proposal>, df: Lookup, now: real, source: string)
    requires Good(t) && AllKnown(t, ds)
    requires forall p :: p in ds ==> Together(t, p.a, p.b)
    ensures var r := Fold(t, ds, df, now, source);
      r.members == t.members && r.clusters.Keys == t.clusters.Keys && r.nextId == t.nextId
    ensures InsertCount(t, ds, df, now, source) == 0
    decreases |ds|
  {
    if ds != [] {
      var last := ds[|ds| - 1];
      assert Together(t, last.a, last.b);
      FoldOfJoined(t, ds[..|ds| - 1], df, now, source);
    }
  }

  lemma NothingToWipe(t: Tables, source: string)
    requires Good(t)
    requires forall c :: c in t.clusters ==> !Speculative(t.clusters[c], source)
    ensures Wipe(t, source) == t
  {
    var w := Wipe(t, source);
    forall c | c in t.clusters
      ensures c in w.clusters
    {
      assert !Speculative(t.clusters[c], source);
    }
    assert w.clusters.Keys == t.clusters.Keys;
    forall c, d | (c, d) in t.members
      ensures (c, d) in w.members
    {
    }
    assert w.members.Keys == t.members.Keys;
    assert w.clusters == t.clusters && w.members == t.members;
  }

  /** Running the same decisions again moves no device, creates no cluster and returns 0. */
  lemma RepeatRun(t: Tables, ds: seq<Proposal>, now: real, again: real, source: string)
    requires Good(t) && ds != [] && AllKnown(t, ds)
    ensures var r := ApplyRun(t, ds, now, source);
      ApplyRun(r, ds, again, source).members == r.members
      && InsertCount(Wipe(r, source), ds, LookupOf(ds), again, source) == 0
  {
    var w, r := Wipe(t, source), ApplyRun(t, ds, now, source);
    FoldAged(w, ds, LookupOf(ds), now, source);
    forall c | c in r.clusters
      ensures !Speculative(r.clusters[c], source)
    {
      assert RowFrom(w, r, c);
    }
    NothingToWipe(r, source);
    FoldJoins(w, ds, LookupOf(ds), now, source);
    FoldOfJoined(r, ds, LookupOf(ds), again, source);
  }

  // ------------------------------------------------------ all-confirmed tables

  ghost predicate AllConfirmed(t: Tables) {
    forall c :: c in t.clusters ==> t.clusters[c].confirmed
  }

  lemma RunKeepsConfirmed(t: Tables, run: Run)
    requires Good(t) && AllConfirmed(t)
    ensures AllConfirmed(ApplyRun(t, run.decisions, run.now, run.source))
  {
    if run.decisions != [] && AllKnown(t, run.decisions) {
      var w, r := Wipe(t, run.source), ApplyRun(t, run.decisions, run.now, run.source);
      FoldAged(w, run.decisions, LookupOf(run.decisions), run.now, run.source);
      forall c | c in r.clusters
        ensures r.clusters[c].confirmed
      {
        assert RowFrom(w, r, c);
      }
    }
  }

  /**
   From an all-confirmed table, whatever runs follow, the table stays all-confirmed and the partition only coarsens.
   */
  lemma {:induction false} RunsCoarsen(t: Tables, runs: seq<Run>)
    requires Good(t) && AllConfirmed(t)
    ensures AllConfirmed(RunAll(t, runs))
    ensures forall x, y :: Together(t, x, y) ==> Together(RunAll(t, runs), x, y)
    decreases |runs|
  {
    if runs != [] {
      var r := ApplyRun(t, runs[0].decisions, runs[0].now, runs[0].source);
      RunKeepsConfirmed(t, runs[0]);
      RunsCoarsen(r, runs[1..]);
      NothingToWipe(t, runs[0].source);
      forall x, y | Together(t, x, y)
        ensures Together(r, x, y)
      {
        if runs[0].decisions != [] && AllKnown(t, runs[0].decisions) {
          FoldJoins(t, runs[0].decisions, LookupOf(runs[0].decisions), runs[0].now, runs[0].source);
        }
      }
    }
  }

  /** A confirmed cluster 2 behind an older, unconfirmed cluster 1 of another source. */
  function Exposed(): Tables {
    var ev := Evidence(None, 0.0, "auto");
    Tables(
      {10, 20, 30},
      map[1 := ClusterRow(0.0, 0.0, "manual", false), 2 := ClusterRow(0.0, 0.0, "auto", true)],
      map[(1, 10) := ev, (2, 20) := ev, (2, 30) := ev],
      3)
  }

  /** Later runs of two sources can tear apart a pair of a confirmed cluster, against the documented stickiness. */
  lemma ConfirmedIsNotEnough()
    ensures Good(Exposed()) && (2, 20) in Exposed().members && (2, 30) in Exposed().members
    ensures Exposed().clusters[2].confirmed
    ensures exists runs: seq<Run> :: AllIssued(runs) && !Together(RunAll(Exposed(), runs), 20, 30)
  {
    var t := Exposed();
    assert (1, 10) in t.members && !t.clusters[1].confirmed;
    assert forall c :: (c, 20) in t.members ==> c == 2;
    assert !ConfirmedUpTo(t, 2);
    assert (2, 20) in t.members && (2, 30) in t.members && 10 in t.devices;
    StickyExactly(t, 20, 30);
  }

  /** Runs that are all of source "auto", as the application issues them, do not. */
  lemma OneSourceIsEnough(runs: seq<Run>)
    requires AllUnder(runs, "auto")
    ensures Good(Exposed()) && Together(RunAll(Exposed(), runs), 20, 30)
  {
    assert (2, 20) in Exposed().members && (2, 30) in Exposed().members;
    StickyUnderOneSource(Exposed(), "auto", 2, 20, 30);
  }

  // ----------------------------------------------------------------- evidence

  /** No entry that mentions `d` scores above `bound`. */
  predicate NoneAbove(df: Lookup, d: int, bound: real) {
    forall i :: 0 <= i < |df| && Involves(df[i], d) ==> df[i].1.score <= bound
  }

  /** Entry `k` mentions `d`, scores highest among those that do, and is the first of them to do so. */
  predicate FirstMaximum(df: Lookup, d: int, k: int) {
    && 0 <= k < |df| && Involves(df[k], d) && NoneAbove(df, d, df[k].1.score)
    && forall i :: 0 <= i < k && Involves(df[i], d) ==> df[i].1.score < df[k].1.score
  }

  lemma OneMoreEntry(df: Lookup, d: int, bound: real)
    requires df != []
    ensures var pre, last := df[..|df| - 1], df[|df| - 1];
      && (NoneAbove(df, d, bound) <==> NoneAbove(pre, d, bound) && (Involves(last, d) ==> last.1.score <= bound))
      && (forall k :: 0 <= k < |pre| && NoneAbove(df, d, df[k].1.score) ==>
        (FirstMaximum(df, d, k) <==> FirstMaximum(pre, d, k)))
  {
    hide Involves;
    var pre := df[..|df| - 1];
    assert forall i :: 0 <= i < |pre| ==> df[i] == pre[i];
  }

  lemma LastIsFirstMaximum(df: Lookup, d: int, bound: real)
    requires df != [] && Involves(df[|df| - 1], d) && NoneAbove(df[..|df| - 1], d, bound)
      && df[|df| - 1].1.score > bound
    ensures FirstMaximum(df, d, |df| - 1)
  {
    hide Involves;
    var pre := df[..|df| - 1];
    assert forall i :: 0 <= i < |pre| ==> df[i] == pre[i];
  }

  /**
   The stored evidence is the first among the highest-scoring verdicts that mention the device, if any beats the floor.
   */
  lemma {:induction false} BestIsFirstMaximum(df: Lookup, d: int)
    ensures Best(df, d).None? <==> NoneAbove(df, d, SCORE_FLOOR)
    ensures Best(df, d).Some? ==> Best(df, d).value.score > SCORE_FLOOR
    ensures Best(df, d).Some? ==> exists k :: 0 <= k < |df| && FirstMaximum(df, d, k) && df[k].1 == Best(df, d).value
    decreases |df|
  {
    hide Involves, NoneAbove, FirstMaximum;
    if df == [] {
      NothingAbove(d, SCORE_FLOOR);
    } else {
      var pre, last := df[..|df| - 1], df[|df| - 1];
      BestIsFirstMaximum(pre, d);
      OneMoreEntry(df, d, SCORE_FLOOR);
      var bound := if Best(pre, d).Some? then Best(pre, d).value.score else SCORE_FLOOR;
      if Best(pre, d).Some? {
        var k :| 0 <= k < |pre| && FirstMaximum(pre, d, k) && pre[k].1 == Best(pre, d).value;
        FirstMaximumBounds(pre, d, k);
        OneMoreEntry(df, d, bound);
        assert df[k] == pre[k];
      }
      if Involves(last, d) && last.1.score > bound {
        LastIsFirstMaximum(df, d, bound);
      }
    }
  }

  lemma NothingAbove(d: int, bound: real)
    ensures NoneAbove([], d, bound)
  {
  }

  lemma FirstMaximumBounds(df: Lookup, d: int, k: int)
    requires FirstMaximum(df, d, k)
    ensures 0 <= k < |df| && NoneAbove(df, d, df[k].1.score)
    ensures df[k].1.score > SCORE_FLOOR ==> !NoneAbove(df, d, SCORE_FLOOR)
  {
  }

  /** The lookup keeps, for each unordered pair, the verdict decided last. */
  lemma {:induction false} LookupKeepsLast(ds: seq<Proposal>, key: (int, int), v: Verdict)
    ensures (key, v) in LookupOf(ds) <==>
      exists i :: 0 <= i < |ds| && PairKey(ds[i].a, ds[i].b) == key && ds[i].verdict == v
        && forall j :: i < j < |ds| ==> PairKey(ds[j].a, ds[j].b) != key
    decreases |ds|
  {
    if ds != [] {
      var pre, last := ds[..|ds| - 1], ds[|ds| - 1];
      LookupKeepsLast(pre, key, v);
      LookupDistinct(pre);
      PutEntries(LookupOf(pre), PairKey(last.a, last.b), last.verdict);
      assert forall i :: 0 <= i < |pre| ==> ds[i] == pre[i];
      if PairKey(last.a, last.b) == key {
        assert ds[|ds| - 1] == last;
      } else if (key, v) in LookupOf(pre) {
        var i :| 0 <= i < |pre| && PairKey(pre[i].a, pre[i].b) == key && pre[i].verdict == v
          && forall j :: i < j < |pre| ==> PairKey(pre[j].a, pre[j].b) != key;
        assert ds[i] == pre[i];
      }
    }
  }

  ghost predicate DistinctKeys(df: Lookup) {
    forall i, j :: 0 <= i < j < |df| ==> df[i].0 != df[j].0
  }

  lemma {:induction false} PutEntries(df: Lookup, key: (int, int), v: Verdict)
    requires DistinctKeys(df)
    ensures DistinctKeys(Put(df, key, v))
    ensures forall e :: e in Put(df, key, v) <==> e == (key, v) || (e in df && e.0 != key)
  {
    if df != [] && df[0].0 != key {
      PutEntries(df[1..], key, v);
      var r := Put(df[1..], key, v);
      forall j | 0 <= j < |r|
        ensures df[0].0 != r[j].0
      {
        assert r[j] in r;
      }
    }
  }

  lemma {:induction false} LookupDistinct(ds: seq<Proposal>)
    ensures DistinctKeys(LookupOf(ds))
    decreases |ds|
  {
    if ds != [] {
      var last := ds[|ds| - 1];
      LookupDistinct(ds[..|ds| - 1]);
      PutEntries(LookupOf(ds[..|ds| - 1]), PairKey(last.a, last.b), last.verdict);
    }
  }
}
