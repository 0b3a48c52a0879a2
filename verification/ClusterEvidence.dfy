/** What a run leaves beside the partition: the time stamps of cluster rows and the evidence of member rows. */
module ClusterEvidence {
  import opened Wrappers
  import opened ClusterTable
  import opened ClusterRuns
  import opened ClusterRepeat

  // ------------------------------------------------------------- time stamps

  /** Some decision of `ds` is about a device now in cluster `c`. */
  ghost predicate Decided(t: Tables, ds: seq<Proposal>, c: int) {
    exists i :: 0 <= i < |ds| && (c, ds[i].a) in t.members
  }

  lemma StepStamps(t: Tables, p: Proposal, df: Lookup, now: real, source: string, c: int)
    requires Good(t) && Known(t, p) && c in Step(t, p, df, now, source).clusters
    ensures var r := Step(t, p, df, now, source);
      if (c, p.a) in r.members then r.clusters[c].lastDecidedAt == now
      else c in t.clusters && r.clusters[c] == t.clusters[c] && forall d :: (c, d) in r.members <==> (c, d) in t.members
  {
  }

  /**
   After a run a cluster row carries the run's time exactly where a decision bears on it; every other row is untouched.
   */
  lemma {:induction false} FoldStamps(t: Tables, ds: seq<Proposal>, df: Lookup, now: real, source: string, c: int)
    requires Good(t) && AllKnown(t, ds) && c in Fold(t, ds, df, now, source).clusters
    ensures var r := Fold(t, ds, df, now, source);
      if Decided(r, ds, c) then r.clusters[c].lastDecidedAt == now
      else c in t.clusters && r.clusters[c] == t.clusters[c]
    decreases |ds|
  {
    hide Step;
    if ds != [] {
      var pre, last := ds[..|ds| - 1], ds[|ds| - 1];
      var mid, r := Fold(t, pre, df, now, source), Fold(t, ds, df, now, source);
      StepStamps(mid, last, df, now, source, c);
      if (c, last.a) !in r.members {
        FoldStamps(t, pre, df, now, source, c);
        if Decided(mid, pre, c) {
          var i :| 0 <= i < |pre| && (c, pre[i].a) in mid.members;
          assert (c, ds[i].a) in r.members;
        }
        if Decided(r, ds, c) {
          var i :| 0 <= i < |ds| && (c, ds[i].a) in r.members;
          assert (c, pre[i].a) in mid.members;
        }
      }
    }
  }

  /** Rows the run has made are stamped now, under its source, confirmed; any other is an old one, restamped at most. */
  ghost predicate RowsAre(w: Tables, r: Tables, now: real, source: string) {
    && w.nextId <= r.nextId
    && (forall c :: c in r.clusters && c >= w.nextId ==> r.clusters[c] == ClusterRow(now, now, source, true))
    && (forall c :: c in r.clusters && c < w.nextId ==>
          c in w.clusters && r.clusters[c].(lastDecidedAt := w.clusters[c].lastDecidedAt) == w.clusters[c])
  }

  lemma StepRowsAre(w: Tables, t: Tables, p: Proposal, df: Lookup, now: real, source: string)
    requires Good(t) && RowsAre(w, t, now, source)
    ensures RowsAre(w, Step(t, p, df, now, source), now, source)
  {
    hide Rekeyed, EvidenceFor;
  }

  /** Every row of `device_clusters` after a run; when old ones are restamped, `FoldStamps` says. */
  lemma {:induction false} FoldRowsAre(t: Tables, ds: seq<Proposal>, df: Lookup, now: real, source: string)
    requires Good(t) && AllKnown(t, ds)
    ensures RowsAre(t, Fold(t, ds, df, now, source), now, source)
    decreases |ds|
  {
    hide Step;
    if ds != [] {
      FoldRowsAre(t, ds[..|ds| - 1], df, now, source);
      StepRowsAre(t, Fold(t, ds[..|ds| - 1], df, now, source), ds[|ds| - 1], df, now, source);
    }
  }

  // ---------------------------------------------------------------- evidence

  lemma StepEvidence(t: Tables, p: Proposal, df: Lookup, now: real, source: string, c: int, d: int)
    requires Good(t) && Known(t, p) && (c, d) in Step(t, p, df, now, source).members
    ensures var ev := Step(t, p, df, now, source).members[(c, d)];
      match ClusterOf(t, d)
      case Some(e) => ev == t.members[(e, d)]
      case None => (d == p.a || d == p.b) && ev == EvidenceFor(df, d, now, source)
  {
  }

  /** Merging and moving clusters loses no evidence: an old member keeps its own, a new one gets this run's best. */
  lemma {:induction false} FoldEvidence(
    t: Tables, ds: seq<Proposal>, df: Lookup, now: real, source: string, c: int, d: int)
    requires Good(t) && AllKnown(t, ds) && (c, d) in Fold(t, ds, df, now, source).members
    ensures var ev := Fold(t, ds, df, now, source).members[(c, d)];
      match ClusterOf(t, d)
      case Some(e) => ev == t.members[(e, d)]
      case None => ev == EvidenceFor(df, d, now, source)
    decreases |ds|
  {
    hide EvidenceFor, Step;
    if ds != [] {
      var pre, last := ds[..|ds| - 1], ds[|ds| - 1];
      var mid := Fold(t, pre, df, now, source);
      StepEvidence(mid, last, df, now, source, c, d);
      match ClusterOf(mid, d) {
        case Some(e) => FoldEvidence(t, pre, df, now, source, e, d);
        case None =>
          if ClusterOf(t, d).Some? {
            assert Together(t, d, d);
            FoldJoins(t, pre, df, now, source);
          }
      }
    }
  }

  /** Entry `k` of the lookup is about `d`. */
  predicate About(df: Lookup, d: int, k: int) {
    0 <= k < |df| && (d == df[k].0.0 || d == df[k].0.1)
  }

  /** Entry `k` is about `d`, scores no less than any other that is, and more than every earlier one. */
  ghost predicate StrongestAt(df: Lookup, d: int, k: int) {
    && About(df, d, k)
    && (forall i :: About(df, d, i) ==> df[i].1.score <= df[k].1.score)
    && (forall i :: About(df, d, i) && i < k ==> df[i].1.score < df[k].1.score)
  }

  /** A verdict about `d` that beats the score no verdict has. */
  ghost predicate SomeStrong(df: Lookup, d: int) {
    exists i :: About(df, d, i) && df[i].1.score > -2.0
  }

  /** This run's row for a device: stamped now, under this source, with the first of the strongest verdicts about it. */
  ghost predicate Evidenced(ev: Evidence, df: Lookup, d: int, now: real, source: string) {
    && ev.decidedAt == now && ev.decidedBy == source
    && (ev.best.Some? <==> SomeStrong(df, d))
    && (ev.best.Some? ==> exists k :: StrongestAt(df, d, k) && ev.best.value == df[k].1)
  }

  lemma NewEvidence(df: Lookup, d: int, now: real, source: string)
    ensures Evidenced(EvidenceFor(df, d, now, source), df, d, now, source)
  {
    BestIsFirstMaximum(df, d);
    var ev := EvidenceFor(df, d, now, source);
    if ev.best.Some? {
      var k :| 0 <= k < |df| && FirstMaximum(df, d, k) && df[k].1 == ev.best.value;
      assert StrongestAt(df, d, k);
    }
  }

  /**
   What a run stores beside each membership: a device that kept a row keeps what that row said, wherever it has moved;
   any other gets this run's time and source and the first of the strongest verdicts about it.
   */
  lemma RunEvidence(t: Tables, ds: seq<Proposal>, now: real, source: string, c: int, d: int)
    requires Good(t) && ds != [] && AllKnown(t, ds) && (c, d) in ApplyRun(t, ds, now, source).members
    ensures var w, ev := Wipe(t, source), ApplyRun(t, ds, now, source).members[(c, d)];
      && (forall e :: (e, d) in w.members ==> ev == w.members[(e, d)])
      && ((forall e :: (e, d) !in w.members) ==> Evidenced(ev, LookupOf(ds), d, now, source))
  {
    FoldEvidence(Wipe(t, source), ds, LookupOf(ds), now, source, c, d);
    NewEvidence(LookupOf(ds), d, now, source);
  }

  // ------------------------------------------------- in terms of the decisions

  /** Decisions `i` and `j` are about the same two devices. */
  predicate SamePair(ds: seq<Proposal>, i: nat, j: nat)
    requires i < |ds| && j < |ds|
  {
    (ds[i].a == ds[j].a && ds[i].b == ds[j].b) || (ds[i].a == ds[j].b && ds[i].b == ds[j].a)
  }

  /** Decision `i` is about `d`, and no later one replaces its verdict. */
  ghost predicate Stands(ds: seq<Proposal>, i: nat, d: int)
    requires i < |ds|
  {
    (d == ds[i].a || d == ds[i].b) && forall j :: i < j < |ds| ==> !SamePair(ds, i, j)
  }

  lemma SamePairSameKey(ds: seq<Proposal>, i: nat, j: nat)
    requires i < |ds| && j < |ds|
    ensures SamePair(ds, i, j) <==> PairKey(ds[i].a, ds[i].b) == PairKey(ds[j].a, ds[j].b)
  {
  }

  /** Every entry of the lookup about a device comes from a standing decision. */
  lemma EntryStands(ds: seq<Proposal>, d: int, k: int) returns (i: nat)
    requires About(LookupOf(ds), d, k)
    ensures i < |ds| && Stands(ds, i, d) && ds[i].verdict == LookupOf(ds)[k].1
  {
    hide LookupOf;
    var key, v := LookupOf(ds)[k].0, LookupOf(ds)[k].1;
    assert (key, v) in LookupOf(ds);
    LookupKeepsLast(ds, key, v);
    i :| 0 <= i < |ds| && PairKey(ds[i].a, ds[i].b) == key && ds[i].verdict == v
      && forall j :: i < j < |ds| ==> PairKey(ds[j].a, ds[j].b) != key;
    forall j | i < j < |ds|
      ensures !SamePair(ds, i, j)
    {
      SamePairSameKey(ds, i, j);
    }
  }

  /** Every standing decision about a device is in the lookup. */
  lemma StandingIsEntry(ds: seq<Proposal>, d: int, i: nat) returns (k: int)
    requires i < |ds| && Stands(ds, i, d)
    ensures About(LookupOf(ds), d, k) && ds[i].verdict == LookupOf(ds)[k].1
  {
    hide LookupOf;
    var key := PairKey(ds[i].a, ds[i].b);
    forall j | i < j < |ds|
      ensures PairKey(ds[j].a, ds[j].b) != key
    {
      SamePairSameKey(ds, i, j);
    }
    LookupKeepsLast(ds, key, ds[i].verdict);
    k :| 0 <= k < |LookupOf(ds)| && LookupOf(ds)[k] == (key, ds[i].verdict);
  }

  /** The verdict of some standing decision about the device, none of which outscores it. */
  ghost predicate StrongestOf(ds: seq<Proposal>, d: int, v: Verdict) {
    && (exists i :: 0 <= i < |ds| && Stands(ds, i, d) && ds[i].verdict == v)
    && (forall i :: 0 <= i < |ds| && Stands(ds, i, d) ==> ds[i].verdict.score <= v.score)
  }

  lemma StrongestStands(ds: seq<Proposal>, d: int, k: int)
    requires 0 <= k < |LookupOf(ds)| && StrongestAt(LookupOf(ds), d, k)
    ensures StrongestOf(ds, d, LookupOf(ds)[k].1)
  {
    hide LookupOf, Stands, About;
    var df := LookupOf(ds);
    var h := EntryStands(ds, d, k);
    forall i | 0 <= i < |ds| && Stands(ds, i, d)
      ensures ds[i].verdict.score <= df[k].1.score
    {
      var l := StandingIsEntry(ds, d, i);
    }
  }

  /** A new row carries the verdict of a standing decision about the device that no other outscores, if one scores. */
  lemma EvidenceIsStrongest(ev: Evidence, ds: seq<Proposal>, d: int, now: real, source: string)
    requires Evidenced(ev, LookupOf(ds), d, now, source)
    ensures ev.best.Some? <==> exists i :: 0 <= i < |ds| && Stands(ds, i, d) && ds[i].verdict.score > -2.0
    ensures ev.best.Some? ==> StrongestOf(ds, d, ev.best.value)
  {
    hide LookupOf, Stands, StrongestOf;
    var df := LookupOf(ds);
    if i :| 0 <= i < |ds| && Stands(ds, i, d) && ds[i].verdict.score > -2.0 {
      var k := StandingIsEntry(ds, d, i);
    }
    if ev.best.Some? {
      var k :| StrongestAt(df, d, k) && ev.best.value == df[k].1;
      StrongestStands(ds, d, k);
      var l :| About(df, d, l) && df[l].1.score > -2.0;
      var i := EntryStands(ds, d, l);
    }
  }

  lemma {:induction false} PutPlaces(df: Lookup, key: (int, int), v: Verdict)
    ensures var r := Put(df, key, v);
      && |r| >= |df| && (forall k :: 0 <= k < |df| ==> r[k].0 == df[k].0)
      && (r == df + [(key, v)] || (|r| == |df| && exists k :: 0 <= k < |df| && df[k].0 == key))
  {
    if df != [] && df[0].0 != key {
      PutPlaces(df[1..], key, v);
      assert forall k :: 0 < k < |df| ==> df[k] == df[1..][k - 1];
    }
  }

  /** Between pairs, the lookup keeps the order in which they first came up. */
  lemma {:induction false} LookupInOrder(ds: seq<Proposal>, k: nat, l: nat)
    requires k < l < |LookupOf(ds)|
    ensures exists i, j :: 0 <= i < j < |ds| && FirstUp(ds, LookupOf(ds)[k].0, i) && FirstUp(ds, LookupOf(ds)[l].0, j)
    decreases |ds|
  {
    hide PairKey;
    var pre, last := ds[..|ds| - 1], ds[|ds| - 1];
    var before := LookupOf(pre);
    PutPlaces(before, PairKey(last.a, last.b), last.verdict);
    if l < |before| {
      LookupInOrder(pre, k, l);
      var i, j :| 0 <= i < j < |pre| && FirstUp(pre, before[k].0, i) && FirstUp(pre, before[l].0, j);
      FirstUpLater(ds, before[k].0, i);
      FirstUpLater(ds, before[l].0, j);
    } else {
      var i := KeysComeUp(pre, k);
      FirstUpLater(ds, before[k].0, i);
      NewPairIsNew(ds);
      assert FirstUp(ds, LookupOf(ds)[l].0, |pre|);
    }
  }

  /** A pair comes up for the first time in decision `i`. */
  ghost predicate FirstUp(ds: seq<Proposal>, key: (int, int), i: int) {
    0 <= i < |ds| && PairKey(ds[i].a, ds[i].b) == key && forall h :: 0 <= h < i ==> PairKey(ds[h].a, ds[h].b) != key
  }

  lemma FirstUpLater(ds: seq<Proposal>, key: (int, int), i: int)
    requires ds != [] && FirstUp(ds[..|ds| - 1], key, i)
    ensures FirstUp(ds, key, i)
  {
    hide PairKey;
    var pre := ds[..|ds| - 1];
    assert forall h :: 0 <= h < |pre| ==> ds[h] == pre[h];
  }

  lemma {:induction false} KeysComeUp(ds: seq<Proposal>, k: nat) returns (i: int)
    requires k < |LookupOf(ds)|
    ensures FirstUp(ds, LookupOf(ds)[k].0, i)
    decreases |ds|
  {
    hide PairKey;
    var pre, last := ds[..|ds| - 1], ds[|ds| - 1];
    PutPlaces(LookupOf(pre), PairKey(last.a, last.b), last.verdict);
    if k < |LookupOf(pre)| {
      i := KeysComeUp(pre, k);
      FirstUpLater(ds, LookupOf(pre)[k].0, i);
    } else {
      i := |pre|;
      NewPairIsNew(ds);
    }
  }

  /** When the lookup has grown, the last decision is about a pair that had not come up. */
  lemma {:induction false} NewPairIsNew(ds: seq<Proposal>)
    requires ds != [] && |LookupOf(ds)| > |LookupOf(ds[..|ds| - 1])|
    ensures LookupOf(ds)[|LookupOf(ds)| - 1].0 == PairKey(ds[|ds| - 1].a, ds[|ds| - 1].b)
    ensures forall h :: 0 <= h < |ds| - 1 ==> PairKey(ds[h].a, ds[h].b) != PairKey(ds[|ds| - 1].a, ds[|ds| - 1].b)
  {
    hide PairKey, DistinctKeys;
    var pre, last := ds[..|ds| - 1], ds[|ds| - 1];
    var before, df := LookupOf(pre), LookupOf(ds);
    PutPlaces(before, PairKey(last.a, last.b), last.verdict);
    LookupDistinct(ds);
    forall h | 0 <= h < |pre|
      ensures PairKey(ds[h].a, ds[h].b) != PairKey(last.a, last.b)
    {
      var k := KeyLookedUp(pre, h);
      assert df[k].0 == before[k].0 && pre[h] == ds[h];
      KeysDiffer(df, k, |before|);
    }
  }

  lemma KeysDiffer(df: Lookup, k: int, l: int)
    requires DistinctKeys(df) && 0 <= k < l < |df|
    ensures df[k].0 != df[l].0
  {
  }

  lemma {:induction false} KeyLookedUp(ds: seq<Proposal>, h: nat) returns (k: int)
    requires h < |ds|
    ensures 0 <= k < |LookupOf(ds)| && LookupOf(ds)[k].0 == PairKey(ds[h].a, ds[h].b)
    decreases |ds|
  {
    hide PairKey;
    var pre, last := ds[..|ds| - 1], ds[|ds| - 1];
    PutPlaces(LookupOf(pre), PairKey(last.a, last.b), last.verdict);
    if h < |pre| {
      k := KeyLookedUp(pre, h);
      assert ds[h] == pre[h];
    } else {
      k := PutHas(LookupOf(pre), PairKey(last.a, last.b), last.verdict);
    }
  }

  lemma {:induction false} PutHas(df: Lookup, key: (int, int), v: Verdict) returns (k: int)
    ensures 0 <= k < |Put(df, key, v)| && Put(df, key, v)[k] == (key, v)
  {
    if df == [] || df[0].0 == key {
      k := 0;
    } else {
      k := PutHas(df[1..], key, v);
      k := k + 1;
    }
  }
}
