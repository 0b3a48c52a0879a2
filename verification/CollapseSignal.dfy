/**
 What a collapse does to signal strength: the extremes of the canvas stay, and every mean stays between its extremes.
 */
module CollapseSignal {
  import opened Wrappers
  import opened Collapse
  import opened Reals
  import O = Observations

  // ---------------------------------------------------------------- extremes

  predicate Reaches(d: Device, low: bool, v: int) {
    if low then d.rssiMin.Some? && d.rssiMin.value <= v else d.rssiMax.Some? && d.rssiMax.value >= v
  }

  /** Some device shown was heard at `v` or weaker (`low`), or at `v` or stronger. */
  ghost predicate CanvasReaches(devs: Devices, low: bool, v: int) {
    exists x :: x in devs && Reaches(devs[x], low, v)
  }

  ghost predicate ListReaches(ds: seq<Device>, low: bool, v: int) {
    exists i :: 0 <= i < |ds| && Reaches(ds[i], low, v)
  }

  lemma {:induction false} AbsorbEachReaches(p: Device, ms: seq<Device>, low: bool, v: int)
    ensures Reaches(AbsorbEach(p, ms), low, v) <==> Reaches(p, low, v) || ListReaches(ms, low, v)
  {
    hide Blend, Join, Added;
    if ms != [] {
      var pre, last := ms[..|ms| - 1], ms[|ms| - 1];
      AbsorbEachReaches(p, pre, low, v);
      assert ListReaches(ms, low, v) <==> ListReaches(pre, low, v) || Reaches(last, low, v) by {
        if ListReaches(pre, low, v) {
          var i :| 0 <= i < |pre| && Reaches(pre[i], low, v);
          assert ms[i] == pre[i];
        }
      }
    }
  }

  lemma MergedReaches(devs: Devices, p: Device, others: seq<Device>, low: bool, v: int)
    requires p.id in devs && Reaches(p, low, v) == Reaches(devs[p.id], low, v)
    requires !Among(others, p.id)
    requires forall i :: 0 <= i < |others| ==> others[i].id in devs && devs[others[i].id] == others[i]
    ensures CanvasReaches(Merged(devs, p, others), low, v) <==> CanvasReaches(devs, low, v)
  {
    hide Reaches, AbsorbEach;
    var after := Merged(devs, p, others);
    AbsorbEachReaches(p, others, low, v);
    if CanvasReaches(devs, low, v) {
      var x :| x in devs && Reaches(devs[x], low, v);
      if Among(others, x) {
        var i :| 0 <= i < |others| && others[i].id == x;
        assert ListReaches(others, low, v);
        assert Reaches(after[p.id], low, v);
      } else {
        assert Reaches(after[x], low, v);
      }
    }
    if CanvasReaches(after, low, v) {
      var x :| x in after && Reaches(after[x], low, v);
      if x == p.id && !Reaches(p, low, v) {
        var i :| 0 <= i < |others| && Reaches(others[i], low, v);
        assert Reaches(devs[others[i].id], low, v);
      } else {
        assert Reaches(devs[x], low, v);
      }
    }
  }

  lemma CollapseOneReaches(devs: Devices, c: Cluster, threshold: real, low: bool, v: int)
    requires OwnIds(devs) && DistinctMembers(c)
    ensures CanvasReaches(CollapseOne(devs, c, threshold), low, v) <==> CanvasReaches(devs, low, v)
  {
    hide Primary, Others, Live, MinScore, AbsorbEach;
    var live, ds := CollapsingCluster(devs, c);
    if live != [] {
      if !Collapses(live, threshold) {
        var after := Tagged(devs, live, c.id);
        assert after.Keys == devs.Keys && forall x :: x in devs ==>
          Reaches(after[x], low, v) == Reaches(devs[x], low, v);
        if CanvasReaches(devs, low, v) {
          var x :| x in devs && Reaches(devs[x], low, v);
          assert x in after && Reaches(after[x], low, v);
        }
      } else {
        var p := Primary(ds);
        MergedReaches(devs, p.(clusterId := Some(c.id), minScore := MinScore(live)), Others(ds, p.id), low, v);
      }
    }
  }

  /**
   For every strength, the collapsed canvas reaches it exactly when the uncollapsed one did: both extremes are
   unchanged.
   */
  lemma {:induction false} ExtremesUnchanged(devs: Devices, cs: seq<Cluster>, threshold: real, low: bool, v: int)
    requires OwnIds(devs) && forall c :: c in cs ==> DistinctMembers(c)
    ensures CanvasReaches(CollapseAll(devs, cs, threshold), low, v) <==> CanvasReaches(devs, low, v)
  {
    hide CollapseOne, CanvasReaches;
    if cs != [] {
      var pre := cs[..|cs| - 1];
      ExtremesUnchanged(devs, pre, threshold, low, v);
      CollapseAllOwnIds(devs, pre, threshold);
      CollapseOneReaches(CollapseAll(devs, pre, threshold), cs[|cs| - 1], threshold, low, v);
    }
  }

  // ------------------------------------------------------------------- means

  /** A device with a mean has extremes, and the mean lies between them. */
  predicate MeanInside(d: Device) {
    d.rssiAvg.Some? ==>
      d.rssiMin.Some? && d.rssiMax.Some? && d.rssiMin.value as real <= d.rssiAvg.value <= d.rssiMax.value as real
  }

  lemma PooledMeanBetween(a: real, m: nat, b: real, n: nat, lo: real, hi: real)
    requires m + n > 0 && lo <= a <= hi && lo <= b <= hi
    ensures lo <= PooledMean(a, m, b, n) <= hi
  {
    var x, y, q := m as real, n as real, PooledMean(a, m, b, n);
    MultiplyBack(a * x + b * y, x + y);
    WeightedBetween(a, x, b, y, q, lo, hi);
  }

  lemma AbsorbKeepsMean(p: Device, m: Device)
    requires MeanInside(p) && MeanInside(m)
    ensures MeanInside(Absorb(p, m))
  {
    hide Join, Added, PooledMean;
    var lo, hi := O.Lower(p.rssiMin, m.rssiMin), O.Higher(p.rssiMax, m.rssiMax);
    if p.rssiAvg.Some? && m.rssiAvg.Some? && p.packets + m.packets > 0 {
      PooledMeanBetween(p.rssiAvg.value, p.packets, m.rssiAvg.value, m.packets, lo.value as real, hi.value as real);
    }
  }

  lemma {:induction false} AbsorbEachKeepsMean(p: Device, ms: seq<Device>)
    requires MeanInside(p) && forall m :: m in ms ==> MeanInside(m)
    ensures MeanInside(AbsorbEach(p, ms))
  {
    hide Absorb, MeanInside;
    if ms != [] {
      AbsorbEachKeepsMean(p, ms[..|ms| - 1]);
      AbsorbKeepsMean(AbsorbEach(p, ms[..|ms| - 1]), ms[|ms| - 1]);
    }
  }

  ghost predicate MeansInside(devs: Devices) {
    forall x :: x in devs ==> MeanInside(devs[x])
  }

  lemma CollapseOneKeepsMeans(devs: Devices, c: Cluster, threshold: real)
    requires OwnIds(devs) && DistinctMembers(c) && MeansInside(devs)
    ensures MeansInside(CollapseOne(devs, c, threshold))
  {
    hide Primary, Others, Live, MinScore, AbsorbEach;
    var live, ds := CollapsingCluster(devs, c);
    if live != [] && Collapses(live, threshold) {
      var p := Primary(ds);
      var os := Others(ds, p.id);
      assert forall m :: m in os ==> MeanInside(m);
      AbsorbEachKeepsMean(p.(clusterId := Some(c.id), minScore := MinScore(live)), os);
    }
  }

  /** If every device's mean lies between its extremes before the collapse, every shown device's does after it. */
  lemma {:induction false} MeansStayInside(devs: Devices, cs: seq<Cluster>, threshold: real)
    requires OwnIds(devs) && MeansInside(devs) && forall c :: c in cs ==> DistinctMembers(c)
    ensures MeansInside(CollapseAll(devs, cs, threshold))
  {
    hide CollapseOne, MeansInside;
    if cs != [] {
      var pre := cs[..|cs| - 1];
      MeansStayInside(devs, pre, threshold);
      CollapseAllOwnIds(devs, pre, threshold);
      CollapseOneKeepsMeans(CollapseAll(devs, pre, threshold), cs[|cs| - 1], threshold);
    }
  }

  // ------------------------------------------------- what the blended mean is

  function Times(v: real, n: nat): real {
    v * n as real
  }

  function Weight(d: Device): real {
    if d.rssiAvg.Some? then Times(d.rssiAvg.value, d.packets) else 0.0
  }

  ghost function WeightTotal(ds: seq<Device>): real {
    if ds == [] then 0.0 else WeightTotal(ds[..|ds| - 1]) + Weight(ds[|ds| - 1])
  }

  lemma PooledTotal(a: real, m: nat, b: real, n: nat)
    ensures m + n > 0 ==> Times(PooledMean(a, m, b, n), m + n) == Times(a, m) + Times(b, n)
    ensures m + n == 0 ==> Times(a, m + n) == Times(a, m) + Times(b, n)
  {
    var x, y := m as real, n as real;
    assert (m + n) as real == x + y;
    if m + n > 0 {
      var q := PooledMean(a, m, b, n);
      MultiplyBack(a * x + b * y, x + y);
      assert q * (x + y) == a * x + b * y;
      assert Times(q, m + n) == q * (x + y);
    } else {
      assert x == 0.0 && y == 0.0;
    }
  }

  lemma BlendAdds(p: Device, m: Device)
    requires p.rssiAvg.Some? && m.rssiAvg.Some?
    ensures Absorb(p, m).rssiAvg.Some? && Weight(Absorb(p, m)) == Weight(p) + Weight(m)
  {
    hide Join, Added, PooledMean, Times, O.Lower, O.Higher;
    PooledTotal(p.rssiAvg.value, p.packets, m.rssiAvg.value, m.packets);
  }

  /**
   When every member has a mean, the box's mean is the packet-weighted mean of the cluster, in whatever order they came.
   */
  lemma {:induction false} BlendIsWeightedMean(p: Device, ms: seq<Device>)
    requires p.rssiAvg.Some? && forall m :: m in ms ==> m.rssiAvg.Some?
    ensures AbsorbEach(p, ms).rssiAvg.Some?
    ensures Weight(AbsorbEach(p, ms)) == Weight(p) + WeightTotal(ms)
  {
    hide Absorb, Weight;
    if ms != [] {
      BlendIsWeightedMean(p, ms[..|ms| - 1]);
      BlendAdds(AbsorbEach(p, ms[..|ms| - 1]), ms[|ms| - 1]);
    }
  }

  /** A member without a mean still adds its packets, and then the blended mean depends on the order of the others. */
  lemma SilentMemberSkewsMean(blank: Device, a: Device, b: Device)
    requires blank.rssiAvg == None && blank.packets == 10
    requires a.rssiAvg == Some(-50.0) && a.packets == 10 && b.rssiAvg == Some(-80.0) && b.packets == 10
    ensures Absorb(Absorb(blank, a), b).rssiAvg == Some(-60.0)
    ensures Absorb(Absorb(blank, b), a).rssiAvg == Some(-70.0)
  {
    hide Join, Added, O.Lower, O.Higher;
    var x, y := Absorb(blank, a), Absorb(blank, b);
    assert x.rssiAvg == Some(-50.0) && x.packets == 20 && y.rssiAvg == Some(-80.0) && y.packets == 20;
    assert PooledMean(-50.0, 20, -80.0, 10) == -60.0 && PooledMean(-80.0, 20, -50.0, 10) == -70.0;
  }
}
