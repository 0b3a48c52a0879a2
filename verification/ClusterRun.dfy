/** One whole clustering run, and what its counts mean. */
module ClusterRun {
  import opened Connectivity
  import opened UnionFind
  import opened ClusterRunner

  ghost predicate NoRepeats<T>(s: seq<T>) {
    forall i, j :: 0 <= i < j < |s| ==> s[i] != s[j]
  }

  ghost predicate Increasing(s: seq<nat>) {
    forall i, j :: 0 <= i < j < |s| ==> s[i] < s[j]
  }

  lemma {:induction false} DistinctSize<T>(s: seq<T>, elements: set<T>)
    requires NoRepeats(s) && forall x :: x in elements <==> x in s
    ensures |elements| == |s|
  {
    if s == [] {
      assert elements == {};
    } else {
      var pre, last := s[..|s| - 1], s[|s| - 1];
      forall x
        ensures x in elements - {last} <==> x in pre
      {
      }
      DistinctSize(pre, elements - {last});
    }
  }

  // -------------------------------------------------------------------- steps

  method CountClasses(devices: seq<Device>) returns (sizes: map<string, nat>, order: seq<string>)
    ensures forall cls :: CountOf(sizes, cls) == ClassSize(devices, cls)
    ensures NoRepeats(order)
    ensures forall cls :: cls in order <==> cls in sizes
    ensures forall d :: d in devices ==> d.cls in sizes
  {
    sizes, order := map[], [];
    for i := 0 to |devices|
      invariant forall cls :: CountOf(sizes, cls) == ClassSize(devices[..i], cls)
      invariant NoRepeats(order)
      invariant forall cls :: cls in order <==> cls in sizes
      invariant forall d :: d in devices[..i] ==> d.cls in sizes
    {
      assert devices[..i + 1][..i] == devices[..i];
      var cls := devices[i].cls;
      if cls !in sizes { order := order + [cls]; }
      sizes := sizes[cls := CountOf(sizes, cls) + 1];
    }
    assert devices[..|devices|] == devices;
  }

  /** Positions of the devices of one class, in input order. */
  method GroupOf(devices: seq<Device>, cls: string) returns (group: seq<nat>)
    ensures Increasing(group)
    ensures forall k :: k in group <==> 0 <= k < |devices| && devices[k].cls == cls
  {
    group := [];
    for i := 0 to |devices|
      invariant Increasing(group) && forall k :: 0 <= k < |group| ==> group[k] < i
      invariant forall k :: k in group <==> 0 <= k < i && devices[k].cls == cls
    {
      if devices[i].cls == cls { group := group + [i]; }
    }
  }

  method PairsOf(group: seq<nat>) returns (pairs: seq<(int, int)>)
    requires Increasing(group)
    ensures NoRepeats(pairs)
    ensures forall p, q :: (p, q) in pairs <==> p in group && q in group && p < q
  {
    pairs := [];
    for i := 0 to |group|
      invariant NoRepeats(pairs)
      invariant forall p, q :: (p, q) in pairs <==> p in group[..i] && q in group && p < q
    {
      ghost var before := pairs;
      for j := i + 1 to |group|
        invariant NoRepeats(pairs)
        invariant forall p, q :: (p, q) in pairs <==> (p, q) in before || (p == group[i] && q in group[i + 1..j])
      {
        assert (group[i], group[j]) !in pairs;
        assert group[i + 1..j + 1] == group[i + 1..j] + [group[j]];
        pairs := pairs + [(group[i], group[j])];
      }
      assert group[..i + 1] == group[..i] + [group[i]];
      assert forall q :: q in group[i + 1..] <==> q in group && group[i] < q;
      assert group[i + 1..|group|] == group[i + 1..];
    }
    assert group[..|group|] == group;
  }

  /** The default candidate generator over the classes within the cap. */
  method SameClassPairs(devices: seq<Device>, cap: nat, sizes: map<string, nat>, order: seq<string>)
    returns (pairs: seq<(int, int)>)
    requires forall cls :: CountOf(sizes, cls) == ClassSize(devices, cls)
    requires NoRepeats(order)
    requires forall d :: d in devices ==> d.cls in order
    ensures NoRepeats(pairs)
    ensures forall p, q :: (p, q) in pairs <==> IsCandidate(devices, cap, p, q)
  {
    pairs := [];
    for k := 0 to |order|
      invariant NoRepeats(pairs)
      invariant forall p, q :: (p, q) in pairs <==> IsCandidate(devices, cap, p, q) && devices[p].cls in order[..k]
    {
      assert order[..k + 1] == order[..k] + [order[k]];
      assert order[k] !in order[..k];
      if CountOf(sizes, order[k]) <= cap {
        var group := GroupOf(devices, order[k]);
        var more := PairsOf(group);
        forall i, j | 0 <= i < |pairs| && 0 <= j < |more|
          ensures pairs[i] != more[j]
        {
          var (p, q) := pairs[i];
          var (u, v) := more[j];
          assert (p, q) in pairs && (u, v) in more;
          assert devices[p].cls in order[..k] && devices[u].cls == order[k];
        }
        pairs := pairs + more;
      }
    }
    assert order[..|order|] == order;
  }

  /** Judge each pair once and count the outcomes. */
  method EvaluateAll(devices: seq<Device>, cap: nat, pairs: seq<(int, int)>, judge: (Device, Device) -> Verdict)
    returns (merges: seq<(int, int)>, abstains: nat, noMerges: nat)
    requires forall c :: c in pairs ==> IsCandidate(devices, cap, c.0, c.1)
    ensures |merges| + abstains + noMerges == |pairs|
    ensures forall e :: e in merges <==>
      exists c :: c in pairs && MergesAt(devices, judge, c) && e == (devices[c.0].id, devices[c.1].id)
  {
    merges, abstains, noMerges := [], 0, 0;
    for k := 0 to |pairs|
      invariant |merges| + abstains + noMerges == k
      invariant forall e :: e in merges <==>
        exists c :: c in pairs[..k] && MergesAt(devices, judge, c) && e == (devices[c.0].id, devices[c.1].id)
    {
      assert pairs[..k + 1] == pairs[..k] + [pairs[k]];
      var (p, q) := pairs[k];
      assert IsCandidate(devices, cap, pairs[k].0, pairs[k].1);
      match judge(devices[p], devices[q])
      case Merge => merges := merges + [(devices[p].id, devices[q].id)];
      case NoMerge => noMerges := noMerges + 1;
      case Abstain => abstains := abstains + 1;
    }
    assert pairs[..|pairs|] == pairs;
  }

  method ListSkipped(cap: nat, sizes: map<string, nat>, order: seq<string>) returns (skipped: seq<string>)
    requires forall cls :: cls in order <==> cls in sizes
    ensures forall cls :: cls in skipped <==> CountOf(sizes, cls) > cap
  {
    skipped := [];
    for k := 0 to |order|
      invariant forall cls :: cls in skipped <==> cls in order[..k] && CountOf(sizes, cls) > cap
    {
      assert order[..k + 1] == order[..k] + [order[k]];
      if CountOf(sizes, order[k]) > cap { skipped := skipped + [order[k]]; }
    }
    assert order[..|order|] == order;
  }

  /**
   A run evaluates every same-class pair of every class within the cap exactly once, each with
   one outcome, and reports the number of connected components of the resulting merge graph.
   */
  method RunOnce(devices: seq<Device>, cap: nat, judge: (Device, Device) -> Verdict) returns (r: RunResult)
    requires KeyedById(devices)
    ensures r.pairsEvaluated == |Candidates(devices, cap)| == |r.merges| + r.abstains + r.noMerges
    ensures forall e :: e in r.merges <==> e in MergeGraph(devices, cap, judge)
    ensures forall cls :: cls in r.skipped <==> ClassSize(devices, cls) > cap
    ensures r.clusterCount == |Components(Ids(devices), MergeGraph(devices, cap, judge))|
    ensures forall cls ::
      CountOf(r.clustersByClass, cls) == |ComponentsOfClass(devices, MergeGraph(devices, cap, judge), cls)|
  {
    var sizes, order := CountClasses(devices);
    var skipped := ListSkipped(cap, sizes, order);
    var pairs := SameClassPairs(devices, cap, sizes, order);
    forall c | c in pairs
      ensures IsCandidate(devices, cap, c.0, c.1)
    {
      assert (c.0, c.1) in pairs;
    }
    CandidatesListed(devices, cap, pairs);
    var merges, abstains, noMerges := EvaluateAll(devices, cap, pairs, judge);
    var count, byClass := ComputeClosure(devices, merges);
    GraphListed(devices, cap, judge, pairs, merges);
    GraphWithinClass(devices, cap, judge);
    r := RunResult(|pairs|, merges, abstains, noMerges, skipped, count, byClass);
  }

  lemma CandidatesListed(devices: seq<Device>, cap: nat, pairs: seq<(int, int)>)
    requires NoRepeats(pairs)
    requires forall p, q :: (p, q) in pairs <==> IsCandidate(devices, cap, p, q)
    ensures |Candidates(devices, cap)| == |pairs|
  {
    forall c
      ensures c in Candidates(devices, cap) <==> c in pairs
    {
      assert c == (c.0, c.1);
      assert c in pairs <==> IsCandidate(devices, cap, c.0, c.1);
    }
    DistinctSize(pairs, Candidates(devices, cap));
  }

  lemma GraphListed(
    devices: seq<Device>, cap: nat, judge: (Device, Device) -> Verdict, pairs: seq<(int, int)>, merges: seq<(int, int)>)
    requires forall c :: c in pairs ==> IsCandidate(devices, cap, c.0, c.1)
    requires forall p, q :: (p, q) in pairs <==> IsCandidate(devices, cap, p, q)
    requires forall e :: e in merges <==>
      exists c :: c in pairs && MergesAt(devices, judge, c) && e == (devices[c.0].id, devices[c.1].id)
    ensures forall e :: e in merges <==> e in MergeGraph(devices, cap, judge)
    ensures InnerEdges(Ids(devices), merges) == MergeGraph(devices, cap, judge)
  {
  }

  lemma GraphWithinClass(devices: seq<Device>, cap: nat, judge: (Device, Device) -> Verdict)
    requires KeyedById(devices)
    ensures WithinClass(devices, MergeGraph(devices, cap, judge))
  {
  }

  // --------------------------------------------------------------- properties

  function DevicesOf(devices: seq<Device>, cls: string): set<Device> {
    set d | d in devices && d.cls == cls
  }

  lemma {:induction false} ClassSizeCountsDevices(devices: seq<Device>, cls: string)
    requires KeyedById(devices)
    ensures ClassSize(devices, cls) == |DevicesOf(devices, cls)|
  {
    hide DevicesOf;
    if devices == [] {
      OfClassNone(cls);
    } else {
      var pre, last := devices[..|devices| - 1], devices[|devices| - 1];
      ClassSizeCountsDevices(pre, cls);
      assert devices == pre + [last] && last !in pre;
      OfClassSnoc(pre, last, cls);
    }
  }

  lemma OfClassNone(cls: string)
    ensures DevicesOf([], cls) == {}
  {
  }

  lemma OfClassSnoc(pre: seq<Device>, last: Device, cls: string)
    requires last !in pre
    ensures DevicesOf(pre + [last], cls) == DevicesOf(pre, cls) + if last.cls == cls then {last} else {}
    ensures last !in DevicesOf(pre, cls)
  {
  }

  /**
   With a scorer that does not care about argument order, the input order of the devices changes no component of any
   class.
   */
  lemma OrderFree(devices: seq<Device>, shuffled: seq<Device>, cap: nat, judge: (Device, Device) -> Verdict)
    requires KeyedById(devices) && KeyedById(shuffled)
    requires forall d :: d in devices <==> d in shuffled
    requires forall d, e :: judge(d, e) == judge(e, d)
    ensures Components(Ids(devices), MergeGraph(devices, cap, judge))
         == Components(Ids(shuffled), MergeGraph(shuffled, cap, judge))
    ensures forall cls ::
      ComponentsOfClass(devices, MergeGraph(devices, cap, judge), cls)
        == ComponentsOfClass(shuffled, MergeGraph(shuffled, cap, judge), cls)
  {
    hide MergeGraph;
    var es, fs := MergeGraph(devices, cap, judge), MergeGraph(shuffled, cap, judge);
    assert Ids(devices) == Ids(shuffled);
    forall a, b | (a, b) in es
      ensures Connected(fs, a, b)
    {
      EdgeCarriesOver(devices, shuffled, cap, judge, a, b);
      AdjacentConnected(fs, a, b);
    }
    forall a, b | (a, b) in fs
      ensures Connected(es, a, b)
    {
      EdgeCarriesOver(shuffled, devices, cap, judge, a, b);
      AdjacentConnected(es, a, b);
    }
    forall x, y
      ensures Connected(es, x, y) <==> Connected(fs, x, y)
    {
      SameComponents(es, fs, x, y);
    }
    hide Connected;
    forall x
      ensures Component(Ids(devices), es, x) == Component(Ids(shuffled), fs, x)
    {
    }
  }

  lemma EdgeCarriesOver(
    devices: seq<Device>, shuffled: seq<Device>, cap: nat, judge: (Device, Device) -> Verdict, a: int, b: int)
    requires KeyedById(devices) && KeyedById(shuffled)
    requires forall d :: d in devices <==> d in shuffled
    requires forall d, e :: judge(d, e) == judge(e, d)
    requires (a, b) in MergeGraph(devices, cap, judge)
    ensures Adjacent(MergeGraph(shuffled, cap, judge), a, b)
  {
    var c :| c in Candidates(devices, cap) && MergesAt(devices, judge, c)
      && (a, b) == (devices[c.0].id, devices[c.1].id);
    var d, e := devices[c.0], devices[c.1];
    assert d in devices && e in devices;
    var i :| 0 <= i < |shuffled| && shuffled[i] == d;
    var j :| 0 <= j < |shuffled| && shuffled[j] == e;
    ClassSizeCountsDevices(devices, d.cls);
    ClassSizeCountsDevices(shuffled, d.cls);
    assert (set f | f in devices && f.cls == d.cls) == (set f | f in shuffled && f.cls == d.cls);
    if i < j {
      assert (i, j) in Candidates(shuffled, cap);
      assert (shuffled[(i, j).0].id, shuffled[(i, j).1].id) in MergeGraph(shuffled, cap, judge);
    } else {
      assert (j, i) in Candidates(shuffled, cap);
      assert (shuffled[(j, i).0].id, shuffled[(j, i).1].id) in MergeGraph(shuffled, cap, judge);
    }
  }

  /** A device of a class over the cap is alone in its component. */
  lemma SkippedStaysAlone(devices: seq<Device>, cap: nat, judge: (Device, Device) -> Verdict, d: Device)
    requires KeyedById(devices) && d in devices && ClassSize(devices, d.cls) > cap
    ensures Component(Ids(devices), MergeGraph(devices, cap, judge), d.id) == {d.id}
  {
    var es := MergeGraph(devices, cap, judge);
    Reflexive(es, d.id);
    forall a, b | (a, b) in es
      ensures (a == d.id) == (b == d.id)
    {
      var c :| c in Candidates(devices, cap) && MergesAt(devices, judge, c)
        && (a, b) == (devices[c.0].id, devices[c.1].id);
      assert devices[c.0] != d && devices[c.1] != d;
    }
    forall y | Connected(es, d.id, y)
      ensures y == d.id
    {
      LabelRespectsConnectivity(es, x => x == d.id, d.id, y);
    }
  }

  /** Every component of a run's merge graph lies within one device class. */
  lemma RunComponentsAreOneClass(
    devices: seq<Device>, cap: nat, judge: (Device, Device) -> Verdict, d: Device, e: Device)
    requires KeyedById(devices) && d in devices && e in devices
    requires Connected(MergeGraph(devices, cap, judge), d.id, e.id)
    ensures d.cls == e.cls
  {
    var es := MergeGraph(devices, cap, judge);
    GraphWithinClass(devices, cap, judge);
    forall u, v | (u, v) in es
      ensures u in Ids(devices) && v in Ids(devices)
    {
      var c :| c in Candidates(devices, cap) && MergesAt(devices, judge, c)
        && (u, v) == (devices[c.0].id, devices[c.1].id);
      assert devices[c.0] in devices && devices[c.1] in devices;
    }
    ComponentIsOneClass(devices, es, d, e);
  }

  // -------------------------------------------------------- the graph, spelled out

  /** The positions that hold a device of the class. */
  function PositionsOf(devices: seq<Device>, cls: string): set<int> {
    set k | 0 <= k < |devices| && devices[k].cls == cls
  }

  /** A class is as large as it has positions. */
  lemma {:induction false} ClassSizeIsCount(devices: seq<Device>, cls: string)
    ensures ClassSize(devices, cls) == |PositionsOf(devices, cls)|
    decreases |devices|
  {
    if devices != [] {
      var n := |devices| - 1;
      ClassSizeIsCount(devices[..n], cls);
      assert n !in PositionsOf(devices[..n], cls);
      assert PositionsOf(devices, cls) == PositionsOf(devices[..n], cls) + if devices[n].cls == cls then {n} else {};
    }
  }

  /** Positions a run compares: the first stands before the second, and their class is one, no larger than the cap. */
  ghost predicate Compared(devices: seq<Device>, cap: nat, i: int, j: int) {
    && 0 <= i < j < |devices| && devices[i].cls == devices[j].cls
    && |PositionsOf(devices, devices[i].cls)| <= cap
  }

  /** Exactly these pairs of positions are candidates. */
  lemma CandidatesExactly(devices: seq<Device>, cap: nat, i: int, j: int)
    ensures (i, j) in Candidates(devices, cap) <==> Compared(devices, cap, i, j)
  {
    if 0 <= i < |devices| { ClassSizeIsCount(devices, devices[i].cls); }
  }

  /** An edge of the merge graph is a compared pair that is judged to merge, in the order in which the devices stand. */
  lemma MergeGraphExactly(devices: seq<Device>, cap: nat, judge: (Device, Device) -> Verdict, a: int, b: int)
    ensures (a, b) in MergeGraph(devices, cap, judge) <==>
      exists i, j :: Compared(devices, cap, i, j) && devices[i].id == a && devices[j].id == b
                     && judge(devices[i], devices[j]) == Merge
  {
    if (a, b) in MergeGraph(devices, cap, judge) {
      var c :| c in Candidates(devices, cap) && MergesAt(devices, judge, c)
        && (a, b) == (devices[c.0].id, devices[c.1].id);
      assert c == (c.0, c.1);
      CandidatesExactly(devices, cap, c.0, c.1);
    }
    if i, j :| Compared(devices, cap, i, j) && devices[i].id == a && devices[j].id == b
               && judge(devices[i], devices[j]) == Merge
    {
      CandidatesExactly(devices, cap, i, j);
      assert (i, j) in Candidates(devices, cap) && MergesAt(devices, judge, (i, j));
    }
  }
}
