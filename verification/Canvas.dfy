/** The canvas devices as the program keeps them: objects absorbed in place, and dropped from the canvas as they are. */
module Canvas {
  import opened Sums
  import opened Wrappers
  import opened Collapse
  import O = Observations

  /** The sum of two histograms after the keys `done` of the second have been added. */
  ghost function AddedOver<K>(a: map<K, nat>, b: map<K, nat>, done: set<K>): map<K, nat> {
    map k | k in a.Keys + done :: O.Get(a, k) + if k in done then O.Get(b, k) else 0
  }

  lemma AddedOverGrows<K>(a: map<K, nat>, b: map<K, nat>, done: set<K>, k: K)
    requires k in b && k !in done
    ensures AddedOver(a, b, done + {k}) == AddedOver(a, b, done)[k := O.Get(AddedOver(a, b, done), k) + b[k]]
  {
  }

  lemma AddedOverAll<K>(a: map<K, nat>, b: map<K, nat>)
    ensures AddedOver(a, b, {}) == a && AddedOver(a, b, b.Keys) == Added(a, b)
  {
  }

  /** Element-wise sum of two histograms, one entry of `b` at a time. */
  method AddCounts<K(==)>(a: map<K, nat>, b: map<K, nat>) returns (r: map<K, nat>)
    ensures r == Added(a, b)
  {
    hide AddedOver, Added, O.Get;
    AddedOverAll(a, b);
    r := a;
    var todo := b.Keys;
    assert b.Keys - todo == {};
    while todo != {}
      invariant todo <= b.Keys
      invariant r == AddedOver(a, b, b.Keys - todo)
      decreases |todo|
    {
      var k := Pick(todo);
      AddedOverGrows(a, b, b.Keys - todo, k);
      assert b.Keys - (todo - {k}) == b.Keys - todo + {k};
      r := r[k := O.Get(r, k) + b[k]];
      todo := todo - {k};
    }
    assert b.Keys - todo == b.Keys;
  }

  /** `a` extended with the entries of `b` whose key has not been seen. */
  method JoinNew<T, K(==, !new)>(a: seq<T>, b: seq<T>, key: T -> K) returns (r: seq<T>)
    ensures r == Join(a, b, key)
  {
    r := a;
    var seen: set<K> := {};
    for i := 0 to |a|
      invariant forall k :: k in seen <==> HasKey(a[..i], key, k)
    {
      seen := seen + {key(a[i])};
      KeysSnoc(a[..i], key, a[i]);
      assert a[..i + 1] == a[..i] + [a[i]];
    }
    assert a[..|a|] == a;
    for i := 0 to |b|
      invariant r == Join(a, b[..i], key)
      invariant forall k :: k in seen <==> HasKey(r, key, k)
    {
      assert b[..i + 1][..i] == b[..i];
      if key(b[i]) !in seen {
        KeysSnoc(r, key, b[i]);
        r := r + [b[i]];
        seen := seen + {key(b[i])};
      }
    }
    assert b[..|b|] == b;
  }

  class CanvasDevice {
    const id: int
    const kind: string
    var packets: nat
    var adv: nat
    var data: nat
    var bad: nat
    var rssiMin: Option<int>
    var rssiMax: Option<int>
    var rssiAvg: Option<real>
    var lastSeen: real
    var channels: map<int, nat>
    var pdus: map<string, nat>
    var addresses: seq<(string, string)>
    var uuids: seq<int>
    var broadcastName: Option<string>
    var clusterId: Option<int>
    var minScore: Option<real>
    var absorbed: seq<int>

    constructor (id: int, kind: string, lastSeen: real)
      ensures View() == Device(
        id, kind, 0, 0, 0, 0, None, None, None, lastSeen, map[], map[], [], [], None, None, None, [])
    {
      this.id, this.kind, this.lastSeen := id, kind, lastSeen;
      packets, adv, data, bad := 0, 0, 0, 0;
      rssiMin, rssiMax, rssiAvg := None, None, None;
      channels, pdus, addresses, uuids := map[], map[], [], [];
      broadcastName, clusterId, minScore, absorbed := None, None, None, [];
    }

    function View(): Device
      reads this
    {
      Device(id, kind, packets, adv, data, bad, rssiMin, rssiMax, rssiAvg, lastSeen, channels, pdus,
             addresses, uuids, broadcastName, clusterId, minScore, absorbed)
    }

    method Tag(cluster: int, score: Option<real>)
      modifies this`clusterId, this`minScore
      ensures View() == old(View()).(clusterId := Some(cluster), minScore := score)
    {
      clusterId, minScore := Some(cluster), score;
    }

    /** The signal strengths of `_absorb_cluster_member`. */
    method AbsorbSignal(member: CanvasDevice)
      requires member != this
      modifies this`rssiAvg, this`rssiMin, this`rssiMax
      ensures rssiAvg == BlendOf(old(rssiAvg), packets, member.rssiAvg, member.packets)
      ensures rssiMin == O.Lower(old(rssiMin), member.rssiMin) && rssiMax == O.Higher(old(rssiMax), member.rssiMax)
    {
      hide PooledMean;
      var avg, lo, hi := rssiAvg, rssiMin, rssiMax;
      if avg.Some? && member.rssiAvg.Some? {
        if packets + member.packets > 0 {
          avg := Some(PooledMean(avg.value, packets, member.rssiAvg.value, member.packets));
        }
      } else if member.rssiAvg.Some? {
        avg := member.rssiAvg;
      }
      if lo.None? || (member.rssiMin.Some? && member.rssiMin.value < lo.value) { lo := member.rssiMin; }
      if hi.None? || (member.rssiMax.Some? && member.rssiMax.value > hi.value) { hi := member.rssiMax; }
      rssiAvg, rssiMin, rssiMax := avg, lo, hi;
    }

    /** The counters of `_absorb_cluster_member`. */
    method AbsorbCounters(member: CanvasDevice)
      requires member != this
      modifies this`packets, this`adv, this`data, this`bad, this`lastSeen
      ensures packets == old(packets) + member.packets && adv == old(adv) + member.adv
      ensures data == old(data) + member.data && bad == old(bad) + member.bad
      ensures lastSeen == if member.lastSeen > old(lastSeen) then member.lastSeen else old(lastSeen)
    {
      packets, adv, data, bad := packets + member.packets, adv + member.adv, data + member.data, bad + member.bad;
      lastSeen := if member.lastSeen > lastSeen then member.lastSeen else lastSeen;
    }

    /** The histograms and lists of `_absorb_cluster_member`. */
    method AbsorbLists(member: CanvasDevice)
      requires member != this
      modifies this`channels, this`pdus, this`addresses, this`uuids, this`broadcastName, this`absorbed
      ensures channels == Added(old(channels), member.channels) && pdus == Added(old(pdus), member.pdus)
      ensures addresses == Join(old(addresses), member.addresses, AddressOf)
      ensures uuids == Join(old(uuids), member.uuids, Itself)
      ensures broadcastName ==
        if O.Named(member.broadcastName).Some? && O.Named(old(broadcastName)).None? then member.broadcastName
        else old(broadcastName)
      ensures absorbed == old(absorbed) + [member.id]
    {
      hide Added, Join, O.Named;
      var sums := AddCounts(channels, member.channels);
      var pduSums := AddCounts(pdus, member.pdus);
      var allAddresses := JoinNew(addresses, member.addresses, AddressOf);
      var allUuids := JoinNew(uuids, member.uuids, Itself);
      channels, pdus, addresses, uuids := sums, pduSums, allAddresses, allUuids;
      if O.Named(member.broadcastName).Some? && O.Named(broadcastName).None? {
        broadcastName := member.broadcastName;
      }
      absorbed := absorbed + [member.id];
    }

    /** `_absorb_cluster_member`: take over what the member has observed. */
    method AbsorbMember(member: CanvasDevice)
      requires member != this
      modifies this
      ensures View() == Absorb(old(View()), old(member.View()))
    {
      hide Added, Join, BlendOf, O.Named, O.Lower, O.Higher;
      AbsorbSignal(member);
      AbsorbCounters(member);
      AbsorbLists(member);
    }
  }

  type Boxes = map<int, CanvasDevice>

  ghost predicate Keyed(boxes: Boxes) {
    forall x :: x in boxes ==> boxes[x].id == x
  }

  ghost function Views(boxes: Boxes): Devices
    reads boxes.Values
  {
    map x | x in boxes :: boxes[x].View()
  }

  /** Which of the members are on the canvas, and the least score among them. */
  method LiveMembers(boxes: Boxes, members: seq<(int, Option<real>)>)
    returns (live: seq<(int, Option<real>)>, minScore: Option<real>)
    ensures live == Live(boxes.Keys, members) && minScore == MinScore(live)
  {
    live := [];
    for i := 0 to |members|
      invariant live == Live(boxes.Keys, members[..i])
    {
      assert members[..i + 1][..i] == members[..i];
      if members[i].0 in boxes { live := live + [members[i]]; }
    }
    assert members[..|members|] == members;
    minScore := None;
    for i := 0 to |live|
      invariant minScore == MinScore(live[..i])
    {
      assert live[..i + 1][..i] == live[..i];
      if live[i].1.Some? && (minScore.None? || live[i].1.value < minScore.value) { minScore := live[i].1; }
    }
    assert live[..|live|] == live;
  }

  method PickPrimary(boxes: Boxes, live: seq<(int, Option<real>)>) returns (p: CanvasDevice)
    requires Keyed(boxes) && live != [] && AllIn(boxes.Keys, live)
    ensures p in boxes.Values && p.View() == Primary(Shown(Views(boxes), live)) && p.id in boxes && boxes[p.id] == p
  {
    hide Outranks;
    ghost var ds := Shown(Views(boxes), live);
    p := boxes[live[0].0];
    assert live[0].0 in boxes.Keys && boxes[live[0].0].id == live[0].0;
    assert ds[..1] == [ds[0]];
    for i := 1 to |live|
      invariant p in boxes.Values && p.id in boxes && boxes[p.id] == p
      invariant p.View() == Primary(ds[..i])
    {
      assert ds[..i + 1][..i] == ds[..i];
      assert live[i].0 in boxes.Keys && boxes[live[i].0].id == live[i].0;
      if Outranks(boxes[live[i].0].View(), p.View()) { p := boxes[live[i].0]; }
    }
    assert ds[..|live|] == ds;
  }

  /** The primary takes the cluster's tag; every other live member is absorbed by it and leaves the canvas. */
  method AbsorbOthers(
    boxes: Boxes, live: seq<(int, Option<real>)>, primary: CanvasDevice, cluster: int, minScore: Option<real>)
    returns (kept: Boxes)
    requires Keyed(boxes) && AllIn(boxes.Keys, live) && primary.id in boxes && boxes[primary.id] == primary
    requires DistinctMembers(Cluster(cluster, live))
    modifies primary
    ensures forall x :: x in kept ==> x in boxes && kept[x] == boxes[x]
    ensures Views(kept) == old(Merged(Views(boxes), primary.View().(clusterId := Some(cluster), minScore := minScore),
                                      Others(Shown(Views(boxes), live), primary.id)))
  {
    hide Absorb, AbsorbEach, Others, Among;
    ghost var was := Views(boxes);
    ghost var ds := Shown(Views(boxes), live);
    primary.Tag(cluster, minScore);
    ghost var p := primary.View();
    ghost var os: seq<Device> := [];
    NoOthers(p, ds);
    kept := boxes;
    for i := 0 to |live|
      invariant os == Others(ds[..i], p.id)
      invariant forall x :: x in kept <==> x in boxes && !Among(os, x)
      invariant forall x :: x in kept ==> kept[x] == boxes[x]
      invariant primary.View() == AbsorbEach(p, os)
      modifies primary
    {
      var member := boxes[live[i].0];
      assert live[i].0 in boxes.Keys && member.id == live[i].0;
      OneMore(p, ds, os, i);
      if member.id != primary.id {
        assert member.View() == ds[i];
        primary.AbsorbMember(member);
        kept := kept - {member.id};
        AmongSnoc(os, ds[i]);
        os := os + [ds[i]];
      }
    }
    assert ds[..|live|] == ds;
    forall x | x in kept && x != p.id
      ensures kept[x].View() == was[x]
    {
      assert boxes[x].id == x && boxes[x] != primary;
    }
    MergedViews(was, kept, p, os);
  }

  lemma NoOthers(p: Device, ds: seq<Device>)
    ensures Others(ds[..0], p.id) == [] && AbsorbEach(p, []) == p && forall x :: !Among([], x)
  {
  }

  lemma OneMore(p: Device, ds: seq<Device>, os: seq<Device>, i: nat)
    requires i < |ds| && os == Others(ds[..i], p.id)
    ensures Others(ds[..i + 1], p.id) == if ds[i].id == p.id then os else os + [ds[i]]
    ensures AbsorbEach(p, os + [ds[i]]) == Absorb(AbsorbEach(p, os), ds[i])
  {
    hide Absorb;
    assert ds[..i + 1][..i] == ds[..i] && (os + [ds[i]])[..|os|] == os;
  }

  lemma AmongSnoc(ds: seq<Device>, d: Device)
    ensures forall x :: Among(ds + [d], x) <==> Among(ds, x) || x == d.id
  {
    forall x
      ensures Among(ds + [d], x) <==> Among(ds, x) || x == d.id
    {
      if Among(ds, x) {
        var i :| 0 <= i < |ds| && ds[i].id == x;
        assert (ds + [d])[i].id == x;
      }
      assert (ds + [d])[|ds|] == d;
    }
  }

  lemma MergedViews(was: Devices, kept: Boxes, p: Device, os: seq<Device>)
    requires forall x :: x in kept <==> x in was && !Among(os, x)
    requires forall x :: x in kept ==> kept[x].View() == if x == p.id then AbsorbEach(p, os) else was[x]
    ensures Views(kept) == Merged(was, p, os)
  {
  }

  /** One cluster of the collapse loop: tag its members, or absorb them into one box. */
  method CollapseCluster(boxes: Boxes, c: Cluster, threshold: real) returns (kept: Boxes)
    requires Keyed(boxes) && DistinctMembers(c)
    modifies boxes.Values
    ensures forall x :: x in kept ==> x in boxes && kept[x] == boxes[x]
    ensures Views(kept) == old(CollapseOne(Views(boxes), c, threshold))
  {
    hide Live, MinScore, Primary, Others, Absorb, AbsorbEach, Merged;
    ghost var was := Views(boxes);
    assert was.Keys == boxes.Keys;
    kept := boxes;
    var live, minScore := LiveMembers(boxes, c.members);
    LiveIsIn(boxes.Keys, c.members);
    if live == [] {
      assert CollapseOne(was, c, threshold) == was;
      return;
    }
    if |live| < 2 || minScore.None? || minScore.value < threshold {
      assert !Collapses(live, threshold);
      TagMembers(boxes, live, c.id, minScore);
      return;
    }
    LiveIsDistinct(boxes.Keys, c);
    var primary := PickPrimary(boxes, live);
    ghost var ds, p := Shown(was, live), primary.View();
    assert Collapses(live, threshold) && p == Primary(ds);
    kept := AbsorbOthers(boxes, live, primary, c.id, minScore);
    assert Views(kept) == Merged(was, p.(clusterId := Some(c.id), minScore := minScore), Others(ds, p.id));
  }

  method TagMembers(boxes: Boxes, live: seq<(int, Option<real>)>, cluster: int, minScore: Option<real>)
    requires Keyed(boxes) && AllIn(boxes.Keys, live) && minScore == MinScore(live)
    modifies boxes.Values
    ensures Views(boxes) == old(Tagged(Views(boxes), live, cluster))
  {
    hide MinScore, Names, AllIn;
    ghost var was := Views(boxes);
    NoNames(live);
    for i := 0 to |live|
      invariant forall x :: x in boxes ==>
        boxes[x].View() ==
          if Names(live[..i], x) then was[x].(clusterId := Some(cluster), minScore := minScore) else was[x]
      modifies boxes.Values
    {
      NamesSnoc(boxes, live, i);
      var box := boxes[live[i].0];
      assert box.id == live[i].0;
      assert forall x :: x in boxes && boxes[x] == box ==> x == live[i].0;
      box.Tag(cluster, minScore);
    }
    assert live[..|live|] == live;
  }

  lemma NoNames(live: seq<(int, Option<real>)>)
    ensures forall x :: !Names(live[..0], x)
  {
  }

  lemma NamesSnoc(boxes: Boxes, live: seq<(int, Option<real>)>, i: nat)
    requires i < |live| && AllIn(boxes.Keys, live)
    ensures live[i].0 in boxes
    ensures forall x :: Names(live[..i + 1], x) <==> Names(live[..i], x) || x == live[i].0
  {
  }

  lemma KeyOf<K, V>(m: map<K, V>, v: V) returns (k: K)
    requires v in m.Values
    ensures k in m && m[k] == v
  {
    k :| k in m && m[k] == v;
  }

  /** The collapse loop over all clusters, in the order the membership query gave them. */
  method CollapseClusters(boxes: Boxes, clusters: seq<Cluster>, threshold: real) returns (kept: Boxes)
    requires Keyed(boxes) && forall c :: c in clusters ==> DistinctMembers(c)
    modifies boxes.Values
    ensures forall x :: x in kept ==> x in boxes && kept[x] == boxes[x]
    ensures Views(kept) == old(CollapseAll(Views(boxes), clusters, threshold))
  {
    hide CollapseOne;
    kept := boxes;
    ghost var was := Views(boxes);
    for i := 0 to |clusters|
      invariant forall x :: x in kept ==> x in boxes && kept[x] == boxes[x]
      invariant Views(kept) == CollapseAll(was, clusters[..i], threshold)
      modifies boxes.Values
    {
      assert clusters[..i + 1][..i] == clusters[..i];
      assert clusters[i] in clusters;
      forall box | box in kept.Values
        ensures box in boxes.Values
      {
        var x := KeyOf(kept, box);
      }
      kept := CollapseCluster(kept, clusters[i], threshold);
    }
    assert clusters[..|clusters|] == clusters;
  }
}
