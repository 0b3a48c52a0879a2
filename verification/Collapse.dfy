/** Collapsing clusters on the canvas: one box per cluster stands for all its members, and nothing observed is lost. */
module Collapse {
  import opened Wrappers
  import opened Sums
  import O = Observations

  /** What the canvas shows of one device. */
  datatype Device = Device(
    id: int, kind: string, packets: nat, adv: nat, data: nat, bad: nat,
    rssiMin: Option<int>, rssiMax: Option<int>, rssiAvg: Option<real>, lastSeen: real,
    channels: map<int, nat>, pdus: map<string, nat>,
    addresses: seq<(string, string)>, uuids: seq<int>, broadcastName: Option<string>,
    clusterId: Option<int>, minScore: Option<real>, absorbed: seq<int>)

  type Devices = map<int, Device>

  datatype Cluster = Cluster(id: int, members: seq<(int, Option<real>)>)

  ghost predicate OwnIds(devs: Devices) {
    forall x :: x in devs ==> devs[x].id == x
  }

  predicate DistinctMembers(c: Cluster) {
    forall i, j :: 0 <= i < j < |c.members| ==> c.members[i].0 != c.members[j].0
  }

  // -------------------------------------------------------------- absorbing

  /** The mean of `m` packets averaging `a` and `n` averaging `b`. */
  function PooledMean(a: real, m: nat, b: real, n: nat): real
    requires m + n > 0
  {
    var x, y := m as real, n as real;
    (a * x + b * y) / (x + y)
  }

  function BlendOf(avg: Option<real>, packets: nat, other: Option<real>, more: nat): Option<real> {
    if avg.Some? && other.Some? then
      if packets + more > 0 then Some(PooledMean(avg.value, packets, other.value, more)) else avg
    else if other.Some? then other
    else avg
  }

  function Blend(p: Device, m: Device): Option<real> {
    BlendOf(p.rssiAvg, p.packets, m.rssiAvg, m.packets)
  }

  function Added<K>(a: map<K, nat>, b: map<K, nat>): map<K, nat> {
    map k | k in a.Keys + b.Keys :: O.Get(a, k) + O.Get(b, k)
  }

  ghost predicate HasKey<T, K(!new)>(s: seq<T>, key: T -> K, k: K) {
    exists i :: 0 <= i < |s| && key(s[i]) == k
  }

  /** `a`, then the entries of `b` whose key is new, in order. */
  ghost function Join<T, K(!new)>(a: seq<T>, b: seq<T>, key: T -> K): seq<T> {
    if b == [] then a
    else
      var sofar, last := Join(a, b[..|b| - 1], key), b[|b| - 1];
      if HasKey(sofar, key, key(last)) then sofar else sofar + [last]
  }

  function AddressOf(e: (string, string)): string {
    e.0
  }

  function Itself(u: int): int {
    u
  }

  ghost function Absorb(p: Device, m: Device): Device {
    p.(rssiAvg := Blend(p, m), rssiMin := O.Lower(p.rssiMin, m.rssiMin), rssiMax := O.Higher(p.rssiMax, m.rssiMax),
       packets := p.packets + m.packets, adv := p.adv + m.adv, data := p.data + m.data, bad := p.bad + m.bad,
       lastSeen := if m.lastSeen > p.lastSeen then m.lastSeen else p.lastSeen,
       channels := Added(p.channels, m.channels), pdus := Added(p.pdus, m.pdus),
       addresses := Join(p.addresses, m.addresses, AddressOf), uuids := Join(p.uuids, m.uuids, Itself),
       broadcastName :=
         if O.Named(m.broadcastName).Some? && O.Named(p.broadcastName).None? then m.broadcastName else p.broadcastName,
       absorbed := p.absorbed + [m.id])
  }

  ghost function AbsorbEach(p: Device, ms: seq<Device>): Device {
    if ms == [] then p else Absorb(AbsorbEach(p, ms[..|ms| - 1]), ms[|ms| - 1])
  }

  // ------------------------------------------------------------ one cluster

  function KindRank(kind: string): int {
    match kind
    case "public_mac" => 0
    case "random_static_mac" => 1
    case "irk_identity" => 1
    case "rs" => 1
    case "unresolved_rpa" => 2
    case "nrpa" => 3
    case "unknown" => 4
    case _ => 99
  }

  /** `x` is a strictly better owner of the box than `y`. */
  predicate Outranks(x: Device, y: Device) {
    var rx, ry := KindRank(x.kind), KindRank(y.kind);
    rx < ry || (rx == ry && (x.packets > y.packets || (x.packets == y.packets && x.lastSeen > y.lastSeen)))
  }

  /** The first device that no other outranks. */
  function Primary(ds: seq<Device>): Device
    requires ds != []
  {
    if |ds| == 1 then ds[0]
    else
      var best := Primary(ds[..|ds| - 1]);
      if Outranks(ds[|ds| - 1], best) then ds[|ds| - 1] else best
  }

  function Live(keys: set<int>, members: seq<(int, Option<real>)>): seq<(int, Option<real>)> {
    if members == [] then []
    else
      var last := members[|members| - 1];
      Live(keys, members[..|members| - 1]) + if last.0 in keys then [last] else []
  }

  function MinScore(members: seq<(int, Option<real>)>): Option<real> {
    if members == [] then None
    else
      var sofar, s := MinScore(members[..|members| - 1]), members[|members| - 1].1;
      if s.Some? && (sofar.None? || s.value < sofar.value) then s else sofar
  }

  predicate Collapses(live: seq<(int, Option<real>)>, threshold: real) {
    |live| >= 2 && MinScore(live).Some? && MinScore(live).value >= threshold
  }

  predicate AllIn(keys: set<int>, members: seq<(int, Option<real>)>) {
    forall i :: 0 <= i < |members| ==> members[i].0 in keys
  }

  ghost function Shown(devs: Devices, live: seq<(int, Option<real>)>): (ds: seq<Device>)
    requires AllIn(devs.Keys, live)
    ensures |ds| == |live| && forall i :: 0 <= i < |ds| ==> ds[i] == devs[live[i].0]
  {
    seq(|live|, i requires 0 <= i < |live| => devs[live[i].0])
  }

  function Others(ds: seq<Device>, id: int): seq<Device> {
    if ds == [] then []
    else Others(ds[..|ds| - 1], id) + if ds[|ds| - 1].id == id then [] else [ds[|ds| - 1]]
  }

  ghost predicate Among(ds: seq<Device>, id: int) {
    exists i :: 0 <= i < |ds| && ds[i].id == id
  }

  ghost predicate Names(members: seq<(int, Option<real>)>, x: int) {
    exists i :: 0 <= i < |members| && members[i].0 == x
  }

  ghost function Tagged(devs: Devices, live: seq<(int, Option<real>)>, c: int): Devices {
    map x | x in devs ::
      if Names(live, x) then devs[x].(clusterId := Some(c), minScore := MinScore(live)) else devs[x]
  }

  ghost function Merged(devs: Devices, p: Device, others: seq<Device>): Devices {
    map x | x in devs && !Among(others, x) :: if x == p.id then AbsorbEach(p, others) else devs[x]
  }

  ghost function CollapseOne(devs: Devices, c: Cluster, threshold: real): (r: Devices)
    ensures r.Keys <= devs.Keys
  {
    var live := Live(devs.Keys, c.members);
    LiveIsIn(devs.Keys, c.members);
    if live == [] then devs
    else if !Collapses(live, threshold) then Tagged(devs, live, c.id)
    else
      var ds := Shown(devs, live);
      var p := Primary(ds);
      Merged(devs, p.(clusterId := Some(c.id), minScore := MinScore(live)), Others(ds, p.id))
  }

  ghost function CollapseAll(devs: Devices, cs: seq<Cluster>, threshold: real): (r: Devices)
    ensures r.Keys <= devs.Keys
  {
    if cs == [] then devs else CollapseOne(CollapseAll(devs, cs[..|cs| - 1], threshold), cs[|cs| - 1], threshold)
  }

  // ------------------------------------------------------- lists and members

  lemma {:induction false} LiveIsIn(keys: set<int>, members: seq<(int, Option<real>)>)
    ensures AllIn(keys, Live(keys, members))
    ensures forall e :: e in Live(keys, members) <==> e in members && e.0 in keys
  {
    if members != [] { LiveIsIn(keys, members[..|members| - 1]); }
  }

  lemma {:induction false} LiveIsDistinct(keys: set<int>, c: Cluster)
    requires DistinctMembers(c)
    ensures DistinctMembers(Cluster(c.id, Live(keys, c.members)))
    decreases |c.members|
  {
    if c.members != [] {
      var pre := c.members[..|c.members| - 1];
      LiveIsDistinct(keys, Cluster(c.id, pre));
      LiveIsIn(keys, pre);
      forall i | 0 <= i < |Live(keys, pre)|
        ensures Live(keys, pre)[i].0 != c.members[|c.members| - 1].0
      {
        assert Live(keys, pre)[i] in pre;
      }
    }
  }

  lemma {:induction false} MinScoreIsLeast(members: seq<(int, Option<real>)>)
    ensures MinScore(members).None? <==> forall e :: e in members ==> e.1.None?
    ensures MinScore(members).Some? ==>
      (exists e :: e in members && e.1 == MinScore(members))
      && forall e :: e in members && e.1.Some? ==> MinScore(members).value <= e.1.value
  {
    if members != [] {
      var n := |members| - 1;
      MinScoreIsLeast(members[..n]);
      assert forall e :: e in members <==> e in members[..n] || e == members[n];
    }
  }

  /**
   A cluster collapses exactly when two or more members are shown, some have scores, and every score reaches the
   threshold.
   */
  lemma CollapsesExactly(live: seq<(int, Option<real>)>, threshold: real)
    ensures Collapses(live, threshold) <==>
      && |live| >= 2
      && (exists e :: e in live && e.1.Some?)
      && (forall e :: e in live && e.1.Some? ==> e.1.value >= threshold)
  {
    MinScoreIsLeast(live);
  }

  ghost predicate DistinctIds(ds: seq<Device>) {
    forall i, j :: 0 <= i < j < |ds| ==> ds[i].id != ds[j].id
  }

  lemma {:induction false} OthersAre(ds: seq<Device>, id: int)
    ensures forall d :: d in Others(ds, id) <==> d in ds && d.id != id
    ensures DistinctIds(ds) ==> DistinctIds(Others(ds, id))
  {
    if ds != [] {
      var pre := ds[..|ds| - 1];
      OthersAre(pre, id);
      if DistinctIds(ds) {
        forall i | 0 <= i < |Others(pre, id)|
          ensures Others(pre, id)[i].id != ds[|ds| - 1].id
        {
          assert Others(pre, id)[i] in pre;
        }
      }
    }
  }

  /** The owner of the box is a member that no member outranks. */
  lemma {:induction false} PrimaryIsBest(ds: seq<Device>)
    requires ds != []
    ensures Primary(ds) in ds
    ensures forall d :: d in ds ==> !Outranks(d, Primary(ds))
  {
    hide KindRank;
    if |ds| > 1 {
      PrimaryIsBest(ds[..|ds| - 1]);
      assert forall d :: d in ds <==> d in ds[..|ds| - 1] || d == ds[|ds| - 1];
    }
  }

  /** How stable an identity is: public, then random static or resolved, then unresolved, and so on. */
  lemma KindRankIs(kind: string)
    ensures KindRank(kind) ==
      if kind == "public_mac" then 0
      else if kind in {"random_static_mac", "irk_identity", "rs"} then 1
      else if kind == "unresolved_rpa" then 2
      else if kind == "nrpa" then 3
      else if kind == "unknown" then 4
      else 99
  {
  }

  /** `x` owns rather than `y`: a stabler identity, else more packets, else seen later. */
  ghost predicate OwnsOver(x: Device, y: Device) {
    if KindRank(x.kind) != KindRank(y.kind) then KindRank(x.kind) < KindRank(y.kind)
    else if x.packets != y.packets then x.packets > y.packets
    else x.lastSeen > y.lastSeen
  }

  /** No member owns over member `k`, and it owns over all before it. */
  ghost predicate FirstOwner(ds: seq<Device>, k: int) {
    && 0 <= k < |ds|
    && (forall i :: 0 <= i < |ds| ==> !OwnsOver(ds[i], ds[k]))
    && (forall i :: 0 <= i < k ==> OwnsOver(ds[k], ds[i]))
  }

  lemma OwnsOverAll(x: Device, y: Device, z: Device)
    ensures OwnsOver(x, y) && !OwnsOver(z, y) ==> OwnsOver(x, z)
    ensures OwnsOver(x, y) ==> !OwnsOver(y, x)
    ensures OwnsOver(x, y) <==> Outranks(x, y)
  {
    hide KindRank;
  }

  lemma FirstOwnerSnoc(pre: seq<Device>, d: Device, k: int)
    requires FirstOwner(pre, k)
    ensures FirstOwner(pre + [d], if OwnsOver(d, pre[k]) then |pre| else k)
  {
    hide OwnsOver;
    var ds := pre + [d];
    assert forall i :: 0 <= i < |pre| ==> ds[i] == pre[i];
    OwnsOverAll(d, d, d);
    forall i | 0 <= i < |pre|
      ensures OwnsOver(d, pre[k]) ==> OwnsOver(d, pre[i]) && !OwnsOver(pre[i], d)
    {
      OwnsOverAll(d, pre[k], pre[i]);
      OwnsOverAll(d, pre[i], pre[i]);
    }
  }

  /** The owner of the box is a member that no other owns over, and the first of them. */
  lemma {:induction false} OwnerExactly(ds: seq<Device>) returns (k: int)
    requires ds != []
    ensures FirstOwner(ds, k) && ds[k] == Primary(ds)
  {
    hide Outranks, OwnsOver;
    if |ds| == 1 {
      OwnsOverAll(ds[0], ds[0], ds[0]);
      k := 0;
    } else {
      var pre, n := ds[..|ds| - 1], |ds| - 1;
      k := OwnerExactly(pre);
      assert pre + [ds[n]] == ds;
      FirstOwnerSnoc(pre, ds[n], k);
      OwnsOverAll(ds[n], pre[k], pre[k]);
      if OwnsOver(ds[n], pre[k]) { k := n; }
    }
  }

  // ------------------------------------------------------------ conservation

  datatype Measure = Packets | Adverts | DataPackets | BadPackets | OnChannel(channel: int) | OnPdu(pdu: string)

  function Amount(d: Device, m: Measure): nat {
    match m
    case Packets => d.packets
    case Adverts => d.adv
    case DataPackets => d.data
    case BadPackets => d.bad
    case OnChannel(c) => O.Get(d.channels, c)
    case OnPdu(p) => O.Get(d.pdus, p)
  }

  ghost function Amounts(devs: Devices, m: Measure): int -> int {
    x => if x in devs then Amount(devs[x], m) else 0
  }

  /** Summed over everything the canvas shows. */
  ghost function Total(devs: Devices, m: Measure): int {
    Sum(devs.Keys, Amounts(devs, m))
  }

  ghost function ListTotal(ds: seq<Device>, m: Measure): int {
    if ds == [] then 0 else ListTotal(ds[..|ds| - 1], m) + Amount(ds[|ds| - 1], m)
  }

  lemma {:induction false} AbsorbEachAdds(p: Device, ms: seq<Device>, m: Measure)
    ensures Amount(AbsorbEach(p, ms), m) == Amount(p, m) + ListTotal(ms, m)
  {
    hide Blend, Join, O.Lower, O.Higher;
    if ms != [] { AbsorbEachAdds(p, ms[..|ms| - 1], m); }
  }

  ghost function IdsOf(ds: seq<Device>): set<int> {
    set i | 0 <= i < |ds| :: ds[i].id
  }

  /** Taking out a list of devices takes their amounts out of the sum. */
  lemma {:induction false} SumTakeOut(keys: set<int>, f: int -> int, ds: seq<Device>, m: Measure)
    requires DistinctIds(ds)
    requires forall i :: 0 <= i < |ds| ==> ds[i].id in keys && f(ds[i].id) == Amount(ds[i], m)
    ensures Sum(keys, f) == Sum(keys - IdsOf(ds), f) + ListTotal(ds, m)
  {
    hide Amount;
    if ds == [] {
      assert keys - IdsOf(ds) == keys;
    } else {
      var pre, last := ds[..|ds| - 1], ds[|ds| - 1];
      SumTakeOut(keys, f, pre, m);
      assert last.id in keys - IdsOf(pre);
      SumRemove(keys - IdsOf(pre), f, last.id);
      assert IdsOf(ds) == IdsOf(pre) + {last.id};
      assert keys - IdsOf(ds) == keys - IdsOf(pre) - {last.id};
    }
  }

  /** One box absorbing others leaves every total as it was. */
  lemma MergedConserves(devs: Devices, p: Device, others: seq<Device>, m: Measure)
    requires p.id in devs && Amount(p, m) == Amount(devs[p.id], m)
    requires DistinctIds(others) && !Among(others, p.id)
    requires forall i :: 0 <= i < |others| ==> others[i].id in devs && devs[others[i].id] == others[i]
    ensures Total(Merged(devs, p, others), m) == Total(devs, m)
  {
    hide Amount, AbsorbEach;
    var f := Amounts(devs, m);
    var after := Merged(devs, p, others);
    SumTakeOut(devs.Keys, f, others, m);
    assert after.Keys == devs.Keys - IdsOf(others) by {
      forall x
        ensures x in IdsOf(others) <==> Among(others, x)
      {
      }
    }
    AbsorbEachAdds(p, others, m);
    SumChange(after.Keys, f, Amounts(after, m), p.id);
  }

  /** The facts about one collapsing cluster that every property below needs. */
  lemma CollapsingCluster(devs: Devices, c: Cluster)
    returns (live: seq<(int, Option<real>)>, ds: seq<Device>)
    requires OwnIds(devs) && DistinctMembers(c)
    ensures live == Live(devs.Keys, c.members) && AllIn(devs.Keys, live) && ds == Shown(devs, live)
    ensures DistinctIds(ds)
    ensures forall i :: 0 <= i < |ds| ==> ds[i].id in devs && devs[ds[i].id] == ds[i]
    ensures ds != [] ==>
      var p := Primary(ds);
      && p.id in devs && devs[p.id] == p
      && DistinctIds(Others(ds, p.id)) && !Among(Others(ds, p.id), p.id)
      && forall i :: 0 <= i < |Others(ds, p.id)| ==>
           Others(ds, p.id)[i].id in devs && devs[Others(ds, p.id)[i].id] == Others(ds, p.id)[i]
  {
    live := Live(devs.Keys, c.members);
    LiveIsIn(devs.Keys, c.members);
    LiveIsDistinct(devs.Keys, c);
    ds := Shown(devs, live);
    assert forall d :: d in ds ==> d.id in devs && devs[d.id] == d;
    if ds != [] {
      PrimaryIsBest(ds);
      OthersAre(ds, Primary(ds).id);
      var os := Others(ds, Primary(ds).id);
      assert forall i :: 0 <= i < |os| ==> os[i] in os;
    }
  }

  lemma CollapseOneConserves(devs: Devices, c: Cluster, threshold: real, m: Measure)
    requires OwnIds(devs) && DistinctMembers(c)
    ensures Total(CollapseOne(devs, c, threshold), m) == Total(devs, m)
  {
    hide Primary, Others, Live, MinScore, AbsorbEach;
    var live, ds := CollapsingCluster(devs, c);
    if live != [] {
      if !Collapses(live, threshold) {
        assert Tagged(devs, live, c.id).Keys == devs.Keys;
        SumAgree(devs.Keys, Amounts(devs, m), Amounts(Tagged(devs, live, c.id), m));
      } else {
        var p := Primary(ds);
        MergedConserves(devs, p.(clusterId := Some(c.id), minScore := MinScore(live)), Others(ds, p.id), m);
      }
    }
  }

  lemma {:induction false} AbsorbEachKeepsId(p: Device, ms: seq<Device>)
    ensures AbsorbEach(p, ms).id == p.id
    ensures |AbsorbEach(p, ms).absorbed| == |p.absorbed| + |ms|
    ensures forall i :: 0 <= i < |p.absorbed| ==> AbsorbEach(p, ms).absorbed[i] == p.absorbed[i]
    ensures forall i :: 0 <= i < |ms| ==> AbsorbEach(p, ms).absorbed[|p.absorbed| + i] == ms[i].id
  {
    hide Blend, Join, Added, O.Lower, O.Higher;
    if ms != [] { AbsorbEachKeepsId(p, ms[..|ms| - 1]); }
  }

  lemma CollapseOneOwnIds(devs: Devices, c: Cluster, threshold: real)
    requires OwnIds(devs) && DistinctMembers(c)
    ensures OwnIds(CollapseOne(devs, c, threshold))
  {
    hide Primary, Others, Live, MinScore, AbsorbEach;
    var live, ds := CollapsingCluster(devs, c);
    if live != [] && Collapses(live, threshold) {
      var p := Primary(ds);
      AbsorbEachKeepsId(p.(clusterId := Some(c.id), minScore := MinScore(live)), Others(ds, p.id));
    }
  }

  lemma {:induction false} CollapseAllOwnIds(devs: Devices, cs: seq<Cluster>, threshold: real)
    requires OwnIds(devs) && forall c :: c in cs ==> DistinctMembers(c)
    ensures OwnIds(CollapseAll(devs, cs, threshold))
  {
    hide CollapseOne;
    if cs != [] {
      CollapseAllOwnIds(devs, cs[..|cs| - 1], threshold);
      CollapseOneOwnIds(CollapseAll(devs, cs[..|cs| - 1], threshold), cs[|cs| - 1], threshold);
    }
  }

  /**
   Whatever the clusters, collapsing them changes no total: packets, adverts, data, bad, nor any channel or PDU bucket.
   */
  lemma {:induction false} CollapseConserves(devs: Devices, cs: seq<Cluster>, threshold: real, m: Measure)
    requires OwnIds(devs) && forall c :: c in cs ==> DistinctMembers(c)
    ensures Total(CollapseAll(devs, cs, threshold), m) == Total(devs, m)
  {
    hide CollapseOne, Total;
    if cs != [] {
      var pre := cs[..|cs| - 1];
      CollapseConserves(devs, pre, threshold, m);
      CollapseAllOwnIds(devs, pre, threshold);
      CollapseOneConserves(CollapseAll(devs, pre, threshold), cs[|cs| - 1], threshold, m);
    }
  }

  // ------------------------------------------------------------------- lists

  lemma KeysSnoc<T, K(!new)>(s: seq<T>, key: T -> K, x: T)
    ensures forall k :: HasKey(s + [x], key, k) <==> HasKey(s, key, k) || k == key(x)
  {
    forall k
      ensures HasKey(s + [x], key, k) <==> HasKey(s, key, k) || k == key(x)
    {
      if HasKey(s, key, k) {
        var i :| 0 <= i < |s| && key(s[i]) == k;
        assert (s + [x])[i] == s[i];
      }
      assert (s + [x])[|s|] == x;
    }
  }

  ghost predicate NoKeyTwice<T, K(!new)>(s: seq<T>, key: T -> K) {
    forall i, j :: 0 <= i < j < |s| ==> key(s[i]) != key(s[j])
  }

  /** Joining keeps the first list in front, has the keys of both, repeats none, and makes up nothing. */
  lemma {:induction false} JoinIsUnion<T, K(!new)>(a: seq<T>, b: seq<T>, key: T -> K)
    ensures a <= Join(a, b, key)
    ensures forall k :: HasKey(Join(a, b, key), key, k) <==> HasKey(a, key, k) || HasKey(b, key, k)
    ensures NoKeyTwice(a, key) ==> NoKeyTwice(Join(a, b, key), key)
    ensures forall x :: x in Join(a, b, key) ==> x in a || x in b
  {
    if b == [] {
      assert forall k :: !HasKey(b, key, k);
    } else {
      var pre, last := b[..|b| - 1], b[|b| - 1];
      JoinIsUnion(a, pre, key);
      assert b == pre + [last];
      KeysSnoc(pre, key, last);
      var sofar := Join(a, pre, key);
      KeysSnoc(sofar, key, last);
      if !HasKey(sofar, key, key(last)) {
        assert forall i :: 0 <= i < |sofar| ==> key(sofar[i]) != key(last);
      }
    }
  }

  /** Some member has an entry with this key. */
  ghost predicate SomeAddress(ms: seq<Device>, address: string) {
    exists i :: 0 <= i < |ms| && HasKey(ms[i].addresses, AddressOf, address)
  }

  ghost predicate SomeUuid(ms: seq<Device>, uuid: int) {
    exists i :: 0 <= i < |ms| && HasKey(ms[i].uuids, Itself, uuid)
  }

  /** The first broadcast name in the list, if any. */
  function FirstName(ds: seq<Device>): Option<string> {
    if ds == [] then None
    else if FirstName(ds[..|ds| - 1]).Some? then FirstName(ds[..|ds| - 1])
    else O.Named(ds[|ds| - 1].broadcastName)
  }

  /**
   A box knows exactly the addresses and UUIDs of the primary and of everyone it absorbed, no address twice; it was
   last seen when any of them was, and bears the first name among them.
   */
  lemma {:induction false} AbsorbEachKnows(p: Device, ms: seq<Device>)
    ensures var r := AbsorbEach(p, ms);
      && (forall x :: HasKey(r.addresses, AddressOf, x) <==> HasKey(p.addresses, AddressOf, x) || SomeAddress(ms, x))
      && (forall u :: HasKey(r.uuids, Itself, u) <==> HasKey(p.uuids, Itself, u) || SomeUuid(ms, u))
      && (NoKeyTwice(p.addresses, AddressOf) ==> NoKeyTwice(r.addresses, AddressOf))
      && r.lastSeen >= p.lastSeen && (forall m :: m in ms ==> r.lastSeen >= m.lastSeen)
      && (r.lastSeen == p.lastSeen || exists m :: m in ms && r.lastSeen == m.lastSeen)
      && O.Named(r.broadcastName) == FirstName([p] + ms)
  {
    hide AbsorbEach, HasKey, NoKeyTwice, FirstName, SomeAddress, SomeUuid;
    KnowsAddresses(p, ms);
    KnowsUuids(p, ms);
    KnowsLatest(p, ms);
    KnowsName(p, ms);
  }

  lemma {:induction false} KnowsAddresses(p: Device, ms: seq<Device>)
    ensures var r := AbsorbEach(p, ms);
      && (forall x :: HasKey(r.addresses, AddressOf, x) <==> HasKey(p.addresses, AddressOf, x) || SomeAddress(ms, x))
      && (NoKeyTwice(p.addresses, AddressOf) ==> NoKeyTwice(r.addresses, AddressOf))
  {
    hide Blend, Added, Join, HasKey, NoKeyTwice, O.Lower, O.Higher, O.Named;
    if ms != [] {
      var pre, last := ms[..|ms| - 1], ms[|ms| - 1];
      KnowsAddresses(p, pre);
      JoinIsUnion(AbsorbEach(p, pre).addresses, last.addresses, AddressOf);
      forall x
        ensures SomeAddress(ms, x) <==> SomeAddress(pre, x) || HasKey(last.addresses, AddressOf, x)
      {
        if SomeAddress(pre, x) {
          var i :| 0 <= i < |pre| && HasKey(pre[i].addresses, AddressOf, x);
          assert ms[i] == pre[i];
        }
      }
    }
  }

  lemma {:induction false} KnowsUuids(p: Device, ms: seq<Device>)
    ensures forall u :: HasKey(AbsorbEach(p, ms).uuids, Itself, u) <==> HasKey(p.uuids, Itself, u) || SomeUuid(ms, u)
  {
    hide Blend, Added, Join, HasKey, NoKeyTwice, O.Lower, O.Higher, O.Named;
    if ms != [] {
      var pre, last := ms[..|ms| - 1], ms[|ms| - 1];
      KnowsUuids(p, pre);
      JoinIsUnion(AbsorbEach(p, pre).uuids, last.uuids, Itself);
      forall u
        ensures SomeUuid(ms, u) <==> SomeUuid(pre, u) || HasKey(last.uuids, Itself, u)
      {
        if SomeUuid(pre, u) {
          var i :| 0 <= i < |pre| && HasKey(pre[i].uuids, Itself, u);
          assert ms[i] == pre[i];
        }
      }
    }
  }

  lemma {:induction false} KnowsLatest(p: Device, ms: seq<Device>)
    ensures var r := AbsorbEach(p, ms);
      && r.lastSeen >= p.lastSeen && (forall m :: m in ms ==> r.lastSeen >= m.lastSeen)
      && (r.lastSeen == p.lastSeen || exists m :: m in ms && r.lastSeen == m.lastSeen)
  {
    hide Blend, Added, Join, O.Lower, O.Higher, O.Named;
    if ms != [] {
      var pre, last := ms[..|ms| - 1], ms[|ms| - 1];
      KnowsLatest(p, pre);
      assert forall m :: m in ms <==> m in pre || m == last;
    }
  }

  lemma {:induction false} KnowsName(p: Device, ms: seq<Device>)
    ensures O.Named(AbsorbEach(p, ms).broadcastName) == FirstName([p] + ms)
  {
    hide Blend, Added, Join, O.Lower, O.Higher;
    if ms == [] {
      assert [p] + ms == [p] && [p][..0] == [];
    } else {
      KnowsName(p, ms[..|ms| - 1]);
      assert ([p] + ms)[..|ms|] == [p] + ms[..|ms| - 1];
    }
  }
}
