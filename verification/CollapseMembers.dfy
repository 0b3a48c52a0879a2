/** Who is on the canvas after a collapse: with disjoint clusters every device is shown once or listed once. */
module CollapseMembers {
  import opened Wrappers
  import opened Collapse
  import S = ClusterStickiness
  import T = ClusterTable

  /** The box of `s` lists `x` as absorbed. */
  ghost predicate Lists(devs: Devices, s: int, x: int) {
    s in devs && x in devs[s].absorbed
  }

  ghost predicate Listed(devs: Devices, x: int) {
    exists s :: Lists(devs, s, x)
  }

  ghost predicate NoneTwice(ids: seq<int>) {
    forall i, j :: 0 <= i < j < |ids| ==> ids[i] != ids[j]
  }

  /** Every original device is either shown or listed, nothing else is, and no device is listed twice. */
  ghost predicate Accounted(devs: Devices, all: set<int>) {
    && devs.Keys <= all
    && (forall x :: Listed(devs, x) ==> x in all && x !in devs)
    && (forall x :: x in all ==> x in devs || Listed(devs, x))
    && (forall s :: s in devs ==> NoneTwice(devs[s].absorbed))
    && (forall s, t, x :: Lists(devs, s, x) && Lists(devs, t, x) ==> s == t)
  }

  ghost predicate HasMember(c: Cluster, x: int) {
    exists i :: 0 <= i < |c.members| && c.members[i].0 == x
  }

  /** A box about to absorb others. */
  ghost predicate Boxes(devs: Devices, p: Device, others: seq<Device>) {
    && p.id in devs && p.absorbed == devs[p.id].absorbed
    && DistinctIds(others) && !Among(others, p.id)
    && forall i :: 0 <= i < |others| ==> others[i].id in devs
  }

  lemma MergedBoxes(devs: Devices, p: Device, others: seq<Device>, all: set<int>)
    requires Accounted(devs, all) && Boxes(devs, p, others)
    ensures var after := Merged(devs, p, others);
      && NoneTwice(after[p.id].absorbed)
      && (forall s :: s in after <==> s in devs && !Among(others, s))
      && (forall s :: s in after && s != p.id ==> after[s] == devs[s])
      && (forall s, x :: Lists(after, s, x) <==> s in after && (Lists(devs, s, x) || (s == p.id && Among(others, x))))
  {
    hide AbsorbEach;
    AbsorbEachKeepsId(p, others);
    var after := Merged(devs, p, others);
    var box := after[p.id].absorbed;
    var n := |p.absorbed|;
    assert |box| == n + |others| && (forall i :: 0 <= i < n ==> box[i] == p.absorbed[i])
      && (forall i :: 0 <= i < |others| ==> box[n + i] == others[i].id);
    BoxLists(p.absorbed, others, box);
    assert forall i :: 0 <= i < n ==> Lists(devs, p.id, p.absorbed[i]);
  }

  lemma BoxLists(own: seq<int>, others: seq<Device>, box: seq<int>)
    requires |box| == |own| + |others| && (forall i :: 0 <= i < |own| ==> box[i] == own[i])
    requires forall i :: 0 <= i < |others| ==> box[|own| + i] == others[i].id
    ensures forall x :: x in box <==> x in own || Among(others, x)
    ensures NoneTwice(own) && DistinctIds(others) && (forall i :: 0 <= i < |own| ==> !Among(others, own[i]))
      ==> NoneTwice(box)
  {
    assert forall i :: |own| <= i < |box| ==> box[i] == others[i - |own|].id;
    forall x | x in own || Among(others, x)
      ensures x in box
    {
      if x in own {
        var i :| 0 <= i < |own| && own[i] == x;
        assert box[i] == x;
      } else {
        var i :| 0 <= i < |others| && others[i].id == x;
        assert box[|own| + i] == x;
      }
    }
  }

  /** None of the boxes that are absorbed has itself absorbed anything. */
  ghost predicate NothingNested(devs: Devices, others: seq<Device>) {
    forall s, x :: Among(others, s) ==> !Lists(devs, s, x)
  }

  lemma MergedListed(devs: Devices, p: Device, others: seq<Device>, all: set<int>, x: int)
    requires Accounted(devs, all) && Boxes(devs, p, others) && NothingNested(devs, others)
    ensures Listed(Merged(devs, p, others), x) <==> Listed(devs, x) || Among(others, x)
  {
    MergedBoxes(devs, p, others, all);
    hide Merged, Lists, Among, NoneTwice, DistinctIds;
    var after := Merged(devs, p, others);
    if Listed(devs, x) {
      var s :| Lists(devs, s, x);
      InBox(devs, s, x);
      assert Lists(after, s, x);
    }
    if Among(others, x) { assert Lists(after, p.id, x); }
  }

  lemma InBox(devs: Devices, s: int, x: int)
    requires Lists(devs, s, x)
    ensures s in devs && Listed(devs, x)
  {
  }

  lemma MergedAccounts(devs: Devices, p: Device, others: seq<Device>, all: set<int>)
    requires Accounted(devs, all) && Boxes(devs, p, others) && NothingNested(devs, others)
    ensures Accounted(Merged(devs, p, others), all)
  {
    MergedBoxes(devs, p, others, all);
    forall x
      ensures Listed(Merged(devs, p, others), x) <==> Listed(devs, x) || Among(others, x)
    {
      MergedListed(devs, p, others, all, x);
    }
    assert forall x :: Among(others, x) ==> x in devs;
    forall s, x | Lists(devs, s, x)
      ensures Listed(devs, x)
    {
      InBox(devs, s, x);
    }
    hide Merged, Lists, Among, Listed, NoneTwice, DistinctIds;
  }

  /** A box absorbed together with its own list takes that list off the canvas. */
  lemma NestedIsLost(devs: Devices, p: Device, others: seq<Device>, all: set<int>, s: int, x: int)
    requires Accounted(devs, all) && Boxes(devs, p, others) && Among(others, s) && Lists(devs, s, x)
    ensures x in all && x !in Merged(devs, p, others) && !Listed(Merged(devs, p, others), x)
  {
    MergedBoxes(devs, p, others, all);
    assert Listed(devs, x);
    var after := Merged(devs, p, others);
    assert forall t :: Lists(after, t, x) ==> Lists(devs, t, x) && t == s;
  }

  /** What the collapse of this cluster would absorb. */
  ghost function Absorbing(devs: Devices, c: Cluster, threshold: real): seq<Device> {
    var live := Live(devs.Keys, c.members);
    LiveIsIn(devs.Keys, c.members);
    if live == [] || !Collapses(live, threshold) then []
    else Others(Shown(devs, live), Primary(Shown(devs, live)).id)
  }

  lemma AbsorbingMembers(devs: Devices, c: Cluster, threshold: real, x: int)
    requires OwnIds(devs) && DistinctMembers(c) && Among(Absorbing(devs, c, threshold), x)
    ensures HasMember(c, x) && x in devs
  {
    hide Primary, Live, Others, DistinctMembers, DistinctIds, MinScore;
    var live, ds := CollapsingCluster(devs, c);
    LiveIsIn(devs.Keys, c.members);
    OthersAre(ds, Primary(ds).id);
    var os := Others(ds, Primary(ds).id);
    var i :| 0 <= i < |os| && os[i].id == x;
    assert os[i] in ds;
    var k :| 0 <= k < |ds| && ds[k] == os[i];
    assert live[k] in live && live[k].0 == x;
    var j :| 0 <= j < |c.members| && c.members[j] == live[k];
  }

  /**
   Collapsing one cluster keeps every device accounted for exactly when no box it absorbs has absorbed others before.
   */
  lemma CollapseOneAccountsExactly(devs: Devices, c: Cluster, threshold: real, all: set<int>)
    requires OwnIds(devs) && DistinctMembers(c) && Accounted(devs, all)
    ensures Accounted(CollapseOne(devs, c, threshold), all) <==> NothingNested(devs, Absorbing(devs, c, threshold))
  {
    hide Primary, Others, MinScore, Merged, Accounted, Among, AbsorbEach, Tagged, Lists;
    var live, ds := CollapsingCluster(devs, c);
    var os := Absorbing(devs, c, threshold);
    if live == [] || !Collapses(live, threshold) {
      NoneAmong();
      TaggedAccounts(devs, live, c.id, all);
    } else {
      var p := Primary(ds);
      var box := p.(clusterId := Some(c.id), minScore := MinScore(live));
      if NothingNested(devs, os) {
        MergedAccounts(devs, box, os, all);
      } else {
        var s, x :| Among(os, s) && Lists(devs, s, x);
        NestedIsLost(devs, box, os, all, s, x);
        NotAccounted(Merged(devs, box, os), all, x);
      }
    }
  }

  lemma NoneAmong()
    ensures forall x :: !Among([], x)
  {
  }

  lemma NotAccounted(devs: Devices, all: set<int>, x: int)
    requires x in all && x !in devs && !Listed(devs, x)
    ensures !Accounted(devs, all)
  {
  }

  /** Devices outside the cluster keep their boxes. */
  lemma OutsidersUnchanged(devs: Devices, c: Cluster, threshold: real, x: int)
    requires OwnIds(devs) && DistinctMembers(c) && !HasMember(c, x) && x in CollapseOne(devs, c, threshold)
    ensures x in devs && CollapseOne(devs, c, threshold)[x] == devs[x]
  {
    hide Primary, Others, MinScore, AbsorbEach;
    var live, ds := CollapsingCluster(devs, c);
    LiveIsIn(devs.Keys, c.members);
    forall i | 0 <= i < |live|
      ensures live[i].0 != x
    {
      assert live[i] in live;
      var j :| 0 <= j < |c.members| && c.members[j] == live[i];
    }
    if live != [] {
      PrimaryIsBest(ds);
      var k :| 0 <= k < |ds| && ds[k] == Primary(ds);
      assert live[k].0 != x;
    }
  }

  lemma TaggedAccounts(devs: Devices, live: seq<(int, Option<real>)>, c: int, all: set<int>)
    requires Accounted(devs, all)
    ensures Accounted(Tagged(devs, live, c), all)
  {
    var after := Tagged(devs, live, c);
    assert after.Keys == devs.Keys && forall s :: s in devs ==> after[s].absorbed == devs[s].absorbed;
    assert forall s, x :: Lists(after, s, x) <==> Lists(devs, s, x);
    assert forall x :: Listed(after, x) <==> Listed(devs, x);
  }

  /** No device belongs to two of the clusters. */
  ghost predicate Disjoint(cs: seq<Cluster>) {
    forall i, j, x :: 0 <= i < j < |cs| && HasMember(cs[i], x) ==> !HasMember(cs[j], x)
  }

  /**
   With disjoint clusters, collapsing them leaves every device shown or listed under exactly one shown device;
   and only members of some cluster change.
   */
  lemma {:induction false} CollapseAccounts(devs: Devices, cs: seq<Cluster>, threshold: real)
    requires OwnIds(devs) && (forall c :: c in cs ==> DistinctMembers(c)) && Disjoint(cs)
    requires forall x :: x in devs ==> devs[x].absorbed == []
    ensures Accounted(CollapseAll(devs, cs, threshold), devs.Keys)
    ensures forall x ::
      x in CollapseAll(devs, cs, threshold) && (forall i :: 0 <= i < |cs| ==> !HasMember(cs[i], x)) ==>
      CollapseAll(devs, cs, threshold)[x] == devs[x]
  {
    hide CollapseOne;
    if cs == [] {
      assert forall x :: !Listed(devs, x);
    } else {
      var n := |cs| - 1;
      var pre := cs[..n];
      assert Disjoint(pre);
      CollapseAccounts(devs, pre, threshold);
      var before := CollapseAll(devs, pre, threshold);
      CollapseAllOwnIds(devs, pre, threshold);
      forall x, y | Among(Absorbing(before, cs[n], threshold), x)
        ensures !Lists(before, x, y)
      {
        AbsorbingMembers(before, cs[n], threshold, x);
        assert forall i :: 0 <= i < |pre| ==> !HasMember(pre[i], x);
      }
      CollapseOneAccountsExactly(before, cs[n], threshold, devs.Keys);
      forall x | x in CollapseAll(devs, cs, threshold) && forall i :: 0 <= i < |cs| ==> !HasMember(cs[i], x)
        ensures CollapseAll(devs, cs, threshold)[x] == devs[x]
      {
        OutsidersUnchanged(before, cs[n], threshold, x);
        assert forall i :: 0 <= i < |pre| ==> pre[i] == cs[i];
      }
    }
  }

  // -------------------------------------------------------- overlapping clusters

  /** Neither shown nor listed. */
  ghost predicate Gone(devs: Devices, x: int) {
    x !in devs && !Listed(devs, x)
  }

  lemma GoneStays(devs: Devices, c: Cluster, threshold: real, x: int)
    requires OwnIds(devs) && DistinctMembers(c) && Gone(devs, x)
    ensures Gone(CollapseOne(devs, c, threshold), x)
  {
    hide Primary, Others, MinScore, AbsorbEach;
    var after := CollapseOne(devs, c, threshold);
    var live, ds := CollapsingCluster(devs, c);
    forall s, y | Lists(after, s, y)
      ensures Listed(devs, y) || y in devs
    {
      if live == [] || !Collapses(live, threshold) {
        assert Lists(devs, s, y);
      } else {
        var p := Primary(ds);
        var box := p.(clusterId := Some(c.id), minScore := MinScore(live));
        BoxListsOnly(devs, box, Others(ds, p.id), s, y);
      }
    }
  }

  lemma BoxListsOnly(devs: Devices, p: Device, others: seq<Device>, s: int, x: int)
    requires Boxes(devs, p, others) && Lists(Merged(devs, p, others), s, x)
    ensures Lists(devs, s, x) || x in devs
  {
    hide AbsorbEach;
    AbsorbEachKeepsId(p, others);
    if s == p.id {
      var box := AbsorbEach(p, others).absorbed;
      var i :| 0 <= i < |box| && box[i] == x;
      if i >= |p.absorbed| { assert x == others[i - |p.absorbed|].id; }
    }
  }

  /** When its turn comes, cluster `k` absorbs no box that has absorbed others. */
  ghost predicate TurnIsClear(devs: Devices, cs: seq<Cluster>, threshold: real, k: nat)
    requires k < |cs|
  {
    var before := CollapseAll(devs, cs[..k], threshold);
    NothingNested(before, Absorbing(before, cs[k], threshold))
  }

  lemma TurnLoses(devs: Devices, c: Cluster, threshold: real, all: set<int>) returns (x: int)
    requires OwnIds(devs) && DistinctMembers(c) && Accounted(devs, all)
    requires !NothingNested(devs, Absorbing(devs, c, threshold))
    ensures x in all && Gone(CollapseOne(devs, c, threshold), x)
  {
    hide Primary, Others, MinScore, Merged, Accounted, Among, AbsorbEach, Tagged, Lists;
    var live, ds := CollapsingCluster(devs, c);
    var os := Absorbing(devs, c, threshold);
    var s, y :| Among(os, s) && Lists(devs, s, y);
    NoneAmong();
    var box := Primary(ds).(clusterId := Some(c.id), minScore := MinScore(live));
    NestedIsLost(devs, box, os, all, s, y);
    x := y;
  }

  /** Either every turn was clear and all devices are accounted for, or one of them is gone. */
  lemma {:induction false} ClearOrGone(devs: Devices, cs: seq<Cluster>, threshold: real, all: set<int>)
    requires OwnIds(devs) && (forall c :: c in cs ==> DistinctMembers(c)) && Accounted(devs, all)
    ensures var after := CollapseAll(devs, cs, threshold);
      if forall k :: 0 <= k < |cs| ==> TurnIsClear(devs, cs, threshold, k) then Accounted(after, all)
      else exists x :: x in all && Gone(after, x)
    decreases |cs|
  {
    hide CollapseOne, Accounted, Gone, NothingNested, Absorbing;
    if cs != [] {
      var n := |cs| - 1;
      var pre := cs[..n];
      var before := CollapseAll(devs, pre, threshold);
      ClearOrGone(devs, pre, threshold, all);
      CollapseAllOwnIds(devs, pre, threshold);
      forall k | 0 <= k < n
        ensures TurnIsClear(devs, cs, threshold, k) <==> TurnIsClear(devs, pre, threshold, k)
      {
        assert pre[..k] == cs[..k];
      }
      if forall k :: 0 <= k < n ==> TurnIsClear(devs, pre, threshold, k) {
        CollapseOneAccountsExactly(before, cs[n], threshold, all);
        if !TurnIsClear(devs, cs, threshold, n) {
          var x := TurnLoses(before, cs[n], threshold, all);
        }
      } else {
        var x :| x in all && Gone(before, x);
        GoneStays(before, cs[n], threshold, x);
      }
    }
  }

  /**
   Over any clusters, overlapping or not, every device stays accounted for exactly when no cluster, as its turn comes,
   absorbs a box that has absorbed others.
   */
  lemma CollapseAccountsExactly(devs: Devices, cs: seq<Cluster>, threshold: real, all: set<int>)
    requires OwnIds(devs) && (forall c :: c in cs ==> DistinctMembers(c)) && Accounted(devs, all)
    ensures Accounted(CollapseAll(devs, cs, threshold), all) <==>
      forall k :: 0 <= k < |cs| ==> TurnIsClear(devs, cs, threshold, k)
  {
    hide CollapseAll, TurnIsClear;
    ClearOrGone(devs, cs, threshold, all);
    if x :| x in all && Gone(CollapseAll(devs, cs, threshold), x) {
      NotAccounted(CollapseAll(devs, cs, threshold), all, x);
    }
  }

  /** The clusters as grouped from the member rows: one per cluster id, each member row under its own id. */
  ghost predicate GroupedFrom(t: T.Tables, cs: seq<Cluster>) {
    && (forall i, j :: 0 <= i < j < |cs| ==> cs[i].id != cs[j].id)
    && (forall i, x :: 0 <= i < |cs| && HasMember(cs[i], x) ==> (cs[i].id, x) in t.members)
    && (forall c :: c in cs ==> DistinctMembers(c))
  }

  /**
   Whatever clustering runs came before, the canvas accounts for every device after collapsing the stored clusters.
   */
  lemma CanvasAccountsAfterRuns(t: T.Tables, runs: seq<S.Run>, devs: Devices, cs: seq<Cluster>, threshold: real)
    requires T.Good(t) && GroupedFrom(S.RunAll(t, runs), cs)
    requires OwnIds(devs) && forall x :: x in devs ==> devs[x].absorbed == []
    ensures Accounted(CollapseAll(devs, cs, threshold), devs.Keys)
  {
    assert Disjoint(cs);
    CollapseAccounts(devs, cs, threshold);
  }

  /** A bare device with these packets and this list. */
  function Bare(id: int, packets: nat, absorbed: seq<int>): Device {
    Device(id, "rs", packets, 0, 0, 0, None, None, None, 0.0, map[], map[], [], [], None, None, None, absorbed)
  }

  /** The box of 1 lists 2; when the box of 3 absorbs it, device 2 is on the canvas no more. */
  lemma NestedBoxVanishes()
    ensures var devs := map[1 := Bare(1, 10, [2]), 3 := Bare(3, 20, [])];
      var c := Cluster(7, [(1, Some(1.0)), (3, Some(1.0))]);
      && OwnIds(devs) && DistinctMembers(c) && Accounted(devs, {1, 2, 3})
      && !Accounted(CollapseOne(devs, c, 0.5), {1, 2, 3})
  {
    var one, three := Bare(1, 10, [2]), Bare(3, 20, []);
    var devs := map[1 := one, 3 := three];
    var c := Cluster(7, [(1, Some(1.0)), (3, Some(1.0))]);
    ThreeAccounted(devs, one, three);
    BothAbsorbed(devs, c, one, three);
    assert [one][0].id == 1 && Among([one], 1) && Lists(devs, 1, 2);
    hide CollapseOne, Accounted, Absorbing, Lists, Among;
    CollapseOneAccountsExactly(devs, c, 0.5, {1, 2, 3});
  }

  lemma ThreeAccounted(devs: Devices, one: Device, three: Device)
    requires devs == map[1 := one, 3 := three] && one.absorbed == [2] && three.absorbed == []
    ensures Accounted(devs, {1, 2, 3})
  {
    assert forall s, x :: Lists(devs, s, x) <==> s == 1 && x == 2;
    assert Lists(devs, 1, 2);
  }

  lemma BothAbsorbed(devs: Devices, c: Cluster, one: Device, three: Device)
    requires devs == map[1 := one, 3 := three] && one.id == 1 && three.id == 3 && Outranks(three, one)
    requires c.members == [(1, Some(1.0)), (3, Some(1.0))]
    ensures Absorbing(devs, c, 0.5) == [one]
  {
    hide Outranks, Live, Primary, Others, MinScore, Collapses;
    var ms := c.members;
    LiveOfTwo(devs.Keys, ms);
    CollapsesExactly(ms, 0.5);
    assert ms[0] in ms;
    LiveIsIn(devs.Keys, ms);
    assert Shown(devs, ms) == [one, three];
    OneOfTwo(one, three);
  }

  lemma LiveOfTwo(keys: set<int>, ms: seq<(int, Option<real>)>)
    requires |ms| == 2 && ms[0].0 in keys && ms[1].0 in keys
    ensures Live(keys, ms) == ms
  {
    assert ms[..1] == [ms[0]] && [ms[0]][..0] == [] && ms == [ms[0]] + [ms[1]];
    assert Live(keys, [ms[0]]) == [ms[0]];
  }

  lemma OneOfTwo(a: Device, b: Device)
    requires Outranks(b, a) && a.id != b.id
    ensures Primary([a, b]) == b && Others([a, b], b.id) == [a]
  {
    hide Outranks;
    assert [a, b][..1] == [a] && [a][..0] == [];
    assert Primary([a]) == a && Others([a], b.id) == [a];
  }
}
