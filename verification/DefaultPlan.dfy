/** The roles a capture starts with: who pins which channel, and which dongles are kept free for transmitting. */
module DefaultPlan {
  import opened Wrappers
  import opened Coordinator
  import opened CaptureCoordinator

  /** Some entry reports this id as able to transmit. */
  ghost predicate Transmits(ds: seq<Dongle>, id: string) {
    exists d :: d in ds && d.shortId == id && d.txCapable
  }

  /** The ids at `i` and `j` of one list stand in this order in another. */
  ghost predicate InOrder(ids: seq<string>, a: string, b: string) {
    exists k, l :: 0 <= k < l < |ids| && ids[k] == a && ids[l] == b
  }

  lemma {:induction false} SelectKeepsOrder(ids: seq<string>, tx: set<string>, able: bool, i: nat, j: nat)
    requires i < j < |Select(ids, tx, able)|
    ensures InOrder(ids, Select(ids, tx, able)[i], Select(ids, tx, able)[j])
    decreases |ids|
  {
    var rest := Select(ids[1..], tx, able);
    if (ids[0] in tx) != able {
      SelectKeepsOrder(ids[1..], tx, able, i, j);
      InOrderLater(ids, rest[i], rest[j]);
    } else if i > 0 {
      SelectKeepsOrder(ids[1..], tx, able, i - 1, j - 1);
      InOrderLater(ids, rest[i - 1], rest[j - 1]);
    } else {
      SelectIs(ids[1..], tx, able);
      assert rest[j - 1] in rest;
      var l :| 0 <= l < |ids[1..]| && ids[1..][l] == rest[j - 1];
      assert ids[l + 1] == rest[j - 1];
    }
  }

  lemma InOrderLater(ids: seq<string>, a: string, b: string)
    requires ids != [] && InOrder(ids[1..], a, b)
    ensures InOrder(ids, a, b)
  {
    var k, l :| 0 <= k < l < |ids[1..]| && ids[1..][k] == a && ids[1..][l] == b;
    assert ids[k + 1] == a && ids[l + 1] == b;
  }

  lemma {:induction false} SelectIs(ids: seq<string>, tx: set<string>, able: bool)
    ensures forall id :: id in Select(ids, tx, able) <==> id in ids && (id in tx) == able
  {
    if ids != [] {
      SelectIs(ids[1..], tx, able);
      assert forall id :: id in ids <==> id == ids[0] || id in ids[1..];
    }
  }

  /** Pinning order: the dongles that only receive first, and within each kind as they were discovered. */
  lemma RxFirstOrder(ds: seq<Dongle>, i: nat, j: nat)
    requires i < j < |RxFirst(ds)|
    ensures var rx := RxFirst(ds);
      && (Transmits(ds, rx[i]) ==> Transmits(ds, rx[j]))
      && (Transmits(ds, rx[i]) == Transmits(ds, rx[j]) ==> InOrder(ShortIds(ds), rx[i], rx[j]))
  {
    var ids, tx := ShortIds(ds), TxIds(ds);
    SelectIs(ids, tx, false);
    SelectIs(ids, tx, true);
    var a, b := Select(ids, tx, false), Select(ids, tx, true);
    assert forall id :: id in tx <==> Transmits(ds, id);
    if j < |a| {
      SelectKeepsOrder(ids, tx, false, i, j);
    } else {
      assert RxFirst(ds)[j] == b[j - |a|];
      if i >= |a| {
        SelectKeepsOrder(ids, tx, true, i - |a|, j - |a|);
      } else {
        assert a[i] in a && b[j - |a|] in b;
      }
    }
  }

  /** One dongle scans all; of two the first pins 37 and the second scans; three pin 37, 38 and 39 in order. */
  lemma PlanOfFew(ds: seq<Dongle>)
    requires 0 < |ds| <= 3 && Distinct(ShortIds(ds))
    ensures |RxFirst(ds)| == |ds|
    ensures var ids, plan := ShortIds(ds), DefaultRoles(ds);
      && (|ds| == 1 ==> plan == map[ids[0] := ScanUnmonitored])
      && (|ds| == 2 ==> plan == map[ids[0] := Pinned([37]), ids[1] := ScanUnmonitored])
      && (|ds| == 3 ==> plan == map[ids[0] := Pinned([37]), ids[1] := Pinned([38]), ids[2] := Pinned([39])])
  {
    hide RxFirst;
    SelectSplits(ds);
  }

  /** Of four dongles or more, the first three in pinning order pin 37, 38 and 39, and all others are idle. */
  lemma PlanOfMore(ds: seq<Dongle>, k: nat)
    requires |ds| > 3 && Distinct(ShortIds(ds)) && k < |ds|
    ensures |RxFirst(ds)| == |ds|
    ensures var rx, plan := RxFirst(ds), DefaultRoles(ds);
      && rx[k] in plan && plan[rx[k]] == (if k < 3 then Pinned([37 + k]) else Idle)
      && (forall id :: id in plan <==> id in rx)
  {
    hide RxFirst, DefaultRoles;
    SelectSplits(ds);
    var rx := RxFirst(ds);
    DistinctByMultiset(ShortIds(ds), rx);
    PlanOfMany(ds);
    assert rx[k] in rx;
    if k >= 3 {
      assert rx[3..][k - 3] == rx[k];
    } else {
      assert forall q :: 0 <= q < |rx[3..]| ==> rx[3..][q] == rx[q + 3];
      ThreePinned(rx, k);
    }
  }

  lemma ThreePinned(ids: seq<string>, k: nat)
    requires |ids| >= 3 && k < 3 && Distinct(ids)
    ensures ids[k] in PinThree(ids) && PinThree(ids)[ids[k]] == Pinned([37 + k])
  {
  }

  /** A dongle that can transmit is pinned only when fewer than three that cannot are there. */
  lemma TransmittersStayFree(ds: seq<Dongle>, i: nat, j: nat, k: nat, id: string)
    requires |ds| > 3 && Distinct(ShortIds(ds)) && id in ShortIds(ds) && Transmits(ds, id)
    requires i < j < k < |ds| && !ds[i].txCapable && !ds[j].txCapable && !ds[k].txCapable
    ensures |RxFirst(ds)| == |ds| && id in DefaultRoles(ds) && DefaultRoles(ds)[id] == Idle
  {
    hide RxFirst, DefaultRoles, Transmits;
    SelectSplits(ds);
    var ids, rx := ShortIds(ds), RxFirst(ds);
    assert id in multiset(ids) && id in multiset(rx);
    var n :| 0 <= n < |rx| && rx[n] == id;
    PlanOfMore(ds, n);
    var p := ReceiverComesFirst(ds, i, n);
    var q := ReceiverComesFirst(ds, j, n);
    var r := ReceiverComesFirst(ds, k, n);
    assert ids[i] != ids[j] && ids[i] != ids[k] && ids[j] != ids[k];
  }

  lemma ReceiverComesFirst(ds: seq<Dongle>, m: nat, n: nat) returns (q: nat)
    requires Distinct(ShortIds(ds)) && m < |ds| && !ds[m].txCapable
    requires n < |RxFirst(ds)| && Transmits(ds, RxFirst(ds)[n])
    ensures q < n && RxFirst(ds)[q] == ShortIds(ds)[m]
  {
    hide RxFirst;
    SelectSplits(ds);
    var ids, rx := ShortIds(ds), RxFirst(ds);
    assert ids[m] in multiset(ids) && ids[m] in multiset(rx);
    q :| 0 <= q < |rx| && rx[q] == ids[m];
    OnlyReceives(ds, m);
    if n < q { RxFirstOrder(ds, n, q); }
  }

  lemma OnlyReceives(ds: seq<Dongle>, m: nat)
    requires Distinct(ShortIds(ds)) && m < |ds| && !ds[m].txCapable
    ensures !Transmits(ds, ShortIds(ds)[m])
  {
    if d :| d in ds && d.shortId == ShortIds(ds)[m] && d.txCapable {
      var h :| 0 <= h < |ds| && ds[h] == d;
      assert ShortIds(ds)[h] == ShortIds(ds)[m];
    }
  }
}
