/** The coordinator object: default plans, role changes, restarts and follow requests as it carries them out. */
module CaptureCoordinator {
  import opened Sums
  import opened Wrappers
  import opened Coordinator

  datatype Dongle = Dongle(shortId: string, txCapable: bool)

  // ------------------------------------------------------------ default plan

  function ShortIds(ds: seq<Dongle>): (ids: seq<string>)
    ensures |ids| == |ds|
  {
    seq(|ds|, i requires 0 <= i < |ds| => ds[i].shortId)
  }

  /** The ids some entry reports as able to transmit. */
  function TxIds(ds: seq<Dongle>): set<string> {
    set d | d in ds && d.txCapable :: d.shortId
  }

  function Select(ids: seq<string>, tx: set<string>, able: bool): seq<string> {
    if ids == [] then []
    else (if (ids[0] in tx) == able then [ids[0]] else []) + Select(ids[1..], tx, able)
  }

  /** Receive-only dongles first, each group in discovery order; an id reported both ways counts as able to transmit. */
  function RxFirst(ds: seq<Dongle>): seq<string> {
    Select(ShortIds(ds), TxIds(ds), false) + Select(ShortIds(ds), TxIds(ds), true)
  }

  function PinThree(ids: seq<string>): map<string, Role>
    requires |ids| >= 3
  {
    map[ids[0] := Pinned([37])][ids[1] := Pinned([38])][ids[2] := Pinned([39])]
  }

  function IdleFrom(plan: map<string, Role>, ids: seq<string>): map<string, Role> {
    if ids == [] then plan else IdleFrom(plan, ids[..|ids| - 1])[ids[|ids| - 1] := Idle]
  }

  /**
   One dongle scans; two share; three pin one channel each; from four on, receive-only dongles pin and the rest idle.
   */
  function DefaultRoles(ds: seq<Dongle>): map<string, Role>
    requires |RxFirst(ds)| == |ds|
  {
    var ids := ShortIds(ds);
    if |ids| == 0 then map[]
    else if |ids| == 1 then map[ids[0] := ScanUnmonitored]
    else if |ids| == 2 then map[ids[0] := Pinned([37])][ids[1] := ScanUnmonitored]
    else if |ids| == 3 then PinThree(ids)
    else IdleFrom(PinThree(RxFirst(ds)), RxFirst(ds)[3..])
  }

  ghost predicate Distinct(ids: seq<string>) {
    forall i, j :: 0 <= i < j < |ids| ==> ids[i] != ids[j]
  }

  lemma {:induction false} SelectPartitions(ids: seq<string>, tx: set<string>)
    ensures multiset(Select(ids, tx, false)) + multiset(Select(ids, tx, true)) == multiset(ids)
  {
    if ids != [] {
      SelectPartitions(ids[1..], tx);
      assert ids == [ids[0]] + ids[1..];
      var able := ids[0] in tx;
      assert multiset(Select(ids, tx, able)) == multiset{ids[0]} + multiset(Select(ids[1..], tx, able));
      assert Select(ids, tx, !able) == Select(ids[1..], tx, !able);
    }
  }

  /** The reordering loses and repeats nobody. */
  lemma SelectSplits(ds: seq<Dongle>)
    ensures |RxFirst(ds)| == |ds|
    ensures multiset(RxFirst(ds)) == multiset(ShortIds(ds))
  {
    hide Select;
    SelectPartitions(ShortIds(ds), TxIds(ds));
    assert |multiset(RxFirst(ds))| == |RxFirst(ds)| && |multiset(ShortIds(ds))| == |ShortIds(ds)|;
  }

  lemma DistinctByMultiset(a: seq<string>, b: seq<string>)
    requires multiset(a) == multiset(b) && Distinct(a)
    ensures Distinct(b)
  {
    if i, j :| 0 <= i < j < |b| && b[i] == b[j] {
      assert b == b[..i] + [b[i]] + b[i + 1..j] + [b[j]] + b[j + 1..];
      assert multiset(b)[b[i]] >= 2;
      assert multiset(a)[b[i]] >= 2;
      DistinctOnce(a, b[i]);
    }
  }

  lemma {:induction false} DistinctOnce(a: seq<string>, x: string)
    requires Distinct(a)
    ensures multiset(a)[x] <= 1
  {
    if a != [] {
      var pre, last := a[..|a| - 1], a[|a| - 1];
      DistinctOnce(pre, x);
      assert a == pre + [last];
      if last == x { assert x !in pre; }
    }
  }

  lemma {:induction false} IdleFromIs(plan: map<string, Role>, ids: seq<string>, id: string)
    ensures id in IdleFrom(plan, ids) <==> id in plan || id in ids
    ensures id in IdleFrom(plan, ids) ==> IdleFrom(plan, ids)[id] == if id in ids then Idle else plan[id]
  {
    if ids != [] {
      IdleFromIs(plan, ids[..|ids| - 1], id);
      assert id in ids <==> id in ids[..|ids| - 1] || id == ids[|ids| - 1];
    }
  }

  /** With four or more dongles, the first three of the reordering pin and all others idle. */
  lemma PlanOfMany(ds: seq<Dongle>)
    requires |ds| >= 4
    ensures |RxFirst(ds)| == |ds|
    ensures var rx, plan := RxFirst(ds), DefaultRoles(ds);
      && (forall id :: id in plan <==> id in rx)
      && (forall id :: id in plan ==> plan[id] == if id in rx[3..] then Idle else PinThree(rx)[id])
  {
    SelectSplits(ds);
    var rx := RxFirst(ds);
    assert rx == rx[..3] + rx[3..] && rx[..3] == [rx[0], rx[1], rx[2]];
    forall id
      ensures id in DefaultRoles(ds) <==> id in rx
      ensures id in DefaultRoles(ds) ==> DefaultRoles(ds)[id] == if id in rx[3..] then Idle else PinThree(rx)[id]
    {
      IdleFromIs(PinThree(rx), rx[3..], id);
    }
  }

  ghost predicate AllPinned(plan: map<string, Role>) {
    IsPinned(plan, 37) && IsPinned(plan, 38) && IsPinned(plan, 39)
  }

  ghost predicate HasScanner(plan: map<string, Role>) {
    exists id :: id in plan && plan[id].ScanUnmonitored?
  }

  /** The first three are distinct, and none of them comes again. */
  ghost predicate FirstThreeApart(ids: seq<string>)
    requires |ids| >= 3
  {
    && ids[0] != ids[1] && ids[0] != ids[2] && ids[1] != ids[2]
    && ids[0] !in ids[3..] && ids[1] !in ids[3..] && ids[2] !in ids[3..]
  }

  /** One or two entries always do; from three on, the three that pin must be distinct and not be set idle again. */
  ghost predicate Suffices(ds: seq<Dongle>) {
    SelectSplits(ds);
    if |ds| < 3 then ds != [] else FirstThreeApart(if |ds| == 3 then ShortIds(ds) else RxFirst(ds))
  }

  /** When the default plan pins all primaries or has someone scan: exactly when the list of dongles suffices. */
  lemma PlanCoversExactly(ds: seq<Dongle>)
    ensures |RxFirst(ds)| == |ds|
    ensures (HasScanner(DefaultRoles(ds)) || AllPinned(DefaultRoles(ds))) <==> Suffices(ds)
  {
    SelectSplits(ds);
    if |ds| < 3 { FewCover(ds); } else if |ds| == 3 { ThreeCover(ds); } else { ManyCover(ds); }
  }

  lemma FewCover(ds: seq<Dongle>)
    requires |ds| < 3 && |RxFirst(ds)| == |ds|
    ensures (HasScanner(DefaultRoles(ds)) || AllPinned(DefaultRoles(ds))) <==> ds != []
  {
    var ids, plan := ShortIds(ds), DefaultRoles(ds);
    if ds != [] {
      assert plan[ids[|ids| - 1]].ScanUnmonitored?;
    }
  }

  lemma ThreeCover(ds: seq<Dongle>)
    requires |ds| == 3 && |RxFirst(ds)| == |ds|
    ensures (HasScanner(DefaultRoles(ds)) || AllPinned(DefaultRoles(ds))) <==> FirstThreeApart(ShortIds(ds))
  {
    var ids, plan := ShortIds(ds), DefaultRoles(ds);
    assert ids[3..] == [];
    PinThreeIs(ids);
    if FirstThreeApart(ids) {
      PinnedThree(plan, ids);
    }
  }

  lemma ManyCover(ds: seq<Dongle>)
    requires |ds| >= 4 && |RxFirst(ds)| == |ds|
    ensures (HasScanner(DefaultRoles(ds)) || AllPinned(DefaultRoles(ds))) <==> FirstThreeApart(RxFirst(ds))
  {
    hide DefaultRoles, RxFirst, PinThree;
    var rx, plan := RxFirst(ds), DefaultRoles(ds);
    PlanOfMany(ds);
    PinThreeIs(rx);
    if FirstThreeApart(rx) {
      PinnedThree(plan, rx);
    }
  }

  /** Each of the first three ids pins the channel of its last place among them. */
  lemma PinThreeIs(ids: seq<string>)
    requires |ids| >= 3
    ensures forall id :: id in PinThree(ids) <==> id == ids[0] || id == ids[1] || id == ids[2]
    ensures forall id :: id in PinThree(ids) ==>
      PinThree(ids)[id] == Pinned([if id == ids[2] then 39 else if id == ids[1] then 38 else 37])
  {
  }

  lemma PinnedThree(plan: map<string, Role>, ids: seq<string>)
    requires |ids| >= 3 && forall k :: 0 <= k < 3 ==> ids[k] in plan
    requires plan[ids[0]] == Pinned([37]) && plan[ids[1]] == Pinned([38]) && plan[ids[2]] == Pinned([39])
    ensures AllPinned(plan)
  {
  }

  /** Distinct dongles always suffice. */
  lemma DistinctSuffice(ds: seq<Dongle>)
    requires ds != [] && Distinct(ShortIds(ds))
    ensures Suffices(ds)
  {
    hide RxFirst, ShortIds;
    SelectSplits(ds);
    if |ds| >= 3 {
      DistinctByMultiset(ShortIds(ds), RxFirst(ds));
      ApartWhenDistinct(if |ds| == 3 then ShortIds(ds) else RxFirst(ds));
    }
  }

  lemma ApartWhenDistinct(ids: seq<string>)
    requires |ids| >= 3 && Distinct(ids)
    ensures FirstThreeApart(ids)
  {
    assert forall k :: 3 <= k < |ids| ==> ids[k] == ids[3..][k - 3];
  }

  lemma PlanIsValid(ds: seq<Dongle>)
    requires |RxFirst(ds)| == |ds|
    ensures forall id :: id in DefaultRoles(ds) ==> ValidRole(DefaultRoles(ds)[id])
  {
    if |ds| >= 4 { PlanOfMany(ds); }
  }

  /** Three entries of one dongle leave it pinned to 39 alone. */
  lemma RepeatedDongleLosesCoverage()
    ensures var d := Dongle("d", false);
      |RxFirst([d, d, d])| == 3 && DefaultRoles([d, d, d]) == map["d" := Pinned([39])] && !Suffices([d, d, d])
  {
  }

  // ------------------------------------------------------------ the object

  class CaptureCoordinator {
    var roles: map<string, Role>
    var sniffers: map<string, Sniffer>

    ghost function View(): State
      reads this
    {
      State(roles, sniffers)
    }

    ghost predicate Valid()
      reads this
    {
      Good(View())
    }

    constructor ()
      ensures Valid() && View() == State(map[], map[])
    {
      roles, sniffers := map[], map[];
    }

    method ApplyRole(id: string, r: Role)
      requires id in sniffers
      modifies this`sniffers
      ensures sniffers == old(sniffers)[id := Applied(old(sniffers)[id], r)]
    {
      var s := sniffers[id];
      match r {
        case Idle => if s.running { s := Stop(s); }
        case Pinned(channels) => s := if s.running then SetAdvHop(s, channels) else Start(s, channels, None);
        case Follow(t) => s := if s.running then FollowAddress(s, t) else Start(s, [], Some(t));
        case ScanUnmonitored =>
        case Probe(_) =>
      }
      sniffers := sniffers[id := s];
    }

    /** Collect the pinned channels, then bring every scanning sniffer to the primaries left over. */
    method RecomputeScanUnmonitored()
      requires roles.Keys == sniffers.Keys
      modifies this`sniffers
      ensures View() == Recomputed(old(View()))
    {
      hide Uncovered, Start, Stop, SetAdvHop;
      var uncovered := CollectUncovered();
      var todo := roles.Items;
      while todo != {}
        invariant todo <= roles.Items && sniffers.Keys == roles.Keys
        invariant forall id :: id in sniffers ==>
          sniffers[id] == if roles[id].ScanUnmonitored? && (id, roles[id]) !in todo
                          then Rescanned(old(sniffers)[id], uncovered) else old(sniffers)[id]
        decreases todo
      {
        var item :| item in todo;
        assert item == (item.0, item.1) && item.0 in roles && roles[item.0] == item.1;
        if item.1.ScanUnmonitored? {
          var s := sniffers[item.0];
          if uncovered == [] {
            if s.running { s := Stop(s); }
          } else if s.running {
            if s.advHop != uncovered { s := SetAdvHop(s, uncovered); }
          } else {
            s := Start(s, uncovered, None);
          }
          sniffers := sniffers[item.0 := s];
        }
        todo := todo - {item};
      }
      assert sniffers == Recomputed(old(View())).sniffers;
    }

    method CollectUncovered() returns (uncovered: seq<int>)
      ensures uncovered == Uncovered(roles)
    {
      var pinned: set<int> := {};
      var todo := roles.Items;
      while todo != {}
        invariant todo <= roles.Items
        invariant forall c :: c in pinned <==>
          exists id :: id in roles && (id, roles[id]) !in todo && roles[id].Pinned? && c in roles[id].channels
        decreases todo
      {
        var item :| item in todo;
        assert item == (item.0, item.1) && item.0 in roles && roles[item.0] == item.1;
        if item.1.Pinned? {
          pinned := pinned + set c | c in item.1.channels;
        }
        todo := todo - {item};
      }
      forall c: int
        ensures c in pinned <==> IsPinned(roles, c)
      {
      }
      uncovered := [];
      if 37 !in pinned { uncovered := uncovered + [37]; }
      if 38 !in pinned { uncovered := uncovered + [38]; }
      if 39 !in pinned { uncovered := uncovered + [39]; }
    }

    /** False, and no change, for an unknown dongle. */
    method SetRole(id: string, r: Role) returns (known: bool)
      requires Valid() && ValidRole(r)
      modifies this
      ensures Valid() && known == (id in old(sniffers))
      ensures View() == After(old(View()), Step.SetRole(id, r))
      ensures roles == if known then old(roles)[id := r] else old(roles)
    {
      known := id in sniffers;
      if known {
        SetRoleSettles(View(), id, r);
        roles := roles[id := r];
        ApplyRole(id, r);
        RecomputeScanUnmonitored();
      }
    }

    /** Stop and reapply; true exactly when the sniffer runs again. */
    method RestartOne(id: string) returns (ok: bool)
      requires Valid()
      modifies this
      ensures View() == After(old(View()), Restart(id))
      ensures Valid() <==> (id in old(sniffers) ==> Harmless(old(View()), Restart(id)))
      ensures ok == (id in sniffers && (roles[id].Pinned? || roles[id].Follow?))
    {
      if id !in sniffers {
        return false;
      }
      RestartSettlesExactly(View(), id);
      var r := roles[id];
      sniffers := sniffers[id := Stop(sniffers[id])];
      if r.Idle? {
        return false;
      }
      ApplyRole(id, r);
      ok := sniffers[id].running;
    }

    method RegisterAll(ds: seq<Dongle>)
      requires Valid()
      modifies this
      ensures Valid()
      ensures roles.Keys == old(roles).Keys + set d | d in ds :: d.shortId
      ensures forall id :: id in roles ==> roles[id] == if id in old(roles) then old(roles)[id] else Idle
    {
      hide Uncovered, Settled, ValidRole;
      for i := 0 to |ds|
        invariant Valid()
        invariant roles.Keys == old(roles).Keys + set d | d in ds[..i] :: d.shortId
        invariant forall id :: id in roles ==> roles[id] == if id in old(roles) then old(roles)[id] else Idle
      {
        assert ds[..i + 1] == ds[..i] + [ds[i]];
        var id := ds[i].shortId;
        RegisterKeeps(View(), id);
        if id !in sniffers {
          sniffers := sniffers[id := NEW_SNIFFER];
          roles := roles[id := Idle];
        }
      }
      assert ds[..|ds|] == ds;
    }

    /** Give every planned dongle its role, in any order, either the scanning ones or the others. */
    method ApplyPlan(plan: map<string, Role>, scanning: bool)
      requires Valid() && plan.Keys <= roles.Keys
      requires forall id :: id in plan ==> ValidRole(plan[id])
      modifies this
      ensures Valid() && roles.Keys == old(roles).Keys
      ensures forall id :: id in roles ==>
        roles[id] == if id in plan && plan[id].ScanUnmonitored? == scanning then plan[id] else old(roles)[id]
    {
      hide After, ValidRole, Good;
      KeysAgree(View());
      var todo := plan.Keys;
      while todo != {}
        invariant Valid() && roles.Keys == sniffers.Keys == old(roles).Keys && todo <= plan.Keys
        invariant forall id :: id in roles ==>
          roles[id] ==
            if id in plan && id !in todo && plan[id].ScanUnmonitored? == scanning then plan[id] else old(roles)[id]
        decreases todo
      {
        var id := Pick(todo);
        if plan[id].ScanUnmonitored? == scanning {
          var known := SetRole(id, plan[id]);
          KeysAgree(View());
        }
        todo := todo - {id};
      }
    }

    /**
     Register all dongles and put the default plan into force. All primaries are then covered if the dongles suffice,
     and, for a coordinator that had none before, only if they do.
     */
    method StartDiscover(ds: seq<Dongle>)
      requires Valid()
      modifies this
      ensures Valid()
      ensures |RxFirst(ds)| == |ds|
      ensures forall id :: id in roles ==>
        roles[id] == if id in DefaultRoles(ds) then DefaultRoles(ds)[id]
                     else if id in old(roles) then old(roles)[id] else Idle
      ensures Suffices(ds) ==> Covered(View())
      ensures old(roles) == map[] ==> (Covered(View()) <==> Suffices(ds))
    {
      hide DefaultRoles, RxFirst, ShortIds, Suffices, HasScanner, AllPinned, Covered, Plain, ValidRole, Good;
      SelectSplits(ds);
      RegisterAll(ds);
      var plan := DefaultRoles(ds);
      PlanIsValid(ds);
      PlanKeys(ds);
      ApplyPlan(plan, false);
      ApplyPlan(plan, true);
      PlanCoversExactly(ds);
      PlanUses(ds);
      if Suffices(ds) {
        PlanInForceCovers(View(), plan);
      }
      if old(roles) == map[] {
        assert roles == plan;
        OnlyPlanCovers(View());
      }
    }

    /**
     An idle dongle if there is one, else a scanning one, else any that does not follow; none exactly when all follow.
     */
    method PickFollowDongle() returns (pick: Option<string>)
      ensures pick == None <==> forall id :: id in roles ==> roles[id].Follow?
      ensures pick.Some? ==>
        && pick.value in roles && !roles[pick.value].Follow?
        && ((exists id :: id in roles && roles[id].Idle?) ==> roles[pick.value].Idle?)
        && ((forall id :: id in roles ==> !roles[id].Idle?) && (exists id :: id in roles && roles[id].ScanUnmonitored?)
            ==> roles[pick.value].ScanUnmonitored?)
    {
      if id :| id in roles && roles[id].Idle? {
        return Some(id);
      }
      if id :| id in roles && roles[id].ScanUnmonitored? {
        return Some(id);
      }
      if id :| id in roles && !roles[id].Follow? {
        return Some(id);
      }
      return None;
    }

    /** Follow a device with the preferred dongle or a picked one; a preferred dongle that is unknown is an error. */
    method FollowDevice(t: Target, prefer: Option<string>) returns (dongle: Option<string>, known: bool)
      requires Valid()
      modifies this
      ensures Valid() && known == (dongle.Some? ==> dongle.value in old(sniffers))
      ensures prefer.Some? ==> dongle == prefer
      ensures prefer.None? ==> known && (dongle.None? <==> forall id :: id in old(roles) ==> old(roles)[id].Follow?)
      ensures View() ==
        if dongle.Some? && known then After(old(View()), Step.SetRole(dongle.value, Follow(t))) else old(View())
      ensures dongle.Some? && known ==>
        dongle.value in sniffers && sniffers[dongle.value].running
        && sniffers[dongle.value].mode == Following && sniffers[dongle.value].target == Some(t)
    {
      dongle, known := prefer, true;
      if dongle.None? {
        dongle := PickFollowDongle();
      }
      if dongle.Some? {
        known := SetRole(dongle.value, Follow(t));
        assert known ==> Settled(View(), dongle.value);
      }
    }
  }

  lemma KeysAgree(c: State)
    requires Good(c)
    ensures c.roles.Keys == c.sniffers.Keys
  {
  }

  lemma ShortIdsAre(ds: seq<Dongle>, id: string)
    ensures id in ShortIds(ds) <==> id in set d | d in ds :: d.shortId
  {
    if id in ShortIds(ds) {
      var i :| 0 <= i < |ds| && ShortIds(ds)[i] == id;
      assert ds[i] in ds;
    }
    if d :| d in ds && d.shortId == id {
      var i :| 0 <= i < |ds| && ds[i] == d;
      assert ShortIds(ds)[i] == id;
    }
  }

  lemma PlanNamesFew(ds: seq<Dongle>, id: string)
    requires |ds| < 4 && |RxFirst(ds)| == |ds|
    ensures id in DefaultRoles(ds) <==> id in ShortIds(ds)
  {
  }

  lemma PlanNamesMany(ds: seq<Dongle>, id: string)
    requires |ds| >= 4 && |RxFirst(ds)| == |ds|
    ensures id in DefaultRoles(ds) <==> id in ShortIds(ds)
  {
    hide DefaultRoles, RxFirst, ShortIds;
    PlanOfMany(ds);
    SelectSplits(ds);
    assert id in multiset(RxFirst(ds)) <==> id in multiset(ShortIds(ds));
  }

  lemma PlanKeys(ds: seq<Dongle>)
    requires |RxFirst(ds)| == |ds|
    ensures DefaultRoles(ds).Keys == set d | d in ds :: d.shortId
  {
    hide DefaultRoles, RxFirst, ShortIds;
    forall id: string
      ensures id in DefaultRoles(ds).Keys <==> id in set d | d in ds :: d.shortId
    {
      if |ds| < 4 { PlanNamesFew(ds, id); } else { PlanNamesMany(ds, id); }
      ShortIdsAre(ds, id);
    }
  }

  lemma PlanInForceCovers(c: State, plan: map<string, Role>)
    requires Good(c) && plan.Keys <= c.roles.Keys && forall id :: id in plan ==> c.roles[id] == plan[id]
    requires HasScanner(plan) || AllPinned(plan)
    ensures Covered(c)
  {
  }

  /** A default plan only pins, idles and scans. */
  ghost predicate Plain(roles: map<string, Role>) {
    forall id :: id in roles ==> roles[id].Idle? || roles[id].Pinned? || roles[id].ScanUnmonitored?
  }

  lemma PlanUses(ds: seq<Dongle>)
    requires |RxFirst(ds)| == |ds|
    ensures Plain(DefaultRoles(ds))
  {
    if |ds| >= 4 {
      PlanOfMany(ds);
      PinThreeIs(RxFirst(ds));
    }
  }

  /** Where nobody follows or probes, only pinning everything or scanning covers. */
  lemma OnlyPlanCovers(c: State)
    requires Good(c) && Plain(c.roles)
    ensures Covered(c) ==> HasScanner(c.roles) || AllPinned(c.roles)
  {
    if Covered(c) && !HasScanner(c.roles) {
      forall ch | ch in PRIMARY
        ensures IsPinned(c.roles, ch)
      {
        var id :| id in c.sniffers && Tuned(c.sniffers[id], ch);
        assert Settled(c, id);
      }
      assert 37 in PRIMARY && 38 in PRIMARY && 39 in PRIMARY;
    }
  }
}
