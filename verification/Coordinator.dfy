/**
 The capture coordinator: roles assigned to sniffers, the sniffer states they lead to, and the
 coverage of the three primary advertising channels.
 */
module Coordinator {
  import opened Wrappers

  const PRIMARY: seq<int> := [37, 38, 39]

  /** A device address with its random flag. */
  type Target = (string, bool)

  datatype Role = Idle | Pinned(channels: seq<int>) | ScanUnmonitored | Follow(target: Target) | Probe(target: Target)

  /** A pinned role cannot be built with no, foreign or repeated channels. */
  predicate ValidRole(r: Role) {
    r.Pinned? ==>
      && r.channels != []
      && (forall c :: c in r.channels ==> c in PRIMARY)
      && (forall i, j :: 0 <= i < j < |r.channels| ==> r.channels[i] != r.channels[j])
  }

  datatype Mode = Stopped | Scanning | Following

  datatype Sniffer = Sniffer(running: bool, mode: Mode, advHop: seq<int>, target: Option<Target>)

  const NEW_SNIFFER := Sniffer(false, Stopped, PRIMARY, None)

  // ------------------------------------------------------- one sniffer process

  function Start(s: Sniffer, hop: seq<int>, follow: Option<Target>): Sniffer {
    if s.running then s
    else Sniffer(true, if follow.Some? then Following else Scanning, if hop == [] then PRIMARY else hop, follow)
  }

  function Stop(s: Sniffer): Sniffer {
    s.(running := false, mode := Stopped, target := None)
  }

  function SetAdvHop(s: Sniffer, hop: seq<int>): Sniffer {
    s.(advHop := hop)
  }

  function FollowAddress(s: Sniffer, t: Target): Sniffer {
    s.(mode := Following, target := Some(t))
  }

  /** `_apply_role`; a scanning role is left to the recomputation, and a probe is not handled here. */
  function Applied(s: Sniffer, r: Role): Sniffer {
    match r
    case Idle => if s.running then Stop(s) else s
    case Pinned(channels) => if s.running then SetAdvHop(s, channels) else Start(s, channels, None)
    case Follow(t) => if s.running then FollowAddress(s, t) else Start(s, [], Some(t))
    case ScanUnmonitored => s
    case Probe(_) => s
  }

  // ----------------------------------------------------------------- coverage

  predicate IsPinned(roles: map<string, Role>, c: int) {
    exists id :: id in roles && roles[id].Pinned? && c in roles[id].channels
  }

  /** The primaries no role pins, in order. */
  function Uncovered(roles: map<string, Role>): seq<int> {
    (if IsPinned(roles, 37) then [] else [37])
    + (if IsPinned(roles, 38) then [] else [38])
    + (if IsPinned(roles, 39) then [] else [39])
  }

  /** What the recomputation does to a scanning sniffer. */
  function Rescanned(s: Sniffer, uncovered: seq<int>): Sniffer {
    if uncovered == [] then (if s.running then Stop(s) else s)
    else if s.running then (if s.advHop != uncovered then SetAdvHop(s, uncovered) else s)
    else Start(s, uncovered, None)
  }

  datatype State = State(roles: map<string, Role>, sniffers: map<string, Sniffer>)

  function Recomputed(c: State): State
    requires c.roles.Keys == c.sniffers.Keys
  {
    c.(sniffers := map id | id in c.sniffers ::
      if c.roles[id].ScanUnmonitored? then Rescanned(c.sniffers[id], Uncovered(c.roles)) else c.sniffers[id])
  }

  function WithRole(c: State, id: string, r: Role): State
    requires c.roles.Keys == c.sniffers.Keys && id in c.sniffers
  {
    Recomputed(State(c.roles[id := r], c.sniffers[id := Applied(c.sniffers[id], r)]))
  }

  function Registered(c: State, id: string): State {
    if id in c.sniffers then c else State(c.roles[id := Idle], c.sniffers[id := NEW_SNIFFER])
  }

  /** Stop, then reapply the role the sniffer already has. */
  function Restarted(c: State, id: string): State
    requires c.roles.Keys == c.sniffers.Keys && id in c.sniffers
  {
    c.(sniffers := c.sniffers[id := Applied(Stop(c.sniffers[id]), c.roles[id])])
  }

  // ---------------------------------------------------------------- invariant

  /** A sniffer does what its role says. */
  predicate Settled(c: State, id: string)
    requires id in c.roles && id in c.sniffers
  {
    var s := c.sniffers[id];
    match c.roles[id]
    case Idle => !s.running
    case Pinned(channels) => s.running && s.advHop == channels
    case ScanUnmonitored =>
      if Uncovered(c.roles) == [] then !s.running else s.running && s.advHop == Uncovered(c.roles)
    case Follow(t) => s.running && s.mode == Following && s.target == Some(t)
    case Probe(_) => true
  }

  ghost predicate Consistent(c: State) {
    && c.roles.Keys == c.sniffers.Keys
    && (forall id :: id in c.roles ==> ValidRole(c.roles[id]))
    && (forall id :: id in c.sniffers ==> (c.sniffers[id].mode == Stopped <==> !c.sniffers[id].running))
  }

  ghost predicate AllSettled(c: State)
    requires c.roles.Keys == c.sniffers.Keys
  {
    forall id :: id in c.roles ==> Settled(c, id)
  }

  ghost predicate Good(c: State) {
    Consistent(c) && AllSettled(c)
  }

  lemma RegisterKeeps(c: State, id: string)
    requires Good(c)
    ensures Good(Registered(c, id)) && Uncovered(Registered(c, id).roles) == Uncovered(c.roles)
  {
    if id !in c.sniffers {
      NewIdlePinsNothing(c.roles, id);
    }
  }

  lemma NewIdlePinsNothing(roles: map<string, Role>, id: string)
    requires id !in roles
    ensures Uncovered(roles[id := Idle]) == Uncovered(roles)
  {
    forall ch: int
      ensures IsPinned(roles[id := Idle], ch) <==> IsPinned(roles, ch)
    {
      if IsPinned(roles, ch) {
        var k :| k in roles && roles[k].Pinned? && ch in roles[k].channels;
        assert roles[id := Idle][k].Pinned?;
      }
    }
  }

  /** Changing any sniffer to any role leaves every sniffer doing what its role says. */
  lemma SetRoleSettles(c: State, id: string, r: Role)
    requires Good(c) && id in c.sniffers && ValidRole(r)
    ensures Good(WithRole(c, id, r)) && WithRole(c, id, r).roles == c.roles[id := r]
  {
    forall k | k in c.sniffers
      ensures Settled(WithRole(c, id, r), k)
      ensures var s := WithRole(c, id, r).sniffers[k]; s.mode == Stopped <==> !s.running
    {
      SetRoleSettlesOne(c, id, r, k);
    }
    WithRoleShape(c, id, r);
    hide Settled, Uncovered, Applied, Rescanned, WithRole;
  }

  lemma WithRoleShape(c: State, id: string, r: Role)
    requires c.roles.Keys == c.sniffers.Keys && id in c.sniffers
    ensures WithRole(c, id, r).roles == c.roles[id := r] && WithRole(c, id, r).sniffers.Keys == c.sniffers.Keys
  {
    hide Rescanned, Applied, Uncovered;
  }

  lemma SetRoleSettlesOne(c: State, id: string, r: Role, k: string)
    requires Good(c) && id in c.sniffers && ValidRole(r) && k in c.sniffers
    ensures Settled(WithRole(c, id, r), k)
    ensures var s := WithRole(c, id, r).sniffers[k]; s.mode == Stopped <==> !s.running
  {
    hide Uncovered;
    assert Settled(c, k);
  }

  // --------------------------------------------------------------------- runs

  datatype Step = Register(id: string) | SetRole(id: string, role: Role) | Restart(id: string)

  function After(c: State, s: Step): State
    requires c.roles.Keys == c.sniffers.Keys
  {
    match s
    case Register(id) => Registered(c, id)
    case SetRole(id, role) => if id in c.sniffers then WithRole(c, id, role) else c
    case Restart(id) => if id in c.sniffers then Restarted(c, id) else c
  }

  /** A restart is harmless unless it hits a scanning sniffer that has channels to cover. */
  predicate Harmless(c: State, s: Step) {
    s.Restart? && s.id in c.roles && c.roles[s.id].ScanUnmonitored? ==> Uncovered(c.roles) == []
  }

  /** Restarting one sniffer keeps all of them settled exactly when it is harmless. */
  lemma RestartSettlesExactly(c: State, id: string)
    requires Good(c) && id in c.sniffers
    ensures Good(Restarted(c, id)) <==> Harmless(c, Restart(id))
  {
  }

  /** The restarted scanning sniffer stays down, is reported as not running, and stays so until a role is set. */
  lemma RestartedScanStaysDown(c: State, id: string)
    requires Good(c) && id in c.sniffers && c.roles[id].ScanUnmonitored?
    ensures !Restarted(c, id).sniffers[id].running
    ensures Restarted(Restarted(c, id), id) == Restarted(c, id)
    ensures forall other, r ::
      other in c.sniffers && other != id && ValidRole(r) && Uncovered(c.roles[other := r]) != [] ==>
      WithRole(Restarted(c, id), other, r).sniffers[id].running
  {
  }

  ghost function RunAll(c: State, steps: seq<Step>): State
    requires c.roles.Keys == c.sniffers.Keys
    decreases |steps|
  {
    if steps == [] then c else RunAll(After(c, steps[0]), steps[1..])
  }

  /** Every step is legal: roles are well formed and restarts harmless where they happen. */
  ghost predicate LegalFrom(c: State, steps: seq<Step>)
    requires c.roles.Keys == c.sniffers.Keys
    decreases |steps|
  {
    steps == []
    || (&& (steps[0].SetRole? ==> ValidRole(steps[0].role))
        && Harmless(c, steps[0])
        && LegalFrom(After(c, steps[0]), steps[1..]))
  }

  lemma {:induction false} RunsStaySettled(c: State, steps: seq<Step>)
    requires Good(c) && LegalFrom(c, steps)
    ensures Good(RunAll(c, steps))
    decreases |steps|
  {
    if steps != [] {
      StepKeepsGood(c, steps[0]);
      RunsStaySettled(After(c, steps[0]), steps[1..]);
    }
  }

  lemma StepKeepsGood(c: State, s: Step)
    requires Good(c) && Harmless(c, s) && (s.SetRole? ==> ValidRole(s.role))
    ensures Good(After(c, s))
  {
    match s {
      case Register(id) => RegisterKeeps(c, id);
      case SetRole(id, role) => if id in c.sniffers { SetRoleSettles(c, id, role); }
      case Restart(id) => if id in c.sniffers { RestartSettlesExactly(c, id); }
    }
  }

  // ----------------------------------------------------------------- coverage

  predicate Tuned(s: Sniffer, ch: int) {
    s.running && ch in s.advHop
  }

  /** Every primary channel is in the hop set of some running sniffer. */
  ghost predicate Covered(c: State) {
    forall ch :: ch in PRIMARY ==> exists id :: id in c.sniffers && Tuned(c.sniffers[id], ch)
  }

  ghost predicate SomeoneScans(c: State) {
    exists id :: id in c.roles && c.roles[id].ScanUnmonitored?
  }

  /** Settled sniffers cover all primaries as soon as every one is pinned or somebody scans for the rest. */
  lemma SettledCovers(c: State)
    requires Good(c)
    requires Uncovered(c.roles) == [] || SomeoneScans(c)
    ensures Covered(c)
  {
  }

  /** From nothing, any legal run that leaves a scanning role in place covers all three primaries. */
  lemma RunsCover(steps: seq<Step>)
    requires LegalFrom(State(map[], map[]), steps)
    requires SomeoneScans(RunAll(State(map[], map[]), steps))
    ensures Covered(RunAll(State(map[], map[]), steps))
  {
    RunsStaySettled(State(map[], map[]), steps);
    SettledCovers(RunAll(State(map[], map[]), steps));
  }

  // ------------------------------------------------------------ follow residue

  /** No sniffer with a pinned or scanning role is still following an address. */
  ghost predicate NoResidue(c: State)
    requires c.roles.Keys == c.sniffers.Keys
  {
    forall id :: id in c.roles && (c.roles[id].Pinned? || c.roles[id].ScanUnmonitored?) ==>
      c.sniffers[id].mode != Following
  }

  /** Retuning a sniffer that is running in follow mode leaves it in follow mode: exactly then the residue appears. */
  lemma ResidueExactly(c: State, id: string, r: Role)
    requires Good(c) && NoResidue(c) && id in c.sniffers && ValidRole(r)
    ensures NoResidue(WithRole(c, id, r)) <==>
      !(c.sniffers[id].mode == Following && (r.Pinned? || (r.ScanUnmonitored? && Uncovered(c.roles[id := r]) != [])))
  {
    var d := WithRole(c, id, r);
    forall k | k in c.roles && k != id
      ensures (d.roles[k].Pinned? || d.roles[k].ScanUnmonitored?) ==> d.sniffers[k].mode != Following
    {
    }
    assert id in d.roles && d.roles[id] == r;
    assert (r.Pinned? || r.ScanUnmonitored?) ==>
      (d.sniffers[id].mode == Following <==>
        c.sniffers[id].mode == Following && (r.Pinned? || Uncovered(c.roles[id := r]) != []));
  }

  /** A followed sniffer later pinned to 37 is recorded as hopping 37 but still follows its old target. */
  lemma PinAfterFollowKeepsTarget(t: Target)
    ensures var c := RunAll(State(map[], map[]), [Register("d"), SetRole("d", Follow(t)), SetRole("d", Pinned([37]))]);
      c.sniffers == map["d" := Sniffer(true, Following, [37], Some(t))]
  {
    var c0 := State(map[], map[]);
    var steps := [Register("d"), SetRole("d", Follow(t)), SetRole("d", Pinned([37]))];
    var c1 := After(c0, steps[0]);
    var c2 := After(c1, steps[1]);
    var c3 := After(c2, steps[2]);
    assert c1.sniffers == map["d" := NEW_SNIFFER];
    assert c2.sniffers == map["d" := Sniffer(true, Following, PRIMARY, Some(t))];
    assert c3.sniffers == map["d" := Sniffer(true, Following, [37], Some(t))];
    assert steps[1..][1..] == [steps[2]] && steps[1..][0] == steps[1] && [steps[2]][1..] == [];
    assert RunAll(c2, [steps[2]]) == RunAll(c3, []);
  }

  /** The channels left to scanners are the primaries no role pins, each once, in rising order. */
  lemma UncoveredExactly(roles: map<string, Role>)
    ensures var u := Uncovered(roles);
      && (forall c ::
            c in u <==> c in {37, 38, 39} && forall id :: id in roles && roles[id].Pinned? ==> c !in roles[id].channels)
      && (forall i, j :: 0 <= i < j < |u| ==> u[i] < u[j])
  {
  }

  /** A pinned role names at least one primary, and none twice; any other role is fine. */
  lemma RolesRefused(r: Role, c: int)
    ensures !ValidRole(Pinned([])) && !ValidRole(Pinned([37, 37]))
    ensures ValidRole(Pinned([39, 37, 38])) && (!r.Pinned? ==> ValidRole(r))
    ensures ValidRole(Pinned([c])) <==> c == 37 || c == 38 || c == 39
  {
    var two := [37, 37];
    assert two[0] == two[1];
    assert PRIMARY[0] == 37 && PRIMARY[1] == 38 && PRIMARY[2] == 39;
    assert [c][0] == c;
    if ValidRole(Pinned([c])) { assert c in [c]; }
  }
}
