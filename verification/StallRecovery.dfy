/**
 The watchdog and the coordinator together: which silent sniffers a restart brings back, and which it loses for good.
 */
module StallRecovery {
  import opened Wrappers
  import C = Coordinator
  import W = Watchdog

  /** When a sniffer process was started, and when it last delivered a packet. */
  datatype Times = Times(lastPacket: Option<real>, startedAt: Option<real>)

  datatype System = System(co: C.State, wd: W.State, times: map<string, Times>)

  function TimesOf(y: System, id: string): Times {
    if id in y.times then y.times[id] else Times(None, None)
  }

  /** A sniffer as the watchdog sees it; a stopped process reports the idle role whatever it is assigned. */
  function Seen(y: System, id: string): W.Sniffer
    requires id in y.co.sniffers
  {
    var s := y.co.sniffers[id];
    W.Sniffer(id, s.running, s.mode.Stopped?, TimesOf(y, id).lastPacket, TimesOf(y, id).startedAt)
  }

  /** The watchdog asks for a restart: neither too soon after the last attempt nor one attempt too many. */
  predicate AsksRestart(c: W.Config, w: W.State, id: string, now: real) {
    !W.TooSoon(c, W.AttemptOf(w, id), now) && W.AttemptOf(w, id).count < c.maxAttempts
  }

  function Restart(y: System, id: string, now: real): System
    requires y.co.roles.Keys == y.co.sniffers.Keys && id in y.co.sniffers
  {
    var co := C.Restarted(y.co, id);
    y.(co := co, times := if co.sniffers[id].running then y.times[id := Times(None, Some(now))] else y.times)
  }

  /** One turn of the tick loop, restart included. */
  function Visit(c: W.Config, y: System, id: string, now: real): System
    requires y.co.roles.Keys == y.co.sniffers.Keys && id in y.co.sniffers
  {
    if !W.Silent(c, y.wd, Seen(y, id), now) then y
    else
      var z := if AsksRestart(c, y.wd, id, now) then Restart(y, id, now) else y;
      z.(wd := W.OnStall(c, y.wd, id, now))
  }

  ghost predicate Listed(y: System, ids: seq<string>) {
    && y.co.roles.Keys == y.co.sniffers.Keys
    && (forall id :: id in ids ==> id in y.co.sniffers)
    && (forall i, j :: 0 <= i < j < |ids| ==> ids[i] != ids[j])
  }

  ghost function Tick(c: W.Config, y: System, ids: seq<string>, now: real): (z: System)
    requires Listed(y, ids)
    ensures z.co.roles == y.co.roles && z.co.sniffers.Keys == y.co.sniffers.Keys
  {
    if ids == [] then y
    else
      assert forall id :: id in ids[..|ids| - 1] ==> id in ids;
      Visit(c, Tick(c, y, ids[..|ids| - 1], now), ids[|ids| - 1], now)
  }

  function SeenAll(y: System, ids: seq<string>): seq<W.Sniffer>
    requires forall id :: id in ids ==> id in y.co.sniffers
  {
    seq(|ids|, i requires 0 <= i < |ids| => assert ids[i] in ids; Seen(y, ids[i]))
  }

  lemma VisitLeavesOthers(c: W.Config, y: System, k: string, now: real, id: string)
    requires y.co.roles.Keys == y.co.sniffers.Keys && k in y.co.sniffers && id in y.co.sniffers && id != k
    ensures var z := Visit(c, y, k, now);
      z.co.sniffers[id] == y.co.sniffers[id] && TimesOf(z, id) == TimesOf(y, id)
      && W.AttemptOf(z.wd, id) == W.AttemptOf(y.wd, id) && (id in z.wd.stuck <==> id in y.wd.stuck)
  {
    hide W.Silent, AsksRestart, C.Applied;
  }

  /** A tick leaves every sniffer it has not visited as it was. */
  lemma {:induction false} TickLeavesOthers(c: W.Config, y: System, ids: seq<string>, now: real, id: string)
    requires Listed(y, ids) && id !in ids && id in y.co.sniffers
    ensures var z := Tick(c, y, ids, now);
      z.co.sniffers[id] == y.co.sniffers[id] && TimesOf(z, id) == TimesOf(y, id)
      && W.AttemptOf(z.wd, id) == W.AttemptOf(y.wd, id) && (id in z.wd.stuck <==> id in y.wd.stuck)
    decreases |ids|
  {
    hide Visit, W.AttemptOf, TimesOf;
    if ids != [] {
      var pre := ids[..|ids| - 1];
      assert forall k :: k in pre ==> k in ids;
      TickLeavesOthers(c, y, pre, now, id);
      assert ids[|ids| - 1] in ids;
      VisitLeavesOthers(c, Tick(c, y, pre, now), ids[|ids| - 1], now, id);
    }
  }

  lemma VisitDecides(c: W.Config, y: System, z: System, id: string, now: real)
    requires y.co.roles.Keys == y.co.sniffers.Keys && z.co.roles.Keys == z.co.sniffers.Keys
    requires id in y.co.sniffers && id in z.co.sniffers
    requires z.co.sniffers[id] == y.co.sniffers[id] && TimesOf(z, id) == TimesOf(y, id)
    ensures Visit(c, z, id, now).wd == W.Visit(c, z.wd, Seen(y, id), now)
  {
    hide W.Silent, AsksRestart, W.OnStall, C.Applied, TimesOf;
  }

  /** Restarts during a tick do not disturb it: it decides as on the sniffers as they were when it began. */
  lemma {:induction false} TickDecidesOnSnapshot(c: W.Config, y: System, ids: seq<string>, now: real)
    requires Listed(y, ids)
    ensures Tick(c, y, ids, now).wd == W.TickState(c, y.wd, SeenAll(y, ids), now)
    decreases |ids|
  {
    hide Visit, W.Visit, Seen;
    if ids != [] {
      var pre, id := ids[..|ids| - 1], ids[|ids| - 1];
      assert forall k :: k in pre ==> k in ids;
      TickDecidesOnSnapshot(c, y, pre, now);
      TickLeavesOthers(c, y, pre, now, id);
      VisitDecides(c, y, Tick(c, y, pre, now), id, now);
      assert SeenAll(y, ids)[..|ids| - 1] == SeenAll(y, pre);
    }
  }

  // ---------------------------------------------------------------- recovery

  /** A restart brings a silent sniffer back exactly when it is pinned or following; any other role leaves it down. */
  lemma RestartRevivesExactly(c: W.Config, y: System, id: string, now: real)
    requires C.Good(y.co) && id in y.co.sniffers
    requires W.Silent(c, y.wd, Seen(y, id), now) && AsksRestart(c, y.wd, id, now)
    ensures var z := Visit(c, y, id, now);
      && (z.co.sniffers[id].running <==> y.co.roles[id].Pinned? || y.co.roles[id].Follow?)
      && (z.co.sniffers[id].running ==> TimesOf(z, id) == Times(None, Some(now)))
      && id !in z.wd.stuck
  {
  }

  /** Down, and not given up on. */
  predicate Forgotten(y: System, id: string) {
    id in y.co.sniffers && !y.co.sniffers[id].running && id !in y.wd.stuck
  }

  /** Ticks, in whatever order they list the sniffers, and packets from running sniffers. */
  datatype Step = Ticked(ids: seq<string>, now: real) | Heard(id: string, at: real)

  ghost function After(c: W.Config, y: System, e: Step): (z: System)
    requires y.co.roles.Keys == y.co.sniffers.Keys
    ensures z.co.roles == y.co.roles && z.co.sniffers.Keys == y.co.sniffers.Keys
  {
    match e
    case Heard(id, at) =>
      if id in y.co.sniffers && y.co.sniffers[id].running
      then y.(times := y.times[id := TimesOf(y, id).(lastPacket := Some(at))]) else y
    case Ticked(ids, now) => if Listed(y, ids) then Tick(c, y, ids, now) else y
  }

  ghost function RunAll(c: W.Config, y: System, es: seq<Step>): (z: System)
    requires y.co.roles.Keys == y.co.sniffers.Keys
    ensures z.co.roles == y.co.roles && z.co.sniffers.Keys == y.co.sniffers.Keys
  {
    if es == [] then y else After(c, RunAll(c, y, es[..|es| - 1]), es[|es| - 1])
  }

  lemma {:induction false} TickForgets(c: W.Config, y: System, ids: seq<string>, now: real, id: string)
    requires Listed(y, ids) && Forgotten(y, id)
    ensures Forgotten(Tick(c, y, ids, now), id)
    ensures Tick(c, y, ids, now).co.sniffers[id] == y.co.sniffers[id]
    decreases |ids|
  {
    hide AsksRestart;
    if ids != [] {
      var pre := ids[..|ids| - 1];
      assert forall k :: k in pre ==> k in ids;
      TickForgets(c, y, pre, now, id);
    }
  }

  /** Once down and not given up on, a sniffer stays so through any ticks and packets: never eligible, never stuck. */
  lemma {:induction false} StaysForgotten(c: W.Config, y: System, es: seq<Step>, id: string)
    requires y.co.roles.Keys == y.co.sniffers.Keys && Forgotten(y, id)
    ensures var z := RunAll(c, y, es);
      Forgotten(z, id) && z.co.sniffers[id] == y.co.sniffers[id] && !W.Eligible(z.wd, Seen(z, id))
    decreases |es|
  {
    hide Tick;
    if es != [] {
      var pre, e := es[..|es| - 1], es[|es| - 1];
      StaysForgotten(c, y, pre, id);
      var mid := RunAll(c, y, pre);
      if e.Ticked? && Listed(mid, e.ids) { TickForgets(c, mid, e.ids, e.now, id); }
    }
  }

  /**
   The watchdog's restart loses a silent scanning sniffer for good: whatever ticks and packets follow, it is down and
   not stuck, and no tick and no inspection ever reports it, until some role is set.
   */
  lemma SilentScannerIsLost(c: W.Config, y: System, id: string, now: real, es: seq<Step>, later: real)
    requires C.Good(y.co) && id in y.co.sniffers && y.co.roles[id].ScanUnmonitored?
    requires W.Silent(c, y.wd, Seen(y, id), now) && AsksRestart(c, y.wd, id, now)
    ensures var z := RunAll(c, Visit(c, y, id, now), es);
      && !z.co.sniffers[id].running && id !in z.wd.stuck
      && !W.Silent(c, z.wd, Seen(z, id), later)
      && forall ids :: Listed(z, ids) ==> id !in W.TickResult(c, z.wd, SeenAll(z, ids), later)
  {
    RestartRevivesExactly(c, y, id, now);
    StaysForgotten(c, Visit(c, y, id, now), es, id);
    var z := RunAll(c, Visit(c, y, id, now), es);
    forall ids | Listed(z, ids)
      ensures id !in W.TickResult(c, z.wd, SeenAll(z, ids), later)
    {
      NotReported(c, z, ids, later, id);
    }
  }

  lemma NotReported(c: W.Config, y: System, ids: seq<string>, now: real, id: string)
    requires Listed(y, ids) && Forgotten(y, id)
    ensures id !in W.TickResult(c, y.wd, SeenAll(y, ids), now)
  {
    hide W.TickResult;
    var ss := SeenAll(y, ids);
    if id in W.TickResult(c, y.wd, ss, now) {
      W.ResultNamesTicked(c, y.wd, ss, now, id);
      var s :| s in ss && s.id == id;
      W.TickJudgesAlone(c, y.wd, ss, now, s);
    }
  }

  /**
   With a single scanning dongle one silence ends all coverage: before it every primary is covered, afterwards none ever
   is.
   */
  lemma LoneScannerGoesDark(c: W.Config, y: System, id: string, now: real, es: seq<Step>)
    requires C.Good(y.co) && y.co.roles == map[id := C.ScanUnmonitored]
    requires W.Silent(c, y.wd, Seen(y, id), now) && AsksRestart(c, y.wd, id, now)
    ensures C.Covered(y.co)
    ensures forall k, ch :: k in RunAll(c, Visit(c, y, id, now), es).co.sniffers ==>
      !C.Tuned(RunAll(c, Visit(c, y, id, now), es).co.sniffers[k], ch)
  {
    hide W.Silent, AsksRestart;
    assert id in y.co.roles && y.co.roles[id].ScanUnmonitored? && C.SomeoneScans(y.co);
    C.SettledCovers(y.co);
    SilentScannerIsLost(c, y, id, now, es, now);
  }

  // -------------------------------------------------------------- escalation

  /** What the watchdog and the coordinator hold about one sniffer. */
  datatype Standing = Standing(sniffer: C.Sniffer, times: Times, attempt: W.Attempt, stuck: bool)

  function StandingOf(y: System, id: string): Standing
    requires id in y.co.sniffers
  {
    Standing(y.co.sniffers[id], TimesOf(y, id), W.AttemptOf(y.wd, id), id in y.wd.stuck)
  }

  lemma VisitStands(c: W.Config, y: System, z: System, id: string, now: real)
    requires y.co.roles.Keys == y.co.sniffers.Keys
    requires z.co.roles == y.co.roles && z.co.sniffers.Keys == y.co.sniffers.Keys
    requires id in y.co.sniffers && StandingOf(z, id) == StandingOf(y, id)
    ensures StandingOf(Visit(c, z, id, now), id) == StandingOf(Visit(c, y, id, now), id)
  {
    hide C.Applied;
  }

  /** A tick does to a sniffer it lists what visiting it alone does. */
  lemma {:induction false} TickVisitsAlone(c: W.Config, y: System, ids: seq<string>, now: real, id: string)
    requires Listed(y, ids) && id in ids
    ensures StandingOf(Tick(c, y, ids, now), id) == StandingOf(Visit(c, y, id, now), id)
    decreases |ids|
  {
    hide Visit, W.AttemptOf, TimesOf;
    var pre, last := ids[..|ids| - 1], ids[|ids| - 1];
    assert forall k :: k in pre ==> k in ids;
    var mid := Tick(c, y, pre, now);
    if last == id {
      assert id !in pre;
      TickLeavesOthers(c, y, pre, now, id);
      VisitStands(c, y, mid, id, now);
    } else {
      TickVisitsAlone(c, y, pre, now, id);
      VisitLeavesOthers(c, mid, last, now, id);
    }
  }

  /** One tick: the sniffers in the order in which they are listed, and the time. */
  type Rounds = seq<(seq<string>, real)>

  ghost function AfterRounds(c: W.Config, y: System, rs: Rounds): (z: System)
    requires y.co.roles.Keys == y.co.sniffers.Keys && forall r :: r in rs ==> Listed(y, r.0)
    ensures z.co.roles == y.co.roles && z.co.sniffers.Keys == y.co.sniffers.Keys
  {
    if rs == [] then y
    else
      var pre, last := rs[..|rs| - 1], rs[|rs| - 1];
      assert (forall r :: r in pre ==> r in rs) && Listed(y, last.0);
      Tick(c, AfterRounds(c, y, pre), last.0, last.1)
  }

  /** Ticks that all list `id`, more than the threshold and at least the gap apart. */
  ghost predicate Spaced(c: W.Config, y: System, rs: Rounds, id: string) {
    && (forall r :: r in rs ==> Listed(y, r.0) && id in r.0)
    && (forall k :: 0 < k < |rs| ==> rs[k].1 - rs[k - 1].1 > c.threshold && rs[k].1 - rs[k - 1].1 >= c.minGap)
  }

  /** A pinned or following sniffer that captures. */
  predicate Capturing(y: System, id: string) {
    && id in y.co.sniffers && id in y.co.roles && y.co.sniffers[id].running && !y.co.sniffers[id].mode.Stopped?
    && (y.co.roles[id].Pinned? || y.co.roles[id].Follow?)
  }

  /** Its last packet, or its start when there was none yet, lies more than the threshold back. */
  predicate Quiet(y: System, id: string, now: real, threshold: real) {
    var t := TimesOf(y, id);
    if t.lastPacket.Some? then t.lastPacket.value + threshold < now
    else t.startedAt.Some? && t.startedAt.value + threshold < now
  }

  /** One visit to a sniffer that has been quiet too long: another restart, or giving up after the last one. */
  lemma VisitEscalates(c: W.Config, y: System, id: string, now: real)
    requires y.co.roles.Keys == y.co.sniffers.Keys && Capturing(y, id) && id !in y.wd.stuck
    requires Quiet(y, id, now, c.threshold) && !W.TooSoon(c, W.AttemptOf(y.wd, id), now)
    ensures var z, a := Visit(c, y, id, now), W.AttemptOf(y.wd, id);
      && Capturing(z, id) && W.AttemptOf(z.wd, id).count == a.count + 1 && W.AttemptOf(z.wd, id).lastAt == now
      && (id in z.wd.stuck <==> a.count + 1 > c.maxAttempts)
      && (a.count + 1 <= c.maxAttempts ==> TimesOf(z, id) == Times(None, Some(now)))
  {
    W.QuietIsStalled(c, Seen(y, id), now);
  }

  /** Once given up, a sniffer is left alone. */
  lemma StuckIsLeftAlone(c: W.Config, y: System, id: string, now: real)
    requires y.co.roles.Keys == y.co.sniffers.Keys && id in y.co.sniffers && id in y.wd.stuck
    ensures Visit(c, y, id, now) == y
  {
  }

  lemma CapturingStands(y: System, z: System, id: string)
    requires Capturing(y, id) && z.co.roles == y.co.roles && id in z.co.sniffers
    requires z.co.sniffers[id].running && !z.co.sniffers[id].mode.Stopped?
    ensures Capturing(z, id)
  {
  }

  /**
   A pinned or following sniffer that delivers nothing, not even after its restarts, is restarted at each of the first
   `maxAttempts` ticks, captures all along, and is given up exactly at the next: stuck from then on.
   */
  lemma {:induction false} DeadSnifferBecomesStuck(c: W.Config, y: System, id: string, rs: Rounds)
    requires y.co.roles.Keys == y.co.sniffers.Keys && Capturing(y, id) && Spaced(c, y, rs, id)
    requires W.AttemptOf(y.wd, id) == W.Attempt(0, 0.0, false) && id !in y.wd.stuck
    requires rs != [] ==> Quiet(y, id, rs[0].1, c.threshold)
    ensures var z, n := AfterRounds(c, y, rs), |rs|;
      && Capturing(z, id)
      && W.AttemptOf(z.wd, id).count == (if n <= c.maxAttempts then n else c.maxAttempts + 1)
      && (id in z.wd.stuck <==> n > c.maxAttempts)
      && (0 < n <= c.maxAttempts ==>
            TimesOf(z, id) == Times(None, Some(rs[n - 1].1)) && W.AttemptOf(z.wd, id).lastAt == rs[n - 1].1)
      && (n == 0 ==> StandingOf(z, id) == StandingOf(y, id))
    decreases |rs|
  {
    hide Visit, Tick, W.AttemptOf, TimesOf;
    if rs != [] {
      var pre, last := rs[..|rs| - 1], rs[|rs| - 1];
      assert last in rs && forall r :: r in pre ==> r in rs;
      assert forall k :: 0 <= k < |pre| ==> pre[k] == rs[k];
      DeadSnifferBecomesStuck(c, y, id, pre);
      var mid := AfterRounds(c, y, pre);
      TickVisitsAlone(c, mid, last.0, last.1, id);
      if |pre| <= c.maxAttempts {
        if |pre| > 0 { assert rs[|rs| - 1].1 - rs[|rs| - 2].1 > c.threshold; }
        VisitEscalates(c, mid, id, last.1);
        CapturingStands(mid, AfterRounds(c, y, rs), id);
      } else {
        StuckIsLeftAlone(c, mid, id, last.1);
      }
    }
  }
}
