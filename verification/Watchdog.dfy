/** The stall watchdog: which sniffers are silent, how often each is restarted, and when it gives up. */
module Watchdog {
  import opened Wrappers

  /** What the watchdog sees of one sniffer process. */
  datatype Sniffer = Sniffer(id: string, running: bool, idle: bool, lastPacket: Option<real>, startedAt: Option<real>)

  datatype Config = Config(threshold: real, maxAttempts: nat, minGap: real)

  datatype Attempt = Attempt(count: nat, lastAt: real, givenUp: bool)

  /** The record of what happened: an attempt, with or without a restart, or a reset. */
  datatype Event = Attempted(id: string, at: real, restarted: bool) | ResetOne(id: string) | ResetEvery

  datatype State = State(attempts: map<string, Attempt>, stuck: set<string>, log: seq<Event>)

  const START := State(map[], {}, [])

  predicate Eligible(w: State, s: Sniffer) {
    s.running && !s.idle && s.id !in w.stuck
  }

  /** Silent past the threshold, counted from the last packet, or from the start when there was none yet. */
  predicate Stalled(c: Config, s: Sniffer, now: real) {
    match s.lastPacket
    case Some(t) => now - t > c.threshold
    case None => s.startedAt.Some? && now - s.startedAt.value > c.threshold
  }

  predicate Silent(c: Config, w: State, s: Sniffer, now: real) {
    Eligible(w, s) && Stalled(c, s, now)
  }

  function AttemptOf(w: State, id: string): Attempt {
    if id in w.attempts then w.attempts[id] else Attempt(0, 0.0, false)
  }

  /** A time of exactly zero counts as never. */
  predicate TooSoon(c: Config, a: Attempt, now: real) {
    a.lastAt != 0.0 && now - a.lastAt < c.minGap
  }

  function OnStall(c: Config, w: State, id: string, now: real): State {
    var a := AttemptOf(w, id);
    if TooSoon(c, a, now) then w.(attempts := w.attempts[id := a])
    else
      var count := a.count + 1;
      var over := count > c.maxAttempts;
      State(w.attempts[id := Attempt(count, now, a.givenUp || over)],
            if over then w.stuck + {id} else w.stuck,
            w.log + [Attempted(id, now, !over)])
  }

  function Visit(c: Config, w: State, s: Sniffer, now: real): State {
    if Silent(c, w, s, now) then OnStall(c, w, s.id, now) else w
  }

  function TickState(c: Config, w: State, ss: seq<Sniffer>, now: real): State {
    if ss == [] then w else Visit(c, TickState(c, w, ss[..|ss| - 1], now), ss[|ss| - 1], now)
  }

  function TickResult(c: Config, w: State, ss: seq<Sniffer>, now: real): seq<string> {
    if ss == [] then []
    else
      var last := ss[|ss| - 1];
      TickResult(c, w, ss[..|ss| - 1], now)
      + if Silent(c, TickState(c, w, ss[..|ss| - 1], now), last, now) then [last.id] else []
  }

  function Reset(w: State, id: string): State {
    State(w.attempts - {id}, w.stuck - {id}, w.log + [ResetOne(id)])
  }

  function ResetAll(w: State): State {
    State(map[], {}, w.log + [ResetEvery])
  }

  class StallWatchdog {
    const config: Config
    var attempts: map<string, Attempt>
    var stuck: set<string>
    ghost var log: seq<Event>

    ghost function View(): State
      reads this
    {
      State(attempts, stuck, log)
    }

    constructor (config: Config)
      ensures View() == START && this.config == config
    {
      this.config := config;
      attempts, stuck, log := map[], {}, [];
    }

    method OnStalled(id: string, now: real) returns (restart: bool)
      modifies this
      ensures View() == OnStall(config, old(View()), id, now)
    {
      restart := false;
      if id !in attempts {
        attempts := attempts[id := Attempt(0, 0.0, false)];
      }
      var a := attempts[id];
      if a.lastAt != 0.0 && now - a.lastAt < config.minGap {
        return;
      }
      a := a.(count := a.count + 1, lastAt := now);
      attempts := attempts[id := a];
      if a.count > config.maxAttempts {
        attempts := attempts[id := a.(givenUp := true)];
        stuck := stuck + {id};
        log := log + [Attempted(id, now, false)];
        return;
      }
      log := log + [Attempted(id, now, true)];
      restart := true;
    }

    method Tick(ss: seq<Sniffer>, now: real) returns (stalled: seq<string>)
      modifies this
      ensures View() == TickState(config, old(View()), ss, now)
      ensures stalled == TickResult(config, old(View()), ss, now)
    {
      stalled := [];
      for i := 0 to |ss|
        invariant View() == TickState(config, old(View()), ss[..i], now)
        invariant stalled == TickResult(config, old(View()), ss[..i], now)
      {
        assert ss[..i + 1][..i] == ss[..i];
        var s := ss[i];
        if s.running && !s.idle && s.id !in stuck && Stalled(config, s, now) {
          stalled := stalled + [s.id];
          var restart := OnStalled(s.id, now);
        }
      }
      assert ss[..|ss|] == ss;
    }

    method CurrentlySilent(ss: seq<Sniffer>, now: real) returns (silent: set<string>)
      ensures silent == set s | s in ss && Silent(config, View(), s, now) :: s.id
    {
      silent := {};
      for i := 0 to |ss|
        invariant silent == set s | s in ss[..i] && Silent(config, View(), s, now) :: s.id
      {
        assert ss[..i + 1] == ss[..i] + [ss[i]];
        var s := ss[i];
        if s.running && !s.idle && s.id !in stuck && Stalled(config, s, now) {
          silent := silent + {s.id};
        }
      }
      assert ss[..|ss|] == ss;
    }

    method ResetSniffer(id: string)
      modifies this
      ensures View() == Reset(old(View()), id)
    {
      attempts := attempts - {id};
      stuck := stuck - {id};
      log := log + [ResetOne(id)];
    }

    method ResetEverything()
      modifies this
      ensures View() == ResetAll(old(View()))
    {
      attempts, stuck := map[], {};
      log := log + [ResetEvery];
    }
  }

  // ------------------------------------------------------ what the log says

  /** The attempts on `id` since it was last reset. */
  function Since(log: seq<Event>, id: string): seq<Event> {
    if log == [] then []
    else
      var before, e := Since(log[..|log| - 1], id), log[|log| - 1];
      match e
      case ResetEvery => []
      case ResetOne(k) => if k == id then [] else before
      case Attempted(k, _, _) => if k == id then before + [e] else before
  }

  /** Attempts are numbered from one: the first `maxAttempts` restart, the next gives up, and each waits out the gap. */
  ghost predicate Disciplined(c: Config, es: seq<Event>) {
    && |es| <= c.maxAttempts + 1
    && (forall k :: 0 <= k < |es| ==> es[k].Attempted? && (es[k].restarted <==> k < c.maxAttempts))
    && (forall k :: 0 < k < |es| && es[k - 1].at != 0.0 ==> es[k].at - es[k - 1].at >= c.minGap)
  }

  /** The in-memory bookkeeping of `id` summarises its attempts since the last reset. */
  ghost predicate Faithful(c: Config, w: State, id: string) {
    var es, a := Since(w.log, id), AttemptOf(w, id);
    && Disciplined(c, es)
    && a.count == |es|
    && (es == [] ==> a.lastAt == 0.0)
    && (es != [] ==> a.lastAt == es[|es| - 1].at)
    && (id in w.stuck <==> a.count == c.maxAttempts + 1) && (a.givenUp <==> id in w.stuck)
  }

  lemma SinceSnoc(log: seq<Event>, e: Event, id: string)
    ensures Since(log + [e], id) ==
      match e
      case ResetEvery => []
      case ResetOne(k) => if k == id then [] else Since(log, id)
      case Attempted(k, _, _) => if k == id then Since(log, id) + [e] else Since(log, id)
  {
  }

  lemma StallKeepsFaithful(c: Config, w: State, id: string, now: real, k: string)
    requires Faithful(c, w, k) && (k == id ==> id !in w.stuck)
    ensures Faithful(c, OnStall(c, w, id, now), k)
  {
    hide Since;
    var a := AttemptOf(w, id);
    if !TooSoon(c, a, now) {
      SinceSnoc(w.log, Attempted(id, now, !(a.count + 1 > c.maxAttempts)), k);
    }
  }

  lemma {:induction false} TickKeepsFaithful(c: Config, w: State, ss: seq<Sniffer>, now: real, k: string)
    requires Faithful(c, w, k)
    ensures Faithful(c, TickState(c, w, ss, now), k)
    decreases |ss|
  {
    if ss != [] {
      var pre, s := ss[..|ss| - 1], ss[|ss| - 1];
      TickKeepsFaithful(c, w, pre, now, k);
      var mid := TickState(c, w, pre, now);
      if Silent(c, mid, s, now) {
        StallKeepsFaithful(c, mid, s.id, now, k);
      }
    }
  }

  datatype Step = Tick(ss: seq<Sniffer>, now: real) | ResetStep(id: string) | ResetAllStep

  function After(c: Config, w: State, s: Step): State {
    match s
    case Tick(ss, now) => TickState(c, w, ss, now)
    case ResetStep(id) => Reset(w, id)
    case ResetAllStep => ResetAll(w)
  }

  function RunAll(c: Config, steps: seq<Step>): State {
    if steps == [] then START else After(c, RunAll(c, steps[..|steps| - 1]), steps[|steps| - 1])
  }

  /**
   Over every run, whatever the clock does: between resets a sniffer is restarted at most `maxAttempts`
   times, attempts keep their distance, and it is stuck exactly once the attempt after the last restart was made.
   */
  lemma {:induction false} RunsAreDisciplined(c: Config, steps: seq<Step>, id: string)
    ensures Faithful(c, RunAll(c, steps), id)
  {
    hide Faithful, After;
    if steps == [] {
      StartIsFaithful(c, id);
    } else {
      RunsAreDisciplined(c, steps[..|steps| - 1], id);
      StepKeepsFaithful(c, RunAll(c, steps[..|steps| - 1]), steps[|steps| - 1], id);
    }
  }

  lemma StartIsFaithful(c: Config, id: string)
    ensures Faithful(c, START, id)
  {
    NothingYet(c, id);
  }

  lemma StepKeepsFaithful(c: Config, w: State, s: Step, id: string)
    requires Faithful(c, w, id)
    ensures Faithful(c, After(c, w, s), id)
  {
    hide TickState, Disciplined, Since;
    match s {
      case Tick(ss, now) => TickKeepsFaithful(c, w, ss, now, id);
      case ResetStep(k) =>
        SinceSnoc(w.log, ResetOne(k), id);
        NothingYet(c, id);
      case ResetAllStep =>
        SinceSnoc(w.log, ResetEvery, id);
        NothingYet(c, id);
    }
  }

  lemma NothingYet(c: Config, id: string)
    ensures Since([], id) == [] && Disciplined(c, [])
  {
  }

  function Restarts(es: seq<Event>): nat {
    if es == [] then 0
    else Restarts(es[..|es| - 1]) + if es[|es| - 1].Attempted? && es[|es| - 1].restarted then 1 else 0
  }

  lemma {:induction false} RestartsBounded(c: Config, es: seq<Event>)
    requires Disciplined(c, es)
    ensures Restarts(es) == if |es| <= c.maxAttempts then |es| else c.maxAttempts
  {
    if es != [] {
      var pre := es[..|es| - 1];
      assert forall k :: 0 <= k < |pre| ==> pre[k] == es[k];
      RestartsBounded(c, pre);
    }
  }

  /** A clock that reads exactly zero disarms the gap: two attempts may follow at once. */
  lemma ZeroClockDefeatsGap()
    ensures var c := Config(60.0, 3, 30.0);
      var s := Sniffer("d", true, false, Some(-100.0), Some(-200.0));
      var w := RunAll(c, [Tick([s], 0.0), Tick([s], 1.0)]);
      Since(w.log, "d") == [Attempted("d", 0.0, true), Attempted("d", 1.0, true)]
  {
    var c := Config(60.0, 3, 30.0);
    var s := Sniffer("d", true, false, Some(-100.0), Some(-200.0));
    var steps := [Tick([s], 0.0), Tick([s], 1.0)];
    OneSnifferTick(c, START, s, 0.0);
    var w1 := OnStall(c, START, "d", 0.0);
    assert [Tick([s], 0.0)][..0] == [] && RunAll(c, []) == START;
    assert RunAll(c, [Tick([s], 0.0)]) == w1;
    OneSnifferTick(c, w1, s, 1.0);
    assert steps[..1] == [Tick([s], 0.0)];
    assert RunAll(c, steps) == OnStall(c, w1, "d", 1.0);
    SinceSnoc([], Attempted("d", 0.0, true), "d");
    SinceSnoc(w1.log, Attempted("d", 1.0, true), "d");
  }

  lemma OneSnifferTick(c: Config, w: State, s: Sniffer, now: real)
    ensures TickState(c, w, [s], now) == Visit(c, w, s, now)
  {
  }

  // ---------------------------------------------------------- one tick, per id

  ghost predicate DistinctIds(ss: seq<Sniffer>) {
    forall i, j :: 0 <= i < j < |ss| ==> ss[i].id != ss[j].id
  }

  lemma {:induction false} TickLeavesOthers(c: Config, w: State, ss: seq<Sniffer>, now: real, id: string)
    requires forall s :: s in ss ==> s.id != id
    ensures var r := TickState(c, w, ss, now);
      AttemptOf(r, id) == AttemptOf(w, id) && (id in r.stuck <==> id in w.stuck)
    decreases |ss|
  {
    if ss != [] {
      assert ss[|ss| - 1] in ss;
      TickLeavesOthers(c, w, ss[..|ss| - 1], now, id);
    }
  }

  /** In a tick over distinct sniffers each is judged as if it were alone. */
  lemma {:induction false} TickJudgesAlone(c: Config, w: State, ss: seq<Sniffer>, now: real, s: Sniffer)
    requires DistinctIds(ss) && s in ss
    ensures var r := TickState(c, w, ss, now);
      && AttemptOf(r, s.id) == AttemptOf(Visit(c, w, s, now), s.id)
      && (s.id in r.stuck <==> s.id in Visit(c, w, s, now).stuck)
    ensures s.id in TickResult(c, w, ss, now) <==> Silent(c, w, s, now)
    decreases |ss|
  {
    var pre, last := ss[..|ss| - 1], ss[|ss| - 1];
    if last == s {
      forall t | t in pre
        ensures t.id != s.id
      {
        var i :| 0 <= i < |pre| && pre[i] == t;
        assert ss[i] == t && ss[|ss| - 1] == s;
      }
      TickLeavesOthers(c, w, pre, now, s.id);
      if s.id in TickResult(c, w, pre, now) {
        ResultNamesTicked(c, w, pre, now, s.id);
      }
    } else {
      assert s in pre;
      TickJudgesAlone(c, w, pre, now, s);
      var i :| 0 <= i < |pre| && pre[i] == s;
      assert ss[i].id != ss[|ss| - 1].id;
    }
  }

  lemma {:induction false} ResultNamesTicked(c: Config, w: State, ss: seq<Sniffer>, now: real, id: string)
    requires id in TickResult(c, w, ss, now)
    ensures exists s :: s in ss && s.id == id
    decreases |ss|
  {
    var pre, last := ss[..|ss| - 1], ss[|ss| - 1];
    if last.id == id {
      assert last in ss;
    } else {
      ResultNamesTicked(c, w, pre, now, id);
      var s :| s in pre && s.id == id;
      assert s in ss;
    }
  }

  /** What a tick reports as stalled is exactly what the read-only inspector reports on the same state. */
  lemma TickReportsSilent(c: Config, w: State, ss: seq<Sniffer>, now: real)
    requires DistinctIds(ss)
    ensures (set id | id in TickResult(c, w, ss, now)) == set s | s in ss && Silent(c, w, s, now) :: s.id
  {
    forall id: string
      ensures id in TickResult(c, w, ss, now) <==> exists s :: s in ss && Silent(c, w, s, now) && s.id == id
    {
      if id in TickResult(c, w, ss, now) {
        ResultNamesTicked(c, w, ss, now, id);
        var s :| s in ss && s.id == id;
        TickJudgesAlone(c, w, ss, now, s);
      }
      if s :| s in ss && Silent(c, w, s, now) && s.id == id {
        TickJudgesAlone(c, w, ss, now, s);
      }
    }
  }

  /** The last packet, or the start when there was none yet, lies more than the threshold back. */
  predicate QuietTooLong(s: Sniffer, now: real, threshold: real) {
    && (s.lastPacket.Some? ==> s.lastPacket.value + threshold < now)
    && (s.lastPacket.None? ==> s.startedAt.Some? && s.startedAt.value + threshold < now)
  }

  /** A tick reports exactly the sniffers that should capture, have not been given up, and have been quiet too long. */
  lemma TickReportsExactly(c: Config, w: State, ss: seq<Sniffer>, now: real, s: Sniffer)
    requires DistinctIds(ss) && s in ss
    ensures s.id in TickResult(c, w, ss, now) <==>
      s.running && !s.idle && s.id !in w.stuck && QuietTooLong(s, now, c.threshold)
  {
    TickJudgesAlone(c, w, ss, now, s);
  }

  // ------------------------------------------------------------- escalation

  /** One tick at which sniffer `s` is supposed to capture but has been silent too long. */
  datatype Round = Round(ss: seq<Sniffer>, s: Sniffer, now: real)

  ghost predicate SilentRounds(c: Config, id: string, rs: seq<Round>) {
    && (forall k :: 0 <= k < |rs| ==>
          DistinctIds(rs[k].ss) && rs[k].s in rs[k].ss && rs[k].s.id == id
          && rs[k].s.running && !rs[k].s.idle && QuietTooLong(rs[k].s, rs[k].now, c.threshold))
    && (forall k :: 0 < k < |rs| ==> rs[k].now - rs[k - 1].now >= c.minGap)
  }

  function AfterRounds(c: Config, w: State, rs: seq<Round>): State {
    if rs == [] then w
    else TickState(c, AfterRounds(c, w, rs[..|rs| - 1]), rs[|rs| - 1].ss, rs[|rs| - 1].now)
  }

  lemma QuietIsStalled(c: Config, s: Sniffer, now: real)
    ensures QuietTooLong(s, now, c.threshold) <==> Stalled(c, s, now)
  {
  }

  /**
   A sniffer that stays silent through ticks at least a gap apart is restarted at each of the first
   `maxAttempts` and is given up at the next one: stuck exactly from tick number `maxAttempts + 1` on.
   */
  lemma {:induction false} SilentBecomesStuck(c: Config, w: State, id: string, rs: seq<Round>)
    requires AttemptOf(w, id) == Attempt(0, 0.0, false) && id !in w.stuck && SilentRounds(c, id, rs)
    ensures var r := AfterRounds(c, w, rs);
      && AttemptOf(r, id).count == (if |rs| <= c.maxAttempts then |rs| else c.maxAttempts + 1)
      && (id in r.stuck <==> |rs| > c.maxAttempts)
      && (0 < |rs| <= c.maxAttempts + 1 ==> AttemptOf(r, id).lastAt == rs[|rs| - 1].now)
    decreases |rs|
  {
    hide Stalled, QuietTooLong, DistinctIds;
    if rs != [] {
      var pre, last := rs[..|rs| - 1], rs[|rs| - 1];
      assert forall k :: 0 <= k < |pre| ==> pre[k] == rs[k];
      SilentBecomesStuck(c, w, id, pre);
      QuietIsStalled(c, last.s, last.now);
      var mid := AfterRounds(c, w, pre);
      TickJudgesAlone(c, mid, last.ss, last.now, last.s);
      if |pre| > 0 {
        assert last.now - rs[|rs| - 2].now >= c.minGap;
      }
    }
  }
}
