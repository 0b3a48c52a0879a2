/**
 The rolling histogram behind the channel strip, as a history: every packet is stamped with the true
 bin it arrived in and with the bin the strip's own, possibly lagging, clock had reached.
 */
module BinClock {
  const NUM_CHANNELS: nat := 40
  const HIST_BINS: nat := 30

  datatype Hit = Hit(channel: int, trueBin: int, clockBin: int)

  datatype Strip = Strip(clock: int, hits: seq<Hit>)

  const BLANK := Strip(0, [])

  /** The bin clock after a roll at true bin `now`: it catches up, but by at most one window. */
  function Rolled(clock: int, now: int): int {
    if now <= clock then clock else if now - clock <= HIST_BINS then now else clock + HIST_BINS
  }

  /** A repaint at true bin `now`, or a packet on a channel at true bin `now`. */
  datatype Event = Repaint(now: int) | Packet(channel: int, now: int)

  function After(s: Strip, e: Event): Strip {
    match e
    case Repaint(now) => s.(clock := Rolled(s.clock, now))
    case Packet(channel, now) =>
      if 0 <= channel < NUM_CHANNELS then
        var clock := Rolled(s.clock, now);
        Strip(clock, s.hits + [Hit(channel, now, clock)])
      else s
  }

  function RunAll(es: seq<Event>): Strip {
    if es == [] then BLANK else After(RunAll(es[..|es| - 1]), es[|es| - 1])
  }

  /** Packets on a channel whose clock bin lies in the window ending at `clock`. */
  function Shown(hits: seq<Hit>, channel: int, clock: int): nat {
    if hits == [] then 0
    else
      var h := hits[|hits| - 1];
      Shown(hits[..|hits| - 1], channel, clock)
      + if h.channel == channel && clock - HIST_BINS < h.clockBin <= clock then 1 else 0
  }

  /** Packets on a channel in the trailing 30 true bins. */
  function Trailing(hits: seq<Hit>, channel: int, now: int): nat {
    if hits == [] then 0
    else
      var h := hits[|hits| - 1];
      Trailing(hits[..|hits| - 1], channel, now)
      + if h.channel == channel && now - HIST_BINS < h.trueBin <= now then 1 else 0
  }

  /** Time does not run backwards, and a packet on no displayed channel does not touch the strip. */
  ghost predicate Monotone(es: seq<Event>) {
    && (forall i :: 0 <= i < |es| ==> es[i].now >= 0 && (es[i].Packet? ==> 0 <= es[i].channel < NUM_CHANNELS))
    && (forall i :: 0 < i < |es| ==> es[i - 1].now <= es[i].now)
  }

  function Now(es: seq<Event>): int {
    if es == [] then 0 else es[|es| - 1].now
  }

  /** Successive rolls are at most one window apart. */
  ghost predicate Prompt(es: seq<Event>) {
    (es != [] ==> es[0].now <= HIST_BINS) && forall i :: 0 < i < |es| ==> es[i].now - es[i - 1].now <= HIST_BINS
  }

  /** The clock never runs ahead, and a packet still in its window was stamped with at least the present lag. */
  ghost predicate LagShrinks(s: Strip, now: int) {
    && s.clock <= now
    && forall i :: 0 <= i < |s.hits| ==>
         var h := s.hits[i];
         && h.clockBin <= s.clock && h.trueBin <= now
         && (s.clock - HIST_BINS < h.clockBin ==> now - s.clock <= h.trueBin - h.clockBin)
  }

  lemma RollKeepsLag(s: Strip, before: int, now: int)
    requires LagShrinks(s, before) && before <= now
    ensures LagShrinks(s.(clock := Rolled(s.clock, now)), now)
  {
  }

  lemma {:induction false} RunsKeepLag(es: seq<Event>)
    requires Monotone(es)
    ensures LagShrinks(RunAll(es), Now(es))
  {
    if es != [] {
      var pre, e := es[..|es| - 1], es[|es| - 1];
      assert forall i :: 0 <= i < |pre| ==> pre[i] == es[i];
      RunsKeepLag(pre);
      var s := RunAll(pre);
      if pre != [] { assert pre[|pre| - 1] == es[|es| - 2]; }
      assert Now(pre) <= e.now;
      RollKeepsLag(s, Now(pre), e.now);
    }
  }

  lemma {:induction false} ShownAtMostTrailing(s: Strip, hits: seq<Hit>, now: int, channel: int)
    requires LagShrinks(s, now) && hits <= s.hits
    ensures Shown(hits, channel, s.clock) <= Trailing(hits, channel, now)
    decreases |hits|
  {
    if hits != [] {
      assert hits[|hits| - 1] == s.hits[|hits| - 1];
      ShownAtMostTrailing(s, hits[..|hits| - 1], now, channel);
    }
  }

  /** Whatever the gaps between rolls, a bar never shows more packets than really fell in the trailing window. */
  lemma NeverTooMany(es: seq<Event>, channel: int)
    requires Monotone(es)
    ensures Shown(RunAll(es).hits, channel, RunAll(es).clock) <= Trailing(RunAll(es).hits, channel, Now(es))
  {
    RunsKeepLag(es);
    ShownAtMostTrailing(RunAll(es), RunAll(es).hits, Now(es), channel);
  }

  lemma {:induction false} PromptKeepsTime(es: seq<Event>)
    requires Monotone(es) && Prompt(es)
    ensures var s := RunAll(es);
      s.clock == Now(es) && forall i :: 0 <= i < |s.hits| ==> s.hits[i].clockBin == s.hits[i].trueBin
  {
    if es != [] {
      var pre := es[..|es| - 1];
      assert forall i :: 0 <= i < |pre| ==> pre[i] == es[i];
      PromptKeepsTime(pre);
      if pre != [] { assert pre[|pre| - 1] == es[|es| - 2]; }
    }
  }

  lemma {:induction false} SameStampsSameCount(hits: seq<Hit>, channel: int, now: int)
    requires forall i :: 0 <= i < |hits| ==> hits[i].clockBin == hits[i].trueBin
    ensures Shown(hits, channel, now) == Trailing(hits, channel, now)
  {
    if hits != [] { SameStampsSameCount(hits[..|hits| - 1], channel, now); }
  }

  /** With rolls at most a window apart, every bar is exactly the packets of the trailing 30 bins. */
  lemma PromptIsExact(es: seq<Event>, channel: int)
    requires Monotone(es) && Prompt(es)
    ensures Shown(RunAll(es).hits, channel, RunAll(es).clock) == Trailing(RunAll(es).hits, channel, Now(es))
  {
    PromptKeepsTime(es);
    SameStampsSameCount(RunAll(es).hits, channel, Now(es));
  }

  // --------------------------------------------------- the lag, from times alone

  /** How far the bin clock trails: each gap between events adds to it, and each roll makes up for one window. */
  function Lag(es: seq<Event>): nat {
    if es == [] then 0
    else
      var owed := Lag(es[..|es| - 1]) + es[|es| - 1].now - Now(es[..|es| - 1]);
      if owed <= HIST_BINS then 0 else owed - HIST_BINS
  }

  lemma MonotonePrefix(es: seq<Event>)
    requires Monotone(es) && es != []
    ensures Monotone(es[..|es| - 1]) && Now(es[..|es| - 1]) <= Now(es)
  {
    var pre := es[..|es| - 1];
    assert forall i :: 0 <= i < |pre| ==> pre[i] == es[i];
    if pre != [] { assert pre[|pre| - 1] == es[|es| - 2]; }
  }

  /** The lag worked out from the event times is the lag of the strip's clock. */
  lemma {:induction false} LagIsClockLag(es: seq<Event>)
    requires Monotone(es)
    ensures RunAll(es).clock == Now(es) - Lag(es)
  {
    if es != [] {
      MonotonePrefix(es);
      LagIsClockLag(es[..|es| - 1]);
    }
  }

  /** How many packets there are among the events, and the hit each leaves. */
  function PacketsIn(es: seq<Event>): nat {
    if es == [] then 0 else PacketsIn(es[..|es| - 1]) + if es[|es| - 1].Packet? then 1 else 0
  }

  /** The hit of packet event `m`: stamped with its bin less the lag at that moment. */
  lemma {:induction false} HitOf(es: seq<Event>, m: nat)
    requires Monotone(es) && m < |es| && es[m].Packet?
    ensures var hits, k := RunAll(es).hits, PacketsIn(es[..m]);
      k < |hits| == PacketsIn(es) && hits[k] == Hit(es[m].channel, es[m].now, es[m].now - Lag(es[..m + 1]))
    decreases |es|
  {
    hide Lag;
    MonotonePrefix(es);
    var n := |es| - 1;
    var pre := es[..n];
    HitsCounted(pre);
    if m == n {
      assert es[..m + 1] == es;
      LagIsClockLag(es);
    } else {
      assert pre[..m] == es[..m] && pre[..m + 1] == es[..m + 1];
      HitOf(pre, m);
    }
  }

  lemma {:induction false} HitsCounted(es: seq<Event>)
    requires Monotone(es)
    ensures |RunAll(es).hits| == PacketsIn(es)
  {
    if es != [] {
      MonotonePrefix(es);
      HitsCounted(es[..|es| - 1]);
    }
  }

  /** Packet `m` fell in the trailing window, but so much of its lag has been made up since that it was pushed out. */
  predicate Lost(es: seq<Event>, m: nat)
    requires m < |es|
  {
    var age, madeUp := Now(es) - es[m].now, Lag(es[..m + 1]) - Lag(es);
    es[m].Packet? && HIST_BINS - madeUp <= age < HIST_BINS
  }

  /** From the event times alone: a packet of the trailing window is missing from the bars exactly when it is lost. */
  lemma LostExactly(es: seq<Event>, m: nat)
    requires Monotone(es) && m < |es| && es[m].Packet?
    ensures var s, k := RunAll(es), PacketsIn(es[..m]);
      && k < |s.hits| && s.hits[k].channel == es[m].channel && s.hits[k].trueBin == es[m].now
      && (Lost(es, m) <==>
            && Now(es) - HIST_BINS < s.hits[k].trueBin <= Now(es)
            && !(s.clock - HIST_BINS < s.hits[k].clockBin <= s.clock))
  {
    hide Lag;
    HitOf(es, m);
    LagIsClockLag(es);
    RunsKeepLag(es);
  }

  /** How many of the first `n` events are lost packets of a channel. */
  function LostCount(es: seq<Event>, channel: int, n: nat): nat
    requires n <= |es|
  {
    if n == 0 then 0
    else
      var lost := es[n - 1].Packet? && es[n - 1].channel == channel && Lost(es, n - 1);
      LostCount(es, channel, n - 1) + if lost then 1 else 0
  }

  /** A bar is short by exactly its lost packets. */
  lemma ShortByLost(es: seq<Event>, channel: int)
    requires Monotone(es)
    ensures Trailing(RunAll(es).hits, channel, Now(es))
         == Shown(RunAll(es).hits, channel, RunAll(es).clock) + LostCount(es, channel, |es|)
  {
    HitsCounted(es);
    ShortUpTo(es, channel, |es|);
    assert RunAll(es).hits[..|RunAll(es).hits|] == RunAll(es).hits && es[..|es|] == es;
  }

  lemma {:induction false} ShortUpTo(es: seq<Event>, channel: int, n: nat)
    requires Monotone(es) && n <= |es|
    ensures var s, k := RunAll(es), PacketsIn(es[..n]);
      k <= |s.hits|
      && Trailing(s.hits[..k], channel, Now(es)) == Shown(s.hits[..k], channel, s.clock) + LostCount(es, channel, n)
  {
    hide Lost, RunAll;
    var s := RunAll(es);
    if n > 0 {
      ShortUpTo(es, channel, n - 1);
      assert es[..n][..n - 1] == es[..n - 1];
      var k := PacketsIn(es[..n - 1]);
      if es[n - 1].Packet? {
        LostExactly(es, n - 1);
        RunsKeepLag(es);
        assert s.hits[..k + 1][..k] == s.hits[..k];
      }
    }
  }

  /** After a hundred idle bins the strip shows one of two packets heard a bin apart. */
  lemma IdleGapLosesPacket()
    ensures var es := [Packet(5, 100), Packet(5, 101)];
      Shown(RunAll(es).hits, 5, RunAll(es).clock) == 1 && Trailing(RunAll(es).hits, 5, Now(es)) == 2
  {
    var es := [Packet(5, 100), Packet(5, 101)];
    assert es[..1] == [Packet(5, 100)] && [Packet(5, 100)][..0] == [];
    var a, b := Hit(5, 100, 30), Hit(5, 101, 60);
    assert RunAll([]) == BLANK;
    assert RunAll([Packet(5, 100)]) == Strip(30, [a]) by { assert [] + [a] == [a]; }
    assert RunAll(es) == Strip(60, [a, b]);
    assert [a, b][..1] == [a] && [a][..0] == [];
    assert Shown([], 5, 60) == 0 && Trailing([], 5, 101) == 0;
    assert Shown([a], 5, 60) == 0;
    assert Trailing([a], 5, 101) == 1;
  }
}
