/** The circular bins of the channel strip: a fixed 40 by 30 table that always shows the window of its history. */
module ChannelBins {
  import opened BinClock

  const HIST_BIN_MS: int := 50

  /** The latest clock bin not after `clock` that slot `j` of the ring stands for. */
  function SlotBin(clock: int, j: int): int {
    clock - (clock - j) % HIST_BINS
  }

  /** Packets on a channel stamped with clock bin `b`. */
  function CountAt(hits: seq<Hit>, channel: int, b: int): nat {
    if hits == [] then 0
    else
      var h := hits[|hits| - 1];
      CountAt(hits[..|hits| - 1], channel, b) + if h.channel == channel && h.clockBin == b then 1 else 0
  }

  lemma SlotOf(clock: int, j: int, b: int)
    requires 0 <= j < HIST_BINS
    ensures SlotBin(clock, j) == b <==> j == b % HIST_BINS && clock - HIST_BINS < b <= clock
  {
  }

  /** Moving the clock on by one renames only the slot it moves onto. */
  lemma SlotAdvances(clock: int, j: int)
    requires 0 <= j < HIST_BINS
    ensures SlotBin(clock + 1, j) == if j == (clock + 1) % HIST_BINS then clock + 1 else SlotBin(clock, j)
  {
    SlotOf(clock + 1, j, clock + 1);
    SlotOf(clock + 1, j, SlotBin(clock, j));
    SlotOf(clock, j, SlotBin(clock, j));
  }

  lemma {:induction false} NoneLater(hits: seq<Hit>, channel: int, b: int)
    requires forall i :: 0 <= i < |hits| ==> hits[i].clockBin < b
    ensures CountAt(hits, channel, b) == 0
  {
    if hits != [] { NoneLater(hits[..|hits| - 1], channel, b); }
  }

  /** The total over the first `n` slots. */
  function SlotSum(hits: seq<Hit>, channel: int, clock: int, n: nat): nat {
    if n == 0 then 0 else SlotSum(hits, channel, clock, n - 1) + CountAt(hits, channel, SlotBin(clock, n - 1))
  }

  lemma {:induction false} SlotSumEmpty(channel: int, clock: int, n: nat)
    ensures SlotSum([], channel, clock, n) == 0
  {
    if n > 0 { SlotSumEmpty(channel, clock, n - 1); }
  }

  lemma {:induction false} SlotSumSnoc(hits: seq<Hit>, h: Hit, channel: int, clock: int, n: nat)
    requires n <= HIST_BINS
    ensures SlotSum(hits + [h], channel, clock, n) == SlotSum(hits, channel, clock, n)
      + if h.channel == channel && clock - HIST_BINS < h.clockBin <= clock && h.clockBin % HIST_BINS < n then 1 else 0
    decreases n
  {
    if n > 0 {
      SlotSumSnoc(hits, h, channel, clock, n - 1);
      SlotOf(clock, n - 1, h.clockBin);
      assert (hits + [h])[..|hits|] == hits;
    }
  }

  /** The sum over all slots is the number of packets shown. */
  lemma {:induction false} SlotsAreWindow(hits: seq<Hit>, channel: int, clock: int)
    ensures SlotSum(hits, channel, clock, HIST_BINS) == Shown(hits, channel, clock)
    decreases |hits|
  {
    if hits == [] {
      SlotSumEmpty(channel, clock, HIST_BINS);
    } else {
      var pre, h := hits[..|hits| - 1], hits[|hits| - 1];
      assert hits == pre + [h];
      SlotsAreWindow(pre, channel, clock);
      SlotSumSnoc(pre, h, channel, clock, HIST_BINS);
    }
  }

  class ChannelStrip {
    const bins: array2<nat>
    var binIndex: nat
    var binStartedAt: int
    // The time of construction, and the history the bins stand for.
    ghost const origin: int
    ghost var strip: Strip

    /** Every cell holds the count of the bin its slot stands for. */
    ghost predicate Ring()
      reads this, bins
    {
      && bins.Length0 == NUM_CHANNELS && bins.Length1 == HIST_BINS
      && binIndex == strip.clock % HIST_BINS
      && (forall i :: 0 <= i < |strip.hits| ==> strip.hits[i].clockBin <= strip.clock)
      && (forall c, j :: 0 <= c < NUM_CHANNELS && 0 <= j < HIST_BINS ==>
            bins[c, j] == CountAt(strip.hits, c, SlotBin(strip.clock, j)))
    }

    ghost predicate Valid()
      reads this, bins
    {
      Ring() && binStartedAt == origin + strip.clock * HIST_BIN_MS
    }

    /** The bin that wall-clock time `now` falls in. */
    ghost function TrueBin(now: int): int {
      (now - origin) / HIST_BIN_MS
    }

    constructor (now: int)
      ensures Valid() && fresh(bins) && origin == now && strip == BLANK
    {
      bins := new nat[NUM_CHANNELS, HIST_BINS]((i, j) => 0);
      binIndex, binStartedAt := 0, now;
      origin, strip := now, BLANK;
    }

    /** Step onto the next slot and clear it for every channel. */
    method Advance()
      requires Ring()
      modifies this`binIndex, this`strip, bins
      ensures Ring() && strip == old(strip).(clock := old(strip).clock + 1)
    {
      hide CountAt, SlotBin;
      binIndex := (binIndex + 1) % HIST_BINS;
      ghost var clock := strip.clock;
      for c := 0 to NUM_CHANNELS
        modifies bins
        invariant forall d, j :: 0 <= d < NUM_CHANNELS && 0 <= j < HIST_BINS ==>
          bins[d, j] == if d < c && j == binIndex then 0 else old(bins[d, j])
      {
        bins[c, binIndex] := 0;
      }
      forall d, j | 0 <= d < NUM_CHANNELS && 0 <= j < HIST_BINS
        ensures bins[d, j] == CountAt(strip.hits, d, SlotBin(clock + 1, j))
      {
        SlotAdvances(clock, j);
        NoneLater(strip.hits, d, clock + 1);
      }
      strip := strip.(clock := clock + 1);
    }

    method RollBins(now: int)
      requires Valid()
      modifies this`binIndex, this`binStartedAt, this`strip, bins
      ensures Valid() && strip == old(strip).(clock := Rolled(old(strip).clock, TrueBin(now)))
    {
      var elapsed := now - binStartedAt;
      var steps := if elapsed <= 0 then 0 else elapsed / HIST_BIN_MS;
      ghost var clock := strip.clock;
      Elapsed(now - origin, clock);
      if steps <= 0 {
        return;
      }
      if steps > HIST_BINS { steps := HIST_BINS; }
      for k := 0 to steps
        invariant Ring() && strip == old(strip).(clock := clock + k) && binStartedAt == old(binStartedAt)
      {
        Advance();
      }
      binStartedAt := binStartedAt + steps * HIST_BIN_MS;
    }

    /** Count one packet in the current bin of its channel; a channel outside the strip is ignored. */
    method NotifyPacket(channel: int, now: int)
      requires Valid()
      modifies this`binIndex, this`binStartedAt, this`strip, bins
      ensures Valid() && strip == After(old(strip), Packet(channel, TrueBin(now)))
    {
      if !(0 <= channel < NUM_CHANNELS) {
        return;
      }
      RollBins(now);
      ghost var h := Hit(channel, TrueBin(now), strip.clock);
      bins[channel, binIndex] := bins[channel, binIndex] + 1;
      forall c, j | 0 <= c < NUM_CHANNELS && 0 <= j < HIST_BINS
        ensures bins[c, j] == CountAt(strip.hits + [h], c, SlotBin(strip.clock, j))
      {
        SlotOf(strip.clock, j, strip.clock);
        assert (strip.hits + [h])[..|strip.hits|] == strip.hits;
      }
      strip := Strip(strip.clock, strip.hits + [h]);
    }

    /** The bar of one channel: the sum over its ring is the packets the history shows in the window. */
    method BarHeight(channel: int) returns (height: nat)
      requires Valid() && 0 <= channel < NUM_CHANNELS
      ensures height == Shown(strip.hits, channel, strip.clock)
    {
      height := 0;
      for j := 0 to HIST_BINS
        invariant height == SlotSum(strip.hits, channel, strip.clock, j)
      {
        height := height + bins[channel, j];
      }
      SlotsAreWindow(strip.hits, channel, strip.clock);
    }
  }

  lemma Elapsed(since: int, clock: int)
    ensures var elapsed := since - clock * HIST_BIN_MS;
      && (elapsed > 0 ==> elapsed / HIST_BIN_MS == since / HIST_BIN_MS - clock)
      && (elapsed <= 0 ==> since / HIST_BIN_MS <= clock)
  {
  }
}
