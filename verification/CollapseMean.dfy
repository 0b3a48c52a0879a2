/**
 When the blended mean of a collapsed cluster is its packet-weighted mean: a condition on who has a mean and who has
 packets.
 */
module CollapseMean {
  import opened Wrappers
  import opened Collapse
  import opened CollapseSignal
  import opened Reals

  /** One device as the blend sees it; a device without a mean is silent. */
  datatype Sample = Sample(avg: Option<real>, packets: nat)

  function SampleOf(d: Device): Sample {
    Sample(d.rssiAvg, d.packets)
  }

  /** The running mean and packet count of a box over its devices, the primary first. */
  function BlendAll(xs: seq<Sample>): Sample {
    if xs == [] then Sample(None, 0)
    else
      var b, x := BlendAll(xs[..|xs| - 1]), xs[|xs| - 1];
      Sample(BlendOf(b.avg, b.packets, x.avg, x.packets), b.packets + x.packets)
  }

  /** Packets of the devices that have a mean. */
  function Sounding(xs: seq<Sample>): nat {
    if xs == [] then 0 else Sounding(xs[..|xs| - 1]) + if xs[|xs| - 1].avg.Some? then xs[|xs| - 1].packets else 0
  }

  function SampleWeight(x: Sample): real {
    if x.avg.Some? then Times(x.avg.value, x.packets) else 0.0
  }

  function Weights(xs: seq<Sample>): real {
    if xs == [] then 0.0 else Weights(xs[..|xs| - 1]) + SampleWeight(xs[|xs| - 1])
  }

  /** The blend, if there is one, is the mean of the sounding devices weighted by their packets. */
  predicate IsWeightedMean(xs: seq<Sample>) {
    var b := BlendAll(xs);
    b.avg.Some? ==> Times(b.avg.value, Sounding(xs)) == Weights(xs)
  }

  predicate Sounds(x: Sample) {
    x.avg.Some?
  }

  predicate SomeSounds(xs: seq<Sample>) {
    exists i :: 0 <= i < |xs| && Sounds(xs[i])
  }

  /** Some device without a mean still has packets. */
  predicate SomeSilentPackets(xs: seq<Sample>) {
    exists i :: 0 <= i < |xs| && !Sounds(xs[i]) && xs[i].packets > 0
  }

  /** A device with a mean and packets comes after another with a mean and after a silent one with packets. */
  predicate Skewed(xs: seq<Sample>) {
    exists j :: 0 <= j < |xs| && SkewedAt(xs, j)
  }

  predicate SkewedAt(xs: seq<Sample>, j: nat)
    requires j < |xs|
  {
    Sounds(xs[j]) && xs[j].packets > 0 && SomeSounds(xs[..j]) && SomeSilentPackets(xs[..j])
  }

  // -------------------------------------------------------------- the count

  lemma {:induction false} BlendCounts(xs: seq<Sample>)
    ensures BlendAll(xs).packets >= Sounding(xs)
    ensures BlendAll(xs).packets > Sounding(xs) <==> SomeSilentPackets(xs)
    ensures BlendAll(xs).avg.Some? <==> SomeSounds(xs)
    ensures !SomeSounds(xs) ==> Sounding(xs) == 0 && Weights(xs) == 0.0
  {
    hide PooledMean, Times;
    if xs != [] {
      var pre, x := xs[..|xs| - 1], xs[|xs| - 1];
      BlendCounts(pre);
      assert forall i :: 0 <= i < |pre| ==> xs[i] == pre[i];
      assert SomeSounds(xs) <==> SomeSounds(pre) || Sounds(x);
      assert SomeSilentPackets(xs) <==> SomeSilentPackets(pre) || (!Sounds(x) && x.packets > 0);
    }
  }

  lemma TimesZero(v: real)
    ensures Times(v, 0) == 0.0
  {
  }

  /** Blending in no packets leaves the mean. */
  lemma BlendNone(a: real, m: nat, b: real)
    requires m > 0
    ensures PooledMean(a, m, b, 0) == a
  {
    MultiplyBack(a * m as real, m as real);
    assert PooledMean(a, m, b, 0) * m as real == a * m as real;
  }

  lemma {:induction false} SkewedGrows(xs: seq<Sample>)
    requires xs != []
    ensures Skewed(xs) <==> Skewed(xs[..|xs| - 1]) || SkewedAt(xs, |xs| - 1)
  {
    hide SomeSounds, SomeSilentPackets;
    var pre := xs[..|xs| - 1];
    forall j | 0 <= j < |pre|
      ensures SkewedAt(xs, j) <==> SkewedAt(pre, j)
    {
      assert pre[..j] == xs[..j];
    }
  }

  /** Unless skewed, the blend is the weighted mean. */
  lemma {:induction false} StraightIsMean(xs: seq<Sample>)
    requires !Skewed(xs)
    ensures IsWeightedMean(xs)
  {
    hide PooledMean, Times, Skewed, SomeSounds, SomeSilentPackets;
    if xs != [] {
      var pre, x := xs[..|xs| - 1], xs[|xs| - 1];
      SkewedGrows(xs);
      StraightIsMean(pre);
      BlendCounts(pre);
      var b := BlendAll(pre);
      if Sounds(x) {
        if x.packets == 0 {
          TimesZero(x.avg.value);
          if b.avg.Some? && b.packets > 0 { BlendNone(b.avg.value, b.packets, x.avg.value); }
        } else if b.avg.Some? {
          PooledTotal(b.avg.value, b.packets, x.avg.value, x.packets);
        }
      }
    }
  }

  // ---------------------------------------------------------- telling means

  /** The same devices, but those with a mean have mean 0, and device `j` mean 1. */
  function Marked(xs: seq<Sample>, j: nat): seq<Sample> {
    seq(|xs|, i requires 0 <= i < |xs| =>
      if Sounds(xs[i]) then Sample(Some(if i == j then 1.0 else 0.0), xs[i].packets) else xs[i])
  }

  predicate SameButMeans(xs: seq<Sample>, ys: seq<Sample>) {
    |xs| == |ys| && forall i :: 0 <= i < |xs| ==> xs[i].packets == ys[i].packets && (Sounds(xs[i]) <==> Sounds(ys[i]))
  }

  lemma {:induction false} AllZero(ys: seq<Sample>)
    requires forall i :: 0 <= i < |ys| && Sounds(ys[i]) ==> ys[i].avg == Some(0.0)
    ensures BlendAll(ys).avg.Some? ==> BlendAll(ys).avg == Some(0.0)
    ensures Weights(ys) == 0.0
  {
    hide BlendOf, SampleWeight;
    if ys != [] {
      var pre, last := ys[..|ys| - 1], ys[|ys| - 1];
      assert forall i :: 0 <= i < |pre| ==> pre[i] == ys[i];
      AllZero(pre);
      ZeroStep(BlendAll(pre), last);
    }
  }

  lemma ZeroStep(b: Sample, x: Sample)
    requires b.avg.Some? ==> b.avg == Some(0.0)
    requires Sounds(x) ==> x.avg == Some(0.0)
    ensures var a := BlendOf(b.avg, b.packets, x.avg, x.packets); a.Some? ==> a == Some(0.0)
    ensures SampleWeight(x) == 0.0
  {
    if b.avg.Some? && x.avg.Some? && b.packets + x.packets > 0 {
      var n := b.packets as real + x.packets as real;
      assert PooledMean(0.0, b.packets, 0.0, x.packets) == 0.0 / n == 0.0;
    }
  }

  /** A tail without packets under a mean changes neither the blend nor the weighted mean. */
  lemma {:induction false} QuietTail(ys: seq<Sample>, n: nat)
    requires n <= |ys| && BlendAll(ys[..n]).avg.Some? && BlendAll(ys[..n]).packets > 0
    requires forall i :: n <= i < |ys| && Sounds(ys[i]) ==> ys[i].packets == 0
    ensures BlendAll(ys).avg == BlendAll(ys[..n]).avg && BlendAll(ys).packets > 0
    ensures Sounding(ys) == Sounding(ys[..n]) && Weights(ys) == Weights(ys[..n])
    decreases |ys|
  {
    hide PooledMean, Times;
    if n == |ys| {
      assert ys[..n] == ys;
    } else {
      var pre, y := ys[..|ys| - 1], ys[|ys| - 1];
      assert pre[..n] == ys[..n];
      QuietTail(pre, n);
      if Sounds(y) {
        TimesZero(y.avg.value);
        BlendNone(BlendAll(pre).avg.value, BlendAll(pre).packets, y.avg.value);
      }
    }
  }

  /** With the last sounding packets marked, a skewed cluster blends to less than the weighted mean. */
  lemma MarkedMisses(xs: seq<Sample>, j: nat)
    requires j < |xs| && SkewedAt(xs, j)
    requires forall i :: j < i < |xs| && Sounds(xs[i]) ==> xs[i].packets == 0
    ensures SameButMeans(xs, Marked(xs, j)) && !IsWeightedMean(Marked(xs, j))
  {
    hide PooledMean, Times, SomeSounds, SomeSilentPackets;
    var ys := Marked(xs, j);
    var pre, k := ys[..j], xs[j].packets;
    MarkedPrefix(xs, j);
    AllZero(pre);
    BlendCounts(pre);
    assert ys[..j + 1][..j] == pre && ys[..j + 1][j] == ys[j];
    var p, s := BlendAll(pre).packets, Sounding(pre);
    assert BlendAll(ys[..j + 1]) == Sample(Some(PooledMean(0.0, p, 1.0, k)), p + k);
    assert Sounding(ys[..j + 1]) == s + k && Weights(ys[..j + 1]) == Times(1.0, k);
    QuietTail(ys, j + 1);
    FewerPackets(p, s, k);
  }

  /** Marking keeps who sounds and who is silent with packets before `j`. */
  lemma MarkedPrefix(xs: seq<Sample>, j: nat)
    requires j < |xs|
    ensures SomeSounds(Marked(xs, j)[..j]) <==> SomeSounds(xs[..j])
    ensures SomeSilentPackets(Marked(xs, j)[..j]) <==> SomeSilentPackets(xs[..j])
  {
    var pre, was := Marked(xs, j)[..j], xs[..j];
    assert forall i :: 0 <= i < j ==> Sounds(pre[i]) == Sounds(was[i]) && pre[i].packets == was[i].packets;
    if SomeSounds(was) {
      var i :| 0 <= i < j && Sounds(was[i]);
      assert Sounds(pre[i]);
    }
    if SomeSilentPackets(was) {
      var i :| 0 <= i < j && !Sounds(was[i]) && was[i].packets > 0;
      assert !Sounds(pre[i]) && pre[i].packets > 0;
    }
  }

  /** A share of `k` in `p + k` is not its share in the fewer `s + k`. */
  lemma FewerPackets(p: nat, s: nat, k: nat)
    requires s < p && k > 0
    ensures Times(PooledMean(0.0, p, 1.0, k), s + k) != Times(1.0, k)
  {
    var q, x, y, z := PooledMean(0.0, p, 1.0, k), p as real, s as real, k as real;
    MultiplyBack(z, x + z);
    assert q * (x + z) == z;
    assert (s + k) as real == y + z;
    if q <= 0.0 {
      Spread(q, 0.0, x + z);
    }
    StrictSpread(y + z, x + z, q);
  }

  /**
   Whatever the means, the blend is the packet-weighted mean of the devices that have one, exactly when no silent
   device with packets stands before a second or later device with a mean and packets.
   */
  lemma BlendIsMeanExactly(xs: seq<Sample>)
    ensures (forall ys :: SameButMeans(xs, ys) ==> IsWeightedMean(ys)) <==> !Skewed(xs)
  {
    hide IsWeightedMean, SkewedAt;
    if Skewed(xs) {
      var j :| 0 <= j < |xs| && SkewedAt(xs, j);
      var m := LastSkewed(xs, j);
      MarkedMisses(xs, m);
    } else {
      forall ys | SameButMeans(xs, ys)
        ensures IsWeightedMean(ys)
      {
        SameSkew(xs, ys);
        StraightIsMean(ys);
      }
    }
  }

  /** From a skewed position, the last position with a mean and packets is skewed too. */
  lemma LastSkewed(xs: seq<Sample>, j: nat) returns (m: nat)
    requires j < |xs| && SkewedAt(xs, j)
    ensures m < |xs| && SkewedAt(xs, m)
    ensures forall i :: m < i < |xs| && Sounds(xs[i]) ==> xs[i].packets == 0
  {
    m := j;
    for i := j + 1 to |xs|
      invariant j <= m < i && SkewedAt(xs, m)
      invariant forall k :: m < k < i && Sounds(xs[k]) ==> xs[k].packets == 0
    {
      if Sounds(xs[i]) && xs[i].packets > 0 {
        assert forall k :: 0 <= k < m ==> xs[..i][k] == xs[..m][k];
        m := i;
      }
    }
  }

  lemma SameSkew(xs: seq<Sample>, ys: seq<Sample>)
    requires SameButMeans(xs, ys)
    ensures Skewed(ys) ==> Skewed(xs)
  {
    if Skewed(ys) {
      var j :| 0 <= j < |ys| && SkewedAt(ys, j);
      assert forall i :: 0 <= i < j ==>
        xs[..j][i].packets == ys[..j][i].packets && Sounds(xs[..j][i]) == Sounds(ys[..j][i]);
      var a :| 0 <= a < j && Sounds(ys[..j][a]);
      var b :| 0 <= b < j && !Sounds(ys[..j][b]) && ys[..j][b].packets > 0;
      assert Sounds(xs[..j][a]) && !Sounds(xs[..j][b]) && xs[..j][b].packets > 0;
      assert SkewedAt(xs, j);
    }
  }

  // -------------------------------------------------------------- the canvas

  function SamplesOf(p: Device, ms: seq<Device>): seq<Sample> {
    [SampleOf(p)] + seq(|ms|, i requires 0 <= i < |ms| => SampleOf(ms[i]))
  }

  /** A box's mean and packets are the running blend over the devices it stands for. */
  lemma {:induction false} BoxBlends(p: Device, ms: seq<Device>)
    ensures SampleOf(AbsorbEach(p, ms)) == BlendAll(SamplesOf(p, ms))
  {
    hide BlendOf, Join, Added;
    var xs := SamplesOf(p, ms);
    if ms == [] {
      assert xs == [SampleOf(p)] && xs[..0] == [];
      FirstBlend(SampleOf(p));
    } else {
      BoxBlends(p, ms[..|ms| - 1]);
      assert xs[..|xs| - 1] == SamplesOf(p, ms[..|ms| - 1]);
    }
  }

  lemma FirstBlend(x: Sample)
    ensures BlendOf(None, 0, x.avg, x.packets) == x.avg
  {
  }

  /** A box whose devices are not skewed shows the packet-weighted mean of those that have one. */
  lemma BoxShowsMean(p: Device, ms: seq<Device>)
    requires !Skewed(SamplesOf(p, ms))
    ensures var d, xs := AbsorbEach(p, ms), SamplesOf(p, ms);
      d.rssiAvg.Some? ==> Times(d.rssiAvg.value, Sounding(xs)) == Weights(xs)
  {
    hide Times, Skewed, BlendAll;
    BoxBlends(p, ms);
    StraightIsMean(SamplesOf(p, ms));
  }
}
