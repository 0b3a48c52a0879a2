/** Per-(session, device) observation rows: updated one packet at a time, equal to a batch over the history. */
module Observations {
  import opened Wrappers

  /** One contribution to a row: a recorded packet, or `n` CRC failures credited to the device. */
  datatype Event =
    | Heard(ts: real, isAdv: bool, rssi: Option<int>, channel: Option<int>, phy: Option<string>, pdu: Option<string>)
    | Bad(n: nat, at: Option<real>)

  /** The counters and histograms of a row. */
  datatype Totals = Totals(
    packets: nat, adv: nat, data: nat, bad: nat,
    rssiMin: Option<int>, rssiMax: Option<int>, rssiSum: int, samples: nat,
    pdus: map<string, nat>, channels: map<int, nat>, phys: map<string, nat>)

  datatype Row = Row(t: Totals, firstSeen: real, lastSeen: real)

  const EMPTY := Totals(0, 0, 0, 0, None, None, 0, 0, map[], map[], map[])

  function Get<K>(m: map<K, nat>, k: K): nat {
    if k in m then m[k] else 0
  }

  function Bump<K>(m: map<K, nat>, k: Option<K>): map<K, nat> {
    if k.Some? then m[k.value := Get(m, k.value) + 1] else m
  }

  /** An empty name counts as no name. */
  function Named(s: Option<string>): Option<string> {
    if s.Some? && s.value != "" then s else None
  }

  function Lower(a: Option<int>, b: Option<int>): Option<int> {
    if a.None? then b else if b.None? then a else if b.value < a.value then b else a
  }

  function Higher(a: Option<int>, b: Option<int>): Option<int> {
    if a.None? then b else if b.None? then a else if b.value > a.value then b else a
  }

  function Add(t: Totals, e: Event): Totals {
    match e
    case Bad(n, _) => t.(bad := t.bad + n)
    case Heard(_, isAdv, rssi, channel, phy, pdu) =>
      Totals(t.packets + 1, t.adv + (if isAdv then 1 else 0), t.data + (if isAdv then 0 else 1), t.bad,
             Lower(t.rssiMin, rssi), Higher(t.rssiMax, rssi),
             t.rssiSum + (if rssi.Some? then rssi.value else 0), t.samples + (if rssi.Some? then 1 else 0),
             Bump(t.pdus, Named(pdu)), Bump(t.channels, channel), Bump(t.phys, Named(phy)))
  }

  function Stamp(e: Event): Option<real> {
    match e
    case Heard(ts, _, _, _, _, _) => Some(ts)
    case Bad(_, at) => at
  }

  /** A row after one more event; the first event creates the row. */
  function Apply(r: Option<Row>, e: Event): Row {
    match r
    case None => var ts := if Stamp(e).Some? then Stamp(e).value else 0.0; Row(Add(EMPTY, e), ts, ts)
    case Some(row) => Row(Add(row.t, e), row.firstSeen, if Stamp(e).Some? then Stamp(e).value else row.lastSeen)
  }

  function Replay(es: seq<Event>): Option<Row> {
    if es == [] then None else Some(Apply(Replay(es[..|es| - 1]), es[|es| - 1]))
  }

  // ------------------------------------------------------------------- table

  class Table {
    var rows: map<(int, int), Row>

    constructor ()
      ensures rows == map[]
    {
      rows := map[];
    }

    ghost function RowOf(session: int, device: int): Option<Row>
      reads this
    {
      if (session, device) in rows then Some(rows[(session, device)]) else None
    }

    method RecordPacket(session: int, device: int, ts: real, isAdv: bool, rssi: Option<int>,
                        channel: Option<int>, phy: Option<string>, pdu: Option<string>)
      modifies this
      ensures rows == old(rows)[(session, device) :=
        Apply(old(RowOf(session, device)), Heard(ts, isAdv, rssi, channel, phy, pdu))]
    {
      var key := (session, device);
      var e := Heard(ts, isAdv, rssi, channel, phy, pdu);
      if key !in rows {
        var t := FirstTotals(e);
        rows := rows[key := Row(t, ts, ts)];
      } else {
        var row := rows[key];
        var t := NextTotals(row.t, e);
        rows := rows[key := Row(t, row.firstSeen, ts)];
      }
    }

    /** The INSERT of a first packet. */
    static method FirstTotals(e: Event) returns (t: Totals)
      requires e.Heard?
      ensures t == Add(EMPTY, e)
    {
      var pdus := if Named(e.pdu).Some? then map[e.pdu.value := 1] else map[];
      var channels := if e.channel.Some? then map[e.channel.value := 1] else map[];
      var phys := if Named(e.phy).Some? then map[e.phy.value := 1] else map[];
      t := Totals(1, if e.isAdv then 1 else 0, if e.isAdv then 0 else 1, 0, e.rssi, e.rssi,
                  if e.rssi.Some? then e.rssi.value else 0, if e.rssi.Some? then 1 else 0, pdus, channels, phys);
    }

    /** The UPDATE of an existing row. */
    static method NextTotals(t: Totals, e: Event) returns (r: Totals)
      requires e.Heard?
      ensures r == Add(t, e)
    {
      hide Bump;
      var lo, hi, sum, samples := t.rssiMin, t.rssiMax, t.rssiSum, t.samples;
      if e.rssi.Some? {
        lo := if lo.None? || e.rssi.value < lo.value then e.rssi else lo;
        hi := if hi.None? || e.rssi.value > hi.value then e.rssi else hi;
        sum, samples := sum + e.rssi.value, samples + 1;
      }
      r := Totals(t.packets + 1, t.adv + (if e.isAdv then 1 else 0), t.data + (if e.isAdv then 0 else 1), t.bad,
                  lo, hi, sum, samples,
                  Bump(t.pdus, Named(e.pdu)), Bump(t.channels, e.channel), Bump(t.phys, Named(e.phy)));
    }

    method IncrementBad(session: int, device: int, n: nat, at: Option<real>)
      modifies this
      ensures rows == old(rows)[(session, device) := Apply(old(RowOf(session, device)), Bad(n, at))]
    {
      var key := (session, device);
      if key in rows {
        var row := rows[key];
        rows := rows[key := row.(t := row.t.(bad := row.t.bad + n),
                                 lastSeen := if at.Some? then at.value else row.lastSeen)];
      } else {
        var ts := if at.Some? then at.value else 0.0;
        rows := rows[key := Row(EMPTY.(bad := n), ts, ts)];
      }
    }
  }

  // ------------------------------------------------------------ batch meaning

  datatype Feature =
    | Packet | Advert | NonAdvert | WithRssi
    | OnPdu(pdu: string) | OnChannel(channel: int) | OnPhy(phy: string)

  predicate Carries(e: Event, f: Feature) {
    e.Heard? && match f
                case Packet => true
                case Advert => e.isAdv
                case NonAdvert => !e.isAdv
                case WithRssi => e.rssi.Some?
                case OnPdu(v) => Named(e.pdu) == Some(v)
                case OnChannel(v) => e.channel == Some(v)
                case OnPhy(v) => Named(e.phy) == Some(v)
  }

  function Count(es: seq<Event>, f: Feature): nat {
    if es == [] then 0 else Count(es[..|es| - 1], f) + if Carries(es[|es| - 1], f) then 1 else 0
  }

  function RssiTotal(es: seq<Event>): int {
    if es == [] then 0
    else RssiTotal(es[..|es| - 1]) + if Carries(es[|es| - 1], WithRssi) then es[|es| - 1].rssi.value else 0
  }

  function BadTotal(es: seq<Event>): nat {
    if es == [] then 0 else BadTotal(es[..|es| - 1]) + if es[|es| - 1].Bad? then es[|es| - 1].n else 0
  }

  function Total(es: seq<Event>): Totals {
    if es == [] then EMPTY else Add(Total(es[..|es| - 1]), es[|es| - 1])
  }

  /** Counters count the packets with the feature they are named after. */
  lemma {:induction false} BatchCounts(es: seq<Event>)
    ensures var t := Total(es);
      && t.packets == Count(es, Packet) && t.adv == Count(es, Advert) && t.data == Count(es, NonAdvert)
      && t.samples == Count(es, WithRssi) && t.rssiSum == RssiTotal(es) && t.bad == BadTotal(es)
      && t.packets == t.adv + t.data
  {
    hide Bump, Lower, Higher;
    if es != [] { BatchCounts(es[..|es| - 1]); }
  }

  /** Each histogram bucket counts exactly the packets carrying its value. */
  lemma {:induction false} BatchHistograms(es: seq<Event>, pdu: string, channel: int, phy: string)
    ensures var t := Total(es);
      Get(t.pdus, pdu) == Count(es, OnPdu(pdu)) && Get(t.channels, channel) == Count(es, OnChannel(channel))
      && Get(t.phys, phy) == Count(es, OnPhy(phy))
  {
    hide Lower, Higher;
    if es != [] { BatchHistograms(es[..|es| - 1], pdu, channel, phy); }
  }

  ghost predicate IsRssiOf(es: seq<Event>, v: int) {
    exists i :: 0 <= i < |es| && Carries(es[i], WithRssi) && es[i].rssi.value == v
  }

  lemma RssiOfSnoc(pre: seq<Event>, last: Event, v: int)
    ensures IsRssiOf(pre + [last], v) <==> IsRssiOf(pre, v) || (Carries(last, WithRssi) && last.rssi.value == v)
  {
    var es := pre + [last];
    if IsRssiOf(pre, v) {
      var i :| 0 <= i < |pre| && Carries(pre[i], WithRssi) && pre[i].rssi.value == v;
      assert es[i] == pre[i];
    }
    if Carries(last, WithRssi) && last.rssi.value == v { assert es[|pre|] == last; }
  }

  /** The extremes are absent exactly when nothing was sampled, and otherwise are samples that bound all samples. */
  lemma {:induction false} BatchExtremes(es: seq<Event>)
    ensures var t := Total(es);
      && (t.rssiMin.None? <==> t.samples == 0) && (t.rssiMax.None? <==> t.samples == 0)
      && (t.samples > 0 ==> IsRssiOf(es, t.rssiMin.value) && IsRssiOf(es, t.rssiMax.value))
      && (forall v :: IsRssiOf(es, v) ==> t.samples > 0 && t.rssiMin.value <= v <= t.rssiMax.value)
  {
    hide Bump;
    if es != [] {
      var pre, last := es[..|es| - 1], es[|es| - 1];
      assert es == pre + [last];
      BatchExtremes(pre);
      forall v
        ensures IsRssiOf(es, v) <==> IsRssiOf(pre, v) || (Carries(last, WithRssi) && last.rssi.value == v)
      {
        RssiOfSnoc(pre, last, v);
      }
    }
  }

  /** The mean lies between the extremes: min * samples <= sum <= max * samples. */
  lemma {:induction false} BatchMean(es: seq<Event>)
    ensures var t := Total(es);
      && (t.rssiMin.None? <==> t.samples == 0) && (t.rssiMax.None? <==> t.samples == 0)
      && (t.samples == 0 ==> t.rssiSum == 0)
      && (t.samples > 0 ==> t.rssiMin.value * t.samples <= t.rssiSum <= t.rssiMax.value * t.samples)
  {
    hide Bump;
    if es != [] {
      var pre, last := es[..|es| - 1], es[|es| - 1];
      BatchMean(pre);
      var p, t := Total(pre), Total(es);
      if Carries(last, WithRssi) {
        var v := last.rssi.value;
        if p.samples > 0 {
          Scale(t.rssiMin.value, p.rssiMin.value, p.samples);
          Scale(p.rssiMax.value, t.rssiMax.value, p.samples);
        } else {
          assert t.rssiMin == Some(v) && t.rssiMax == Some(v) && t.samples == 1;
        }
      }
    }
  }

  lemma Scale(a: int, b: int, n: nat)
    requires a <= b
    ensures a * n <= b * n && a * (n + 1) == a * n + a && b * (n + 1) == b * n + b
  {
  }

  lemma {:induction false} ReplayIsBatch(es: seq<Event>)
    requires es != []
    ensures Replay(es).Some? && Replay(es).value.t == Total(es)
  {
    if |es| > 1 {
      ReplayIsBatch(es[..|es| - 1]);
    } else {
      assert es[..0] == [];
    }
  }

  /** The time of the last event, after the first one, that carried a time. */
  function LastStamp(es: seq<Event>): Option<real> {
    if |es| <= 1 then None
    else if Stamp(es[|es| - 1]).Some? then Stamp(es[|es| - 1])
    else LastStamp(es[..|es| - 1])
  }

  /**
   `first_seen` is the time of the first event and stays; `last_seen` is the latest arrival's time, not the greatest.
   */
  lemma {:induction false} SeenTimes(es: seq<Event>)
    requires es != []
    ensures var r := Replay(es).value;
      && r.firstSeen == (if Stamp(es[0]).Some? then Stamp(es[0]).value else 0.0)
      && r.lastSeen == if LastStamp(es).Some? then LastStamp(es).value else r.firstSeen
  {
    hide Add;
    if |es| > 1 {
      SeenTimes(es[..|es| - 1]);
    } else {
      assert es[..0] == [];
    }
  }

  // -------------------------------------------------------------- reordering

  lemma AddCommutes(t: Totals, d: Event, e: Event)
    ensures Add(Add(t, d), e) == Add(Add(t, e), d)
  {
    if d.Heard? && e.Heard? {
      BumpCommutes(t.pdus, Named(d.pdu), Named(e.pdu));
      BumpCommutes(t.channels, d.channel, e.channel);
      BumpCommutes(t.phys, Named(d.phy), Named(e.phy));
    }
  }

  lemma BumpCommutes<K>(m: map<K, nat>, j: Option<K>, k: Option<K>)
    ensures Bump(Bump(m, j), k) == Bump(Bump(m, k), j)
  {
  }

  function From(t: Totals, es: seq<Event>): Totals
    decreases |es|
  {
    if es == [] then t else From(Add(t, es[0]), es[1..])
  }

  lemma {:induction false} TotalIsFrom(es: seq<Event>)
    ensures Total(es) == From(EMPTY, es)
  {
    if es != [] {
      TotalIsFrom(es[..|es| - 1]);
      FromSnoc(EMPTY, es[..|es| - 1], es[|es| - 1]);
      assert es[..|es| - 1] + [es[|es| - 1]] == es;
    }
  }

  lemma {:induction false} FromSnoc(t: Totals, es: seq<Event>, e: Event)
    ensures From(t, es + [e]) == Add(From(t, es), e)
    decreases |es|
  {
    hide Add;
    if es == [] {
      assert es + [e] == [e] && [e][1..] == [];
    } else {
      assert (es + [e])[1..] == es[1..] + [e];
      FromSnoc(Add(t, es[0]), es[1..], e);
    }
  }

  /** Any event may be applied first. */
  lemma {:induction false} BringForward(t: Totals, es: seq<Event>, k: nat)
    requires k < |es|
    ensures From(t, es) == From(Add(t, es[k]), es[..k] + es[k + 1..])
    decreases k
  {
    hide Add;
    if k == 0 {
      assert es[..0] + es[1..] == es[1..];
    } else {
      var rest := es[..k] + es[k + 1..];
      assert rest[1..] == es[1..][..k - 1] + es[1..][k..] && rest[0] == es[0];
      BringForward(Add(t, es[0]), es[1..], k - 1);
      AddCommutes(t, es[0], es[k]);
    }
  }

  lemma {:induction false} FromPermuted(t: Totals, es: seq<Event>, fs: seq<Event>)
    requires multiset(es) == multiset(fs)
    ensures From(t, es) == From(t, fs)
    decreases |es|
  {
    hide Add;
    assert |multiset(es)| == |es| && |multiset(fs)| == |fs|;
    if es != [] {
      assert es[0] in multiset(fs);
      var k :| 0 <= k < |fs| && fs[k] == es[0];
      var rest := fs[..k] + fs[k + 1..];
      assert fs == fs[..k] + [fs[k]] + fs[k + 1..];
      assert es == [es[0]] + es[1..];
      assert multiset(es[1..]) == multiset(es) - multiset{es[0]};
      assert multiset(rest) == multiset(fs) - multiset{fs[k]};
      BringForward(t, fs, k);
      FromPermuted(Add(t, es[0]), es[1..], rest);
    }
  }

  /**
   Whatever order packets and CRC credits are applied in, the counters, extremes, sums and histograms come out the same.
   */
  lemma OrderFree(es: seq<Event>, fs: seq<Event>)
    requires es != [] && multiset(es) == multiset(fs)
    ensures fs != [] && Replay(es).value.t == Replay(fs).value.t
  {
    assert |multiset(es)| == |es| && |multiset(fs)| == |fs|;
    ReplayIsBatch(es);
    ReplayIsBatch(fs);
    TotalIsFrom(es);
    TotalIsFrom(fs);
    FromPermuted(EMPTY, es, fs);
  }
}
