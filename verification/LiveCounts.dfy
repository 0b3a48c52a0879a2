/** What a device's row counts, in terms of the packets themselves: which field of a packet reaches which column. */
module LiveCounts {
  import opened Wrappers
  import opened Observations
  import opened LiveIngest
  import I = Identity
  import K = IngestByAddress
  import Q = LiveIngestRuns

  /** The packet is the device's own: its CRC held and its address is the device's. */
  predicate Own(p: Packet, d: int) {
    p.crcOk && p.owner == Some(d)
  }

  /** The name of an advertising PDU; no name, or an empty one, counts as one too. */
  predicate Advert(pdu: Option<string>) {
    pdu.None? || pdu == Some("")
    || pdu.value in {"ADV_IND", "ADV_DIRECT_IND", "ADV_NONCONN_IND", "ADV_SCAN_IND", "ADV_EXT_IND", "SCAN_REQ",
                     "SCAN_RSP", "CONNECT_IND"}
  }

  /** How many of the device's own packets have a property. */
  function HowMany(ps: seq<Packet>, d: int, f: Packet -> bool): nat {
    if ps == [] then 0
    else HowMany(ps[..|ps| - 1], d, f) + if Own(ps[|ps| - 1], d) && f(ps[|ps| - 1]) then 1 else 0
  }

  /** The sum of the strengths its own packets came with. */
  function StrengthSum(ps: seq<Packet>, d: int): int {
    if ps == [] then 0
    else
      var p := ps[|ps| - 1];
      StrengthSum(ps[..|ps| - 1], d) + if Own(p, d) && p.rssi.Some? then p.rssi.value else 0
  }

  /** Some own packet came with this strength. */
  ghost predicate HeardAt(ps: seq<Packet>, d: int, v: int) {
    exists p :: p in ps && Own(p, d) && p.rssi == Some(v)
  }

  function TotalsOf(rows: map<int, Row>, d: int): Totals {
    if d in rows then rows[d].t else EMPTY
  }

  /** A packet adds to the totals of its own device, or of the one its failure is credited to, and to no other. */
  lemma DrainTotals(desk: Desk, p: Packet, d: int)
    ensures var t, r := TotalsOf(desk.rows, d), TotalsOf(Drain(desk, p).rows, d);
      if Own(p, d) then r == Add(t, HeardEvent(p)) else r == t || r == Add(t, Bad(1, Some(p.ts)))
  {
    hide Add, HeardEvent, Recent;
  }

  lemma HeardAdds(t: Totals, p: Packet)
    ensures var r := Add(t, HeardEvent(p));
      && r.packets == t.packets + 1
      && r.adv == t.adv + (if Advert(p.pdu) then 1 else 0) && r.data == t.data + (if Advert(p.pdu) then 0 else 1)
      && r.samples == t.samples + (if p.rssi.Some? then 1 else 0)
      && r.rssiSum == t.rssiSum + (if p.rssi.Some? then p.rssi.value else 0)
  {
    hide Bump, Lower, Higher;
  }

  /** Packets, adverts, data, samples and their sum are those of the device's own packets. */
  lemma {:induction false} RowCounts(ps: seq<Packet>, d: int)
    ensures var t := TotalsOf(DrainAll(ps).rows, d);
      && t.packets == HowMany(ps, d, p => true)
      && t.adv == HowMany(ps, d, (p: Packet) => Advert(p.pdu))
      && t.data == HowMany(ps, d, (p: Packet) => !Advert(p.pdu))
      && t.samples == HowMany(ps, d, (p: Packet) => p.rssi.Some?) && t.rssiSum == StrengthSum(ps, d)
  {
    hide Drain, HeardEvent, Advert;
    if ps != [] {
      var pre, p := ps[..|ps| - 1], ps[|ps| - 1];
      RowCounts(pre, d);
      DrainTotals(DrainAll(pre), p, d);
      HeardAdds(TotalsOf(DrainAll(pre).rows, d), p);
    }
  }

  lemma HeardBuckets(t: Totals, p: Packet, channel: int, phy: string, pdu: string)
    ensures var r := Add(t, HeardEvent(p));
      && Get(r.channels, channel) == Get(t.channels, channel) + (if p.channel == Some(channel) then 1 else 0)
      && Get(r.phys, phy) == Get(t.phys, phy) + (if phy != "" && p.phy == Some(phy) then 1 else 0)
      && Get(r.pdus, pdu) == Get(t.pdus, pdu) + (if pdu != "" && p.pdu == Some(pdu) then 1 else 0)
  {
    hide Lower, Higher;
  }

  /** Each channel, PHY and PDU bucket counts the device's own packets with that value. */
  lemma {:induction false} RowBuckets(ps: seq<Packet>, d: int, channel: int, phy: string, pdu: string)
    ensures var t := TotalsOf(DrainAll(ps).rows, d);
      && Get(t.channels, channel) == HowMany(ps, d, (p: Packet) => p.channel == Some(channel))
      && Get(t.phys, phy) == HowMany(ps, d, (p: Packet) => phy != "" && p.phy == Some(phy))
      && Get(t.pdus, pdu) == HowMany(ps, d, (p: Packet) => pdu != "" && p.pdu == Some(pdu))
  {
    hide Drain, HeardEvent;
    if ps != [] {
      var pre, p := ps[..|ps| - 1], ps[|ps| - 1];
      RowBuckets(pre, d, channel, phy, pdu);
      DrainTotals(DrainAll(pre), p, d);
      HeardBuckets(TotalsOf(DrainAll(pre).rows, d), p, channel, phy, pdu);
    }
  }

  lemma HeardExtremes(t: Totals, p: Packet)
    ensures var r := Add(t, HeardEvent(p));
      && r.rssiMin == (if p.rssi.None? then t.rssiMin
                       else if t.rssiMin.None? || p.rssi.value < t.rssiMin.value then p.rssi else t.rssiMin)
      && r.rssiMax == (if p.rssi.None? then t.rssiMax
                       else if t.rssiMax.None? || p.rssi.value > t.rssiMax.value then p.rssi else t.rssiMax)
  {
    hide Bump;
  }

  lemma HeardAtSnoc(ps: seq<Packet>, p: Packet, d: int, v: int)
    ensures HeardAt(ps + [p], d, v) <==> HeardAt(ps, d, v) || (Own(p, d) && p.rssi == Some(v))
  {
    assert forall q :: q in ps + [p] <==> q in ps || q == p;
  }

  /** The extremes are strengths of own packets and bound them all; without one that has a strength there are none. */
  lemma {:induction false} RowExtremes(ps: seq<Packet>, d: int)
    ensures var t := TotalsOf(DrainAll(ps).rows, d);
      && (t.rssiMin.Some? ==> HeardAt(ps, d, t.rssiMin.value)) && (t.rssiMax.Some? ==> HeardAt(ps, d, t.rssiMax.value))
      && (forall v :: HeardAt(ps, d, v) ==>
            t.rssiMin.Some? && t.rssiMin.value <= v && t.rssiMax.Some? && v <= t.rssiMax.value)
  {
    hide Drain, HeardEvent, HeardAt;
    if ps == [] {
      NothingHeard(d);
    } else {
      var pre, p := ps[..|ps| - 1], ps[|ps| - 1];
      RowExtremes(pre, d);
      DrainTotals(DrainAll(pre), p, d);
      HeardExtremes(TotalsOf(DrainAll(pre).rows, d), p);
      assert pre + [p] == ps;
      forall v
        ensures HeardAt(ps, d, v) <==> HeardAt(pre, d, v) || (Own(p, d) && p.rssi == Some(v))
      {
        HeardAtSnoc(pre, p, d, v);
      }
    }
  }

  lemma NothingHeard(d: int)
    ensures forall v :: !HeardAt([], d, v)
  {
  }

  // ------------------------------------------------- credits and time stamps

  /** The clean, attributed packet `i` is on the source and channel of `p`. */
  predicate CleanOn(ps: seq<Packet>, i: int, p: Packet) {
    0 <= i < |ps| && ps[i].crcOk && ps[i].owner.Some? && ps[i].source == p.source && ps[i].channel == p.channel
  }

  ghost predicate LatestClean(ps: seq<Packet>, i: int, p: Packet) {
    CleanOn(ps, i, p) && forall j :: i < j ==> !CleanOn(ps, j, p)
  }

  lemma {:induction false} LastCleanExactly(ps: seq<Packet>, p: Packet)
    requires p.channel.Some?
    ensures var last := LastClean(ps, p.source, p.channel.value);
      && (last.None? ==> forall i :: !CleanOn(ps, i, p))
      && (last.Some? ==> exists i :: LatestClean(ps, i, p) && last.value == Clean(ps[i].ts, ps[i].owner.value))
  {
    if ps != [] {
      var pre, n := ps[..|ps| - 1], |ps| - 1;
      LastCleanExactly(pre, p);
      assert forall i :: i < n ==> (CleanOn(pre, i, p) <==> CleanOn(ps, i, p));
      var last := LastClean(ps, p.source, p.channel.value);
      if CleanOn(ps, n, p) {
        assert LatestClean(ps, n, p) && last.value == Clean(ps[n].ts, ps[n].owner.value);
      } else if last.Some? {
        var i :| LatestClean(pre, i, p) && last.value == Clean(pre[i].ts, pre[i].owner.value);
        assert LatestClean(ps, i, p);
      }
    }
  }

  /**
   A failed packet is credited to the device last heard cleanly on its source and channel, if that was at most two
   seconds before.
   */
  lemma CreditedExactly(ps: seq<Packet>, p: Packet, d: int)
    ensures CreditedTo(ps, p) == Some(d) <==>
      && !p.crcOk && p.channel.Some?
      && exists i :: LatestClean(ps, i, p) && ps[i].owner == Some(d) && p.ts - ps[i].ts <= 2.0
  {
    if p.channel.Some? { LastCleanExactly(ps, p); }
  }

  /** Packet `i` is the device's own or a failure credited to it. */
  predicate Touches(ps: seq<Packet>, d: int, i: int) {
    0 <= i < |ps| && (Own(ps[i], d) || CreditedTo(ps[..i], ps[i]) == Some(d))
  }

  ghost predicate FirstTouch(ps: seq<Packet>, d: int, i: int) {
    Touches(ps, d, i) && forall j :: j < i ==> !Touches(ps, d, j)
  }

  ghost predicate LastTouch(ps: seq<Packet>, d: int, i: int) {
    Touches(ps, d, i) && forall j :: i < j ==> !Touches(ps, d, j)
  }

  lemma DrainTimes(pre: seq<Packet>, p: Packet, d: int)
    ensures var before, after := Find(DrainAll(pre).rows, d), Find(DrainAll(pre + [p]).rows, d);
      if Own(p, d) || CreditedTo(pre, p) == Some(d)
      then after.Some? && after.value.lastSeen == p.ts
           && after.value.firstSeen == if before.Some? then before.value.firstSeen else p.ts
      else after == before
  {
    hide Add;
    var ps := pre + [p];
    assert ps[..|ps| - 1] == pre;
    if p.channel.Some? { CacheIsLastClean(pre, p.source, p.channel.value); }
  }

  /** A device has a row exactly when a packet touches it: seen first when the first did, and last when the last did. */
  lemma {:induction false} RowTimes(ps: seq<Packet>, d: int)
    ensures var row := Find(DrainAll(ps).rows, d);
      && (row.Some? <==> exists i :: Touches(ps, d, i))
      && (row.Some? ==>
            && (exists i :: FirstTouch(ps, d, i) && row.value.firstSeen == ps[i].ts)
            && (exists i :: LastTouch(ps, d, i) && row.value.lastSeen == ps[i].ts))
  {
    hide DrainAll, CreditedTo;
    if ps == [] {
      NoRows(d);
    } else {
      var pre, n := ps[..|ps| - 1], |ps| - 1;
      RowTimes(pre, d);
      assert pre + [ps[n]] == ps;
      DrainTimes(pre, ps[n], d);
      forall i | i < n
        ensures Touches(pre, d, i) <==> Touches(ps, d, i)
      {
        if 0 <= i { assert pre[..i] == ps[..i]; }
      }
      var before := Find(DrainAll(pre).rows, d);
      if before.Some? {
        var i :| FirstTouch(pre, d, i) && before.value.firstSeen == pre[i].ts;
        var k :| LastTouch(pre, d, k) && before.value.lastSeen == pre[k].ts;
        assert FirstTouch(ps, d, i);
        if !Touches(ps, d, n) { assert LastTouch(ps, d, k); }
      }
      assert Touches(ps, d, n) <==> Own(ps[n], d) || CreditedTo(pre, ps[n]) == Some(d);
      if Touches(ps, d, n) {
        assert LastTouch(ps, d, n);
        if before.None? { assert FirstTouch(ps, d, n); }
      }
    }
  }

  lemma NoRows(d: int)
    ensures Find(DrainAll([]).rows, d) == None
  {
  }

  // ----------------------------------------------------------- the whole session

  /** In a session, for every interleaving, rows count the packets drained. */
  lemma SessionCounts(steps: seq<Q.Step>, cap: nat, d: int, channel: int, phy: string, pdu: string)
    ensures var t, ps := TotalsOf(Q.RunAll(steps, cap).desk.rows, d), Q.Drained(steps, cap);
      && t.adv == HowMany(ps, d, (p: Packet) => Advert(p.pdu))
      && t.data == HowMany(ps, d, (p: Packet) => !Advert(p.pdu))
      && t.samples == HowMany(ps, d, (p: Packet) => p.rssi.Some?) && t.rssiSum == StrengthSum(ps, d)
      && Get(t.channels, channel) == HowMany(ps, d, (p: Packet) => p.channel == Some(channel))
      && Get(t.phys, phy) == HowMany(ps, d, (p: Packet) => phy != "" && p.phy == Some(phy))
      && Get(t.pdus, pdu) == HowMany(ps, d, (p: Packet) => pdu != "" && p.pdu == Some(pdu))
  {
    Q.DeskIsDrained(steps, cap);
    RowCounts(Q.Drained(steps, cap), d);
    RowBuckets(Q.Drained(steps, cap), d, channel, phy, pdu);
  }

  /** The captured packet was heard cleanly under this stable key. */
  predicate OwnKey(p: K.Captured, k: string) {
    p.who.crcOk && p.who.addr != "" && I.Key(p.who) == k
  }

  function HowManyOf(ps: seq<K.Captured>, k: string, f: K.Captured -> bool): nat {
    if ps == [] then 0
    else HowManyOf(ps[..|ps| - 1], k, f) + if OwnKey(ps[|ps| - 1], k) && f(ps[|ps| - 1]) then 1 else 0
  }

  function StrengthSumOf(ps: seq<K.Captured>, k: string): int {
    if ps == [] then 0
    else
      var p := ps[|ps| - 1];
      StrengthSumOf(ps[..|ps| - 1], k) + if OwnKey(p, k) && p.rssi.Some? then p.rssi.value else 0
  }

  /** Counting under ids is counting under keys. */
  lemma {:induction false} LabelledCounts(
    ps: seq<K.Captured>, ids: map<string, int>, k: string, f: Packet -> bool, g: K.Captured -> bool)
    requires K.AllNamed(ps, ids) && K.Injective(ids) && k in ids
    requires forall p, owner :: f(K.WithOwner(p, owner)) == g(p)
    ensures HowMany(K.Labelled(ps, ids), ids[k], f) == HowManyOf(ps, k, g)
    ensures StrengthSum(K.Labelled(ps, ids), ids[k]) == StrengthSumOf(ps, k)
  {
    hide I.Key;
    if ps != [] {
      var pre, p := ps[..|ps| - 1], ps[|ps| - 1];
      LabelledCounts(pre, ids, k, f, g);
      assert K.Labelled(ps, ids)[..|ps| - 1] == K.Labelled(pre, ids);
      assert p in ps;
    }
  }

  /** By address: over every interleaving the row of a stable key counts the packets drained under that key. */
  lemma KeyCounts(
    start: I.State, steps: seq<K.Step>, cap: nat, t: I.Tables, k: string, channel: int, phy: string, pdu: string)
    requires I.NewSession(start) && k in K.RunAll(start, steps, cap, t).store.devices.ids
    ensures var s, ps := K.RunAll(start, steps, cap, t).store, K.Drained(steps, cap);
      var r := TotalsOf(s.desk.rows, s.devices.ids[k]);
      && r.packets == HowManyOf(ps, k, (p: K.Captured) => true)
      && r.adv == HowManyOf(ps, k, (p: K.Captured) => Advert(p.pdu))
      && r.data == HowManyOf(ps, k, (p: K.Captured) => !Advert(p.pdu))
      && r.samples == HowManyOf(ps, k, (p: K.Captured) => p.rssi.Some?) && r.rssiSum == StrengthSumOf(ps, k)
      && Get(r.channels, channel) == HowManyOf(ps, k, (p: K.Captured) => p.channel == Some(channel))
      && Get(r.phys, phy) == HowManyOf(ps, k, (p: K.Captured) => phy != "" && p.phy == Some(phy))
      && Get(r.pdus, pdu) == HowManyOf(ps, k, (p: K.Captured) => pdu != "" && p.pdu == Some(pdu))
  {
    hide K.RunAll, K.RecordAll, K.Drained, DrainAll, HowMany, HowManyOf, StrengthSum, StrengthSumOf, Advert, K.Labelled;
    var s, ps := K.RunAll(start, steps, cap, t).store, K.Drained(steps, cap);
    var ids := s.devices.ids;
    K.StoreIsDrained(start, steps, cap, t);
    K.RecordedUnderFinalIds(start, ps, t);
    var qs := K.Labelled(ps, ids);
    RowCounts(qs, ids[k]);
    RowBuckets(qs, ids[k], channel, phy, pdu);
    LabelledCounts(ps, ids, k, (p: Packet) => true, (p: K.Captured) => true);
    LabelledCounts(ps, ids, k, (p: Packet) => Advert(p.pdu), (p: K.Captured) => Advert(p.pdu));
    LabelledCounts(ps, ids, k, (p: Packet) => !Advert(p.pdu), (p: K.Captured) => !Advert(p.pdu));
    LabelledCounts(ps, ids, k, (p: Packet) => p.rssi.Some?, (p: K.Captured) => p.rssi.Some?);
    LabelledCounts(
      ps, ids, k, (p: Packet) => p.channel == Some(channel), (p: K.Captured) => p.channel == Some(channel));
    LabelledCounts(
      ps, ids, k, (p: Packet) => phy != "" && p.phy == Some(phy), (p: K.Captured) => phy != "" && p.phy == Some(phy));
    LabelledCounts(
      ps, ids, k, (p: Packet) => pdu != "" && p.pdu == Some(pdu), (p: K.Captured) => pdu != "" && p.pdu == Some(pdu));
  }

  // ------------------------------------------------------------ session tallies

  predicate From(a: Arrival, src: string) {
    var s := match a case Undecodable(s) => s case OwnTraffic(s) => s case Decoded(p) => p.source;
    src == if s == "" then "?" else s
  }

  /** How many arrivals, or how many that decode to nothing, came from a source. */
  function ArrivedFrom(steps: seq<Q.Step>, src: string, rejectedOnly: bool): nat {
    if steps == [] then 0
    else
      var e := steps[|steps| - 1];
      ArrivedFrom(steps[..|steps| - 1], src, rejectedOnly)
      + if e.Arrive? && From(e.a, src) && (rejectedOnly ==> e.a.Undecodable?) then 1 else 0
  }

  function Arrived(steps: seq<Q.Step>): nat {
    if steps == [] then 0 else Arrived(steps[..|steps| - 1]) + if steps[|steps| - 1].Arrive? then 1 else 0
  }

  /** Over every interleaving: what was received, in all and by source, and what of it decoded to nothing. */
  lemma {:induction false} SessionTallies(steps: seq<Q.Step>, cap: nat, src: string)
    ensures var s := Q.RunAll(steps, cap);
      && s.received == Arrived(steps) && Get(s.sourceReceived, src) == ArrivedFrom(steps, src, false)
      && Get(s.sourceRejected, src) == ArrivedFrom(steps, src, true)
  {
    hide Q.Newest, Q.DrainMany;
    if steps != [] { SessionTallies(steps[..|steps| - 1], cap, src); }
  }

  /** How often something was waiting at a flush. */
  function Flushes(steps: seq<Q.Step>, cap: nat): nat {
    if steps == [] then 0
    else
      var pre := steps[..|steps| - 1];
      Flushes(pre, cap) + if steps[|steps| - 1].FlushStep? && Q.Newest(Q.Pending(pre), cap) != [] then 1 else 0
  }

  /** How much was waiting at the last such flush. */
  function LastFlush(steps: seq<Q.Step>, cap: nat): nat {
    if steps == [] then 0
    else
      var pre := steps[..|steps| - 1];
      if steps[|steps| - 1].FlushStep? && Q.Newest(Q.Pending(pre), cap) != [] then |Q.Newest(Q.Pending(pre), cap)|
      else LastFlush(pre, cap)
  }

  /** Over every interleaving: only flushes that find something count, and the last of them says how much. */
  lemma {:induction false} FlushTallies(steps: seq<Q.Step>, cap: nat)
    ensures Q.RunAll(steps, cap).flushes == Flushes(steps, cap)
    ensures Q.RunAll(steps, cap).lastFlush == LastFlush(steps, cap)
  {
    hide Q.Newest, Q.DrainMany;
    if steps != [] {
      FlushTallies(steps[..|steps| - 1], cap);
      Q.QueueIsNewest(steps[..|steps| - 1], cap);
    }
  }

  /** The clean, attributed packets of a source. */
  predicate RecordedFrom(p: Packet, source: string) {
    p.crcOk && p.owner.Some? && p.source == source
  }

  function RecordedCount(ps: seq<Packet>, source: string): nat {
    if ps == [] then 0
    else RecordedCount(ps[..|ps| - 1], source) + if RecordedFrom(ps[|ps| - 1], source) then 1 else 0
  }

  ghost predicate LastRecorded(ps: seq<Packet>, source: string, i: int) {
    0 <= i < |ps| && RecordedFrom(ps[i], source) && forall j :: i < j < |ps| ==> !RecordedFrom(ps[j], source)
  }

  /** A source is known once a packet from it was recorded: how many were, and when the last of them came. */
  lemma {:induction false} SourcesAre(ps: seq<Packet>, source: string)
    ensures var r := Find(DrainAll(ps).sources, source);
      && (r.Some? <==> RecordedCount(ps, source) > 0)
      && (r.Some? ==> r.value.count == RecordedCount(ps, source))
      && (r.Some? ==> exists i :: LastRecorded(ps, source, i) && r.value.lastTs == ps[i].ts)
  {
    hide Apply, HeardEvent, Recent;
    if ps != [] {
      var pre, n := ps[..|ps| - 1], |ps| - 1;
      SourcesAre(pre, source);
      var before := Find(DrainAll(pre).sources, source);
      if RecordedFrom(ps[n], source) {
        assert LastRecorded(ps, source, n);
      } else if before.Some? {
        var i :| LastRecorded(pre, source, i) && before.value.lastTs == pre[i].ts;
        assert LastRecorded(ps, source, i);
      }
    }
  }
}
