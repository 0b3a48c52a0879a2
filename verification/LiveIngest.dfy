/**
 Live capture into the database: a bounded queue filled by reader threads and drained by `flush`,
 with CRC failures credited to the device last heard cleanly on the same source and channel.
 */
module LiveIngest {
  import opened Wrappers
  import opened Observations
  import opened Sums

  /**
   A decoded packet. `owner` is the device row its advertiser address resolves to; it is absent
   when the packet carries no address.
   */
  datatype Packet = Packet(
    source: string, channel: Option<int>, crcOk: bool, owner: Option<int>,
    ts: real, rssi: Option<int>, phy: Option<string>, pdu: Option<string>)

  /** What arrives on the bus: bytes that decode to nothing, our own interrogator's traffic, or a packet. */
  datatype Arrival = Undecodable(source: string) | OwnTraffic(source: string) | Decoded(p: Packet)

  const CRC_ATTRIB_WINDOW_S: real := 2.0

  datatype Clean = Clean(at: real, device: int)

  datatype SourceState = SourceState(lastTs: real, count: nat)

  /** Everything draining a packet touches. */
  datatype Desk = Desk(
    clean: map<(string, int), Clean>, rows: map<int, Row>, sources: map<string, SourceState>, recorded: nat)

  const FRESH := Desk(map[], map[], map[], 0)

  const ADV_PDU_TYPES: set<string> :=
    {"ADV_IND", "ADV_DIRECT_IND", "ADV_NONCONN_IND", "ADV_SCAN_IND", "ADV_EXT_IND", "SCAN_REQ", "SCAN_RSP",
     "CONNECT_IND"}

  /** `record_packet` attributes a packet only if its CRC held and it has an address. */
  function DeviceOf(p: Packet): Option<int> {
    if p.crcOk then p.owner else None
  }

  function HeardEvent(p: Packet): Event {
    var isAdv := Named(p.pdu).None? || p.pdu.value in ADV_PDU_TYPES;
    Heard(p.ts, isAdv, p.rssi, p.channel, p.phy, p.pdu)
  }

  function Find<K, V>(m: map<K, V>, k: K): Option<V> {
    if k in m then Some(m[k]) else None
  }

  /** One turn of the flush loop. */
  function Drain(d: Desk, p: Packet): Desk {
    if DeviceOf(p).Some? then
      var device := DeviceOf(p).value;
      var heard := if p.source in d.sources then d.sources[p.source].count else 0;
      Desk(if p.channel.Some? then d.clean[(p.source, p.channel.value) := Clean(p.ts, device)] else d.clean,
           d.rows[device := Apply(Find(d.rows, device), HeardEvent(p))],
           d.sources[p.source := SourceState(p.ts, heard + 1)],
           d.recorded + 1)
    else if !p.crcOk && p.channel.Some? && Recent(Find(d.clean, (p.source, p.channel.value)), p.ts) then
      var device := d.clean[(p.source, p.channel.value)].device;
      d.(rows := d.rows[device := Apply(Find(d.rows, device), Bad(1, Some(p.ts)))])
    else d
  }

  predicate Recent(c: Option<Clean>, ts: real) {
    c.Some? && ts - c.value.at <= CRC_ATTRIB_WINDOW_S
  }

  function DrainAll(ps: seq<Packet>): Desk {
    if ps == [] then FRESH else Drain(DrainAll(ps[..|ps| - 1]), ps[|ps| - 1])
  }

  // ------------------------------------------- what the history alone says

  /** The latest clean, attributed packet of the history on this source and channel. */
  function LastClean(ps: seq<Packet>, source: string, channel: int): Option<Clean> {
    if ps == [] then None
    else
      var p := ps[|ps| - 1];
      if DeviceOf(p).Some? && p.source == source && p.channel == Some(channel) then Some(Clean(p.ts, DeviceOf(p).value))
      else LastClean(ps[..|ps| - 1], source, channel)
  }

  /** The device a CRC failure after history `ps` is credited to. */
  function CreditedTo(ps: seq<Packet>, p: Packet): Option<int> {
    if p.crcOk || p.channel.None? then None
    else
      var last := LastClean(ps, p.source, p.channel.value);
      if Recent(last, p.ts) then Some(last.value.device) else None
  }

  /** What packet `p` after history `ps` contributes to device `d`. */
  function Contribution(ps: seq<Packet>, p: Packet, d: int): seq<Event> {
    if DeviceOf(p) == Some(d) then [HeardEvent(p)]
    else if DeviceOf(p).None? && CreditedTo(ps, p) == Some(d) then [Bad(1, Some(p.ts))]
    else []
  }

  function EventsFor(ps: seq<Packet>, d: int): seq<Event> {
    if ps == [] then [] else EventsFor(ps[..|ps| - 1], d) + Contribution(ps[..|ps| - 1], ps[|ps| - 1], d)
  }

  function Attributed(ps: seq<Packet>): nat {
    if ps == [] then 0 else Attributed(ps[..|ps| - 1]) + if DeviceOf(ps[|ps| - 1]).Some? then 1 else 0
  }

  /** The cache holds, for every source and channel, exactly the last clean attribution of the whole drained history. */
  lemma {:induction false} CacheIsLastClean(ps: seq<Packet>, source: string, channel: int)
    ensures Find(DrainAll(ps).clean, (source, channel)) == LastClean(ps, source, channel)
  {
    hide Apply, HeardEvent;
    if ps != [] { CacheIsLastClean(ps[..|ps| - 1], source, channel); }
  }

  lemma ReplayMore(es: seq<Event>, e: Event)
    ensures Replay(es + [e]) == Some(Apply(Replay(es), e))
  {
  }

  /** Every row is the replay of the device's own packets and of the CRC failures credited to it, in drain order. */
  lemma {:induction false} RowsAreHistory(ps: seq<Packet>, d: int)
    ensures Find(DrainAll(ps).rows, d) == Replay(EventsFor(ps, d))
  {
    hide Apply, HeardEvent, Replay;
    if ps != [] {
      var pre, p := ps[..|ps| - 1], ps[|ps| - 1];
      RowsAreHistory(pre, d);
      if p.channel.Some? {
        CacheIsLastClean(pre, p.source, p.channel.value);
      }
      var c := Contribution(pre, p, d);
      if c != [] {
        ReplayMore(EventsFor(pre, d), c[0]);
        assert c == [c[0]];
      } else {
        assert EventsFor(pre, d) + c == EventsFor(pre, d);
      }
    } else {
      assert Replay([]) == None by { NothingReplayed(); }
    }
  }

  lemma NothingReplayed()
    ensures Replay([]) == None
  {
  }

  function PacketsIn(rows: map<int, Row>, d: int): int {
    if d in rows then rows[d].t.packets else 0
  }

  lemma ApplyPackets(r: Option<Row>, e: Event)
    ensures Apply(r, e).t.packets == (if r.Some? then r.value.t.packets else 0) + if e.Heard? then 1 else 0
  {
  }

  /** Summed over all devices, the rows' packet counts are the packets recorded. */
  lemma {:induction false} RecordedIsTotal(ps: seq<Packet>)
    ensures var d := DrainAll(ps);
      d.recorded == Attributed(ps) && Sum(d.rows.Keys, x => PacketsIn(d.rows, x)) == d.recorded
  {
    hide Apply, HeardEvent;
    if ps != [] {
      var pre, p := ps[..|ps| - 1], ps[|ps| - 1];
      RecordedIsTotal(pre);
      var a, b := DrainAll(pre), DrainAll(ps);
      if b.rows != a.rows {
        var device := if DeviceOf(p).Some? then DeviceOf(p).value else a.clean[(p.source, p.channel.value)].device;
        var e := if DeviceOf(p).Some? then HeardEvent(p) else Bad(1, Some(p.ts));
        assert b.rows == a.rows[device := Apply(Find(a.rows, device), e)];
        ApplyPackets(Find(a.rows, device), e);
        assert DeviceOf(p).Some? ==> e.Heard? by { HeardIsHeard(p); }
        OneRowGrows(a.rows, b.rows, device);
      } else {
        assert DeviceOf(p).None? by { if DeviceOf(p).Some? { RowChanges(a, p); } }
      }
    }
  }

  lemma HeardIsHeard(p: Packet)
    ensures HeardEvent(p).Heard?
  {
  }

  lemma RowChanges(d: Desk, p: Packet)
    requires DeviceOf(p).Some?
    ensures Drain(d, p).rows != d.rows
  {
  }

  lemma OneRowGrows(a: map<int, Row>, b: map<int, Row>, device: int)
    requires device in b && b == a[device := b[device]]
    ensures Sum(b.Keys, x => PacketsIn(b, x))
         == Sum(a.Keys, x => PacketsIn(a, x)) + PacketsIn(b, device) - PacketsIn(a, device)
  {
    var f, g := x => PacketsIn(a, x), x => PacketsIn(b, x);
    SumRemove(b.Keys, g, device);
    assert b.Keys - {device} == a.Keys - {device};
    SumAgree(a.Keys - {device}, f, g);
    if device in a {
      SumRemove(a.Keys, f, device);
    } else {
      assert a.Keys - {device} == a.Keys;
    }
  }
}
