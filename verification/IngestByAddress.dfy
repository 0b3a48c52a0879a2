/**
 A live session as a whole: packets queue up, each is attributed by its address when it is drained, and what a device's
 row holds follows from the addresses alone, whatever ids the table hands out and however arrivals and flushes
 interleave.
 */
module IngestByAddress {
  import opened Wrappers
  import O = Observations
  import I = Identity
  import L = LiveIngest
  import Q = LiveIngestRuns
  import Sums

  /** A decoded packet: what identifies its device, and what is counted. */
  datatype Captured = Captured(
    who: I.Packet, source: string, channel: Option<int>, ts: real, rssi: Option<int>, phy: Option<string>,
    pdu: Option<string>)

  /** The packet once its device is looked up. */
  function WithOwner(p: Captured, owner: Option<int>): L.Packet {
    L.Packet(p.source, p.channel, p.who.crcOk, owner, p.ts, p.rssi, p.phy, p.pdu)
  }

  function KeyOf(p: Captured): Option<string> {
    if I.Attributable(p.who) then Some(I.Key(p.who)) else None
  }

  function OwnerIn(ids: map<string, int>, p: Captured): Option<int> {
    if KeyOf(p).Some? && KeyOf(p).value in ids then Some(ids[KeyOf(p).value]) else None
  }

  datatype Store = Store(devices: I.State, desk: L.Desk)

  /** One turn of the flush loop: the device is looked up or made, then its rows are updated. */
  function Record(s: Store, p: Captured, t: I.Tables): Store
    requires I.Coherent(s.devices)
  {
    var devices := I.After(s.devices, p.who, t);
    Store(devices, L.Drain(s.desk, WithOwner(p, OwnerIn(devices.ids, p))))
  }

  ghost function RecordAll(s: Store, ps: seq<Captured>, t: I.Tables): (r: Store)
    requires I.Coherent(s.devices)
    ensures I.Coherent(r.devices)
  {
    if ps == [] then s
    else
      var before := RecordAll(s, ps[..|ps| - 1], t);
      I.AfterKeepsCoherent(before.devices, ps[|ps| - 1].who, t);
      Record(before, ps[|ps| - 1], t)
  }

  lemma NothingRecorded(s: Store, t: I.Tables)
    requires I.Coherent(s.devices)
    ensures RecordAll(s, [], t) == s
  {
  }

  lemma RecordOneMore(s: Store, ps: seq<Captured>, p: Captured, t: I.Tables)
    requires I.Coherent(s.devices)
    ensures RecordAll(s, ps + [p], t) == Record(RecordAll(s, ps, t), p, t)
  {
    hide Record;
    assert (ps + [p])[..|ps|] == ps;
  }

  // ------------------------------------------------------------------ session

  datatype State = State(queue: seq<Captured>, store: Store)

  ghost function Flush(s: State, t: I.Tables): State
    requires I.Coherent(s.store.devices)
  {
    State([], RecordAll(s.store, s.queue, t))
  }

  class Ingest {
    const cap: nat
    const pipeline: I.Pipeline
    var queue: seq<Captured>
    var desk: L.Desk

    function View(): State
      reads this, pipeline
    {
      State(queue, Store(pipeline.View(), desk))
    }

    constructor (cap: nat, pipeline: I.Pipeline)
      ensures this.cap == cap && this.pipeline == pipeline && View() == State([], Store(pipeline.View(), L.FRESH))
    {
      this.cap, this.pipeline := cap, pipeline;
      queue, desk := [], L.FRESH;
    }

    /** Reader thread: append; the oldest queued packet gives way when the queue is full. */
    method OnPacket(p: Captured)
      requires |queue| <= cap
      modifies this`queue
      ensures queue == Q.Newest(old(queue) + [p], cap) && |queue| <= cap
    {
      var full := |queue| == cap;
      queue := queue + [p];
      if full { queue := queue[1..]; }
    }

    /** Database thread: `record_packet` on each queued packet, then its row or the one its failure is credited to. */
    method FlushBatch(t: I.Tables)
      requires I.Coherent(pipeline.View())
      modifies this, pipeline
      ensures View() == Flush(old(View()), t) && I.Coherent(pipeline.View())
    {
      hide L.Drain, I.After, I.Coherent, RecordAll;
      var batch := queue;
      ghost var start := View().store;
      NothingRecorded(start, t);
      for i := 0 to |batch|
        invariant I.Coherent(pipeline.View()) && queue == batch
        invariant View().store == RecordAll(start, batch[..i], t)
      {
        assert batch[..i + 1] == batch[..i] + [batch[i]];
        RecordOneMore(start, batch[..i], batch[i], t);
        var owner := pipeline.RecordPacket(batch[i].who, t);
        desk := L.Drain(desk, WithOwner(batch[i], owner));
      }
      assert batch[..|batch|] == batch;
      queue := [];
    }
  }

  // --------------------------------------------------------------------- runs

  datatype Step = Arrive(p: Captured) | FlushStep

  ghost function RunAll(start: I.State, steps: seq<Step>, cap: nat, t: I.Tables): (s: State)
    requires I.Coherent(start)
    ensures I.Coherent(s.store.devices)
  {
    if steps == [] then State([], Store(start, L.FRESH))
    else
      var s := RunAll(start, steps[..|steps| - 1], cap, t);
      match steps[|steps| - 1]
      case Arrive(p) => s.(queue := Q.Newest(s.queue + [p], cap))
      case FlushStep => Flush(s, t)
  }

  /** The packets that arrived since the last flush. */
  function Pending(steps: seq<Step>): seq<Captured> {
    if steps == [] then []
    else
      match steps[|steps| - 1]
      case Arrive(p) => Pending(steps[..|steps| - 1]) + [p]
      case FlushStep => []
  }

  /** Everything drained: at each flush, the newest `cap` packets pending then. */
  function Drained(steps: seq<Step>, cap: nat): seq<Captured> {
    if steps == [] then []
    else
      var pre := steps[..|steps| - 1];
      if steps[|steps| - 1].FlushStep? then Drained(pre, cap) + Q.Newest(Pending(pre), cap) else Drained(pre, cap)
  }

  lemma {:induction false} RecordAllAfter(s: Store, ps: seq<Captured>, qs: seq<Captured>, t: I.Tables)
    requires I.Coherent(s.devices)
    ensures RecordAll(RecordAll(s, ps, t), qs, t) == RecordAll(s, ps + qs, t)
    decreases |qs|
  {
    hide Record;
    if qs == [] {
      assert ps + qs == ps;
    } else {
      RecordAllAfter(s, ps, qs[..|qs| - 1], t);
      assert (ps + qs)[..|ps + qs| - 1] == ps + qs[..|qs| - 1];
    }
  }

  /** However arrivals and flushes interleave, the store is what the drained packets make of it in their order. */
  lemma {:induction false} StoreIsDrained(start: I.State, steps: seq<Step>, cap: nat, t: I.Tables)
    requires I.Coherent(start)
    ensures var s := RunAll(start, steps, cap, t);
      && s.queue == Q.Newest(Pending(steps), cap)
      && s.store == RecordAll(Store(start, L.FRESH), Drained(steps, cap), t)
  {
    hide Q.Newest, RecordAll;
    if steps == [] {
      Q.NewestOfNone<Captured>(cap);
      NothingRecorded(Store(start, L.FRESH), t);
    } else {
      var pre, last := steps[..|steps| - 1], steps[|steps| - 1];
      StoreIsDrained(start, pre, cap, t);
      if last.Arrive? {
        Q.NewestSnoc(Pending(pre), last.p, cap);
      } else {
        Q.NewestOfNone<Captured>(cap);
        RecordAllAfter(Store(start, L.FRESH), Drained(pre, cap), Q.Newest(Pending(pre), cap), t);
      }
    }
  }

  // ---------------------------------------------------- packets under final ids

  function Whos(ps: seq<Captured>): seq<I.Packet> {
    seq(|ps|, i requires 0 <= i < |ps| => ps[i].who)
  }

  /** The packets with their owners read off one table of ids. */
  function Labelled(ps: seq<Captured>, ids: map<string, int>): seq<L.Packet> {
    seq(|ps|, i requires 0 <= i < |ps| => WithOwner(ps[i], OwnerIn(ids, ps[i])))
  }

  function KeysOf(ps: seq<Captured>): set<string> {
    set p | p in ps && KeyOf(p).Some? :: KeyOf(p).value
  }

  lemma KeysSnoc(ps: seq<Captured>, p: Captured)
    ensures KeysOf(ps + [p]) == KeysOf(ps) + if KeyOf(p).Some? then {KeyOf(p).value} else {}
  {
    hide KeyOf;
    assert forall q :: q in ps + [p] <==> q in ps || q == p;
  }

  /** Every key of these packets has an id. */
  ghost predicate AllNamed(ps: seq<Captured>, ids: map<string, int>) {
    forall p :: p in ps && KeyOf(p).Some? ==> KeyOf(p).value in ids
  }

  ghost predicate Extends(more: map<string, int>, ids: map<string, int>) {
    forall k :: k in ids ==> k in more && more[k] == ids[k]
  }

  /** A packet gives its own key an id and leaves every id there was. */
  lemma IdsExtend(s: I.State, p: I.Packet, t: I.Tables)
    requires I.Coherent(s)
    ensures Extends(I.After(s, p, t).ids, s.ids)
    ensures I.After(s, p, t).ids.Keys == s.ids.Keys + if I.Attributable(p) then {I.Key(p)} else {}
  {
    hide I.Key, I.Updates, I.Patch;
  }

  lemma SameLabels(ps: seq<Captured>, ids: map<string, int>, more: map<string, int>)
    requires AllNamed(ps, ids) && Extends(more, ids)
    ensures Labelled(ps, ids) == Labelled(ps, more) && AllNamed(ps, more)
  {
    hide KeyOf;
    forall i | 0 <= i < |ps|
      ensures OwnerIn(ids, ps[i]) == OwnerIn(more, ps[i])
    {
      assert ps[i] in ps;
    }
  }

  /** One more packet, under the ids in force after it. */
  lemma RecordStep(s: Store, pre: seq<Captured>, p: Captured, t: I.Tables)
    requires I.Coherent(s.devices) && AllNamed(pre, s.devices.ids)
    requires s.desk == L.DrainAll(Labelled(pre, s.devices.ids))
    ensures var r := Record(s, p, t);
      && r.desk == L.DrainAll(Labelled(pre + [p], r.devices.ids)) && AllNamed(pre + [p], r.devices.ids)
      && r.devices.ids.Keys == s.devices.ids.Keys + if KeyOf(p).Some? then {KeyOf(p).value} else {}
  {
    hide I.After, L.Drain, I.Key, I.Attributable;
    var ids := Record(s, p, t).devices.ids;
    IdsExtend(s.devices, p.who, t);
    SameLabels(pre, s.devices.ids, ids);
    var qs := Labelled(pre + [p], ids);
    assert qs[..|qs| - 1] == Labelled(pre, ids);
  }

  /** Ids handed out on the way are the ids in force at the end. */
  lemma {:induction false} RecordedUnderFinalIds(start: I.State, ps: seq<Captured>, t: I.Tables)
    requires I.Coherent(start)
    ensures var s := RecordAll(Store(start, L.FRESH), ps, t);
      && s.desk == L.DrainAll(Labelled(ps, s.devices.ids)) && AllNamed(ps, s.devices.ids)
      && s.devices.ids.Keys == start.ids.Keys + KeysOf(ps)
  {
    hide I.Coherent, Record, L.DrainAll, AllNamed, Labelled, KeysOf;
    if ps == [] {
      NothingLabelled(start.ids);
      NothingRecorded(Store(start, L.FRESH), t);
      NothingDrained();
    } else {
      var pre, p := ps[..|ps| - 1], ps[|ps| - 1];
      RecordedUnderFinalIds(start, pre, t);
      RecordStep(RecordAll(Store(start, L.FRESH), pre, t), pre, p, t);
      KeysSnoc(pre, p);
      assert pre + [p] == ps;
    }
  }

  lemma NothingDrained()
    ensures L.DrainAll([]) == L.FRESH && KeysOf([]) == {}
  {
  }

  /** The devices are those the identity pipeline alone would have made. */
  lemma {:induction false} DevicesAreIdentified(start: I.State, ps: seq<Captured>, t: I.Tables)
    requires I.Coherent(start)
    ensures RecordAll(Store(start, L.FRESH), ps, t).devices == I.RunAll(start, Whos(ps), t)
  {
    hide I.After, L.Drain, KeyOf;
    if ps != [] {
      DevicesAreIdentified(start, ps[..|ps| - 1], t);
      assert Whos(ps)[..|ps| - 1] == Whos(ps[..|ps| - 1]);
    }
  }

  lemma NothingLabelled(ids: map<string, int>)
    ensures Labelled([], ids) == [] && AllNamed([], ids)
  {
  }

  // --------------------------------------------- what the addresses alone say

  /** The latest attributable packet on this source and channel: when, and under which key. */
  function LastClean(ps: seq<Captured>, source: string, channel: int): Option<(real, string)> {
    if ps == [] then None
    else
      var p := ps[|ps| - 1];
      if KeyOf(p).Some? && p.source == source && p.channel == Some(channel) then Some((p.ts, KeyOf(p).value))
      else LastClean(ps[..|ps| - 1], source, channel)
  }

  /** The key a CRC failure after these packets is credited to. */
  function CreditedTo(ps: seq<Captured>, p: Captured): Option<string> {
    if p.who.crcOk || p.channel.None? then None
    else
      var last := LastClean(ps, p.source, p.channel.value);
      if last.Some? && p.ts - last.value.0 <= L.CRC_ATTRIB_WINDOW_S then Some(last.value.1) else None
  }

  /** What packet `p` after `ps` adds to the row of key `k`. */
  function Contribution(ps: seq<Captured>, p: Captured, k: string): seq<O.Event> {
    if KeyOf(p) == Some(k) then [L.HeardEvent(WithOwner(p, None))]
    else if KeyOf(p).None? && CreditedTo(ps, p) == Some(k) then [O.Bad(1, Some(p.ts))]
    else []
  }

  function HistoryOf(ps: seq<Captured>, k: string): seq<O.Event> {
    if ps == [] then [] else HistoryOf(ps[..|ps| - 1], k) + Contribution(ps[..|ps| - 1], ps[|ps| - 1], k)
  }

  ghost predicate Injective(ids: map<string, int>) {
    forall j, k :: j in ids && k in ids && ids[j] == ids[k] ==> j == k
  }

  lemma {:induction false} LastCleanLabelled(ps: seq<Captured>, ids: map<string, int>, source: string, channel: int)
    requires AllNamed(ps, ids)
    ensures var last := LastClean(ps, source, channel);
      && (last.Some? ==> last.value.1 in ids)
      && L.LastClean(Labelled(ps, ids), source, channel)
      == if last.None? then None else Some(L.Clean(last.value.0, ids[last.value.1]))
  {
    if ps != [] {
      LastCleanLabelled(ps[..|ps| - 1], ids, source, channel);
      assert Labelled(ps, ids)[..|ps| - 1] == Labelled(ps[..|ps| - 1], ids);
    }
  }

  lemma CreditLabelled(ps: seq<Captured>, p: Captured, ids: map<string, int>)
    requires AllNamed(ps, ids)
    ensures var credited := CreditedTo(ps, p);
      && (credited.Some? ==> credited.value in ids)
      && L.CreditedTo(Labelled(ps, ids), WithOwner(p, OwnerIn(ids, p)))
      == if credited.None? then None else Some(ids[credited.value])
  {
    if !p.who.crcOk && p.channel.Some? {
      LastCleanLabelled(ps, ids, p.source, p.channel.value);
    }
  }

  /** Under any table of ids, a row's events are those of the keys with that id: one key, or none. */
  lemma {:induction false} EventsByKey(ps: seq<Captured>, ids: map<string, int>, d: int)
    requires AllNamed(ps, ids) && Injective(ids)
    ensures forall k :: k in ids && ids[k] == d ==> L.EventsFor(Labelled(ps, ids), d) == HistoryOf(ps, k)
    ensures (forall k :: k in ids ==> ids[k] != d) ==> L.EventsFor(Labelled(ps, ids), d) == []
  {
    hide L.HeardEvent, L.CreditedTo, CreditedTo;
    if ps != [] {
      var pre, p := ps[..|ps| - 1], ps[|ps| - 1];
      EventsByKey(pre, ids, d);
      CreditLabelled(pre, p, ids);
      assert Labelled(ps, ids)[..|ps| - 1] == Labelled(pre, ids);
      HeardIgnoresOwner(p, OwnerIn(ids, p));
    }
  }

  lemma HeardIgnoresOwner(p: Captured, owner: Option<int>)
    ensures L.HeardEvent(WithOwner(p, owner)) == L.HeardEvent(WithOwner(p, None))
  {
  }

  /** The packets that are recorded. */
  function Recordable(ps: seq<Captured>): nat {
    if ps == [] then 0 else Recordable(ps[..|ps| - 1]) + if KeyOf(ps[|ps| - 1]).Some? then 1 else 0
  }

  lemma {:induction false} RecordableLabelled(ps: seq<Captured>, ids: map<string, int>)
    requires AllNamed(ps, ids)
    ensures L.Attributed(Labelled(ps, ids)) == Recordable(ps)
  {
    if ps != [] {
      RecordableLabelled(ps[..|ps| - 1], ids);
      assert Labelled(ps, ids)[..|ps| - 1] == Labelled(ps[..|ps| - 1], ids);
    }
  }

  /**
   The session by addresses, for every interleaving and whatever devices were stored: a key has a device exactly when it
   was stored or drained; the row of that device is the batch of what was drained under the key and of the CRC failures
   credited to it; no other rows exist, and together they count the attributable packets drained.
   */
  lemma RowsByAddress(start: I.State, steps: seq<Step>, cap: nat, t: I.Tables, k: string)
    requires I.NewSession(start)
    ensures var s, ps := RunAll(start, steps, cap, t).store, Drained(steps, cap);
      && s.devices == I.RunAll(start, Whos(ps), t)
      && (k in s.devices.ids <==> k in start.ids || k in KeysOf(ps))
      && (k in s.devices.ids ==> L.Find(s.desk.rows, s.devices.ids[k]) == O.Replay(HistoryOf(ps, k)))
      && (forall d :: d in s.desk.rows ==> exists j :: j in s.devices.ids && s.devices.ids[j] == d)
      && s.desk.recorded == Recordable(ps)
      && Sums.Sum(s.desk.rows.Keys, x => L.PacketsIn(s.desk.rows, x)) == Recordable(ps)
  {
    hide O.Replay, L.DrainAll, L.EventsFor, HistoryOf;
    StoreIsDrained(start, steps, cap, t);
    var s, ps := RunAll(start, steps, cap, t).store, Drained(steps, cap);
    var ids := s.devices.ids;
    RecordedUnderFinalIds(start, ps, t);
    DevicesAreIdentified(start, ps, t);
    var qs := Labelled(ps, ids);
    RecordableLabelled(ps, ids);
    L.RecordedIsTotal(qs);
    L.NothingReplayed();
    forall d | d in s.desk.rows
      ensures exists j :: j in ids && ids[j] == d
    {
      EventsByKey(ps, ids, d);
      L.RowsAreHistory(qs, d);
    }
    if k in ids {
      EventsByKey(ps, ids, ids[k]);
      L.RowsAreHistory(qs, ids[k]);
    }
  }

  /**
   What a device's row says depends on its own key only: two sessions that drain the same packets agree on every key.
   */
  lemma IdsDoNotMatter(
    start: I.State, other: I.State, steps: seq<Step>, more: seq<Step>, cap: nat, t: I.Tables, k: string)
    requires I.NewSession(start) && I.NewSession(other) && Drained(steps, cap) == Drained(more, cap)
    ensures var s, r := RunAll(start, steps, cap, t).store, RunAll(other, more, cap, t).store;
      k in s.devices.ids && k in r.devices.ids ==>
        L.Find(s.desk.rows, s.devices.ids[k]) == L.Find(r.desk.rows, r.devices.ids[k])
  {
    RowsByAddress(start, steps, cap, t, k);
    RowsByAddress(other, more, cap, t, k);
  }
}
