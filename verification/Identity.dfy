/**
 Identity enrichment during ingest: which device a packet belongs to, and how clues about a device are learned
 through a write-through cache.
 */
module Identity {
  import opened Wrappers
  import O = Observations

  /** The identity columns of a device row; also a set of updates, where absent means unchanged. */
  datatype Row = Row(
    localName: Option<string>, vendorId: Option<int>, vendor: Option<string>, ouiVendor: Option<string>,
    appearance: Option<int>, deviceClass: Option<string>, model: Option<string>)

  const BLANK := Row(None, None, None, None, None, None, None)

  datatype AddressType = Public | RandomStatic | Resolvable | NonResolvable | Other

  /** One decoded packet; `clues` is what its AD entries say, `oui` the vendor its address block is assigned to. */
  datatype Packet = Packet(crcOk: bool, addr: string, addrType: AddressType, clues: Clues, oui: Option<string>)

  datatype Clues = Clues(
    localName: Option<string>, vendorId: Option<int>, appearance: Option<int>, deviceClass: Option<string>,
    model: Option<string>)

  /** The vendor and appearance tables. */
  datatype Tables = Tables(company: int -> Option<string>, classOf: int -> Option<string>)

  // ------------------------------------------------------------------- keys

  function Prefix(t: AddressType): string {
    match t
    case Public => "pub:"
    case RandomStatic => "rs:"
    case Resolvable => "rpa:"
    case NonResolvable => "nrpa:"
    case Other => "anon:"
  }

  /** The stable key; the address is already in lower case. */
  function Key(p: Packet): string {
    Prefix(p.addrType) + p.addr
  }

  /** Two packets share a key exactly when they share address and address type. */
  lemma KeysTellApart(p: Packet, q: Packet)
    ensures Key(p) == Key(q) <==> p.addrType == q.addrType && p.addr == q.addr
  {
    var m, n := |Prefix(p.addrType)|, |Prefix(q.addrType)|;
    assert Key(p)[m..] == p.addr && Key(q)[n..] == q.addr;
    assert Key(p)[0] == Prefix(p.addrType)[0] && Key(p)[1] == Prefix(p.addrType)[1];
    assert Key(q)[0] == Prefix(q.addrType)[0] && Key(q)[1] == Prefix(q.addrType)[1];
  }

  // ---------------------------------------------------------------- learning

  function Precedence(c: Option<string>): nat {
    match c
    case None => 0
    case Some(name) =>
      if name == "unknown" then 0
      else if name == "apple_device" then 1
      else if name == "apple_airplay" || name == "homekit" || name == "ibeacon" then 2
      else if name == "airpods" || name == "airtag" || name == "apple_watch" || name == "iphone"
           || name == "ipad" || name == "mac" || name == "hearing_aid" then 5
      else 3
  }

  /** The class a packet offers: its own, or one derived from its appearance when the device has none yet. */
  function Offer(row: Row, p: Packet, t: Tables): Option<string> {
    if p.clues.deviceClass.Some? then p.clues.deviceClass
    else if p.clues.appearance.Some? && O.Named(row.deviceClass).None? then O.Named(t.classOf(p.clues.appearance.value))
    else None
  }

  function Fresh<T(==)>(had: Option<T>, clue: Option<T>): Option<T> {
    if clue.Some? && clue != had then clue else None
  }

  /** What one packet changes; `first` when the device has not been cached yet. */
  function Updates(row: Row, p: Packet, first: bool, t: Tables): Row {
    var offer := Offer(row, p, t);
    var vendorId := Fresh(row.vendorId, p.clues.vendorId);
    Row(Fresh(row.localName, p.clues.localName),
        vendorId,
        if vendorId.Some? && row.vendor.None? then O.Named(t.company(vendorId.value)) else None,
        if first && p.addrType == Public && row.ouiVendor.None? then O.Named(p.oui) else None,
        Fresh(row.appearance, p.clues.appearance),
        if Precedence(offer) > Precedence(row.deviceClass) then Fresh(row.deviceClass, offer) else None,
        Fresh(row.model, p.clues.model))
  }

  function Either<T>(update: Option<T>, had: Option<T>): Option<T> {
    if update.Some? then update else had
  }

  function Patch(row: Row, u: Row): Row {
    Row(Either(u.localName, row.localName), Either(u.vendorId, row.vendorId), Either(u.vendor, row.vendor),
        Either(u.ouiVendor, row.ouiVendor), Either(u.appearance, row.appearance),
        Either(u.deviceClass, row.deviceClass), Either(u.model, row.model))
  }

  // ------------------------------------------------------------------- state

  /** The device table, its unique keys, and the cache kept beside it; `writes` counts UPDATE statements. */
  datatype State = State(ids: map<string, int>, rows: map<int, Row>, cache: map<int, Row>, nextId: int, writes: nat)

  /** Every key has its own row, and every cached row is the stored one. */
  ghost predicate Coherent(s: State) {
    && (forall k :: k in s.ids ==> s.ids[k] in s.rows && s.ids[k] < s.nextId)
    && (forall j, k :: j in s.ids && k in s.ids && s.ids[j] == s.ids[k] ==> j == k)
    && (forall d :: d in s.cache ==> d in s.rows && s.cache[d] == s.rows[d])
    && (forall d :: d in s.rows ==> d < s.nextId)
  }

  function Upserted(s: State, key: string): State {
    if key in s.ids then s
    else s.(ids := s.ids[key := s.nextId], rows := s.rows[s.nextId := BLANK], nextId := s.nextId + 1)
  }

  predicate Attributable(p: Packet) {
    p.crcOk && p.addr != ""
  }

  lemma UpsertKeeps(s: State, key: string)
    requires Coherent(s)
    ensures Coherent(Upserted(s, key)) && key in Upserted(s, key).ids
    ensures Upserted(s, key).cache == s.cache && Upserted(s, key).writes == s.writes
  {
  }

  function After(s: State, p: Packet, t: Tables): State
    requires Coherent(s)
  {
    if !Attributable(p) then s
    else
      var m := Upserted(s, Key(p));
      var d := m.ids[Key(p)];
      var known := if d in m.cache then m.cache[d] else m.rows[d];
      var u := Updates(known, p, d !in m.cache, t);
      m.(rows := m.rows[d := Patch(m.rows[d], u)], cache := m.cache[d := Patch(known, u)],
         writes := m.writes + if u == BLANK then 0 else 1)
  }

  lemma AfterKeepsCoherent(s: State, p: Packet, t: Tables)
    requires Coherent(s)
    ensures Coherent(After(s, p, t))
  {
    hide Updates, Patch, Key;
  }

  /** A session: the cache starts empty over whatever rows are stored. */
  ghost predicate NewSession(s: State) {
    Coherent(s) && s.cache == map[]
  }

  ghost function RunAll(start: State, ps: seq<Packet>, t: Tables): (s: State)
    requires Coherent(start)
    ensures Coherent(s)
  {
    if ps == [] then start
    else
      var before := RunAll(start, ps[..|ps| - 1], t);
      AfterKeepsCoherent(before, ps[|ps| - 1], t);
      After(before, ps[|ps| - 1], t)
  }

  class Pipeline {
    var ids: map<string, int>
    var rows: map<int, Row>
    var cache: map<int, Row>
    var nextId: int
    var writes: nat

    function View(): State
      reads this
    {
      State(ids, rows, cache, nextId, writes)
    }

    constructor (ids: map<string, int>, rows: map<int, Row>, nextId: int)
      ensures View() == State(ids, rows, map[], nextId, 0)
    {
      this.ids, this.rows, this.nextId := ids, rows, nextId;
      cache, writes := map[], 0;
    }

    /** Insert or touch the device row of a stable key. */
    method Upsert(key: string) returns (d: int)
      requires Coherent(View())
      modifies this`ids, this`rows, this`nextId
      ensures View() == Upserted(old(View()), key) && key in ids && d == ids[key]
    {
      if key !in ids {
        ids, rows, nextId := ids[key := nextId], rows[nextId := BLANK], nextId + 1;
      }
      d := ids[key];
    }

    /** `record_packet` as far as the device's identity goes; the device's id when the packet is attributed. */
    method RecordPacket(p: Packet, t: Tables) returns (id: Option<int>)
      requires Coherent(View())
      modifies this
      ensures View() == After(old(View()), p, t) && Coherent(View())
      ensures id.Some? <==> Attributable(p)
      ensures id.Some? ==> Key(p) in ids && id.value == ids[Key(p)]
    {
      hide Key, Patch, Updates, Upserted;
      AfterKeepsCoherent(View(), p, t);
      if !p.crcOk {
        return None;
      }
      if p.addr == "" {
        return None;
      }
      UpsertKeeps(View(), Key(p));
      var d := Upsert(Key(p));
      var first := d !in cache;
      var state := if first then rows[d] else cache[d];
      var updates := CollectUpdates(state, p, first, t);
      PatchNothing(rows[d]);
      PatchNothing(state);
      var row, count := rows[d], writes;
      if updates != BLANK {
        row, state, count := Patch(row, updates), Patch(state, updates), count + 1;
      }
      rows, cache, writes := rows[d := row], cache[d := state], count;
      id := Some(d);
    }

    /** The clues that survive the guards and differ from what is known. */
    static method CollectUpdates(state: Row, p: Packet, first: bool, t: Tables) returns (u: Row)
      ensures u == Updates(state, p, first, t)
    {
      hide Precedence;
      var oui: Option<string>, vendor: Option<string>, cls := None, None, p.clues.deviceClass;
      if first && p.addrType == Public && state.ouiVendor.None? && O.Named(p.oui).Some? {
        oui := p.oui;
      }
      if cls.None? && p.clues.appearance.Some? && O.Named(state.deviceClass).None? {
        var fallback := t.classOf(p.clues.appearance.value);
        if O.Named(fallback).Some? { cls := fallback; }
      }
      if cls.Some? && Precedence(cls) <= Precedence(state.deviceClass) { cls := None; }
      NoClassNoRank();
      var vendorId := Fresh(state.vendorId, p.clues.vendorId);
      if vendorId.Some? && state.vendor.None? {
        var name := t.company(vendorId.value);
        if O.Named(name).Some? { vendor := name; }
      }
      u := Row(Fresh(state.localName, p.clues.localName), vendorId, vendor, oui,
               Fresh(state.appearance, p.clues.appearance),
               Fresh(state.deviceClass, cls), Fresh(state.model, p.clues.model));
    }
  }

  lemma PatchNothing(row: Row)
    ensures Patch(row, BLANK) == row
  {
  }

  // -------------------------------------------------------------- properties

  /** The attributable packets with key `k`. */
  function Select(ps: seq<Packet>, k: string): seq<Packet> {
    if ps == [] then []
    else
      var last := ps[|ps| - 1];
      Select(ps[..|ps| - 1], k) + if Attributable(last) && Key(last) == k then [last] else []
  }

  /** What one device's own packets add to its stored row, without cache, table or other devices. */
  function Learned(base: Row, ps: seq<Packet>, t: Tables): Row {
    if ps == [] then base
    else
      var before := Learned(base, ps[..|ps| - 1], t);
      Patch(before, Updates(before, ps[|ps| - 1], |ps| == 1, t))
  }

  function RowOf(s: State, k: string): Row
    requires k in s.ids ==> s.ids[k] in s.rows
  {
    if k in s.ids then s.rows[s.ids[k]] else BLANK
  }

  predicate Cached(s: State, k: string) {
    k in s.ids && s.ids[k] in s.cache
  }

  lemma StepRow(s: State, p: Packet, t: Tables, k: string)
    requires Coherent(s) && Attributable(p)
    ensures var r, mine := After(s, p, t), k == Key(p);
      && Coherent(r) && (k in r.ids <==> k in s.ids || mine) && (Cached(r, k) <==> Cached(s, k) || mine)
      && (k in s.ids ==> r.ids[k] == s.ids[k])
      && RowOf(r, k) == if mine then Patch(RowOf(s, k), Updates(RowOf(s, k), p, !Cached(s, k), t)) else RowOf(s, k)
  {
    hide Updates, Patch, Key;
    AfterKeepsCoherent(s, p, t);
  }

  /** Through cache and table, every device's row becomes exactly what its own packets add to it, in their order. */
  lemma {:induction false} RowsAreLearned(start: State, ps: seq<Packet>, t: Tables, k: string)
    requires NewSession(start)
    ensures var s, mine := RunAll(start, ps, t), Select(ps, k);
      && (k in s.ids <==> k in start.ids || mine != []) && (Cached(s, k) <==> mine != [])
      && (k in start.ids ==> s.ids[k] == start.ids[k])
      && RowOf(s, k) == Learned(RowOf(start, k), mine, t)
  {
    hide Updates, Patch, Key, After, Learned, RowOf, Attributable;
    if ps == [] {
      LearnedNothing(RowOf(start, k), t);
    } else {
      var pre, last := ps[..|ps| - 1], ps[|ps| - 1];
      RowsAreLearned(start, pre, t, k);
      if Attributable(last) {
        StepRow(RunAll(start, pre, t), last, t, k);
        LearnedStep(RowOf(start, k), Select(pre, k), last, t);
        assert (Select(pre, k) == []) == !Cached(RunAll(start, pre, t), k);
        assert Select(pre, k) + [] == Select(pre, k);
      } else {
        IgnoredPacket(RunAll(start, pre, t), last, t);
      }
    }
  }

  lemma LearnedNothing(base: Row, t: Tables)
    ensures Learned(base, [], t) == base
  {
  }

  lemma LearnedStep(base: Row, mine: seq<Packet>, last: Packet, t: Tables)
    ensures Learned(base, mine + [last], t)
         == Patch(Learned(base, mine, t), Updates(Learned(base, mine, t), last, mine == [], t))
  {
  }

  lemma IgnoredPacket(s: State, p: Packet, t: Tables)
    requires Coherent(s) && !Attributable(p)
    ensures After(s, p, t) == s
  {
  }

  /** Two attributed packets of one session go to the same device exactly when address and address type agree. */
  lemma SameDeviceExactly(start: State, ps: seq<Packet>, t: Tables, i: nat, j: nat)
    requires NewSession(start) && i < |ps| && j < |ps| && Attributable(ps[i]) && Attributable(ps[j])
    ensures var s := RunAll(start, ps, t);
      && Key(ps[i]) in s.ids && Key(ps[j]) in s.ids
      && (s.ids[Key(ps[i])] == s.ids[Key(ps[j])] <==> ps[i].addrType == ps[j].addrType && ps[i].addr == ps[j].addr)
  {
    hide Key;
    SelectFinds(ps, i);
    SelectFinds(ps, j);
    RowsAreLearned(start, ps, t, Key(ps[i]));
    RowsAreLearned(start, ps, t, Key(ps[j]));
    KeysTellApart(ps[i], ps[j]);
  }

  lemma {:induction false} SelectFinds(ps: seq<Packet>, i: nat)
    requires i < |ps| && Attributable(ps[i])
    ensures Select(ps, Key(ps[i])) != []
    decreases |ps|
  {
    hide Key;
    if i < |ps| - 1 {
      SelectFinds(ps[..|ps| - 1], i);
    }
  }

  /** The class a device starts with, then the classes its packets offer. */
  function Offers(base: Row, ps: seq<Packet>, t: Tables): seq<string> {
    if ps == [] then
      if base.deviceClass.Some? then [base.deviceClass.value] else []
    else
      var offer := Offer(Learned(base, ps[..|ps| - 1], t), ps[|ps| - 1], t);
      Offers(base, ps[..|ps| - 1], t) + if offer.Some? then [offer.value] else []
  }

  predicate FirstMostSpecific(os: seq<string>, k: int) {
    && 0 <= k < |os|
    && (forall i :: 0 <= i < |os| ==> Precedence(Some(os[i])) <= Precedence(Some(os[k])))
    && (forall i :: 0 <= i < k ==> Precedence(Some(os[i])) < Precedence(Some(os[k])))
  }

  predicate NoneSpecific(os: seq<string>) {
    forall i :: 0 <= i < |os| ==> Precedence(Some(os[i])) == 0
  }

  lemma ClassStep(row: Row, p: Packet, first: bool, t: Tables)
    ensures var offer := Offer(row, p, t);
      Patch(row, Updates(row, p, first, t)).deviceClass
      == if Precedence(offer) > Precedence(row.deviceClass) then offer else row.deviceClass
  {
  }

  /** A device's class is the first among the most specific ever known or offered; none only if nothing specific was. */
  lemma {:induction false} ClassIsFirstMostSpecific(base: Row, ps: seq<Packet>, t: Tables)
    ensures var c, os := Learned(base, ps, t).deviceClass, Offers(base, ps, t);
      && (c.None? <==> base.deviceClass.None? && NoneSpecific(os))
      && (c.Some? ==> exists k :: 0 <= k < |os| && FirstMostSpecific(os, k) && os[k] == c.value)
  {
    hide Precedence, Offer, Updates, Patch, FirstMostSpecific, NoneSpecific;
    NoClassNoRank();
    if ps == [] {
      FirstOfOne(Offers(base, ps, t));
    } else {
      var pre, last := ps[..|ps| - 1], ps[|ps| - 1];
      ClassIsFirstMostSpecific(base, pre, t);
      var before, os := Learned(base, pre, t), Offers(base, pre, t);
      ClassStep(before, last, |ps| == 1, t);
      var offer := Offer(before, last, t);
      if offer.Some? {
        OfferSnoc(os, offer.value);
        if before.deviceClass.Some? {
          var k :| 0 <= k < |os| && FirstMostSpecific(os, k) && os[k] == before.deviceClass.value;
          MaximumSnoc(os, offer.value, k);
        }
      } else {
        assert os + [] == os;
      }
    }
  }

  lemma FirstOfOne(os: seq<string>)
    ensures os == [] ==> NoneSpecific(os)
    ensures |os| == 1 ==> FirstMostSpecific(os, 0)
  {
  }

  lemma OfferSnoc(os: seq<string>, o: string)
    ensures NoneSpecific(os + [o]) <==> NoneSpecific(os) && Precedence(Some(o)) == 0
    ensures NoneSpecific(os) && Precedence(Some(o)) > 0 ==> FirstMostSpecific(os + [o], |os|)
  {
    hide Precedence;
    var all := os + [o];
    assert all[|os|] == o && forall i :: 0 <= i < |os| ==> all[i] == os[i];
  }

  lemma MaximumSnoc(os: seq<string>, o: string, k: int)
    requires FirstMostSpecific(os, k)
    ensures FirstMostSpecific(os + [o], if Precedence(Some(o)) > Precedence(Some(os[k])) then |os| else k)
    ensures (os + [o])[k] == os[k] && (os + [o])[|os|] == o
  {
    hide Precedence;
    var all := os + [o];
    assert all[|os|] == o && forall i :: 0 <= i < |os| ==> all[i] == os[i];
  }

  lemma NoClassNoRank()
    ensures Precedence(None) == 0
  {
  }

  /** How often the class changed. */
  function Changes(base: Row, ps: seq<Packet>, t: Tables): nat {
    if ps == [] then 0
    else
      var changed := Learned(base, ps, t).deviceClass != Learned(base, ps[..|ps| - 1], t).deviceClass;
      Changes(base, ps[..|ps| - 1], t) + if changed then 1 else 0
  }

  /** The five levels of precedence, numbered without gap. */
  function Level(c: Option<string>): nat {
    if Precedence(c) == 5 then 4 else Precedence(c)
  }

  /** A class never goes back and forth: however many packets come, it climbs at most four times. */
  lemma {:induction false} ClassSettles(base: Row, ps: seq<Packet>, t: Tables)
    ensures Changes(base, ps, t) <= Level(Learned(base, ps, t).deviceClass) - Level(base.deviceClass) <= 4
  {
    hide Offer, Updates, Patch;
    if ps != [] {
      var pre := ps[..|ps| - 1];
      ClassSettles(base, pre, t);
      ClassStep(Learned(base, pre, t), ps[|ps| - 1], |ps| == 1, t);
    }
  }

  /** A packet seen again at once changes nothing and costs no UPDATE. */
  lemma RepeatWritesNothing(s: State, p: Packet, t: Tables)
    requires Coherent(s)
    ensures Coherent(After(s, p, t)) && After(After(s, p, t), p, t) == After(s, p, t)
  {
    hide Key;
    AfterKeepsCoherent(s, p, t);
    if Attributable(p) {
      var m := Upserted(s, Key(p));
      var d := m.ids[Key(p)];
      var known := if d in m.cache then m.cache[d] else m.rows[d];
      LearnTwice(known, p, d !in m.cache, t);
      var next := After(s, p, t);
      PatchNothing(next.rows[d]);
      assert After(next, p, t).rows == next.rows && After(next, p, t).cache == next.cache;
    }
  }

  lemma LearnTwice(row: Row, p: Packet, first: bool, t: Tables)
    ensures Updates(Patch(row, Updates(row, p, first, t)), p, false, t) == BLANK
  {
  }

  /** The stored vendor name belongs to the stored company id. */
  predicate VendorMatches(row: Row, t: Tables) {
    row.vendor.Some? ==> row.vendorId.Some? && t.company(row.vendorId.value) == row.vendor
  }

  /**
   A packet breaks that match exactly when it brings another company id to a named row, unless both share the name.
   */
  lemma VendorMatchesExactly(row: Row, p: Packet, first: bool, t: Tables)
    requires VendorMatches(row, t)
    ensures VendorMatches(Patch(row, Updates(row, p, first, t)), t) <==>
      !(row.vendor.Some? && p.clues.vendorId.Some? && t.company(p.clues.vendorId.value) != row.vendor)
  {
  }

  /** A device named after company 76 that then announces company 6 keeps the old name beside the new id. */
  lemma VendorGoesStale(t: Tables, p: Packet)
    requires t.company(76) == Some("Apple") && t.company(6) == Some("Microsoft")
    requires p == Packet(true, "aa:bb:cc:dd:ee:ff", Resolvable, Clues(None, Some(6), None, None, None), None)
    ensures var row := BLANK.(vendorId := Some(76), vendor := Some("Apple"));
      var next := Patch(row, Updates(row, p, false, t));
      VendorMatches(row, t) && next.vendorId == Some(6) && next.vendor == Some("Apple") && !VendorMatches(next, t)
  {
    assert "Apple"[0] != "Microsoft"[0];
  }
}
