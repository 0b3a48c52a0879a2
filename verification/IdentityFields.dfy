/** What a device row holds after any packets, column by column, in terms of the clues themselves. */
module IdentityFields {
  import opened Wrappers
  import opened Identity

  /** How specific a class is: the generic Apple class, then the beacon-like ones, then any other, then one product. */
  lemma PrecedenceIs(name: string)
    ensures var n := Precedence(Some(name));
      && Precedence(None) == 0
      && (n == 0 <==> name == "unknown") && (n == 1 <==> name == "apple_device")
      && (n == 2 <==> name in {"apple_airplay", "homekit", "ibeacon"})
      && (n == 5 <==> name in {"airpods", "airtag", "apple_watch", "iphone", "ipad", "mac", "hearing_aid"})
      && (n == 3 <==> n != 0 && n != 1 && n != 2 && n != 5)
  {
    assert "unknown"[0] != "apple_device"[0];
  }

  predicate NonEmpty(s: Option<string>) {
    s.Some? && s.value != ""
  }

  /** The class a packet offers: what it says; else, to a device that has none, what its appearance stands for. */
  lemma OfferIs(row: Row, p: Packet, t: Tables)
    ensures var o := Offer(row, p, t);
      && (p.clues.deviceClass.Some? ==> o == p.clues.deviceClass)
      && (p.clues.deviceClass.None? && (p.clues.appearance.None? || NonEmpty(row.deviceClass)) ==> o == None)
      && (p.clues.deviceClass.None? && p.clues.appearance.Some? && !NonEmpty(row.deviceClass) ==>
            o == if NonEmpty(t.classOf(p.clues.appearance.value)) then t.classOf(p.clues.appearance.value) else None)
  {
  }

  /** The packet names a company other than the stored one, and the company has a name. */
  predicate NamesVendor(vendorId: Option<int>, p: Packet, t: Tables) {
    p.clues.vendorId.Some? && p.clues.vendorId != vendorId && NonEmpty(t.company(p.clues.vendorId.value))
  }

  /** One packet: each clue it has replaces the column; the vendor names are only ever filled in. */
  lemma OnePacketTeaches(row: Row, p: Packet, first: bool, t: Tables)
    ensures var r := Patch(row, Updates(row, p, first, t));
      && r.localName == (if p.clues.localName.Some? then p.clues.localName else row.localName)
      && r.vendorId == (if p.clues.vendorId.Some? then p.clues.vendorId else row.vendorId)
      && r.appearance == (if p.clues.appearance.Some? then p.clues.appearance else row.appearance)
      && r.model == (if p.clues.model.Some? then p.clues.model else row.model)
      && r.vendor == (if row.vendor.Some? then row.vendor
                      else if NamesVendor(row.vendorId, p, t) then t.company(p.clues.vendorId.value) else None)
      && r.ouiVendor == (if row.ouiVendor.Some? then row.ouiVendor
                         else if first && p.addrType == Public && NonEmpty(p.oui) then p.oui else None)
  {
    hide Precedence, Offer;
  }

  /** The clue of the last packet that has one, or what was stored. */
  function Latest<T>(stored: Option<T>, ps: seq<Packet>, clue: Packet -> Option<T>): Option<T> {
    if ps == [] then stored
    else if clue(ps[|ps| - 1]).Some? then clue(ps[|ps| - 1])
    else Latest(stored, ps[..|ps| - 1], clue)
  }

  function NameClue(p: Packet): Option<string> { p.clues.localName }

  function CompanyClue(p: Packet): Option<int> { p.clues.vendorId }

  function AppearanceClue(p: Packet): Option<int> { p.clues.appearance }

  function ModelClue(p: Packet): Option<string> { p.clues.model }

  /** Name, company id, appearance and model are those of the last packet that brought one. */
  lemma {:induction false} LastClueWins(base: Row, ps: seq<Packet>, t: Tables)
    ensures var r := Learned(base, ps, t);
      && r.localName == Latest(base.localName, ps, NameClue) && r.vendorId == Latest(base.vendorId, ps, CompanyClue)
      && r.appearance == Latest(base.appearance, ps, AppearanceClue) && r.model == Latest(base.model, ps, ModelClue)
  {
    hide Updates, Patch;
    if ps != [] {
      var pre := ps[..|ps| - 1];
      LastClueWins(base, pre, t);
      OnePacketTeaches(Learned(base, pre, t), ps[|ps| - 1], |ps| == 1, t);
    }
  }

  /** The block vendor is looked up once, on the first packet of a session, for public addresses only. */
  lemma {:induction false} BlockVendorIsFirst(base: Row, ps: seq<Packet>, t: Tables)
    ensures Learned(base, ps, t).ouiVendor ==
      if base.ouiVendor.Some? then base.ouiVendor
      else if ps != [] && ps[0].addrType == Public && NonEmpty(ps[0].oui) then ps[0].oui else None
  {
    hide Updates, Patch;
    if ps != [] {
      var pre := ps[..|ps| - 1];
      BlockVendorIsFirst(base, pre, t);
      OnePacketTeaches(Learned(base, pre, t), ps[|ps| - 1], |ps| == 1, t);
    }
  }

  /** The name of the company the packet says. */
  function VendorFrom(p: Packet, t: Tables): Option<string> {
    if p.clues.vendorId.Some? then t.company(p.clues.vendorId.value) else None
  }

  /** Packet `i` brings a new company id that has a name. */
  predicate NamesAt(base: Row, ps: seq<Packet>, t: Tables, i: int) {
    0 <= i < |ps| && NamesVendor(Latest(base.vendorId, ps[..i], CompanyClue), ps[i], t)
  }

  ghost predicate NamesFirst(base: Row, ps: seq<Packet>, t: Tables, i: int) {
    NamesAt(base, ps, t, i) && forall j :: j < i ==> !NamesAt(base, ps, t, j)
  }

  lemma NamesEarlier(base: Row, ps: seq<Packet>, t: Tables, i: int)
    requires ps != [] && i < |ps| - 1
    ensures NamesAt(base, ps, t, i) <==> NamesAt(base, ps[..|ps| - 1], t, i)
  {
    if 0 <= i { assert ps[..|ps| - 1][..i] == ps[..i]; }
  }

  /** The vendor is the stored one, or that of the first packet with a new company id that has a name. */
  lemma {:induction false} VendorIsFirstNamed(base: Row, ps: seq<Packet>, t: Tables)
    ensures var v := Learned(base, ps, t).vendor;
      && (base.vendor.Some? ==> v == base.vendor)
      && (base.vendor.None? ==>
            && (v.None? <==> forall i :: !NamesAt(base, ps, t, i))
            && (v.Some? ==> exists i :: NamesFirst(base, ps, t, i) && VendorFrom(ps[i], t) == v))
  {
    hide Updates, Patch, NamesVendor, Latest;
    if ps != [] {
      var pre, n := ps[..|ps| - 1], |ps| - 1;
      VendorIsFirstNamed(base, pre, t);
      LastClueWins(base, pre, t);
      var before := Learned(base, pre, t);
      OnePacketTeaches(before, ps[n], |ps| == 1, t);
      forall i | i < n
        ensures NamesAt(base, ps, t, i) <==> NamesAt(base, pre, t, i)
      {
        NamesEarlier(base, ps, t, i);
      }
      if base.vendor.None? {
        if before.vendor.Some? {
          var i :| NamesFirst(base, pre, t, i) && VendorFrom(pre[i], t) == before.vendor;
          assert NamesFirst(base, ps, t, i);
        } else if NamesAt(base, ps, t, n) {
          assert NamesFirst(base, ps, t, n);
          VendorIs(before.vendorId, ps[n], t);
        }
      }
    }
  }

  lemma VendorIs(vendorId: Option<int>, p: Packet, t: Tables)
    requires NamesVendor(vendorId, p, t)
    ensures p.clues.vendorId.Some? && VendorFrom(p, t) == t.company(p.clues.vendorId.value) && VendorFrom(p, t).Some?
  {
  }

  /** Over every session, through cache and table, the columns of the row of a stable key. */
  lemma SessionFields(start: State, ps: seq<Packet>, t: Tables, k: string)
    requires NewSession(start)
    ensures var row, base, mine := RowOf(RunAll(start, ps, t), k), RowOf(start, k), Select(ps, k);
      && row.localName == Latest(base.localName, mine, NameClue)
      && row.vendorId == Latest(base.vendorId, mine, CompanyClue)
      && row.appearance == Latest(base.appearance, mine, AppearanceClue)
      && row.model == Latest(base.model, mine, ModelClue)
      && (row.ouiVendor == if base.ouiVendor.Some? then base.ouiVendor
                           else if mine != [] && mine[0].addrType == Public && NonEmpty(mine[0].oui) then mine[0].oui
                           else None)
      && (base.vendor.Some? ==> row.vendor == base.vendor)
      && (base.vendor.None? && row.vendor.Some? ==>
            exists i :: NamesFirst(base, mine, t, i) && VendorFrom(mine[i], t) == row.vendor)
  {
    hide Learned, Select, RowOf;
    RowsAreLearned(start, ps, t, k);
    var base, mine := RowOf(start, k), Select(ps, k);
    LastClueWins(base, mine, t);
    BlockVendorIsFirst(base, mine, t);
    VendorIsFirstNamed(base, mine, t);
  }

  /** The stable keys, in full. */
  lemma KeyForms(p: Packet)
    ensures Key(p) ==
      match p.addrType
      case Public => "pub:" + p.addr
      case RandomStatic => "rs:" + p.addr
      case Resolvable => "rpa:" + p.addr
      case NonResolvable => "nrpa:" + p.addr
      case Other => "anon:" + p.addr
  {
  }
}
