/**
 Broadcast metadata from advertising data: the live path flattens AD structures into parallel
 arrays, and the Auracast walker pairs them up again.
 */
module Auracast {
  import opened Wrappers
  import opened Octets
  import opened AdStream

  const AD_INCOMPLETE_LIST_16: byte := 0x02
  const AD_COMPLETE_LIST_16: byte := 0x03
  const AD_SOLICITATION_16: byte := 0x14
  const AD_SERVICE_DATA_16: byte := 0x16
  const AD_SERVICE_DATA_32: byte := 0x20
  const AD_SERVICE_DATA_128: byte := 0x21
  const BAA_UUID: u16 := 0x1852
  const PBA_UUID: u16 := 0x1856

  // ---------------------------------------------------------------- synthesis

  predicate IsUuidList(kind: byte) {
    kind == AD_INCOMPLETE_LIST_16 || kind == AD_COMPLETE_LIST_16
  }

  /** A service-data structure long enough to hold its UUID. */
  predicate IsServiceData(e: Entry) {
    e.kind == AD_SERVICE_DATA_16 && |e.value| >= 2
  }

  function UuidsIn(v: seq<byte>): seq<u16> {
    if |v| < 2 then [] else [FromLE16(v[..2])] + UuidsIn(v[2..])
  }

  /** What one structure appends to the UUID array. */
  function UuidsOf(e: Entry): seq<u16> {
    if IsUuidList(e.kind) then UuidsIn(e.value)
    else if IsServiceData(e) then [FromLE16(e.value[..2])]
    else []
  }

  /** What one structure appends to the service-data array. */
  function DataOf(e: Entry): seq<seq<byte>> {
    if IsServiceData(e) then [e.value[2..]] else []
  }

  /** The synthesised arrays; the text forms of numbers and octets are left as numbers and octets. */
  datatype Layer = Layer(kinds: seq<byte>, uuids: seq<u16>, data: seq<seq<byte>>)

  function Synth(es: seq<Entry>): Layer {
    if es == [] then Layer([], [], [])
    else
      var l := Synth(es[..|es| - 1]);
      var e := es[|es| - 1];
      Layer(l.kinds + [e.kind], l.uuids + UuidsOf(e), l.data + DataOf(e))
  }

  method SynthBtleLayer(es: seq<Entry>) returns (l: Layer)
    ensures l == Synth(es)
  {
    hide UuidsOf, DataOf;
    var kinds: seq<byte> := [];
    var uuids: seq<u16> := [];
    var data: seq<seq<byte>> := [];
    for i := 0 to |es|
      invariant Layer(kinds, uuids, data) == Synth(es[..i])
    {
      assert es[..i + 1][..i] == es[..i];
      kinds := kinds + [es[i].kind];
      var more := ReadUuids(es[i]);
      uuids := uuids + more;
      data := data + DataOf(es[i]);
    }
    assert es[..|es|] == es;
    l := Layer(kinds, uuids, data);
  }

  method ReadUuids(e: Entry) returns (uuids: seq<u16>)
    ensures uuids == UuidsOf(e)
  {
    uuids := [];
    if IsUuidList(e.kind) {
      var at := 0;
      assert e.value[0..] == e.value;
      while at < |e.value| - 1
        invariant 0 <= at <= |e.value|
        invariant UuidsIn(e.value) == uuids + UuidsIn(e.value[at..])
      {
        assert e.value[at..][..2] == e.value[at..at + 2] && e.value[at..][2..] == e.value[at + 2..];
        uuids := uuids + [FromLE16(e.value[at..at + 2])];
        at := at + 2;
      }
      assert UuidsIn(e.value[at..]) == [];
    } else if IsServiceData(e) {
      uuids := [FromLE16(e.value[..2])];
    }
  }

  // ------------------------------------------------------------------ walking

  /** Structure types that, to the walker, hold one slot of the UUID array. */
  predicate TakesUuid(kind: byte) {
    IsUuidList(kind) || kind == AD_SOLICITATION_16 || kind == AD_SERVICE_DATA_16
  }

  predicate TakesData(kind: byte) {
    kind == AD_SERVICE_DATA_16 || kind == AD_SERVICE_DATA_32 || kind == AD_SERVICE_DATA_128
  }

  datatype Found = Found(broadcastId: Option<nat>, features: Option<byte>)

  function LE24(d: seq<byte>): nat
    requires |d| >= 3
  {
    var b0: int, b1: int, b2: int := d[0], d[1], d[2];
    b0 + 256 * (b1 + 256 * b2)
  }

  /** The effect of one paired service-data structure: the first broadcast id and the first feature octet win. */
  function Learn(f: Found, uuid: u16, d: seq<byte>): Found {
    if uuid == BAA_UUID && |d| >= 3 && f.broadcastId == None then f.(broadcastId := Some(LE24(d)))
    else if uuid == PBA_UUID && |d| >= 1 && f.features == None then f.(features := Some(d[0]))
    else f
  }

  function UuidSlots(kinds: seq<byte>): nat {
    if kinds == [] then 0
    else UuidSlots(kinds[..|kinds| - 1]) + if TakesUuid(kinds[|kinds| - 1]) then 1 else 0
  }

  function DataSlots(kinds: seq<byte>): nat {
    if kinds == [] then 0
    else DataSlots(kinds[..|kinds| - 1]) + if TakesData(kinds[|kinds| - 1]) then 1 else 0
  }

  /** The pair of array elements the walker reads for a 16-bit service-data structure after `kinds`. */
  function PairAfter(kinds: seq<byte>, l: Layer): Option<(u16, seq<byte>)> {
    if UuidSlots(kinds) < |l.uuids| && DataSlots(kinds) < |l.data|
    then Some((l.uuids[UuidSlots(kinds)], l.data[DataSlots(kinds)]))
    else None
  }

  function WalkUpTo(l: Layer, i: nat): Found
    requires i <= |l.kinds|
  {
    if i == 0 then Found(None, None)
    else WalkStep(WalkUpTo(l, i - 1), l.kinds[i - 1], l.kinds[..i - 1], l)
  }

  function WalkStep(f: Found, kind: byte, before: seq<byte>, l: Layer): Found {
    var pair := PairAfter(before, l);
    if kind == AD_SERVICE_DATA_16 && pair.Some? then Learn(f, pair.value.0, pair.value.1) else f
  }

  function Walk(l: Layer): Found {
    WalkUpTo(l, |l.kinds|)
  }

  method WalkServiceData(l: Layer) returns (f: Found)
    ensures f == Walk(l)
  {
    var uuidIdx, dataIdx := 0, 0;
    var broadcastId: Option<nat> := None;
    var features: Option<byte> := None;
    for i := 0 to |l.kinds|
      invariant uuidIdx == UuidSlots(l.kinds[..i]) && dataIdx == DataSlots(l.kinds[..i])
      invariant Found(broadcastId, features) == WalkUpTo(l, i)
    {
      assert l.kinds[..i + 1][..i] == l.kinds[..i];
      var t := l.kinds[i];
      var u := if TakesUuid(t) && uuidIdx < |l.uuids| then Some(l.uuids[uuidIdx]) else None;
      // Empty text parses to nothing, so an empty payload is never examined.
      var d := if TakesData(t) && dataIdx < |l.data| && l.data[dataIdx] != [] then Some(l.data[dataIdx]) else None;
      if t == AD_SERVICE_DATA_16 && u.Some? && d.Some? {
        if u.value == BAA_UUID && |d.value| >= 3 && broadcastId == None {
          broadcastId := Some(LE24(d.value));
        } else if u.value == PBA_UUID && |d.value| >= 1 && features == None {
          features := Some(d.value[0]);
        }
      }
      if TakesUuid(t) { uuidIdx := uuidIdx + 1; }
      if TakesData(t) { dataIdx := dataIdx + 1; }
    }
    f := Found(broadcastId, features);
  }

  // ------------------------------------------------------- the direct reading

  /** What the advertisement says: each service-data structure paired with its own payload. */
  function Direct(es: seq<Entry>): Found {
    if es == [] then Found(None, None) else DirectStep(Direct(es[..|es| - 1]), es[|es| - 1])
  }

  function DirectStep(f: Found, e: Entry): Found {
    if IsServiceData(e) then Learn(f, FromLE16(e.value[..2]), e.value[2..]) else f
  }

  function UuidCount(es: seq<Entry>): nat {
    |Synth(es).uuids|
  }

  function DataCount(es: seq<Entry>): nat {
    |Synth(es).data|
  }

  /**
   Before every 16-bit service-data structure, the walker has counted as many slots as the
   synthesis has filled, and the structure fills slots of its own.
   */
  ghost predicate Aligned(es: seq<Entry>) {
    forall i :: 0 <= i < |es| && es[i].kind == AD_SERVICE_DATA_16 ==> AlignedAt(es, i)
  }

  predicate AlignedAt(es: seq<Entry>, i: nat)
    requires i < |es|
  {
    && |es[i].value| >= 2
    && UuidSlots(Kinds(es[..i])) == UuidCount(es[..i])
    && DataSlots(Kinds(es[..i])) == DataCount(es[..i])
  }

  function Kinds(es: seq<Entry>): seq<byte> {
    seq(|es|, i requires 0 <= i < |es| => es[i].kind)
  }

  lemma {:induction false} SynthKinds(es: seq<Entry>)
    ensures Synth(es).kinds == Kinds(es)
  {
    if es != [] { SynthKinds(es[..|es| - 1]); }
  }

  /** The arrays only grow as structures are added. */
  lemma {:induction false} SynthGrows(es: seq<Entry>, i: nat)
    requires i <= |es|
    ensures Synth(es[..i]).uuids <= Synth(es).uuids && Synth(es[..i]).data <= Synth(es).data
    decreases |es| - i
  {
    if i < |es| {
      SynthGrows(es, i + 1);
      assert es[..i + 1][..i] == es[..i];
    } else {
      assert es[..i] == es;
    }
  }

  /** At an aligned structure the walker reads exactly that structure's own UUID and payload. */
  lemma AlignedReadsOwn(es: seq<Entry>, i: nat)
    requires i < |es| && es[i].kind == AD_SERVICE_DATA_16 && AlignedAt(es, i)
    ensures PairAfter(Kinds(es)[..i], Synth(es)) == Some((FromLE16(es[i].value[..2]), es[i].value[2..]))
  {
    hide UuidSlots, DataSlots, UuidsIn, FromLE16, Synth, UuidsOf, DataOf;
    assert Kinds(es)[..i] == Kinds(es[..i]);
    SynthGrows(es, i + 1);
    OwnElements(es, i);
    var l, next := Synth(es[..i]), Synth(es[..i + 1]);
    assert Synth(es).uuids[|l.uuids|] == next.uuids[|l.uuids|];
    assert Synth(es).data[|l.data|] == next.data[|l.data|];
  }

  /** What a full-length service-data structure adds to the arrays. */
  lemma OwnElements(es: seq<Entry>, i: nat)
    requires i < |es| && es[i].kind == AD_SERVICE_DATA_16 && |es[i].value| >= 2
    ensures var l, next := Synth(es[..i]), Synth(es[..i + 1]);
      next.uuids == l.uuids + [FromLE16(es[i].value[..2])] && next.data == l.data + [es[i].value[2..]]
  {
    hide UuidsIn, FromLE16;
    assert es[..i + 1][..i] == es[..i];
  }

  lemma {:induction false} WalkIsDirectUpTo(es: seq<Entry>, i: nat)
    requires Aligned(es) && i <= |es|
    ensures |Synth(es).kinds| == |es| && WalkUpTo(Synth(es), i) == Direct(es[..i])
  {
    SynthKinds(es);
    if i > 0 {
      WalkIsDirectUpTo(es, i - 1);
      assert es[..i][..i - 1] == es[..i - 1];
      if es[i - 1].kind == AD_SERVICE_DATA_16 {
        AlignedReadsOwn(es, i - 1);
      }
    }
  }

  /**
   On aligned structures, flattening and walking lose nothing: the first broadcast id and first feature octet come out.
   */
  lemma WalkIsDirect(es: seq<Entry>)
    requires Aligned(es)
    ensures Walk(Synth(es)) == Direct(es)
  {
    WalkIsDirectUpTo(es, |es|);
    assert es[..|es|] == es;
  }

  /**
   One UUID per list, no solicitation and no wide service data, full-length service data: enough to align everything.
   */
  predicate Simple(e: Entry) {
    && (IsUuidList(e.kind) ==> 2 <= |e.value| <= 3)
    && (e.kind == AD_SERVICE_DATA_16 ==> |e.value| >= 2)
    && e.kind != AD_SOLICITATION_16 && e.kind != AD_SERVICE_DATA_32 && e.kind != AD_SERVICE_DATA_128
  }

  lemma {:induction false} SimpleCounts(es: seq<Entry>)
    requires forall e :: e in es ==> Simple(e)
    ensures UuidSlots(Kinds(es)) == UuidCount(es) && DataSlots(Kinds(es)) == DataCount(es)
  {
    if es != [] {
      var pre, e := es[..|es| - 1], es[|es| - 1];
      assert forall d :: d in pre ==> d in es;
      SimpleCounts(pre);
      assert e in es && Simple(e);
      assert Kinds(es)[..|es| - 1] == Kinds(pre);
      if IsUuidList(e.kind) {
        assert UuidsIn(e.value[2..]) == [];
        assert |UuidsIn(e.value)| == 1;
      }
    }
  }

  lemma SimpleIsAligned(es: seq<Entry>)
    requires forall e :: e in es ==> Simple(e)
    ensures Aligned(es)
  {
    forall i | 0 <= i < |es| && es[i].kind == AD_SERVICE_DATA_16
      ensures AlignedAt(es, i)
    {
      assert es[i] in es;
      SimpleCounts(es[..i]);
    }
  }

  // ------------------------------------------- each exclusion is needed

  /** An announcement with Broadcast_ID octets 1, 2, 3. */
  const BAA: Entry := Entry(AD_SERVICE_DATA_16, [0x52, 0x18, 1, 2, 3])

  /** Two structures laid out: what is synthesised, what is announced, and what the walker pairs. */
  lemma TwoStructures(a: Entry, b: Entry)
    ensures Synth([a, b]) == Layer([a.kind, b.kind], UuidsOf(a) + UuidsOf(b), DataOf(a) + DataOf(b))
    ensures Direct([a, b]) == DirectStep(DirectStep(Found(None, None), a), b)
    ensures Walk(Synth([a, b])) ==
      WalkStep(WalkStep(Found(None, None), a.kind, [], Synth([a, b])), b.kind, [a.kind], Synth([a, b]))
  {
    hide UuidsOf, DataOf, Learn, PairAfter;
    var es := [a, b];
    assert es[..1] == [a] && [a][..0] == [];
    assert Synth([]) == Layer([], [], []);
    assert [] + UuidsOf(a) == UuidsOf(a) && [] + DataOf(a) == DataOf(a) && [] + [a.kind] == [a.kind];
    assert Synth([a]) == Layer([a.kind], UuidsOf(a), DataOf(a));
    var l := Synth(es);
    assert l.kinds == [a.kind, b.kind] && l.kinds[..1] == [a.kind] && l.kinds[..0] == [];
    assert WalkUpTo(l, 0) == Found(None, None);
    assert WalkUpTo(l, 1) == WalkStep(Found(None, None), a.kind, [], l);
    assert Direct([]) == Found(None, None);
    assert Direct([a]) == DirectStep(Found(None, None), a);
  }

  lemma SlotsAfterOne(kind: byte)
    ensures UuidSlots([]) == 0 && DataSlots([]) == 0
    ensures UuidSlots([kind]) == if TakesUuid(kind) then 1 else 0
    ensures DataSlots([kind]) == if TakesData(kind) then 1 else 0
  {
  }

  /** A list of two UUIDs before the announcement shifts the UUID array by one: the broadcast is missed. */
  lemma TwoUuidListMisses()
    ensures var es := [Entry(AD_COMPLETE_LIST_16, [0x0A, 0x18, 0x0F, 0x18]), BAA];
      Direct(es).broadcastId == Some(0x030201) && Walk(Synth(es)).broadcastId == None
  {
    var a := Entry(AD_COMPLETE_LIST_16, [0x0A, 0x18, 0x0F, 0x18]);
    TwoUuids(a);
    hide UuidsOf, DataOf, UuidSlots, DataSlots, Learn;
    TwoStructures(a, BAA);
    SlotsAfterOne(a.kind);
    AnnouncementArrays();
    assert Synth([a, BAA]).uuids == [0x180A, 0x180F, BAA_UUID] && Synth([a, BAA]).data == [[1, 2, 3]];
    LearnsNothing(Found(None, None), 0x180F, [1, 2, 3]);
  }

  lemma TwoUuids(a: Entry)
    requires a == Entry(AD_COMPLETE_LIST_16, [0x0A, 0x18, 0x0F, 0x18])
    ensures UuidsOf(a) == [0x180A, 0x180F] && DataOf(a) == []
  {
    assert a.value[2..] == [0x0F, 0x18] && a.value[2..][2..] == [];
    assert UuidsIn(a.value[2..]) == [0x180F] + UuidsIn([]);
  }

  lemma LearnsNothing(f: Found, uuid: u16, d: seq<byte>)
    requires uuid != BAA_UUID && uuid != PBA_UUID
    ensures Learn(f, uuid, d) == f
  {
  }

  /** A solicitation list fills no slot but is counted for one. */
  lemma SolicitationMisses()
    ensures var es := [Entry(AD_SOLICITATION_16, [0x0A, 0x18]), BAA];
      Direct(es).broadcastId == Some(0x030201) && Walk(Synth(es)).broadcastId == None
  {
    ShiftedMisses(Entry(AD_SOLICITATION_16, [0x0A, 0x18]));
  }

  /** A structure that fills nothing but is counted for a slot hides the announcement after it. */
  lemma ShiftedMisses(a: Entry)
    requires !IsUuidList(a.kind) && a.kind != AD_SERVICE_DATA_16 && (TakesUuid(a.kind) || TakesData(a.kind))
    ensures Direct([a, BAA]).broadcastId == Some(0x030201) && Walk(Synth([a, BAA])).broadcastId == None
  {
    hide UuidsOf, DataOf, UuidSlots, DataSlots, Learn;
    TwoStructures(a, BAA);
    SlotsAfterOne(a.kind);
    NoArrays(a);
    AnnouncementArrays();
    assert Synth([a, BAA]).uuids == [BAA_UUID] && Synth([a, BAA]).data == [[1, 2, 3]];
  }

  /** Service data with a 32- or 128-bit UUID fills no data slot but is counted for one. */
  lemma WideServiceDataMisses(kind: byte)
    requires kind == AD_SERVICE_DATA_32 || kind == AD_SERVICE_DATA_128
    ensures var es := [Entry(kind, [1, 2, 3, 4]), BAA];
      Direct(es).broadcastId == Some(0x030201) && Walk(Synth(es)).broadcastId == None
  {
    ShiftedMisses(Entry(kind, [1, 2, 3, 4]));
  }

  lemma ThreeStructures(a: Entry, b: Entry, c: Entry)
    ensures var l := Synth([a, b, c]);
      && l.uuids == UuidsOf(a) + UuidsOf(b) + UuidsOf(c) && l.data == DataOf(a) + DataOf(b) + DataOf(c)
      && Direct([a, b, c]) == DirectStep(DirectStep(DirectStep(Found(None, None), a), b), c)
      && Walk(l) == WalkStep(
        WalkStep(WalkStep(Found(None, None), a.kind, [], l), b.kind, [a.kind], l), c.kind, [a.kind, b.kind], l)
  {
    hide UuidsOf, DataOf, Learn, PairAfter;
    var es := [a, b, c];
    assert es[..2] == [a, b];
    TwoStructures(a, b);
    var l := Synth(es);
    assert l.kinds == [a.kind, b.kind, c.kind];
    assert l.kinds[..2] == [a.kind, b.kind] && l.kinds[..1] == [a.kind] && l.kinds[..0] == [];
    assert WalkUpTo(l, 0) == Found(None, None);
    assert WalkUpTo(l, 1) == WalkStep(Found(None, None), a.kind, [], l);
    assert WalkUpTo(l, 2) == WalkStep(WalkUpTo(l, 1), b.kind, [a.kind], l);
  }

  /**
   Service data too short for its UUID fills no slot but is counted for one of each: a UUID list then hides the
   announcement.
   */
  lemma ShortServiceDataMisses()
    ensures var es := [Entry(AD_SERVICE_DATA_16, [7]), Entry(AD_COMPLETE_LIST_16, [0x0F, 0x18]), BAA];
      Direct(es).broadcastId == Some(0x030201) && Walk(Synth(es)).broadcastId == None
  {
    hide UuidsOf, DataOf, UuidSlots, DataSlots;
    var a, b := Entry(AD_SERVICE_DATA_16, [7]), Entry(AD_COMPLETE_LIST_16, [0x0F, 0x18]);
    ThreeStructures(a, b, BAA);
    SlotsAfterOne(a.kind);
    SlotsAfterTwo(a.kind, b.kind);
    OneUuidList(b);
    NoArrays(a);
    AnnouncementArrays();
    assert Synth([a, b, BAA]).uuids == [0x180F, BAA_UUID] && Synth([a, b, BAA]).data == [[1, 2, 3]];
  }

  lemma SlotsAfterTwo(j: byte, k: byte)
    ensures UuidSlots([j, k]) == UuidSlots([j]) + (if TakesUuid(k) then 1 else 0)
    ensures DataSlots([j, k]) == DataSlots([j]) + if TakesData(k) then 1 else 0
  {
    assert [j, k][..1] == [j];
  }

  lemma OneUuidList(e: Entry)
    requires IsUuidList(e.kind) && |e.value| == 2
    ensures UuidsOf(e) == [FromLE16(e.value)] && DataOf(e) == []
  {
    assert e.value[..2] == e.value && e.value[2..] == [];
    assert UuidsIn([]) == [] && [FromLE16(e.value)] + [] == [FromLE16(e.value)];
  }

  lemma NoArrays(e: Entry)
    requires !IsUuidList(e.kind) && !IsServiceData(e)
    ensures UuidsOf(e) == [] && DataOf(e) == []
  {
  }

  lemma AnnouncementArrays()
    ensures UuidsOf(BAA) == [BAA_UUID] && DataOf(BAA) == [[1, 2, 3]]
    ensures DirectStep(Found(None, None), BAA).broadcastId == Some(0x030201)
  {
  }

  // ------------------------------------------------------------ whole parse

  function FirstTriple(data: seq<seq<byte>>): Option<nat> {
    if data == [] then None
    else if |data[0]| == 3 then Some(LE24(data[0]))
    else FirstTriple(data[1..])
  }

  /** `encrypted` is bit 0 of the feature octet, off when no features were found. */
  datatype Info = Info(broadcastId: nat, features: Option<byte>, encrypted: bool)

  function InfoOf(id: nat, features: Option<byte>): Info {
    Info(id, features, features.Some? && features.value % 2 == 1)
  }

  /** `parse_auracast`: no announcement UUID, no broadcast; else the paired id, else any three-octet payload. */
  function Parse(l: Layer): Option<Info> {
    if BAA_UUID !in l.uuids then None
    else
      var f := Walk(l);
      var id := if f.broadcastId.Some? then f.broadcastId else FirstTriple(l.data);
      if id.Some? then Some(InfoOf(id.value, f.features)) else None
  }

  lemma {:induction false} DirectNeedsUuid(es: seq<Entry>)
    requires Direct(es).broadcastId.Some?
    ensures BAA_UUID in Synth(es).uuids
  {
    var pre, e := es[..|es| - 1], es[|es| - 1];
    if Direct(pre).broadcastId.Some? {
      DirectNeedsUuid(pre);
    }
  }

  lemma {:induction false} TripleExists(data: seq<seq<byte>>)
    ensures FirstTriple(data).Some? <==> exists d :: d in data && |d| == 3
  {
    if data != [] {
      TripleExists(data[1..]);
      assert forall d :: d in data <==> d == data[0] || d in data[1..];
    }
  }

  /**
   The fallback at work: a device that only lists the announcement service is given another service's octets as an id.
   */
  lemma FallbackInventsBroadcast()
    ensures var es := [Entry(AD_COMPLETE_LIST_16, [0x52, 0x18]), Entry(AD_SERVICE_DATA_16, [0x0F, 0x18, 9, 8, 7])];
      Aligned(es) && Direct(es).broadcastId == None && Parse(Synth(es)) == Some(InfoOf(0x070809, None))
  {
    hide UuidsOf, UuidsIn, UuidSlots, DataSlots, Walk, Aligned;
    var a, b := Entry(AD_COMPLETE_LIST_16, [0x52, 0x18]), Entry(AD_SERVICE_DATA_16, [0x0F, 0x18, 9, 8, 7]);
    var es := [a, b];
    SimpleIsAligned(es);
    TwoStructures(a, b);
    OneUuidList(a);
    WalkIsDirect(es);
    assert UuidsOf(a) == [BAA_UUID] && Synth(es).uuids[0] == BAA_UUID;
    assert Synth(es).data == [[9, 8, 7]];
  }

  // ------------------------------------------------ what is read, octet by octet

  /** Which kinds of structures the two sides treat specially. */
  lemma KindsAre(kind: byte)
    ensures IsUuidList(kind) <==> kind == 0x02 || kind == 0x03
    ensures TakesUuid(kind) <==> kind == 0x02 || kind == 0x03 || kind == 0x14 || kind == 0x16
    ensures TakesData(kind) <==> kind == 0x16 || kind == 0x20 || kind == 0x21
  {
  }

  /** A broadcast audio announcement: 16-bit service data of UUID 0x1852 with at least an id. */
  predicate Announces(e: Entry) {
    e.kind == 0x16 && |e.value| >= 5 && e.value[0] == 0x52 && e.value[1] == 0x18
  }

  /** A public broadcast announcement: 16-bit service data of UUID 0x1856 with at least the features. */
  predicate HasFeatures(e: Entry) {
    e.kind == 0x16 && |e.value| >= 3 && e.value[0] == 0x56 && e.value[1] == 0x18
  }

  ghost predicate FirstToAnnounce(es: seq<Entry>, i: int) {
    0 <= i < |es| && Announces(es[i]) && forall j :: 0 <= j < i ==> !Announces(es[j])
  }

  ghost predicate FirstWithFeatures(es: seq<Entry>, i: int) {
    0 <= i < |es| && HasFeatures(es[i]) && forall j :: 0 <= j < i ==> !HasFeatures(es[j])
  }

  /** The three octets of the id, least significant first. */
  function IdOctets(e: Entry): nat
    requires |e.value| >= 5
  {
    var b0: int, b1: int, b2: int := e.value[2], e.value[3], e.value[4];
    b0 + 256 * b1 + 65536 * b2
  }

  /** What one structure teaches a direct reading that has not learned it yet. */
  lemma OneStructureTeaches(f: Found, e: Entry)
    ensures var r := DirectStep(f, e);
      && r.broadcastId == (if f.broadcastId.None? && Announces(e) then Some(IdOctets(e)) else f.broadcastId)
      && r.features == (if f.features.None? && HasFeatures(e) then Some(e.value[2]) else f.features)
  {
    if IsServiceData(e) {
      var d := e.value[2..];
      assert |d| >= 1 ==> d[0] == e.value[2];
      assert |d| >= 3 ==> d[1] == e.value[3] && d[2] == e.value[4];
      UuidOctets(e.value);
    }
  }

  lemma UuidOctets(v: seq<byte>)
    requires |v| >= 2
    ensures FromLE16(v[..2]) == 0x1852 <==> v[0] == 0x52 && v[1] == 0x18
    ensures FromLE16(v[..2]) == 0x1856 <==> v[0] == 0x56 && v[1] == 0x18
  {
  }

  /** A direct reading finds an id exactly when some structure has one. */
  lemma {:induction false} IdFound(es: seq<Entry>)
    ensures Direct(es).broadcastId.None? <==> forall e :: e in es ==> !Announces(e)
  {
    hide DirectStep, Announces, HasFeatures, IdOctets;
    if es != [] {
      var pre, last := es[..|es| - 1], es[|es| - 1];
      IdFound(pre);
      assert forall e :: e in es <==> e in pre || e == last;
      OneStructureTeaches(Direct(pre), last);
    }
  }

  /** It is that of the first structure that has one. */
  lemma {:induction false} IdIsFirst(es: seq<Entry>, i: nat)
    requires FirstToAnnounce(es, i)
    ensures Direct(es).broadcastId == Some(IdOctets(es[i]))
    decreases |es|
  {
    hide DirectStep, IdOctets;
    var pre, n := es[..|es| - 1], |es| - 1;
    OneStructureTeaches(Direct(pre), es[n]);
    IdFound(pre);
    if i < n {
      assert forall j :: 0 <= j < n ==> pre[j] == es[j];
      IdIsFirst(pre, i);
    }
  }

  /** A direct reading finds features exactly when some structure has one. */
  lemma {:induction false} FeaturesFound(es: seq<Entry>)
    ensures Direct(es).features.None? <==> forall e :: e in es ==> !HasFeatures(e)
  {
    hide DirectStep, Announces, HasFeatures, IdOctets;
    if es != [] {
      var pre, last := es[..|es| - 1], es[|es| - 1];
      FeaturesFound(pre);
      assert forall e :: e in es <==> e in pre || e == last;
      OneStructureTeaches(Direct(pre), last);
    }
  }

  /** It is that of the first structure that has one. */
  lemma {:induction false} FeaturesAreFirst(es: seq<Entry>, i: nat)
    requires FirstWithFeatures(es, i)
    ensures Direct(es).features == Some(es[i].value[2])
    decreases |es|
  {
    hide DirectStep;
    var pre, n := es[..|es| - 1], |es| - 1;
    OneStructureTeaches(Direct(pre), es[n]);
    FeaturesFound(pre);
    if i < n {
      assert forall j :: 0 <= j < n ==> pre[j] == es[j];
      FeaturesAreFirst(pre, i);
    }
  }

  /** The fallback takes the first payload of three octets, least significant first. */
  lemma {:induction false} TripleIsFirst(data: seq<seq<byte>>, k: nat)
    requires k < |data| && |data[k]| == 3 && forall j :: 0 <= j < k ==> |data[j]| != 3
    ensures var b0: int, b1: int, b2: int := data[k][0], data[k][1], data[k][2];
      FirstTriple(data) == Some(b0 + 256 * b1 + 65536 * b2)
  {
    if k > 0 { TripleIsFirst(data[1..], k - 1); }
  }
}
