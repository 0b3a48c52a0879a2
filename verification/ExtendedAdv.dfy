/**
 Link-layer advertising frames: the extended header of section 2.3.4 of Volume 6 Part B of the
 Bluetooth Core Specification, the legacy layout, and the two capture pseudo-headers.
 */
module ExtendedAdv {
  import opened Wrappers
  import opened Octets

  // ---------------------------------------------------------- extended header

  /** Bit `k` of a number, least significant first. */
  predicate Bit(n: nat, k: nat)
    decreases k
  {
    if k == 0 then n % 2 == 1 else Bit(n / 2, k - 1)
  }

  /** The number with the given bits, least significant first. */
  function Pack(bits: seq<bool>): nat {
    if bits == [] then 0 else (if bits[0] then 1 else 0) + 2 * Pack(bits[1..])
  }

  function Pow2(k: nat): nat {
    if k == 0 then 1 else 2 * Pow2(k - 1)
  }

  lemma {:induction false} PackBound(bits: seq<bool>)
    ensures Pack(bits) < Pow2(|bits|)
  {
    if bits != [] { PackBound(bits[1..]); }
  }

  lemma {:induction false} PackedBit(bits: seq<bool>, k: nat)
    requires k < |bits|
    ensures Bit(Pack(bits), k) == bits[k]
    decreases k
  {
    assert Pack(bits) / 2 == Pack(bits[1..]);
    if k > 0 { PackedBit(bits[1..], k - 1); }
  }

  function Width(flags: byte, k: nat, size: nat): nat {
    if Bit(flags, k) then size else 0
  }

  /** Octets the flags announce: AdvA, TargetA, CTEInfo, AdvDataInfo, AuxPtr, SyncInfo, TxPower. */
  function Announced(flags: byte): nat {
    Width(flags, 0, 6) + Width(flags, 1, 6) + Width(flags, 2, 1) + Width(flags, 3, 2)
    + Width(flags, 4, 3) + Width(flags, 5, 18) + Width(flags, 6, 1)
  }

  function Reverse(s: seq<byte>): (r: seq<byte>)
    ensures |r| == |s|
  {
    if s == [] then [] else Reverse(s[1..]) + [s[0]]
  }

  datatype Split = Split(addr: Option<seq<byte>>, data: seq<byte>)

  const NOTHING := Split(None, [])

  /**
   The header length field holds bits 0 to 5 of the first octet; a header that does not hold its fields yields nothing.
   */
  function SplitOf(payload: seq<byte>): Split {
    if payload == [] then NOTHING
    else
      var n := payload[0] % 64;
      if n == 0 then Split(None, payload[1..])
      else if 1 + n > |payload| || 1 + Announced(payload[1]) > n then NOTHING
      else Split(if Bit(payload[1], 0) then Some(Reverse(payload[2..8])) else None, payload[1 + n..])
  }

  /** `_split_extended_adv_payload`, cursor and all. */
  method SplitPayload(payload: seq<byte>) returns (r: Split)
    ensures r == SplitOf(payload)
  {
    hide Bit, Reverse;
    if |payload| < 1 {
      return NOTHING;
    }
    var n := payload[0] % 64;
    if n == 0 {
      return Split(None, payload[1..]);
    }
    if 1 + n > |payload| {
      return NOTHING;
    }
    var flags := payload[1];
    var cursor, end := 2, 1 + n;
    var addr: Option<seq<byte>> := None;
    if Bit(flags, 0) {
      if cursor + 6 > end {
        return NOTHING;
      }
      addr := Some(Reverse(payload[cursor..cursor + 6]));
      cursor := cursor + 6;
    }
    cursor := SkipFields(flags, cursor);
    if cursor > end {
      return NOTHING;
    }
    r := Split(addr, payload[end..]);
  }

  /** Past the fields after AdvA. */
  method SkipFields(flags: byte, start: nat) returns (cursor: nat)
    ensures cursor == start + Announced(flags) - Width(flags, 0, 6)
  {
    hide Bit;
    cursor := start;
    if Bit(flags, 1) { cursor := cursor + 6; }
    if Bit(flags, 2) { cursor := cursor + 1; }
    if Bit(flags, 3) { cursor := cursor + 2; }
    if Bit(flags, 4) { cursor := cursor + 3; }
    if Bit(flags, 5) { cursor := cursor + 18; }
    if Bit(flags, 6) { cursor := cursor + 1; }
  }

  /** The optional fields a sender may include, each with its width. */
  datatype Fields = Fields(
    advA: Option<seq<byte>>,
    targetA: Option<seq<byte>>,
    cteInfo: Option<seq<byte>>,
    adi: Option<seq<byte>>,
    auxPtr: Option<seq<byte>>,
    syncInfo: Option<seq<byte>>,
    txPower: Option<seq<byte>>)

  predicate Sized(f: Option<seq<byte>>, size: nat) {
    f.Some? ==> |f.value| == size
  }

  predicate WellSized(f: Fields) {
    Sized(f.advA, 6) && Sized(f.targetA, 6) && Sized(f.cteInfo, 1) && Sized(f.adi, 2)
    && Sized(f.auxPtr, 3) && Sized(f.syncInfo, 18) && Sized(f.txPower, 1)
  }

  /** Header flags, with `reserved` in bit 7. */
  function FlagsOf(f: Fields, reserved: bool): byte {
    var bits := [f.advA.Some?, f.targetA.Some?, f.cteInfo.Some?, f.adi.Some?,
                 f.auxPtr.Some?, f.syncInfo.Some?, f.txPower.Some?, reserved];
    PackBound(bits);
    assert Pow2(|bits|) == Pow2(8) == 256;
    Pack(bits)
  }

  function OctetsOf(f: Option<seq<byte>>): seq<byte> {
    if f.Some? then f.value else []
  }

  /** Present fields in specification order, then ACAD. */
  function HeaderBody(f: Fields, acad: seq<byte>): seq<byte> {
    OctetsOf(f.advA) + OctetsOf(f.targetA) + OctetsOf(f.cteInfo) + OctetsOf(f.adi)
    + OctetsOf(f.auxPtr) + OctetsOf(f.syncInfo) + OctetsOf(f.txPower) + acad
  }

  /** What a sender puts before its data: no extended header at all, or flags and what they announce. */
  datatype Header = Absent | Present(fields: Fields, reserved: bool, acad: seq<byte>)

  function HeaderOctets(h: Header): seq<byte> {
    match h
    case Absent => []
    case Present(f, reserved, acad) => [FlagsOf(f, reserved)] + HeaderBody(f, acad)
  }

  predicate Sendable(h: Header) {
    |HeaderOctets(h)| < 64 && (h.Present? ==> WellSized(h.fields))
  }

  /** The advertiser address the header carries, in the order in which it is written. */
  function AddressIn(h: Header): Option<seq<byte>> {
    if h.Present? && h.fields.advA.Some? then Some(Reverse(h.fields.advA.value)) else None
  }

  /** A full extended payload; `mode` is the AdvMode in bits 6 and 7 of the first octet. */
  function ExtendedPayload(h: Header, mode: nat, data: seq<byte>): seq<byte>
    requires mode < 4 && Sendable(h)
  {
    [LengthAndMode(|HeaderOctets(h)|, mode)] + HeaderOctets(h) + data
  }

  function LengthAndMode(n: nat, mode: nat): byte
    requires n < 64 && mode < 4
  {
    n + 64 * mode
  }

  lemma FlagsReadBack(f: Fields, reserved: bool)
    ensures var w := FlagsOf(f, reserved);
      Bit(w, 0) == f.advA.Some? && Bit(w, 1) == f.targetA.Some? && Bit(w, 2) == f.cteInfo.Some?
      && Bit(w, 3) == f.adi.Some? && Bit(w, 4) == f.auxPtr.Some? && Bit(w, 5) == f.syncInfo.Some?
      && Bit(w, 6) == f.txPower.Some?
  {
    hide Bit, Pack;
    var bits := [f.advA.Some?, f.targetA.Some?, f.cteInfo.Some?, f.adi.Some?,
                 f.auxPtr.Some?, f.syncInfo.Some?, f.txPower.Some?, reserved];
    assert FlagsOf(f, reserved) == Pack(bits);
    forall k: nat | k < 8
      ensures Bit(Pack(bits), k) == bits[k]
    {
      PackedBit(bits, k);
    }
  }

  /** The flags announce the fields they stand before, AdvA first. */
  lemma FieldsAnnounced(f: Fields, reserved: bool, acad: seq<byte>)
    requires WellSized(f)
    ensures var body, w := HeaderBody(f, acad), FlagsOf(f, reserved);
      && |body| == Announced(w) + |acad| && Bit(w, 0) == f.advA.Some?
      && (f.advA.Some? ==> |body| >= 6 && body[..6] == f.advA.value)
  {
    hide Bit, FlagsOf;
    FlagsReadBack(f, reserved);
  }

  /** With no header or any subset of fields, the decoder returns the sender's AdvA, or none, and exactly its data. */
  lemma ExtendedRoundTrip(h: Header, mode: nat, data: seq<byte>)
    requires mode < 4 && Sendable(h)
    ensures SplitOf(ExtendedPayload(h, mode, data)) == Split(AddressIn(h), data)
  {
    hide Bit, Reverse, FlagsOf, HeaderBody, Announced;
    var head, payload := HeaderOctets(h), ExtendedPayload(h, mode, data);
    assert payload[0] % 64 == |head|;
    assert payload[1 + |head|..] == data;
    if h.Present? {
      FieldsAnnounced(h.fields, h.reserved, h.acad);
      var body := HeaderBody(h.fields, h.acad);
      assert head == [FlagsOf(h.fields, h.reserved)] + body;
      if h.fields.advA.Some? {
        assert payload[2..8] == body[..6];
      }
    }
  }

  lemma {:induction false} ReverseTwice(s: seq<byte>)
    ensures Reverse(Reverse(s)) == s
  {
    if s != [] {
      ReverseTwice(s[1..]);
      ReverseSnoc(Reverse(s[1..]), s[0]);
      assert [s[0]] + s[1..] == s;
    }
  }

  lemma {:induction false} ReverseSnoc(s: seq<byte>, b: byte)
    ensures Reverse(s + [b]) == [b] + Reverse(s)
  {
    if s == [] {
      assert s + [b] == [b] && [b][1..] == [];
    } else {
      ReverseSnoc(s[1..], b);
      assert (s + [b])[1..] == s[1..] + [b];
    }
  }

  // -------------------------------------------------------- link-layer frames

  const ADV_ACCESS_ADDR: u32 := 0x8E89BED6
  const PDU_ADV_EXT_IND: nat := 7

  datatype Adv = Adv(pduType: nat, txRandom: bool, rxRandom: bool, addr: Option<seq<byte>>, data: seq<byte>)

  /** `_decode_ll`: nothing for another access address, a short frame, or a legacy payload without AdvA. */
  function DecodeLL(ll: seq<byte>): Option<Adv> {
    if |ll| < 15 || From32(true, ll[..4]) != ADV_ACCESS_ADDR then None
    else
      var head: int, length: int := ll[4], ll[5];
      var payload := ll[6..if 6 + length <= |ll| then 6 + length else |ll|];
      var kind := head % 16;
      if kind == PDU_ADV_EXT_IND then
        var split := SplitOf(payload);
        Some(Adv(kind, (head / 64) % 2 == 1, head / 128 == 1, split.addr, split.data))
      else if |payload| < 6 then None
      else Some(Adv(kind, (head / 64) % 2 == 1, head / 128 == 1, Some(Reverse(payload[..6])), payload[6..]))
  }

  function HeaderByte(kind: nat, rfu: nat, txRandom: bool, rxRandom: bool): byte
    requires kind < 16 && rfu < 4
  {
    kind + 16 * rfu + (if txRandom then 64 else 0) + if rxRandom then 128 else 0
  }

  function Frame(kind: nat, rfu: nat, txRandom: bool, rxRandom: bool, payload: seq<byte>, crc: seq<byte>): seq<byte>
    requires kind < 16 && rfu < 4 && |payload| < 256
  {
    To32(true, ADV_ACCESS_ADDR) + [HeaderByte(kind, rfu, txRandom, rxRandom), |payload|] + payload + crc
  }

  lemma FrameParts(kind: nat, rfu: nat, txRandom: bool, rxRandom: bool, payload: seq<byte>, crc: seq<byte>)
    requires kind < 16 && rfu < 4 && |payload| < 256
    ensures var ll := Frame(kind, rfu, txRandom, rxRandom, payload, crc);
      && From32(true, ll[..4]) == ADV_ACCESS_ADDR && ll[4] as int % 16 == kind
      && ((ll[4] as int / 64) % 2 == 1) == txRandom && (ll[4] as int / 128 == 1) == rxRandom
      && ll[5] == |payload| && 6 + |payload| <= |ll| && ll[6..6 + |payload|] == payload
  {
    hide From32, To32, HeaderByte;
    var ll := Frame(kind, rfu, txRandom, rxRandom, payload, crc);
    assert ll[..4] == To32(true, ADV_ACCESS_ADDR);
    assert ll[6..6 + |payload|] == payload;
    Inverse32(true, ADV_ACCESS_ADDR);
    HeaderByteParts(kind, rfu, txRandom, rxRandom);
  }

  lemma HeaderByteParts(kind: nat, rfu: nat, txRandom: bool, rxRandom: bool)
    requires kind < 16 && rfu < 4
    ensures var h := HeaderByte(kind, rfu, txRandom, rxRandom) as int;
      h % 16 == kind && ((h / 64) % 2 == 1) == txRandom && (h / 128 == 1) == rxRandom
  {
  }

  /** A legacy frame of any type, with any CRC bytes, decodes to its address and data. */
  lemma LegacyFrameRoundTrip(
    kind: nat, rfu: nat, txRandom: bool, rxRandom: bool, advA: seq<byte>, data: seq<byte>, crc: seq<byte>)
    requires kind < 16 && kind != PDU_ADV_EXT_IND && rfu < 4 && |advA| == 6 && |data| < 250 && |crc| == 3
    ensures DecodeLL(Frame(kind, rfu, txRandom, rxRandom, Reverse(advA) + data, crc))
         == Some(Adv(kind, txRandom, rxRandom, Some(advA), data))
  {
    ReverseTwice(advA);
    var payload := Reverse(advA) + data;
    FrameParts(kind, rfu, txRandom, rxRandom, payload, crc);
    assert payload[..6] == Reverse(advA) && payload[6..] == data;
  }

  /**
   An extended frame decodes to the sender's optional address and its data exactly when its payload has six octets or
   more; a shorter one, though well formed, is taken for a truncated legacy frame and dropped.
   */
  lemma ExtendedFrameRoundTrip(
    rfu: nat, txRandom: bool, rxRandom: bool, h: Header, mode: nat, data: seq<byte>, crc: seq<byte>)
    requires rfu < 4 && mode < 4 && Sendable(h) && 1 + |HeaderOctets(h)| + |data| < 256 && |crc| == 3
    ensures var got := DecodeLL(Frame(PDU_ADV_EXT_IND, rfu, txRandom, rxRandom, ExtendedPayload(h, mode, data), crc));
      && (got == Some(Adv(PDU_ADV_EXT_IND, txRandom, rxRandom, AddressIn(h), data)) <==>
        6 <= 1 + |HeaderOctets(h)| + |data|)
      && (got.Some? <==> 6 <= 1 + |HeaderOctets(h)| + |data|)
  {
    hide SplitOf, AddressIn, From32, HeaderByte;
    var payload := ExtendedPayload(h, mode, data);
    FrameParts(PDU_ADV_EXT_IND, rfu, txRandom, rxRandom, payload, crc);
    ExtendedRoundTrip(h, mode, data);
  }

  /** The last octet of a chain, sent with nothing but the number of its set, never arrives. */
  lemma ShortChainFragmentIsDropped(crc: seq<byte>)
    requires |crc| == 3
    ensures var h := Present(Fields(None, None, None, Some([1, 0]), None, None, None), false, []);
      Sendable(h) && DecodeLL(Frame(PDU_ADV_EXT_IND, 0, false, false, ExtendedPayload(h, 0, [0x41]), crc)) == None
  {
    var h := Present(Fields(None, None, None, Some([1, 0]), None, None, None), false, []);
    assert |HeaderOctets(h)| == 3;
    ExtendedFrameRoundTrip(0, false, false, h, 0, [0x41], crc);
  }

  // ----------------------------------------------------------- pseudo-headers

  datatype Heard =
    | CrcFailed(channel: byte, rssi: int)
    | Clean(channel: byte, rssi: int, adv: Adv)

  /** The classic 10-byte header (link type 256): flag bit 10 says the CRC was checked, bit 11 that it held. */
  function DecodePhdr(buf: seq<byte>): Option<Heard> {
    if |buf| < 25 then None
    else
      var level: int := buf[1];
      var rssi := if level < 128 then level else level - 256;
      if Bit(buf[9], 2) && !Bit(buf[9], 3) then Some(CrcFailed(buf[0], rssi))
      else match DecodeLL(buf[10..])
           case None => None
           case Some(adv) => Some(Clean(buf[0], rssi, adv))
  }

  /** The 17-byte header of current firmware (link type 272): flag bit 0 says the CRC held. */
  function DecodeNbe(buf: seq<byte>): Option<Heard> {
    if |buf| < 17 then None
    else if !Bit(buf[8], 0) then Some(CrcFailed(buf[9], 0 - (buf[10] as int)))
    else if |buf| < 32 then None
    else match DecodeLL(buf[17..])
         case None => None
         case Some(adv) => Some(Clean(buf[9], 0 - (buf[10] as int), adv))
  }

  /** The same link-layer frame behind either header, CRC good, is heard as the same advertisement. */
  lemma HeadersAgree(phdr: seq<byte>, nbe: seq<byte>, ll: seq<byte>)
    requires |phdr| == 10 && |nbe| == 17 && |ll| >= 15
    requires Bit(phdr[9], 3) && Bit(nbe[8], 0)
    ensures DecodeLL(ll) == None <==> DecodePhdr(phdr + ll) == None
    ensures DecodePhdr(phdr + ll) == None <==> DecodeNbe(nbe + ll) == None
    ensures DecodeLL(ll).Some? ==>
      DecodePhdr(phdr + ll).value.adv == DecodeLL(ll).value && DecodeNbe(nbe + ll).value.adv == DecodeLL(ll).value
  {
  }

  /** A signal strength as a signed octet. */
  ghost predicate SignedOctet(b: byte, rssi: int) {
    -128 <= rssi < 128 && (rssi - b as int) % 256 == 0
  }

  /**
   What the classic header says: channel and signed strength always; the CRC failed when it was checked and did not
   hold, and then the frame is not looked at; else the frame decides. A buffer too short for both is nothing.
   */
  lemma PhdrHeard(buf: seq<byte>)
    ensures var r := DecodePhdr(buf);
      if |buf| < 10 + 15 then r == None
      else
        var flags := buf[9] as int;
        if (flags / 4) % 2 == 1 && (flags / 8) % 2 == 0 then
          r.Some? && r.value.CrcFailed? && r.value.channel == buf[0] && SignedOctet(buf[1], r.value.rssi)
        else
          && (r.Some? <==> DecodeLL(buf[10..]).Some?)
          && (r.Some? ==>
                && r.value.Clean? && r.value.channel == buf[0] && SignedOctet(buf[1], r.value.rssi)
                && r.value.adv == DecodeLL(buf[10..]).value)
  {
  }

  /**
   What the current header says: a failed CRC is heard even of a frame cut short, with channel and strength; else the
   frame decides, when it has at least 15 octets. The strength is sent without its sign.
   */
  lemma NbeHeard(buf: seq<byte>)
    ensures var r := DecodeNbe(buf);
      if |buf| < 17 then r == None
      else if buf[8] as int % 2 == 0 then
        r.Some? && r.value.CrcFailed? && r.value.channel == buf[9] && r.value.rssi + buf[10] as int == 0
      else
        && (r.Some? <==> |buf| >= 17 + 15 && DecodeLL(buf[17..]).Some?)
        && (r.Some? ==>
              && r.value.Clean? && r.value.channel == buf[9] && r.value.rssi + buf[10] as int == 0
              && r.value.adv == DecodeLL(buf[17..]).value)
  {
  }

  /** A frame octet by octet: access address, type and address flags, length, address least significant octet first. */
  lemma LegacyLayout(kind: nat, txRandom: bool, rxRandom: bool, data: seq<byte>, crc: seq<byte>)
    requires kind < 16 && kind != 7 && |data| < 250 && |crc| == 3
    ensures HeaderByte(kind, 0, txRandom, rxRandom)
         == kind + (if txRandom then 0x40 else 0) + if rxRandom then 0x80 else 0
    ensures var head := HeaderByte(kind, 0, txRandom, rxRandom);
      DecodeLL([0xD6, 0xBE, 0x89, 0x8E, head, 6 + |data|] + [1, 2, 3, 4, 5, 6] + data + crc)
      == Some(Adv(kind, txRandom, rxRandom, Some([6, 5, 4, 3, 2, 1]), data))
  {
    hide DecodeLL, Reverse;
    SixReversed();
    assert To32(true, ADV_ACCESS_ADDR) == [0xD6, 0xBE, 0x89, 0x8E];
    LegacyFrameRoundTrip(kind, 0, txRandom, rxRandom, [6, 5, 4, 3, 2, 1], data, crc);
    var head := HeaderByte(kind, 0, txRandom, rxRandom);
    assert Frame(kind, 0, txRandom, rxRandom, [1, 2, 3, 4, 5, 6] + data, crc)
        == [0xD6, 0xBE, 0x89, 0x8E, head, 6 + |data|] + [1, 2, 3, 4, 5, 6] + data + crc;
  }

  lemma {:induction false} ReverseAt(s: seq<byte>, k: nat)
    requires k < |s|
    ensures Reverse(s)[k] == s[|s| - 1 - k]
  {
    if k < |s| - 1 { ReverseAt(s[1..], k); }
  }

  lemma SixReversed()
    ensures Reverse([6, 5, 4, 3, 2, 1]) == [1, 2, 3, 4, 5, 6]
  {
    hide Reverse;
    forall k: nat | k < 6
      ensures Reverse([6, 5, 4, 3, 2, 1])[k] == [1, 2, 3, 4, 5, 6][k]
    {
      ReverseAt([6, 5, 4, 3, 2, 1], k);
    }
  }

  lemma {:induction false} NoBitOfZero(k: nat)
    ensures !Bit(0, k)
    decreases k
  {
    if k > 0 { NoBitOfZero(k - 1); }
  }

  lemma {:induction false} BitOfPower(j: nat, k: nat)
    ensures Bit(Pow2(j), k) <==> j == k
    decreases k
  {
    if k > 0 {
      if j == 0 {
        NoBitOfZero(k - 1);
      } else {
        assert Pow2(j) / 2 == Pow2(j - 1);
        BitOfPower(j - 1, k - 1);
      }
    }
  }

  lemma WidthOfFlag(j: nat, w: byte, k: nat, size: nat)
    requires w == Pow2(j)
    ensures Width(w, k, size) == if j == k then size else 0
  {
    BitOfPower(j, k);
  }

  /** The header byte with one flag set announces the width of that field alone. */
  lemma OneFlag(j: nat, w: byte)
    requires w == Pow2(j)
    ensures Announced(w) == (if j == 0 then 6 else 0) + (if j == 1 then 6 else 0) + (if j == 2 then 1 else 0)
      + (if j == 3 then 2 else 0) + (if j == 4 then 3 else 0) + (if j == 5 then 18 else 0) + (if j == 6 then 1 else 0)
  {
    hide Width, Pow2;
    WidthOfFlag(j, w, 0, 6);
    WidthOfFlag(j, w, 1, 6);
    WidthOfFlag(j, w, 2, 1);
    WidthOfFlag(j, w, 3, 2);
    WidthOfFlag(j, w, 4, 3);
    WidthOfFlag(j, w, 5, 18);
    WidthOfFlag(j, w, 6, 1);
  }

  lemma PowersOfTwo()
    ensures Pow2(0) == 0x01 && Pow2(1) == 0x02 && Pow2(2) == 0x04 && Pow2(3) == 0x08
    ensures Pow2(4) == 0x10 && Pow2(5) == 0x20 && Pow2(6) == 0x40 && Pow2(7) == 0x80
  {
  }

  /** The widths of AdvA, TargetA, CTEInfo, AdvDataInfo, AuxPtr, SyncInfo and TxPower, each by its flag. */
  lemma FieldWidths()
    ensures Announced(0x01) == 6 && Announced(0x02) == 6 && Announced(0x04) == 1 && Announced(0x08) == 2
    ensures Announced(0x10) == 3 && Announced(0x20) == 18 && Announced(0x40) == 1 && Announced(0x80) == 0
  {
    hide Announced, Pow2;
    PowersOfTwo();
    OneFlag(0, 0x01);
    OneFlag(1, 0x02);
    OneFlag(2, 0x04);
    OneFlag(3, 0x08);
    OneFlag(4, 0x10);
    OneFlag(5, 0x20);
    OneFlag(6, 0x40);
    OneFlag(7, 0x80);
  }
}
