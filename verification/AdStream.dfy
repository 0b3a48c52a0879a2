/**
 The AD-structure stream of an advertising packet: section 11 of Volume 3 Part C of the Bluetooth Core Specification.
 */
module AdStream {
  import opened Wrappers
  import opened Octets

  type AdValue = v: seq<byte> | |v| <= 254

  datatype Entry = Entry(kind: byte, value: AdValue)

  /** The structure at the head of `s`, unless its length is zero or runs past the end. */
  function HeadEntry(s: seq<byte>): (r: Option<Entry>)
    ensures r.Some? ==> 2 + |r.value.value| <= |s|
  {
    if s == [] then None
    else
      var ln: int := s[0];
      if ln == 0 || 1 + ln > |s| then None else Some(Entry(s[1], s[2..1 + ln]))
  }

  function ParseAd(s: seq<byte>): seq<Entry>
    decreases |s|
  {
    match HeadEntry(s)
    case None => []
    case Some(e) => [e] + ParseAd(s[2 + |e.value|..])
  }

  predicate HasEntry(data: seq<byte>, i: nat) {
    i < |data| && data[i] != 0 && i + 1 + data[i] as int <= |data|
  }

  function EntryAt(data: seq<byte>, i: nat): Entry
    requires HasEntry(data, i)
  {
    Entry(data[i + 1], data[i + 2..i + 1 + data[i] as int])
  }

  lemma EntryOfSuffix(data: seq<byte>, i: nat)
    requires i <= |data|
    ensures HeadEntry(data[i..]) == if HasEntry(data, i) then Some(EntryAt(data, i)) else None
    ensures HasEntry(data, i) ==> data[i..][2 + |EntryAt(data, i).value|..] == data[i + 1 + data[i] as int..]
  {
    if HasEntry(data, i) {
      var s, ln: int := data[i..], data[i];
      assert s[2..1 + ln] == data[i + 2..i + 1 + ln];
    }
  }

  /** The scan by position, as the loop does it. */
  ghost function ScanFrom(data: seq<byte>, i: nat): seq<Entry>
    requires i <= |data|
    decreases |data| - i
  {
    if HasEntry(data, i) then [EntryAt(data, i)] + ScanFrom(data, i + 1 + data[i] as int) else []
  }

  lemma {:induction false} ScanIsParse(data: seq<byte>, i: nat)
    requires i <= |data|
    ensures ScanFrom(data, i) == ParseAd(data[i..])
    decreases |data| - i
  {
    hide HeadEntry, EntryAt;
    EntryOfSuffix(data, i);
    if HasEntry(data, i) {
      ScanIsParse(data, i + 1 + data[i] as int);
    }
  }

  method ParseAdStructures(data: seq<byte>) returns (out: seq<Entry>)
    ensures out == ParseAd(data)
  {
    ScanIsParse(data, 0);
    assert data[0..] == data;
    out := [];
    var i := 0;
    while i < |data|
      invariant i <= |data|
      invariant ScanFrom(data, 0) == out + ScanFrom(data, i)
    {
      var ln: int := data[i];
      if ln == 0 || i + 1 + ln > |data| {
        return;
      }
      out := out + [Entry(data[i + 1], data[i + 2..i + 1 + ln])];
      i := i + 1 + ln;
    }
  }

  function EntryBytes(e: Entry): (s: seq<byte>)
    ensures |s| == 2 + |e.value|
  {
    [|e.value| + 1, e.kind] + e.value
  }

  function Serialise(es: seq<Entry>): seq<byte> {
    if es == [] then [] else EntryBytes(es[0]) + Serialise(es[1..])
  }

  lemma OneEntry(e: Entry, tail: seq<byte>)
    ensures HeadEntry(EntryBytes(e) + tail) == Some(e) && (EntryBytes(e) + tail)[2 + |e.value|..] == tail
  {
  }

  lemma JoinEntries(frame: seq<byte>, e: Entry, stream: seq<byte>, es: seq<Entry>, tail: seq<byte>)
    requires HeadEntry(frame + (stream + tail)) == Some(e) && |frame| == 2 + |e.value|
    requires ParseAd(stream + tail) == es + ParseAd(tail)
    ensures ParseAd(frame + stream + tail) == [e] + es + ParseAd(tail)
  {
    assert frame + stream + tail == frame + (stream + tail);
    assert (frame + (stream + tail))[|frame|..] == stream + tail;
    assert [e] + es + ParseAd(tail) == [e] + (es + ParseAd(tail));
  }

  lemma {:induction false} ParsesBack(es: seq<Entry>, tail: seq<byte>)
    ensures ParseAd(Serialise(es) + tail) == es + ParseAd(tail)
    decreases |es|
  {
    hide HeadEntry, EntryBytes;
    if es == [] {
      assert Serialise(es) + tail == tail && es + ParseAd(tail) == ParseAd(tail);
    } else {
      var stream := Serialise(es[1..]);
      OneEntry(es[0], stream + tail);
      ParsesBack(es[1..], tail);
      JoinEntries(EntryBytes(es[0]), es[0], stream, es[1..], tail);
      assert [es[0]] + es[1..] == es;
    }
  }

  /**
   Parsing undoes serialising, also when the stream is padded: everything from the first zero length on is ignored.
   */
  lemma RoundTripPadded(es: seq<Entry>, padding: seq<byte>)
    requires padding == [] || padding[0] == 0
    ensures ParseAd(Serialise(es) + padding) == es
  {
    ParsesBack(es, padding);
    assert es + [] == es;
  }

  /** How much of the stream the parsed structures cover. */
  function Covered(s: seq<byte>): (n: nat)
    ensures n <= |s|
    decreases |s|
  {
    match HeadEntry(s)
    case None => 0
    case Some(e) => 2 + |e.value| + Covered(s[2 + |e.value|..])
  }

  lemma JoinPrefix(s: seq<byte>, n: nat, k: nat)
    requires n <= |s| && k <= |s| - n
    ensures s[..n] + s[n..][..k] == s[..n + k] && s[n..][k..] == s[n + k..]
  {
  }

  /**
   On every input the parsed structures re-serialise to the start of it, and no structure
   starts where they end: there is the end, a zero length, or a length past the end.
   */
  lemma {:induction false} ReserialisesPrefix(s: seq<byte>)
    ensures Serialise(ParseAd(s)) == s[..Covered(s)]
    ensures HeadEntry(s[Covered(s)..]) == None
    decreases |s|
  {
    if HeadEntry(s).Some? {
      var n: nat := 2 + |HeadEntry(s).value.value|;
      ReserialisesPrefix(s[n..]);
      assert ParseAd(s)[1..] == ParseAd(s[n..]);
      assert EntryBytes(HeadEntry(s).value) == s[..n];
      JoinPrefix(s, n, Covered(s[n..]));
    } else {
      assert s[0..] == s;
    }
  }

  /** A structure octet by octet: the length of all that follows it, the kind, the value. */
  lemma EntryLayout(e: Entry)
    ensures var s := Serialise([e]); |s| == 1 + s[0] as int && s[1] == e.kind && s[2..] == e.value
  {
    assert [e][1..] == [] && Serialise([e]) == EntryBytes(e) + [];
  }
}
