/**
 Three independent walks over the Apple Continuity chain of type, length and payload: the
 clustering parser, the sequence-number shortcut, and the ingest parser.
 */
module Continuity {
  import opened Wrappers
  import opened Octets

  const APPLE: seq<byte> := [0x4C, 0x00]
  const HANDOFF: byte := 0x0C

  datatype Tlv = Tlv(kind: byte, payload: seq<byte>)

  /** An ingest entry; `truncated` marks a last one whose payload is cut off. */
  datatype Entry = Entry(kind: byte, payload: seq<byte>, truncated: bool)

  // ---------------------------------------------------- the chain, by position

  predicate HeaderAt(s: seq<byte>, i: nat) {
    i + 2 <= |s|
  }

  function End(s: seq<byte>, i: nat): nat
    requires HeaderAt(s, i)
  {
    i + 2 + s[i + 1] as int
  }

  predicate WholeAt(s: seq<byte>, i: nat) {
    HeaderAt(s, i) && End(s, i) <= |s|
  }

  /** The whole elements from position `i` on. */
  function Chain(s: seq<byte>, i: nat): seq<Tlv>
    requires i <= |s|
    decreases |s| - i
  {
    if WholeAt(s, i) then [Tlv(s[i], s[i + 2..End(s, i)])] + Chain(s, End(s, i)) else []
  }

  function TakeClustering(blob: seq<byte>): seq<Tlv> {
    if |blob| < 4 || blob[..2] != APPLE then [] else Chain(blob, 2)
  }

  method ParseForClustering(blob: seq<byte>) returns (out: seq<Tlv>)
    ensures out == TakeClustering(blob)
  {
    hide Chain;
    if |blob| < 4 || blob[..2] != APPLE {
      return [];
    }
    out := [];
    var i := 2;
    while i + 1 < |blob|
      invariant 2 <= i <= |blob|
      invariant Chain(blob, 2) == out + Chain(blob, i)
    {
      ChainStep(blob, i);
      var end := i + 2 + blob[i + 1] as int;
      if end > |blob| {
        break;
      }
      out := out + [Tlv(blob[i], blob[i + 2..end])];
      i := end;
    }
    ChainStep(blob, i);
  }

  lemma ChainStep(s: seq<byte>, i: nat)
    requires i <= |s|
    ensures Chain(s, i) == if WholeAt(s, i) then [Tlv(s[i], s[i + 2..End(s, i)])] + Chain(s, End(s, i)) else []
  {
  }

  // ----------------------------------------------------------- ingest parser

  /** What the ingest parser collects: whole elements, then a truncated one if a header is left over. */
  function IngestFrom(s: seq<byte>, i: nat): seq<Entry>
    requires i <= |s|
    decreases |s| - i
  {
    if WholeAt(s, i) then [Entry(s[i], s[i + 2..End(s, i)], false)] + IngestFrom(s, End(s, i))
    else if HeaderAt(s, i) then [Entry(s[i], s[i + 2..], true)]
    else []
  }

  method ParseForIngest(data: seq<byte>) returns (entries: seq<Entry>)
    ensures entries == IngestFrom(data, 0)
  {
    hide IngestFrom;
    entries := [];
    var i := 0;
    while i + 2 <= |data|
      invariant i <= |data|
      invariant IngestFrom(data, 0) == entries + IngestFrom(data, i)
    {
      IngestStep(data, i);
      var kind, length: int := data[i], data[i + 1];
      i := i + 2;
      if i + length > |data| {
        entries := entries + [Entry(kind, data[i..], true)];
        return;
      }
      entries := entries + [Entry(kind, data[i..i + length], false)];
      i := i + length;
    }
    IngestStep(data, i);
  }

  lemma IngestStep(s: seq<byte>, i: nat)
    requires i <= |s|
    ensures IngestFrom(s, i) ==
      if WholeAt(s, i) then [Entry(s[i], s[i + 2..End(s, i)], false)] + IngestFrom(s, End(s, i))
      else if HeaderAt(s, i) then [Entry(s[i], s[i + 2..], true)]
      else []
  {
  }

  // ---------------------------------------------------- sequence number only

  function BE16At(s: seq<byte>, i: nat): u16
    requires i + 2 <= |s|
  {
    FromBE16(s[i..i + 2])
  }

  function SeqFrom(s: seq<byte>, i: nat): Option<u16>
    requires i <= |s|
    decreases |s| - i
  {
    if !WholeAt(s, i) then None
    else if s[i] == HANDOFF && s[i + 1] >= 3 then Some(BE16At(s, i + 3))
    else SeqFrom(s, End(s, i))
  }

  function TakeSeq(blob: seq<byte>): Option<u16> {
    if |blob| < 4 || blob[..2] != APPLE then None else SeqFrom(blob, 2)
  }

  method ExtractHandoffSeq(blob: seq<byte>) returns (r: Option<u16>)
    ensures r == TakeSeq(blob)
  {
    if |blob| < 4 || blob[..2] != APPLE {
      return None;
    }
    var i := 2;
    while i + 1 < |blob|
      invariant 2 <= i <= |blob|
      invariant TakeSeq(blob) == SeqFrom(blob, i)
    {
      var length: int := blob[i + 1];
      var end := i + 2 + length;
      if end > |blob| {
        return None;
      }
      if blob[i] == HANDOFF && length >= 3 {
        return Some(FromBE16(blob[i + 3..i + 5]));
      }
      i := end;
    }
    r := None;
  }

  // --------------------------------------------------------------- agreement

  /** The ingest entries that are whole, as elements. */
  function Whole(entries: seq<Entry>): seq<Tlv> {
    if entries == [] then []
    else if entries[0].truncated then Whole(entries[1..])
    else [Tlv(entries[0].kind, entries[0].payload)] + Whole(entries[1..])
  }

  lemma {:induction false} WalksAgreeFrom(cid: seq<byte>, data: seq<byte>, i: nat)
    requires i <= |data|
    ensures Chain(cid + data, |cid| + i) == Whole(IngestFrom(data, i))
    decreases |data| - i
  {
    var blob := cid + data;
    if WholeAt(data, i) {
      var end := End(data, i);
      assert blob[|cid| + i] == data[i] && blob[|cid| + i + 1] == data[i + 1];
      assert blob[|cid| + i + 2..|cid| + end] == data[i + 2..end];
      WalksAgreeFrom(cid, data, end);
      assert IngestFrom(data, i)[1..] == IngestFrom(data, end);
    } else if HeaderAt(data, i) {
      assert blob[|cid| + i + 1] == data[i + 1];
      assert IngestFrom(data, i)[1..] == [];
    }
  }

  /**
   The clustering parser on a company id and data sees exactly the whole entries the ingest parser sees on the data.
   */
  lemma ParsersAgree(data: seq<byte>)
    ensures TakeClustering(APPLE + data) == Whole(IngestFrom(data, 0))
  {
    var blob := APPLE + data;
    assert blob[..2] == APPLE;
    if |data| >= 2 {
      WalksAgreeFrom(APPLE, data, 0);
    }
  }

  /** A truncated entry can only be the last one. */
  lemma {:induction false} OnlyLastTruncated(s: seq<byte>, i: nat, k: nat)
    requires i <= |s| && k < |IngestFrom(s, i)| && IngestFrom(s, i)[k].truncated
    ensures k == |IngestFrom(s, i)| - 1
    decreases |s| - i
  {
    if WholeAt(s, i) {
      if k > 0 { OnlyLastTruncated(s, End(s, i), k - 1); }
    }
  }

  function TlvBytes(entries: seq<Entry>, lengths: seq<byte>): seq<byte>
    requires |lengths| == |entries|
  {
    if entries == [] then []
    else [entries[0].kind, lengths[0]] + entries[0].payload + TlvBytes(entries[1..], lengths[1..])
  }

  /** The length octets of the entries, as they stand in the input. */
  function LengthsFrom(s: seq<byte>, i: nat): (r: seq<byte>)
    requires i <= |s|
    ensures |r| == |IngestFrom(s, i)|
    decreases |s| - i
  {
    if WholeAt(s, i) then [s[i + 1]] + LengthsFrom(s, End(s, i))
    else if HeaderAt(s, i) then [s[i + 1]]
    else []
  }

  /**
   The ingest entries tile the input: headers and payloads in order are the input itself,
   but for one stray octet at the end.
   */
  lemma {:induction false} EntriesTile(s: seq<byte>, i: nat)
    requires i <= |s|
    ensures var out := TlvBytes(IngestFrom(s, i), LengthsFrom(s, i));
      out == s[i..] || (i < |s| && out == s[i..|s| - 1])
    decreases |s| - i
  {
    var es, ls := IngestFrom(s, i), LengthsFrom(s, i);
    if WholeAt(s, i) {
      var end := End(s, i);
      EntriesTile(s, end);
      assert es[1..] == IngestFrom(s, end) && ls[1..] == LengthsFrom(s, end);
      assert s[i..] == [s[i], s[i + 1]] + s[i + 2..end] + s[end..];
      if end < |s| {
        assert s[i..|s| - 1] == [s[i], s[i + 1]] + s[i + 2..end] + s[end..|s| - 1];
      }
    } else if HeaderAt(s, i) {
      assert es[1..] == [] && ls[1..] == [];
      assert s[i..] == [s[i], s[i + 1]] + s[i + 2..];
    } else if i < |s| {
      assert s[i..|s| - 1] == [];
    } else {
      assert s[i..] == [];
    }
  }

  /** Cleartext of a Handoff payload: clipboard octet, then the sequence number. */
  function DecodeHandoff(payload: seq<byte>): Option<u16> {
    if |payload| < 3 then None else Some(FromBE16(payload[1..3]))
  }

  function FirstHandoff(ts: seq<Tlv>): Option<u16> {
    if ts == [] then None
    else if ts[0].kind == HANDOFF && DecodeHandoff(ts[0].payload).Some? then DecodeHandoff(ts[0].payload)
    else FirstHandoff(ts[1..])
  }

  lemma {:induction false} SeqIsFirstHandoff(s: seq<byte>, i: nat)
    requires i <= |s|
    ensures SeqFrom(s, i) == FirstHandoff(Chain(s, i))
    decreases |s| - i
  {
    hide Chain, FirstHandoff, DecodeHandoff, FromBE16;
    ChainStep(s, i);
    if WholeAt(s, i) {
      var end := End(s, i);
      SeqIsFirstHandoff(s, end);
      FirstOfChain(Tlv(s[i], s[i + 2..end]), Chain(s, end));
      PayloadSeq(s, i);
    } else {
      NoHandoff();
    }
  }

  lemma NoHandoff()
    ensures FirstHandoff([]) == None
  {
  }

  lemma FirstOfChain(t: Tlv, rest: seq<Tlv>)
    ensures FirstHandoff([t] + rest) ==
      if t.kind == HANDOFF && DecodeHandoff(t.payload).Some? then DecodeHandoff(t.payload) else FirstHandoff(rest)
  {
    hide DecodeHandoff;
    assert ([t] + rest)[1..] == rest;
  }

  lemma PayloadSeq(s: seq<byte>, i: nat)
    requires WholeAt(s, i)
    ensures DecodeHandoff(s[i + 2..End(s, i)]) ==
      if End(s, i) - i - 2 < 3 then None else Some(FromBE16(s[i + 3..i + 5]))
  {
    hide FromBE16;
    var payload := s[i + 2..End(s, i)];
    if |payload| >= 3 {
      assert payload[1] == s[i + 3] && payload[2] == s[i + 4];
      assert payload[1..3] == [payload[1], payload[2]] && s[i + 3..i + 5] == [s[i + 3], s[i + 4]];
    }
  }

  /** The shortcut returns what decoding the first usable Handoff element of the full parse returns. */
  lemma ShortcutAgrees(blob: seq<byte>)
    ensures TakeSeq(blob) == FirstHandoff(TakeClustering(blob))
  {
    if |blob| >= 4 && blob[..2] == APPLE {
      SeqIsFirstHandoff(blob, 2);
    }
  }

  // -------------------------------------------------------------- round trip

  type Payload = p: seq<byte> | |p| <= 255

  datatype Element = Element(kind: byte, payload: Payload)

  function Serialise(es: seq<Element>): seq<byte> {
    if es == [] then [] else [es[0].kind, |es[0].payload|] + es[0].payload + Serialise(es[1..])
  }

  function AsTlvs(es: seq<Element>): seq<Tlv> {
    if es == [] then [] else [Tlv(es[0].kind, es[0].payload)] + AsTlvs(es[1..])
  }

  lemma {:induction false} ChainReadsBack(before: seq<byte>, es: seq<Element>)
    ensures Chain(before + Serialise(es), |before|) == AsTlvs(es)
    decreases |es|
  {
    var s := before + Serialise(es);
    if es != [] {
      var head := [es[0].kind, |es[0].payload|] + es[0].payload;
      assert s == (before + head) + Serialise(es[1..]);
      assert s[|before|] == es[0].kind && s[|before| + 1] == |es[0].payload|;
      assert s[|before| + 2..|before + head|] == es[0].payload;
      ChainReadsBack(before + head, es[1..]);
    }
  }

  /** Any chain of elements written behind the company id is read back whole, and its first Handoff number with it. */
  lemma ElementsRoundTrip(es: seq<Element>)
    requires es != []
    ensures TakeClustering(APPLE + Serialise(es)) == AsTlvs(es)
    ensures TakeSeq(APPLE + Serialise(es)) == FirstHandoff(AsTlvs(es))
  {
    var blob := APPLE + Serialise(es);
    assert blob[..2] == APPLE;
    ChainReadsBack(APPLE, es);
    ShortcutAgrees(blob);
  }
}
