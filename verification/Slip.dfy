/** Nordic's SLIP framing of dongle requests and replies: encoder, decoder and the byte-at-a-time frame reader. */
module Slip {
  import opened Octets

  const SLIP_START: byte := 0xAB
  const SLIP_END: byte := 0xBC
  const SLIP_ESC: byte := 0xCD
  const SLIP_ESC_START: byte := 0xAC
  const SLIP_ESC_END: byte := 0xBD
  const SLIP_ESC_ESC: byte := 0xCE

  // ------------------------------------------------------------- specification

  function Escape(b: byte): seq<byte> {
    if b == SLIP_START then [SLIP_ESC, SLIP_ESC_START]
    else if b == SLIP_END then [SLIP_ESC, SLIP_ESC_END]
    else if b == SLIP_ESC then [SLIP_ESC, SLIP_ESC_ESC]
    else [b]
  }

  function EscapeAll(p: seq<byte>): seq<byte> {
    if p == [] then [] else Escape(p[0]) + EscapeAll(p[1..])
  }

  function Encode(p: seq<byte>): seq<byte> {
    [SLIP_START] + EscapeAll(p) + [SLIP_END]
  }

  /** What the byte after an escape stands for; anything unknown stands for itself. */
  function Unescaped(n: byte): byte {
    if n == SLIP_ESC_START then SLIP_START
    else if n == SLIP_ESC_END then SLIP_END
    else if n == SLIP_ESC_ESC then SLIP_ESC
    else n
  }

  function UnescapeAll(body: seq<byte>): seq<byte> {
    if body == [] then []
    else if body[0] == SLIP_ESC && |body| >= 2 then [Unescaped(body[1])] + UnescapeAll(body[2..])
    else [body[0]] + UnescapeAll(body[1..])
  }

  /** Drop one leading START and one trailing END, when present. */
  function Body(frame: seq<byte>): seq<byte> {
    var b := if |frame| > 0 && frame[0] == SLIP_START then frame[1..] else frame;
    if |b| > 0 && b[|b| - 1] == SLIP_END then b[..|b| - 1] else b
  }

  function Decode(frame: seq<byte>): seq<byte> {
    UnescapeAll(Body(frame))
  }

  // -------------------------------------------------------------------- codec

  lemma {:induction false} EscapeSnoc(p: seq<byte>, b: byte)
    ensures EscapeAll(p + [b]) == EscapeAll(p) + Escape(b)
  {
    hide Escape;
    if p == [] {
      assert p + [b] == [b] && [b][1..] == [];
      assert EscapeAll([b]) == Escape(b) + [];
    } else {
      EscapeSnoc(p[1..], b);
      assert (p + [b])[1..] == p[1..] + [b];
    }
  }

  method SlipEncode(payload: seq<byte>) returns (out: seq<byte>)
    ensures out == Encode(payload)
  {
    hide EscapeAll;
    out := [SLIP_START];
    assert EscapeAll(payload[..0]) == [] by { EscapeNothing(); }
    for i := 0 to |payload|
      invariant out == [SLIP_START] + EscapeAll(payload[..i])
    {
      var b := payload[i];
      EscapeSnoc(payload[..i], b);
      assert payload[..i + 1] == payload[..i] + [b];
      if b == SLIP_START {
        out := out + [SLIP_ESC, SLIP_ESC_START];
      } else if b == SLIP_END {
        out := out + [SLIP_ESC, SLIP_ESC_END];
      } else if b == SLIP_ESC {
        out := out + [SLIP_ESC, SLIP_ESC_ESC];
      } else {
        out := out + [b];
      }
    }
    assert payload[..|payload|] == payload;
    out := out + [SLIP_END];
  }

  lemma EscapeNothing()
    ensures EscapeAll([]) == []
  {
  }

  /** The decoding scan by position, as the loop does it. */
  ghost function UnescapeFrom(body: seq<byte>, i: nat): seq<byte>
    requires i <= |body|
    decreases |body| - i
  {
    if i == |body| then []
    else if body[i] == SLIP_ESC && i + 1 < |body| then [Unescaped(body[i + 1])] + UnescapeFrom(body, i + 2)
    else [body[i]] + UnescapeFrom(body, i + 1)
  }

  lemma {:induction false} ScanIsUnescape(body: seq<byte>, i: nat)
    requires i <= |body|
    ensures UnescapeFrom(body, i) == UnescapeAll(body[i..])
    decreases |body| - i
  {
    hide Unescaped;
    if i < |body| {
      if body[i] == SLIP_ESC && i + 1 < |body| {
        ScanIsUnescape(body, i + 2);
        assert body[i..][2..] == body[i + 2..];
      } else {
        ScanIsUnescape(body, i + 1);
        assert body[i..][1..] == body[i + 1..];
      }
    }
  }

  method UnescapeLoop(body: seq<byte>) returns (out: seq<byte>)
    ensures out == UnescapeAll(body)
  {
    hide Unescaped, UnescapeAll;
    ScanIsUnescape(body, 0);
    assert body[0..] == body;
    out := [];
    var i := 0;
    while i < |body|
      invariant i <= |body|
      invariant out + UnescapeFrom(body, i) == UnescapeFrom(body, 0)
    {
      if body[i] == SLIP_ESC && i + 1 < |body| {
        out := out + [Unescaped(body[i + 1])];
        i := i + 2;
      } else {
        out := out + [body[i]];
        i := i + 1;
      }
    }
  }

  method SlipDecode(frame: seq<byte>) returns (out: seq<byte>)
    ensures out == Decode(frame)
  {
    hide UnescapeAll;
    var body := frame;
    if |body| > 0 && body[0] == SLIP_START {
      body := body[1..];
    }
    if |body| > 0 && body[|body| - 1] == SLIP_END {
      body := body[..|body| - 1];
    }
    out := UnescapeLoop(body);
  }

  lemma {:induction false} UnescapeEscaped(p: seq<byte>)
    ensures UnescapeAll(EscapeAll(p)) == p
  {
    if p != [] {
      UnescapeEscaped(p[1..]);
      var e, rest := Escape(p[0]), EscapeAll(p[1..]);
      assert (e + rest)[|e|..] == rest;
      assert [p[0]] + p[1..] == p;
    }
  }

  /** Decoding undoes encoding, for every byte string. */
  lemma RoundTrip(p: seq<byte>)
    ensures Decode(Encode(p)) == p
  {
    assert Encode(p)[1..] == EscapeAll(p) + [SLIP_END];
    assert Body(Encode(p)) == EscapeAll(p);
    UnescapeEscaped(p);
  }

  /** The bytes between the delimiters never look like a delimiter. */
  lemma {:induction false} InteriorIsClean(p: seq<byte>)
    ensures SLIP_START !in EscapeAll(p) && SLIP_END !in EscapeAll(p)
  {
    if p != [] { InteriorIsClean(p[1..]); }
  }

  /** Every escape is followed by one of the three codes, and no delimiter stands bare. */
  predicate Canonical(body: seq<byte>) {
    body == []
    || (if body[0] == SLIP_ESC then
          |body| >= 2 && body[1] in [SLIP_ESC_START, SLIP_ESC_END, SLIP_ESC_ESC] && Canonical(body[2..])
        else body[0] != SLIP_START && body[0] != SLIP_END && Canonical(body[1..]))
  }

  lemma {:induction false} EscapedIsCanonical(p: seq<byte>)
    ensures Canonical(EscapeAll(p))
  {
    if p != [] {
      EscapedIsCanonical(p[1..]);
      var e, rest := Escape(p[0]), EscapeAll(p[1..]);
      assert (e + rest)[|e|..] == rest;
    }
  }

  lemma {:induction false} CanonicalReEncodes(body: seq<byte>)
    requires Canonical(body)
    ensures EscapeAll(UnescapeAll(body)) == body
  {
    if body != [] {
      if body[0] == SLIP_ESC {
        CanonicalReEncodes(body[2..]);
        assert body == [body[0], body[1]] + body[2..];
        assert ([Unescaped(body[1])] + UnescapeAll(body[2..]))[1..] == UnescapeAll(body[2..]);
      } else {
        CanonicalReEncodes(body[1..]);
        assert body == [body[0]] + body[1..];
        assert ([body[0]] + UnescapeAll(body[1..]))[1..] == UnescapeAll(body[1..]);
      }
    }
  }

  /** Decoding loses nothing exactly on canonical bodies: those, and only those, re-encode to themselves. */
  lemma {:induction false} LosslessExactly(body: seq<byte>)
    ensures EscapeAll(UnescapeAll(body)) == body <==> Canonical(body)
  {
    EscapedIsCanonical(UnescapeAll(body));
    if Canonical(body) { CanonicalReEncodes(body); }
  }

  // --------------------------------------------------------- on the wire

  /** Every octet by itself, as it goes over the wire. */
  lemma WireForm(b: byte)
    ensures Encode([b]) ==
      match b
      case 0xAB => [0xAB, 0xCD, 0xAC, 0xBC]
      case 0xBC => [0xAB, 0xCD, 0xBD, 0xBC]
      case 0xCD => [0xAB, 0xCD, 0xCE, 0xBC]
      case _ => [0xAB, b, 0xBC]
  {
    assert [b][1..] == [] && EscapeAll([b]) == Escape(b) + EscapeAll([]) == Escape(b);
  }

  /** One start in front and one end behind are taken off, wherever they stand alone, and nothing else is. */
  lemma DelimitersStripped(b: seq<byte>)
    ensures Body([0xAB] + b + [0xBC]) == b
    ensures (b == [] || b[|b| - 1] != 0xBC) ==> Body([0xAB] + b) == b
    ensures (b == [] || b[0] != 0xAB) ==> Body(b + [0xBC]) == b
    ensures (b == [] || (b[0] != 0xAB && b[|b| - 1] != 0xBC)) ==> Body(b) == b
  {
    var s := [0xAB] + b + [0xBC];
    assert s[1..] == b + [0xBC] && (b + [0xBC])[..|b|] == b && ([0xAB] + b)[1..] == b;
  }

  /** An escape before an octet it does not belong to stands for that octet, and one at the very end for itself. */
  lemma StrayEscapes(b: byte)
    requires b != 0xAC && b != 0xBD && b != 0xCE
    ensures UnescapeAll([0xCD, b]) == [b] && UnescapeAll([0xCD]) == [0xCD]
  {
    assert [0xCD, b][2..] == [] && [0xCD as byte][1..] == [];
  }
}
