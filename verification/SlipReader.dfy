/**
 `_read_one_frame`: hunting for a frame in a serial byte stream whose reads may time out, and resynchronising mid-frame.
 */
module SlipReader {
  import opened Wrappers
  import opened Octets
  import opened Slip

  /** What a read of the port returned, up to the deadline: a byte, or nothing within the poll interval. */
  type Polls = seq<Option<byte>>

  function Bytes(polls: Polls): seq<byte> {
    if polls == [] then []
    else if polls[0].Some? then [polls[0].value] + Bytes(polls[1..])
    else Bytes(polls[1..])
  }

  datatype Taken = Taken(frame: seq<byte>, rest: seq<byte>)

  /** Accumulate through the matching END; the byte after an escape never ends the frame. */
  function Collect(got: seq<byte>, s: seq<byte>, escaped: bool): Option<Taken>
    decreases |s|
  {
    if s == [] then None
    else if escaped then Collect(got + [s[0]], s[1..], false)
    else if s[0] == SLIP_ESC then Collect(got + [s[0]], s[1..], true)
    else if s[0] == SLIP_END then Some(Taken(got + [s[0]], s[1..]))
    else Collect(got + [s[0]], s[1..], false)
  }

  function ReadOne(s: seq<byte>): Option<Taken>
    decreases |s|
  {
    if s == [] then None
    else if s[0] == SLIP_START then Collect([SLIP_START], s[1..], false)
    else ReadOne(s[1..])
  }

  lemma {:induction false} CollectShrinks(got: seq<byte>, s: seq<byte>, escaped: bool)
    ensures Collect(got, s, escaped).Some? ==> |Collect(got, s, escaped).value.rest| < |s|
    decreases |s|
  {
    if s != [] {
      CollectShrinks(got + [s[0]], s[1..], !escaped && s[0] == SLIP_ESC);
    }
  }

  lemma {:induction false} ReadShrinks(s: seq<byte>)
    ensures ReadOne(s).Some? ==> |ReadOne(s).value.rest| < |s|
    decreases |s|
  {
    if s != [] {
      CollectShrinks([SLIP_START], s[1..], false);
      ReadShrinks(s[1..]);
    }
  }

  /** Polls that time out change nothing; the frame and what is left are those of the bytes alone. */
  method ReadOneFrame(polls: Polls) returns (frame: Option<seq<byte>>, used: nat)
    ensures used <= |polls|
    ensures match ReadOne(Bytes(polls))
            case None => frame == None
            case Some(taken) => frame == Some(taken.frame) && Bytes(polls[used..]) == taken.rest
  {
    used := 0;
    var hunting := true;
    while used < |polls| && hunting
      invariant used <= |polls|
      invariant hunting ==> ReadOne(Bytes(polls)) == ReadOne(Bytes(polls[used..]))
      invariant !hunting ==> ReadOne(Bytes(polls)) == Collect([SLIP_START], Bytes(polls[used..]), false)
    {
      assert polls[used..][1..] == polls[used + 1..];
      if polls[used].Some? {
        hunting := polls[used].value != SLIP_START;
      }
      used := used + 1;
    }
    if hunting {
      return None, used;
    }
    var got := [SLIP_START];
    var escaped := false;
    while used < |polls|
      invariant used <= |polls|
      invariant ReadOne(Bytes(polls)) == Collect(got, Bytes(polls[used..]), escaped)
    {
      assert polls[used..][1..] == polls[used + 1..];
      var b := polls[used];
      used := used + 1;
      if b.Some? {
        got := got + [b.value];
        if escaped {
          escaped := false;
        } else if b.value == SLIP_ESC {
          escaped := true;
        } else if b.value == SLIP_END {
          return Some(got), used;
        }
      }
    }
    frame := None;
  }

  // ---------------------------------------------------------- resynchronising

  /** One encoded byte, escaped or not, is collected as it stands. */
  lemma CollectOne(got: seq<byte>, b: byte, tail: seq<byte>)
    ensures Collect(got, Escape(b) + tail, false) == Collect(got + Escape(b), tail, false)
  {
    var e := Escape(b);
    var s := e + tail;
    if |e| == 2 {
      assert s[1..] == [e[1]] + tail && s[1..][1..] == tail;
      assert got + [s[0]] + [s[1]] == got + e;
      assert Collect(got, s, false) == Collect(got + [s[0]], s[1..], true);
    } else {
      assert s[1..] == tail && got + [s[0]] == got + e;
    }
  }

  lemma {:induction false} CollectEncoded(got: seq<byte>, p: seq<byte>, rest: seq<byte>)
    ensures Collect(got, EscapeAll(p) + [SLIP_END] + rest, false) == Some(Taken(got + EscapeAll(p) + [SLIP_END], rest))
    decreases |p|
  {
    var s := EscapeAll(p) + [SLIP_END] + rest;
    if p == [] {
      assert s[1..] == rest;
      assert got + EscapeAll(p) == got;
    } else {
      hide Collect, Escape;
      var e, tail := Escape(p[0]), EscapeAll(p[1..]) + [SLIP_END] + rest;
      assert s == e + tail;
      CollectOne(got, p[0], tail);
      CollectEncoded(got + e, p[1..], rest);
      assert got + e + EscapeAll(p[1..]) == got + EscapeAll(p);
    }
  }

  lemma {:induction false} SkipsNoise(noise: seq<byte>, s: seq<byte>)
    requires SLIP_START !in noise
    ensures ReadOne(noise + s) == ReadOne(s)
  {
    if noise == [] {
      assert noise + s == s;
    } else {
      SkipsNoise(noise[1..], s);
      assert (noise + s)[1..] == noise[1..] + s;
    }
  }

  /** After any bytes free of START, one frame is read whole and nothing beyond it is consumed. */
  lemma ReadsFrame(noise: seq<byte>, p: seq<byte>, rest: seq<byte>)
    requires SLIP_START !in noise
    ensures ReadOne(noise + Encode(p) + rest) == Some(Taken(Encode(p), rest))
  {
    var s := Encode(p) + rest;
    assert noise + Encode(p) + rest == noise + s;
    SkipsNoise(noise, s);
    assert s[1..] == EscapeAll(p) + [SLIP_END] + rest;
    CollectEncoded([SLIP_START], p, rest);
  }

  /** The rest of a frame after its start byte holds no start byte. */
  lemma CutIsNoise(q: seq<byte>, cut: nat)
    requires 1 <= cut <= |Encode(q)|
    ensures SLIP_START !in Encode(q)[cut..]
  {
    InteriorIsClean(q);
    forall b | b in Encode(q)[cut..]
      ensures b != SLIP_START
    {
      var i :| cut <= i < |Encode(q)| && Encode(q)[i] == b;
      if i <= |EscapeAll(q)| { assert b == EscapeAll(q)[i - 1]; }
    }
  }

  /** Opening the port anywhere inside frame `q` costs only that frame: the next one is read whole. */
  lemma Resynchronises(q: seq<byte>, cut: nat, p: seq<byte>, rest: seq<byte>)
    requires 1 <= cut <= |Encode(q)|
    ensures ReadOne(Encode(q)[cut..] + Encode(p) + rest) == Some(Taken(Encode(p), rest))
  {
    CutIsNoise(q, cut);
    ReadsFrame(Encode(q)[cut..], p, rest);
  }

  /** All frames obtained by reading again and again. */
  function ReadAll(s: seq<byte>): seq<seq<byte>>
    decreases |s|
  {
    ReadShrinks(s);
    match ReadOne(s)
    case None => []
    case Some(taken) => [taken.frame] + ReadAll(taken.rest)
  }

  function EncodeStream(ps: seq<seq<byte>>): seq<byte> {
    if ps == [] then [] else Encode(ps[0]) + EncodeStream(ps[1..])
  }

  function Decoded(frames: seq<seq<byte>>): seq<seq<byte>> {
    if frames == [] then [] else [Decode(frames[0])] + Decoded(frames[1..])
  }

  lemma {:induction false} NoFrameInNoise(noise: seq<byte>)
    requires SLIP_START !in noise
    ensures ReadOne(noise) == None
  {
    if noise != [] { NoFrameInNoise(noise[1..]); }
  }

  lemma {:induction false} ReadAllAfterNoise(noise: seq<byte>, ps: seq<seq<byte>>)
    requires SLIP_START !in noise
    ensures Decoded(ReadAll(noise + EncodeStream(ps))) == ps
    decreases |ps|
  {
    if ps == [] {
      assert noise + EncodeStream(ps) == noise;
      NoFrameInNoise(noise);
    } else {
      var rest := EncodeStream(ps[1..]);
      assert noise + EncodeStream(ps) == noise + Encode(ps[0]) + rest;
      ReadsFrame(noise, ps[0], rest);
      ReadAllAfterNoise([], ps[1..]);
      assert [] + rest == rest;
      RoundTrip(ps[0]);
      assert ([Encode(ps[0])] + ReadAll(rest))[1..] == ReadAll(rest);
      assert [ps[0]] + ps[1..] == ps;
    }
  }

  /** From any cut inside a frame, exactly the payloads after that frame are recovered, in order. */
  lemma StreamRecovers(q: seq<byte>, cut: nat, ps: seq<seq<byte>>)
    requires 1 <= cut <= |Encode(q)|
    ensures Decoded(ReadAll(Encode(q)[cut..] + EncodeStream(ps))) == ps
  {
    CutIsNoise(q, cut);
    ReadAllAfterNoise(Encode(q)[cut..], ps);
  }

  // ----------------------------------------------------- requests and replies

  const HEADER_LENGTH: byte := 6
  const PROTOVER_V1: byte := 1
  const RESP_VERSION: byte := 0x1C
  const ID_POS: nat := 5
  const PAYLOAD_POS: nat := 6

  function RequestBody(id: byte, counter: nat): seq<byte> {
    [HEADER_LENGTH, 0, PROTOVER_V1, counter % 256, (counter / 256) % 256, id]
  }

  method BuildRequest(id: byte, counter: nat) returns (frame: seq<byte>)
    ensures frame == Encode(RequestBody(id, counter)) && Decode(frame) == RequestBody(id, counter)
  {
    frame := SlipEncode(RequestBody(id, counter));
    RoundTrip(RequestBody(id, counter));
  }

  /** Text as code points. */
  type Text = seq<int>

  const REPLACEMENT: int := 0xFFFD

  /** ASCII decoding with undecodable octets replaced. */
  function Ascii(v: seq<byte>): (t: Text)
    ensures |t| == |v|
  {
    seq(|v|, i requires 0 <= i < |v| => if v[i] < 128 then v[i] as int else REPLACEMENT)
  }

  predicate IsSpace(c: int) {
    9 <= c <= 13 || 28 <= c <= 32
  }

  function StripLeft(t: Text): Text {
    if t != [] && IsSpace(t[0]) then StripLeft(t[1..]) else t
  }

  function StripRight(t: Text): Text {
    if t != [] && IsSpace(t[|t| - 1]) then StripRight(t[..|t| - 1]) else t
  }

  function Strip(t: Text): Text {
    StripRight(StripLeft(t))
  }

  /** The version a reply holds: up to the first NUL, stripped; nothing for another packet or an empty text. */
  function VersionOf(payload: seq<byte>): Option<Text> {
    if |payload| <= PAYLOAD_POS || payload[ID_POS] != RESP_VERSION then None
    else
      var text := Strip(Ascii(UpToNul(payload[PAYLOAD_POS..])));
      if text == [] then None else Some(text)
  }

  function UpToNul(s: seq<byte>): seq<byte> {
    if s == [] || s[0] == 0 then [] else [s[0]] + UpToNul(s[1..])
  }

  lemma {:induction false} UpToNulStops(v: seq<byte>, pad: seq<byte>)
    requires 0 !in v && (pad == [] || pad[0] == 0)
    ensures UpToNul(v + pad) == v
  {
    if v == [] {
      assert v + pad == pad;
    } else {
      UpToNulStops(v[1..], pad);
      assert (v + pad)[1..] == v[1..] + pad;
      assert [v[0]] + v[1..] == v;
    }
  }

  predicate Blank(t: Text) {
    forall i :: 0 <= i < |t| ==> IsSpace(t[i])
  }

  lemma {:induction false} StripsLeft(lead: Text, t: Text)
    requires Blank(lead) && (t == [] || !IsSpace(t[0]))
    ensures StripLeft(lead + t) == t
  {
    if lead == [] {
      assert lead + t == t;
    } else {
      StripsLeft(lead[1..], t);
      assert (lead + t)[1..] == lead[1..] + t && (lead + t)[0] == lead[0];
    }
  }

  lemma {:induction false} StripsRight(t: Text, trail: Text)
    requires Blank(trail) && (t == [] || !IsSpace(t[|t| - 1]))
    ensures StripRight(t + trail) == t
  {
    if trail == [] {
      assert t + trail == t;
    } else {
      var n := |trail| - 1;
      StripsRight(t, trail[..n]);
      assert (t + trail)[..|t + trail| - 1] == t + trail[..n] && (t + trail)[|t| + n] == trail[n];
    }
  }

  /** Stripping takes off exactly the white space around a text. */
  lemma StripTakesOff(lead: Text, t: Text, trail: Text)
    requires Blank(lead) && Blank(trail) && (t == [] || (!IsSpace(t[0]) && !IsSpace(t[|t| - 1])))
    ensures Strip(lead + t + trail) == t
  {
    if t == [] {
      StripsLeft(lead + trail, []);
      assert lead + t + trail == lead + trail + [];
    } else {
      StripsLeft(lead, t + trail);
      assert lead + t + trail == lead + (t + trail);
      StripsRight(t, trail);
    }
  }

  /**
   A version reply, sent after any octets free of start bytes such as the rest of a cut frame, comes back: its text
   without surrounding white space and NUL padding, or nothing when that leaves nothing.
   */
  lemma VersionSurvivesTransport(
    noise: seq<byte>, header: seq<byte>, v: seq<byte>, pad: seq<byte>, rest: seq<byte>,
    lead: Text, text: Text, trail: Text)
    requires SLIP_START !in noise && |header| == 5 && 0 !in v && (pad == [] || pad[0] == 0)
    requires Ascii(v) == lead + text + trail && Blank(lead) && Blank(trail)
    requires text == [] || (!IsSpace(text[0]) && !IsSpace(text[|text| - 1]))
    ensures var reply := header + [RESP_VERSION] + v + pad;
      var got := ReadOne(noise + Encode(reply) + rest);
      got.Some? && VersionOf(Decode(got.value.frame)) == if text == [] then None else Some(text)
  {
    var reply := header + [RESP_VERSION] + v + pad;
    ReadsFrame(noise, reply, rest);
    RoundTrip(reply);
    assert reply[PAYLOAD_POS..] == v + pad;
    UpToNulStops(v, pad);
    StripTakesOff(lead, text, trail);
    if |v + pad| == 0 {
      assert text == [];
    }
  }

  // ----------------------------------------------------- requests and replies, octet by octet

  /** A request is a header of six octets that says so: no payload, protocol version 1, the counter, the request. */
  lemma RequestReadsBack(id: byte, counter: nat)
    ensures var r := RequestBody(id, counter);
      && |r| == 6 == r[0] && r[1] == 0 && r[2] == 1 && r[5] == id
      && r[3] as int + 256 * (r[4] as int) == counter % 65536
  {
    var low, rest := counter % 256, counter / 256;
    TwoDigits(counter / 65536, rest % 256, low);
    assert rest == 256 * (rest / 256) + rest % 256 && counter == 256 * rest + low;
    TwoDigits(rest / 256, rest % 256, low);
  }

  lemma TwoDigits(q: nat, high: nat, low: nat)
    requires high < 256 && low < 256
    ensures (65536 * q + 256 * high + low) % 65536 == low + 256 * high
  {
  }

  /** The white space of ASCII: tab to carriage return, the four separators, and the blank. */
  lemma SpacesAre(c: int)
    ensures IsSpace(c) <==> c in {9, 10, 11, 12, 13, 28, 29, 30, 31, 32}
  {
  }

  /** ASCII octets stand for themselves; any other gives the replacement character, which is no ASCII one. */
  lemma AsciiReads(v: seq<byte>, i: nat)
    requires i < |v|
    ensures v[i] < 128 ==> Ascii(v)[i] == v[i]
    ensures v[i] >= 128 ==> Ascii(v)[i] == 0xFFFD
  {
  }

  /** Plain octets, and escapes each followed by whatever octet. */
  predicate Units(s: seq<byte>)
    decreases |s|
  {
    s == []
    || (s[0] != SLIP_ESC && s[0] != SLIP_END && Units(s[1..]))
    || (s[0] == SLIP_ESC && |s| >= 2 && Units(s[2..]))
  }

  lemma {:induction false} CollectUnits(got: seq<byte>, s: seq<byte>, rest: seq<byte>)
    requires Units(s)
    ensures Collect(got, s + [SLIP_END] + rest, false) == Some(Taken(got + s + [SLIP_END], rest))
    decreases |s|
  {
    var all := s + [SLIP_END] + rest;
    if s == [] {
      assert all[1..] == rest && got + s == got;
    } else if s[0] != SLIP_ESC {
      CollectUnits(got + [s[0]], s[1..], rest);
      assert all[1..] == s[1..] + [SLIP_END] + rest && got + [s[0]] + s[1..] == got + s;
    } else {
      CollectUnits(got + [s[0]] + [s[1]], s[2..], rest);
      assert all[1..][1..] == s[2..] + [SLIP_END] + rest && got + [s[0]] + [s[1]] + s[2..] == got + s;
      assert all[1..] != [] && all[1..][0] == s[1];
    }
  }

  /** An octet after an escape never ends a frame, not even an end byte; the first end byte elsewhere does. */
  lemma ReadsUnits(s: seq<byte>, rest: seq<byte>)
    requires Units(s)
    ensures ReadOne([SLIP_START] + s + [SLIP_END] + rest) == Some(Taken([SLIP_START] + s + [SLIP_END], rest))
  {
    CollectUnits([SLIP_START], s, rest);
    assert ([SLIP_START] + s + [SLIP_END] + rest)[1..] == s + [SLIP_END] + rest;
  }
}
