/** The sniffer's two pipes: control messages in and out, and the pcap record stream. */
module Framing {
  import opened Wrappers
  import opened Octets

  /** An unbuffered pipe: a read returns some non-empty part of what is asked for, or nothing at end of file. */
  class Pipe {
    var rest: seq<byte>

    constructor (content: seq<byte>)
      ensures rest == content
    {
      rest := content;
    }

    method Read(n: nat) returns (chunk: seq<byte>)
      modifies this
      ensures old(rest) == chunk + rest && |chunk| <= n
      ensures chunk == [] <==> n == 0 || old(rest) == []
    {
      var most := if |rest| < n then |rest| else n;
      var k :| 0 <= k <= most && (k == 0 ==> most == 0);
      chunk := rest[..k];
      rest := rest[k..];
    }

    /** `_read_exact`: loop until `n` bytes are there; nothing if the pipe ends first. */
    method ReadExact(n: nat) returns (r: Option<seq<byte>>)
      modifies this
      ensures |old(rest)| >= n ==> r == Some(old(rest)[..n]) && rest == old(rest)[n..]
      ensures |old(rest)| < n ==> r == None && rest == []
    {
      var buf: seq<byte> := [];
      while |buf| < n
        invariant old(rest) == buf + rest && |buf| <= n
        decreases n - |buf|
      {
        var chunk := Read(n - |buf|);
        if chunk == [] {
          return None;
        }
        buf := buf + chunk;
      }
      r := Some(buf);
    }
  }

  // --------------------------------------------------------- control messages

  datatype Message = Message(arg: byte, cmd: byte, payload: seq<byte>)

  datatype FrameError = PayloadTooLong

  const SYNC: byte := 0x54
  const MAX_CTRL_PAYLOAD: nat := 65533

  /** `_write_ctrl`: the length field counts the argument and command bytes too, and must fit 16 bits. */
  function CtrlFrame(m: Message): (r: Result<seq<byte>, FrameError>)
    ensures r.Ok? <==> |m.payload| <= MAX_CTRL_PAYLOAD
    ensures r.Ok? ==> |r.value| == 6 + |m.payload|
  {
    if |m.payload| > MAX_CTRL_PAYLOAD then Err(PayloadTooLong)
    else Ok([SYNC, 0] + ToBE16(|m.payload| + 2) + [m.arg, m.cmd] + m.payload)
  }

  datatype Delivery = Delivery(message: Message, rest: seq<byte>)

  /** The message at the head of `s`; one whose payload is cut off is delivered with an empty payload. */
  function FirstMessage(s: seq<byte>): (r: Option<Delivery>)
    ensures r.Some? ==> |r.value.rest| < |s|
  {
    if |s| < 6 then None
    else
      var length := FromBE16(s[2..4]);
      var n := if length < 2 then 0 else length - 2;
      if |s| - 6 < n then Some(Delivery(Message(s[4], s[5], []), []))
      else Some(Delivery(Message(s[4], s[5], s[6..6 + n]), s[6 + n..]))
  }

  /** What the control-out reader hands on, from the bytes alone. */
  function Messages(s: seq<byte>): seq<Message>
    decreases |s|
  {
    match FirstMessage(s)
    case None => []
    case Some(d) => [d.message] + Messages(d.rest)
  }

  method ReadMessage(pipe: Pipe) returns (m: Option<Message>)
    modifies pipe
    ensures match FirstMessage(old(pipe.rest))
            case None => m == None
            case Some(d) => m == Some(d.message) && pipe.rest == d.rest
  {
    ghost var s := pipe.rest;
    var header := pipe.ReadExact(6);
    if header == None {
      return None;
    }
    var h := header.value;
    assert h == s[..6] && h[2..4] == s[2..4];
    var length := FromBE16(h[2..4]);
    var n := if length < 2 then 0 else length - 2;
    var payload: Option<seq<byte>> := Some([]);
    if n > 0 {
      payload := pipe.ReadExact(n);
    }
    assert |s| - 6 >= n ==> s[6..][n..] == s[6 + n..] && s[6..][..n] == s[6..6 + n];
    m := Some(Message(h[4], h[5], if payload == None then [] else payload.value));
  }

  method CtrlOutLoop(pipe: Pipe) returns (handled: seq<Message>)
    modifies pipe
    ensures handled == Messages(old(pipe.rest))
  {
    hide FirstMessage;
    handled := [];
    while true
      invariant Messages(old(pipe.rest)) == handled + Messages(pipe.rest)
      decreases |pipe.rest|
    {
      ghost var s := pipe.rest;
      var m := ReadMessage(pipe);
      if m == None {
        assert Messages(s) == [] && handled + [] == handled;
        return;
      }
      assert handled + ([m.value] + Messages(pipe.rest)) == handled + [m.value] + Messages(pipe.rest);
      handled := handled + [m.value];
    }
  }

  predicate Sendable(ms: seq<Message>) {
    forall m :: m in ms ==> |m.payload| <= MAX_CTRL_PAYLOAD
  }

  function CtrlStream(ms: seq<Message>): seq<byte>
    requires Sendable(ms)
  {
    if ms == [] then [] else CtrlFrame(ms[0]).value + CtrlStream(ms[1..])
  }

  lemma OneMessage(m: Message, tail: seq<byte>)
    requires |m.payload| <= MAX_CTRL_PAYLOAD
    ensures FirstMessage(CtrlFrame(m).value + tail) == Some(Delivery(m, tail))
  {
  }

  lemma JoinMessages(frame: seq<byte>, m: Message, stream: seq<byte>, ms: seq<Message>, tail: seq<byte>)
    requires FirstMessage(frame + (stream + tail)) == Some(Delivery(m, stream + tail))
    requires Messages(stream + tail) == ms + Messages(tail)
    ensures Messages(frame + stream + tail) == [m] + ms + Messages(tail)
  {
    assert frame + stream + tail == frame + (stream + tail);
    assert [m] + ms + Messages(tail) == [m] + (ms + Messages(tail));
  }

  /** Whatever the pipe's chunking, every message framed by the writer comes out, in order, whatever follows. */
  lemma {:induction false} MessagesRoundTrip(ms: seq<Message>, tail: seq<byte>)
    requires Sendable(ms)
    ensures Messages(CtrlStream(ms) + tail) == ms + Messages(tail)
    decreases |ms|
  {
    hide FirstMessage, CtrlFrame;
    if ms == [] {
      assert CtrlStream(ms) + tail == tail && ms + Messages(tail) == Messages(tail);
    } else {
      var stream := CtrlStream(ms[1..]);
      OneMessage(ms[0], stream + tail);
      MessagesRoundTrip(ms[1..], tail);
      JoinMessages(CtrlFrame(ms[0]).value, ms[0], stream, ms[1..], tail);
      assert [ms[0]] + ms[1..] == ms;
    }
  }

  lemma CutFrame(m: Message, cut: nat)
    requires |m.payload| <= MAX_CTRL_PAYLOAD && cut < |CtrlFrame(m).value|
    ensures FirstMessage(CtrlFrame(m).value[..cut])
         == if cut < 6 then None else Some(Delivery(Message(m.arg, m.cmd, []), []))
  {
    var s, n := CtrlFrame(m).value, |m.payload|;
    if cut >= 6 {
      var c := s[..cut];
      assert c[2] == s[2] && c[3] == s[3] && c[4] == s[4] && c[5] == s[5];
      assert c[2..4] == ToBE16(n + 2);
    }
  }

  /** A stream cut inside a message loses its payload but still delivers its head once the header is complete. */
  lemma CutMessage(ms: seq<Message>, m: Message, cut: nat)
    requires Sendable(ms) && |m.payload| <= MAX_CTRL_PAYLOAD && cut < |CtrlFrame(m).value|
    ensures Messages(CtrlStream(ms) + CtrlFrame(m).value[..cut])
         == ms + if cut < 6 then [] else [Message(m.arg, m.cmd, [])]
  {
    hide FirstMessage, CtrlFrame;
    var tail := CtrlFrame(m).value[..cut];
    MessagesRoundTrip(ms, tail);
    CutFrame(m, cut);
    EmptyHasNoMessage();
  }

  lemma EmptyHasNoMessage()
    ensures FirstMessage([]) == None && Messages([]) == []
  {
  }

  // -------------------------------------------------------------- pcap records

  const MAX_RECORD: nat := 65535

  /** The record lengths the reader accepts. */
  type RecordData = d: seq<byte> | 1 <= |d| <= MAX_RECORD witness [0]

  datatype Record = Record(seconds: u32, micros: u32, origLen: u32, data: RecordData)

  function RecordBytes(little: bool, r: Record): (s: seq<byte>)
    ensures |s| == 16 + |r.data|
  {
    To32(little, r.seconds) + To32(little, r.micros) + To32(little, |r.data|) + To32(little, r.origLen) + r.data
  }

  /** The record at the head of `s`, if its header is complete, its length allowed and its data all there. */
  function HeadRecord(little: bool, s: seq<byte>): (r: Option<Record>)
    ensures r.Some? ==> 16 + |r.value.data| <= |s|
  {
    if |s| < 16 then None
    else
      var n := From32(little, s[8..12]);
      if n == 0 || n > MAX_RECORD || |s| - 16 < n then None
      else Some(Record(From32(little, s[..4]), From32(little, s[4..8]), From32(little, s[12..16]), s[16..16 + n]))
  }

  function Records(little: bool, s: seq<byte>): seq<Record>
    decreases |s|
  {
    match HeadRecord(little, s)
    case None => []
    case Some(r) => [r] + Records(little, s[16 + |r.data|..])
  }

  /** Both little-endian magics are recognised; anything else is read as big-endian. */
  predicate LittleMagic(header: seq<byte>)
    requires |header| >= 4
  {
    From32(true, header[..4]) in {0xa1b2c3d4, 0xa1b23c4d}
  }

  datatype Capture = Capture(dlt: u32, records: seq<Record>)

  function ReadCapture(s: seq<byte>): Option<Capture> {
    if |s| < 24 then None
    else
      var little := LittleMagic(s[..24]);
      Some(Capture(From32(little, s[20..24]), Records(little, s[24..])))
  }

  method ReadRecord(pipe: Pipe, little: bool) returns (r: Option<Record>)
    modifies pipe
    ensures r == HeadRecord(little, old(pipe.rest))
    ensures r.Some? ==> pipe.rest == old(pipe.rest)[16 + |r.value.data|..]
  {
    ghost var s := pipe.rest;
    var head := pipe.ReadExact(16);
    if head == None {
      return None;
    }
    var h := head.value;
    assert h == s[..16] && h[8..12] == s[8..12] && h[..4] == s[..4] && h[4..8] == s[4..8] && h[12..16] == s[12..16];
    var n := From32(little, h[8..12]);
    if n == 0 || n > MAX_RECORD {
      return None;
    }
    var data := pipe.ReadExact(n);
    if data == None {
      return None;
    }
    assert s[16..][n..] == s[16 + n..] && s[16..][..n] == s[16..16 + n];
    r := Some(Record(From32(little, h[..4]), From32(little, h[4..8]), From32(little, h[12..16]), data.value));
  }

  method RecordLoop(pipe: Pipe, little: bool) returns (records: seq<Record>)
    modifies pipe
    ensures records == Records(little, old(pipe.rest))
  {
    hide HeadRecord;
    records := [];
    while true
      invariant Records(little, old(pipe.rest)) == records + Records(little, pipe.rest)
      decreases |pipe.rest|
    {
      ghost var at := pipe.rest;
      var r := ReadRecord(pipe, little);
      if r == None {
        assert Records(little, at) == [] && records + [] == records;
        return;
      }
      assert records + ([r.value] + Records(little, pipe.rest)) == records + [r.value] + Records(little, pipe.rest);
      records := records + [r.value];
    }
  }

  method CaptureLoop(pipe: Pipe) returns (emitted: Option<Capture>)
    modifies pipe
    ensures emitted == ReadCapture(old(pipe.rest))
  {
    var header := pipe.ReadExact(24);
    if header == None {
      return None;
    }
    var little := LittleMagic(header.value);
    var dlt := From32(little, header.value[20..24]);
    var records := RecordLoop(pipe, little);
    emitted := Some(Capture(dlt, records));
  }

  function RecordStream(little: bool, rs: seq<Record>): seq<byte>
  {
    if rs == [] then [] else RecordBytes(little, rs[0]) + RecordStream(little, rs[1..])
  }

  lemma OneRecord(little: bool, r: Record, tail: seq<byte>)
    ensures HeadRecord(little, RecordBytes(little, r) + tail) == Some(r)
    ensures (RecordBytes(little, r) + tail)[16 + |r.data|..] == tail
  {
  }

  lemma JoinRecords(little: bool, frame: seq<byte>, r: Record, stream: seq<byte>, rs: seq<Record>, tail: seq<byte>)
    requires HeadRecord(little, frame + (stream + tail)) == Some(r) && |frame| == 16 + |r.data|
    requires Records(little, stream + tail) == rs + Records(little, tail)
    ensures Records(little, frame + stream + tail) == [r] + rs + Records(little, tail)
  {
    assert frame + stream + tail == frame + (stream + tail);
    assert (frame + (stream + tail))[|frame|..] == stream + tail;
    assert [r] + rs + Records(little, tail) == [r] + (rs + Records(little, tail));
  }

  /** In either byte order, the reader emits the written records and then whatever the tail still holds. */
  lemma {:induction false} RecordsRoundTrip(little: bool, rs: seq<Record>, tail: seq<byte>)
    ensures Records(little, RecordStream(little, rs) + tail) == rs + Records(little, tail)
    decreases |rs|
  {
    hide HeadRecord, RecordBytes;
    if rs == [] {
      assert RecordStream(little, rs) + tail == tail && rs + Records(little, tail) == Records(little, tail);
    } else {
      var stream := RecordStream(little, rs[1..]);
      OneRecord(little, rs[0], stream + tail);
      RecordsRoundTrip(little, rs[1..], tail);
      JoinRecords(little, RecordBytes(little, rs[0]), rs[0], stream, rs[1..], tail);
      assert [rs[0]] + rs[1..] == rs;
    }
  }

  /** The global header's magic, written in either order, tells the reader that order. */
  lemma MagicTellsOrder(header: seq<byte>, little: bool, nanos: bool)
    requires |header| >= 4 && header[..4] == To32(little, if nanos then 0xa1b23c4d else 0xa1b2c3d4)
    ensures LittleMagic(header) == little
  {
  }

  /** A whole capture file in either byte order comes back as its link type and its records, up to a cut-off tail. */
  lemma CaptureRoundTrip(header: seq<byte>, little: bool, dlt: u32, rs: seq<Record>, tail: seq<byte>)
    requires |header| == 24 && LittleMagic(header) == little && header[20..24] == To32(little, dlt)
    requires HeadRecord(little, tail) == None
    ensures ReadCapture(header + (RecordStream(little, rs) + tail)) == Some(Capture(dlt, rs))
  {
    var stream := RecordStream(little, rs) + tail;
    var s := header + stream;
    assert s[..24] == header && s[24..] == stream && s[20..24] == header[20..24];
    Inverse32(little, dlt);
    RecordsRoundTrip(little, rs, tail);
    assert rs + [] == rs;
  }

  lemma HeadReserialises(little: bool, s: seq<byte>)
    requires HeadRecord(little, s).Some?
    ensures var r := HeadRecord(little, s).value;
      RecordBytes(little, r) == s[..16 + |r.data|]
  {
    Unique32(little, s[..4]);
    Unique32(little, s[4..8]);
    Unique32(little, s[8..12]);
    Unique32(little, s[12..16]);
    var r := HeadRecord(little, s).value;
    assert s[..16 + |r.data|] == s[..4] + s[4..8] + s[8..12] + s[12..16] + s[16..16 + |r.data|];
  }

  lemma JoinPrefix(s: seq<byte>, n: nat, out: seq<byte>)
    requires n <= |s| && |out| <= |s| - n && out == s[n..][..|out|]
    ensures s[..n] + out == s[..n + |out|] && s[n..][|out|..] == s[n + |out|..]
  {
  }

  /** How many bytes the emitted records take up. */
  function Consumed(little: bool, s: seq<byte>): (n: nat)
    ensures n <= |s|
    decreases |s|
  {
    match HeadRecord(little, s)
    case None => 0
    case Some(r) => 16 + |r.data| + Consumed(little, s[16 + |r.data|..])
  }

  /** What is emitted on any bytes re-serialises to the start of those bytes. */
  lemma {:induction false} EmitsPrefix(little: bool, s: seq<byte>)
    ensures RecordStream(little, Records(little, s)) == s[..Consumed(little, s)]
    decreases |s|
  {
    hide HeadRecord, RecordBytes;
    if HeadRecord(little, s).Some? {
      var n := 16 + |HeadRecord(little, s).value.data|;
      HeadReserialises(little, s);
      EmitsPrefix(little, s[n..]);
      assert Records(little, s)[1..] == Records(little, s[n..]);
      JoinPrefix(s, n, s[n..][..Consumed(little, s[n..])]);
    }
  }

  /** The reader stops only where no complete record starts. */
  lemma {:induction false} StopsAtIncomplete(little: bool, s: seq<byte>)
    ensures HeadRecord(little, s[Consumed(little, s)..]) == None
    decreases |s|
  {
    hide HeadRecord, RecordBytes;
    if HeadRecord(little, s).Some? {
      var n := 16 + |HeadRecord(little, s).value.data|;
      StopsAtIncomplete(little, s[n..]);
      JoinPrefix(s, n, s[n..][..Consumed(little, s[n..])]);
    } else {
      assert s[0..] == s;
    }
  }

  // --------------------------------------------------------------- on the wire

  /** A control message octet by octet: a "T", a zero, the length of all that follows it, argument, command, payload. */
  lemma CtrlLayout(m: Message)
    requires |m.payload| <= 65533
    ensures CtrlFrame(m).Ok?
    ensures var f := CtrlFrame(m).value;
      && |f| == 6 + |m.payload| && f[0] == 0x54 && f[1] == 0 && f[4] == m.arg && f[5] == m.cmd && f[6..] == m.payload
      && 256 * (f[2] as int) + f[3] as int == |f[4..]|
  {
  }

  /** A length field too small to count argument and command means no payload. */
  lemma TinyLengthMeansEmpty(s: seq<byte>)
    requires |s| >= 6 && s[2] == 0 && s[3] < 2
    ensures FirstMessage(s) == Some(Delivery(Message(s[4], s[5], []), s[6..]))
  {
    assert s[2..4] == [s[2], s[3]] && s[6..6] == [];
  }

  /** A record header octet by octet, in either byte order: seconds, fraction, captured length, original length. */
  lemma RecordLayout(r: Record)
    ensures var s, t := RecordBytes(true, r), RecordBytes(false, r);
      && Value(s[0], s[1], s[2], s[3]) == r.seconds == Value(t[3], t[2], t[1], t[0])
      && Value(s[4], s[5], s[6], s[7]) == r.micros == Value(t[7], t[6], t[5], t[4])
      && Value(s[8], s[9], s[10], s[11]) == |r.data| == Value(t[11], t[10], t[9], t[8])
      && Value(s[12], s[13], s[14], s[15]) == r.origLen == Value(t[15], t[14], t[13], t[12])
      && s[16..] == r.data == t[16..]
  {
    hide Value;
    DigitsOf(r.seconds);
    DigitsOf(r.micros);
    DigitsOf(|r.data|);
    DigitsOf(r.origLen);
  }

  lemma DigitsOf(n: u32)
    ensures var s, t := To32(true, n), To32(false, n);
      && Value(s[0], s[1], s[2], s[3]) == n && t == [s[3], s[2], s[1], s[0]]
  {
    Inverse32(true, n);
  }

  /** The first octets of a capture that are taken for little-endian: both magics, micro- and nanosecond, reversed. */
  lemma MagicOctets(header: seq<byte>)
    requires |header| >= 4
    ensures LittleMagic(header) <==> header[..4] == [0xd4, 0xc3, 0xb2, 0xa1] || header[..4] == [0x4d, 0x3c, 0xb2, 0xa1]
  {
    Unique32(true, header[..4]);
    assert To32(true, 0xa1b2c3d4) == [0xd4, 0xc3, 0xb2, 0xa1] && To32(true, 0xa1b23c4d) == [0x4d, 0x3c, 0xb2, 0xa1];
  }
}
