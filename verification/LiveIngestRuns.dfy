/** The queue between reader threads and the database thread, over every interleaving of arrivals and flushes. */
module LiveIngestRuns {
  import opened Wrappers
  import opened Observations
  import opened Sums
  import opened LiveIngest

  datatype State = State(
    received: nat, decoded: nat, dropped: nat, flushes: nat, lastFlush: nat,
    sourceReceived: map<string, nat>, sourceRejected: map<string, nat>,
    queue: seq<Packet>, desk: Desk)

  const START := State(0, 0, 0, 0, 0, map[], map[], [], FRESH)

  /** The newest `n` elements. */
  function Newest<T>(s: seq<T>, n: nat): (r: seq<T>)
    ensures |r| <= n && |r| <= |s|
  {
    if |s| <= n then s else s[|s| - n..]
  }

  function SourceOf(a: Arrival): string {
    var s := match a case Undecodable(s) => s case OwnTraffic(s) => s case Decoded(p) => p.source;
    if s == "" then "?" else s
  }

  function Receive(s: State, a: Arrival, cap: nat): State {
    var src := SourceOf(a);
    var t := s.(received := s.received + 1, sourceReceived := Bump(s.sourceReceived, Some(src)));
    match a
    case Undecodable(_) => t.(sourceRejected := Bump(t.sourceRejected, Some(src)))
    case OwnTraffic(_) => t
    case Decoded(p) =>
      t.(decoded := t.decoded + 1,
         dropped := t.dropped + (if |t.queue| == cap then 1 else 0),
         queue := Newest(t.queue + [p], cap))
  }

  function DrainMany(d: Desk, ps: seq<Packet>): Desk {
    if ps == [] then d else Drain(DrainMany(d, ps[..|ps| - 1]), ps[|ps| - 1])
  }

  function Flush(s: State): State {
    if s.queue == [] then s
    else s.(desk := DrainMany(s.desk, s.queue), queue := [], flushes := s.flushes + 1, lastFlush := |s.queue|)
  }

  // ------------------------------------------------------------------ session

  class Session {
    const cap: nat
    var state: State

    constructor (cap: nat)
      ensures this.cap == cap && state == START
    {
      this.cap := cap;
      state := START;
    }

    /** Reader thread: count, decode, append; the oldest queued packet gives way when the queue is full. */
    method OnPacket(a: Arrival)
      requires |state.queue| <= cap
      modifies this
      ensures state == Receive(old(state), a, cap) && |state.queue| <= cap
    {
      var src := SourceOf(a);
      state := state.(received := state.received + 1, sourceReceived := Bump(state.sourceReceived, Some(src)));
      match a
      case Undecodable(_) =>
        state := state.(sourceRejected := Bump(state.sourceRejected, Some(src)));
      case OwnTraffic(_) =>
      case Decoded(p) =>
        var queue := state.queue + [p];
        var dropped := state.dropped;
        if |state.queue| == cap {
          dropped := dropped + 1;
          queue := queue[1..];
        }
        state := state.(decoded := state.decoded + 1, dropped := dropped, queue := queue);
    }

    /** Database thread: drain the batch packet by packet; returns how many were recorded. */
    method FlushBatch() returns (recorded: nat)
      modifies this
      ensures state == Flush(old(state))
      ensures recorded == state.desk.recorded - old(state).desk.recorded
    {
      hide HeardEvent, Apply;
      if state.queue == [] {
        return 0;
      }
      var batch := state.queue;
      var clean, rows, sources := state.desk.clean, state.desk.rows, state.desk.sources;
      recorded := 0;
      for i := 0 to |batch|
        invariant Desk(clean, rows, sources, state.desk.recorded + recorded) == DrainMany(state.desk, batch[..i])
      {
        assert batch[..i + 1][..i] == batch[..i];
        var p := batch[i];
        var key := (p.source, if p.channel.Some? then p.channel.value else 0);
        var device := DeviceOf(p);
        if device.Some? {
          rows := rows[device.value := Apply(Find(rows, device.value), HeardEvent(p))];
          recorded := recorded + 1;
          var heard := if p.source in sources then sources[p.source].count else 0;
          sources := sources[p.source := SourceState(p.ts, heard + 1)];
          if p.channel.Some? {
            clean := clean[key := Clean(p.ts, device.value)];
          }
        } else if !p.crcOk && p.channel.Some? {
          if key in clean && p.ts - clean[key].at <= CRC_ATTRIB_WINDOW_S {
            var credited := clean[key].device;
            rows := rows[credited := Apply(Find(rows, credited), Bad(1, Some(p.ts)))];
          }
        }
      }
      assert batch[..|batch|] == batch;
      state := state.(desk := Desk(clean, rows, sources, state.desk.recorded + recorded),
                      queue := [], flushes := state.flushes + 1, lastFlush := |batch|);
    }
  }

  // --------------------------------------------------------------------- runs

  datatype Step = Arrive(a: Arrival) | FlushStep

  function RunAll(steps: seq<Step>, cap: nat): State {
    if steps == [] then START
    else
      var s := RunAll(steps[..|steps| - 1], cap);
      match steps[|steps| - 1]
      case Arrive(a) => Receive(s, a, cap)
      case FlushStep => Flush(s)
  }

  /** The packets decoded since the last flush, queued or not. */
  function Pending(steps: seq<Step>): seq<Packet> {
    if steps == [] then []
    else
      var before := Pending(steps[..|steps| - 1]);
      match steps[|steps| - 1]
      case Arrive(Decoded(p)) => before + [p]
      case Arrive(_) => before
      case FlushStep => []
  }

  /** Everything handed to the database: at each flush, the newest `cap` packets pending then. */
  function Drained(steps: seq<Step>, cap: nat): seq<Packet> {
    if steps == [] then []
    else
      var pre := steps[..|steps| - 1];
      Drained(pre, cap) + if steps[|steps| - 1].FlushStep? then Newest(Pending(pre), cap) else []
  }

  function CountDecoded(steps: seq<Step>): nat {
    if steps == [] then 0
    else
      var last := steps[|steps| - 1];
      CountDecoded(steps[..|steps| - 1]) + if last.Arrive? && last.a.Decoded? then 1 else 0
  }

  lemma NewestSnoc<T>(s: seq<T>, p: T, n: nat)
    ensures Newest(Newest(s, n) + [p], n) == Newest(s + [p], n)
  {
  }

  /** The queue is always the newest at most `cap` of the packets decoded since the last flush, in order. */
  lemma {:induction false} QueueIsNewest(steps: seq<Step>, cap: nat)
    ensures RunAll(steps, cap).queue == Newest(Pending(steps), cap)
  {
    hide Newest, DrainMany;
    if steps == [] {
      assert Newest<Packet>([], cap) == [] by { NewestOfNone<Packet>(cap); }
    } else {
      var pre, last := steps[..|steps| - 1], steps[|steps| - 1];
      QueueIsNewest(pre, cap);
      NewestOfNone<Packet>(cap);
      if last.Arrive? && last.a.Decoded? {
        NewestSnoc(Pending(pre), last.a.p, cap);
      }
    }
  }

  lemma NewestOfNone<T>(cap: nat)
    ensures Newest<T>([], cap) == []
  {
  }

  /** Every decoded packet is dropped, queued or drained, and nothing else is. */
  lemma {:induction false} NothingLost(steps: seq<Step>, cap: nat)
    ensures var s := RunAll(steps, cap);
      s.decoded == CountDecoded(steps) && s.decoded == s.dropped + |s.queue| + |Drained(steps, cap)|
      && |s.queue| <= cap
  {
    hide DrainMany;
    QueueIsNewest(steps, cap);
    if steps != [] {
      var pre := steps[..|steps| - 1];
      NothingLost(pre, cap);
      QueueIsNewest(pre, cap);
    }
  }

  lemma {:induction false} DrainManyAfter(ps: seq<Packet>, qs: seq<Packet>)
    ensures DrainMany(DrainAll(ps), qs) == DrainAll(ps + qs)
    decreases |qs|
  {
    hide Drain;
    if qs == [] {
      assert ps + qs == ps;
    } else {
      DrainManyAfter(ps, qs[..|qs| - 1]);
      assert (ps + qs)[..|ps + qs| - 1] == ps + qs[..|qs| - 1];
    }
  }

  /** However arrivals and flushes interleave, the database state is that of the drained packets in order. */
  lemma {:induction false} DeskIsDrained(steps: seq<Step>, cap: nat)
    ensures RunAll(steps, cap).desk == DrainAll(Drained(steps, cap))
  {
    hide Drain, Newest;
    if steps != [] {
      var pre := steps[..|steps| - 1];
      DeskIsDrained(pre, cap);
      if steps[|steps| - 1].FlushStep? {
        QueueIsNewest(pre, cap);
        DrainManyAfter(Drained(pre, cap), Newest(Pending(pre), cap));
        if Newest(Pending(pre), cap) == [] {
          assert Drained(pre, cap) + [] == Drained(pre, cap);
        }
      } else {
        assert Drained(pre, cap) + [] == Drained(pre, cap);
      }
    }
  }

  /**
   The session as a whole, for every interleaving: packets recorded are the attributable packets drained
   and the sum of the rows' packet counts; each device's row replays its own packets and the CRC failures
   whose last clean predecessor on the same source and channel, at most two seconds earlier, was that device.
   */
  lemma SessionIsHistory(steps: seq<Step>, cap: nat, d: int)
    ensures var s := RunAll(steps, cap);
      var ps := Drained(steps, cap);
      && s.desk.recorded == Attributed(ps)
      && Sum(s.desk.rows.Keys, x => PacketsIn(s.desk.rows, x)) == s.desk.recorded
      && Find(s.desk.rows, d) == Replay(EventsFor(ps, d))
  {
    DeskIsDrained(steps, cap);
    RecordedIsTotal(Drained(steps, cap));
    RowsAreHistory(Drained(steps, cap), d);
  }

  /** A device's bad-packet count is the number of drained CRC failures credited to it. */
  function Credits(ps: seq<Packet>, d: int): nat {
    if ps == [] then 0
    else
      var pre, p := ps[..|ps| - 1], ps[|ps| - 1];
      Credits(pre, d) + if CreditedTo(pre, p) == Some(d) then 1 else 0
  }

  lemma {:induction false} BadCountIsCredits(ps: seq<Packet>, d: int)
    ensures BadTotal(EventsFor(ps, d)) == Credits(ps, d)
  {
    hide HeardEvent, Recent;
    if ps != [] {
      var pre, p := ps[..|ps| - 1], ps[|ps| - 1];
      BadCountIsCredits(pre, d);
      var c := Contribution(pre, p, d);
      if c == [] {
        assert EventsFor(pre, d) + c == EventsFor(pre, d);
      } else {
        HeardIsHeard(p);
        assert (EventsFor(pre, d) + c)[..|EventsFor(pre, d) + c| - 1] == EventsFor(pre, d);
      }
    }
  }

  lemma SessionBadCounts(steps: seq<Step>, cap: nat, d: int)
    ensures var rows := RunAll(steps, cap).desk.rows;
      (if d in rows then rows[d].t.bad else 0) == Credits(Drained(steps, cap), d)
  {
    var es := EventsFor(Drained(steps, cap), d);
    SessionIsHistory(steps, cap, d);
    BadCountIsCredits(Drained(steps, cap), d);
    if es != [] {
      ReplayIsBatch(es);
      BatchCounts(es);
    }
  }
}
