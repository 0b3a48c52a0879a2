/** What survives in the rotating log over any sequence of writes and flushes, and how large its files get. */
module SinkRuns {
  import opened Octets
  import opened RotatingSink

  datatype Event = Write(text: Bytes, spill: nat) | Flush

  function After(c: Config, s: State, e: Event): State {
    match e
    case Write(text, spill) => WriteState(c, s, text, spill)
    case Flush => FlushState(s)
  }

  /** A sink opened on whatever files are there. */
  function Opened(disk: Files): State {
    State(disk[Current := Content(disk, Current)], [])
  }

  function RunAll(c: Config, disk: Files, es: seq<Event>): State {
    if es == [] then Opened(disk) else After(c, RunAll(c, disk, es[..|es| - 1]), es[|es| - 1])
  }

  /** Backups `n` down to 1, then the current file. */
  function Tail(fs: Files, n: nat): Bytes {
    if n == 0 then Content(fs, Current) else Content(fs, Backup(n)) + Tail(fs, n - 1)
  }

  /** The backups that take part in rotation: with a count of zero, one is still kept. */
  function Depth(c: Config): nat {
    if c.backupCount == 0 then 1 else c.backupCount
  }

  function Kept(c: Config, s: State): Bytes {
    Tail(s.fs, Depth(c)) + s.buffer
  }

  function TextOf(e: Event): Bytes {
    if e.Write? then e.text else []
  }

  /** Everything there was at the start and everything written since. */
  function Written(c: Config, disk: Files, es: seq<Event>): Bytes {
    if es == [] then Kept(c, Opened(disk)) else Written(c, disk, es[..|es| - 1]) + TextOf(es[|es| - 1])
  }

  /** What rotations have thrown away. */
  function Lost(c: Config, disk: Files, es: seq<Event>): Bytes {
    if es == [] then []
    else
      var s := RunAll(c, disk, es[..|es| - 1]);
      var e := es[|es| - 1];
      Lost(c, disk, es[..|es| - 1])
      + if e.Write? then Dropped(c, s, e.text) else []
  }

  /** What one write throws away: the oldest backup, if the write rotates. */
  function Dropped(c: Config, s: State, text: Bytes): Bytes {
    if NeedsRotation(c, s.fs, |text|) then Content(s.fs, Backup(Depth(c))) else []
  }

  lemma ShiftedContent(fs: Files, count: nat, k: nat)
    requires 1 <= k <= (if count == 0 then 1 else count)
    ensures Content(Shifted(fs, count), Backup(k))
      == if k == 1 then Content(fs, Current) else Content(fs, Backup(k - 1))
  {
  }

  /** After a rotation, backups `k` down to the current file hold what backups `k - 1` down held before. */
  lemma {:induction false} TailShifts(fs: Files, count: nat, k: nat)
    requires 1 <= k <= (if count == 0 then 1 else count)
    ensures Tail(Shifted(fs, count), k) == Tail(fs, k - 1)
  {
    hide Shifted, Content;
    ShiftedContent(fs, count, k);
    ShiftedCurrent(fs, count);
    if k > 1 {
      TailShifts(fs, count, k - 1);
    } else {
      assert Tail(Shifted(fs, count), 0) == [];
      assert Tail(fs, 0) == Content(fs, Current);
    }
  }

  lemma ShiftedCurrent(fs: Files, count: nat)
    ensures Current in Shifted(fs, count) && Content(Shifted(fs, count), Current) == []
  {
  }

  lemma {:induction false} TailAppends(fs: Files, more: Bytes, n: nat)
    ensures Tail(fs[Current := Content(fs, Current) + more], n) == Tail(fs, n) + more
  {
    if n > 0 {
      TailAppends(fs, more, n - 1);
      assert Content(fs, Backup(n)) + (Tail(fs, n - 1) + more) == Tail(fs, n) + more;
    }
  }

  lemma FlushKeeps(c: Config, s: State)
    ensures Kept(c, FlushState(s)) == Kept(c, s)
  {
    TailAppends(s.fs, s.buffer, Depth(c));
    assert Tail(s.fs, Depth(c)) + s.buffer + [] == Tail(s.fs, Depth(c)) + s.buffer;
  }

  /** Appending and handing any part of the buffer over adds exactly the text. */
  lemma AppendKeeps(c: Config, r: State, text: Bytes, k: nat)
    requires k <= |r.buffer + text|
    ensures var pending := r.buffer + text;
      Kept(c, State(r.fs[Current := Content(r.fs, Current) + pending[..k]], pending[k..])) == Kept(c, r) + text
  {
    var pending := r.buffer + text;
    TailAppends(r.fs, pending[..k], Depth(c));
    var t := Tail(r.fs, Depth(c));
    assert t + pending[..k] + pending[k..] == t + r.buffer + text;
  }

  lemma RotationKeeps(c: Config, s: State)
    ensures var r := State(Shifted(FlushState(s).fs, c.backupCount), []);
      Kept(c, s) == Content(s.fs, Backup(Depth(c))) + Kept(c, r)
  {
    hide Shifted;
    var f := FlushState(s);
    FlushKeeps(c, s);
    TailShifts(f.fs, c.backupCount, Depth(c));
    var r := State(Shifted(f.fs, c.backupCount), []);
    assert Kept(c, r) == Tail(f.fs, Depth(c) - 1);
    assert Kept(c, f) == Tail(f.fs, Depth(c));
    assert Content(f.fs, Backup(Depth(c))) == Content(s.fs, Backup(Depth(c)));
  }

  lemma WriteKeeps(c: Config, s: State, text: Bytes, spill: nat)
    ensures Kept(c, s) + text == Dropped(c, s, text) + Kept(c, WriteState(c, s, text, spill))
  {
    hide Kept, Shifted, FlushState, NeedsRotation;
    var r := if NeedsRotation(c, s.fs, |text|) then State(Shifted(FlushState(s).fs, c.backupCount), []) else s;
    RotationKeeps(c, s);
    assert Kept(c, s) == Dropped(c, s, text) + Kept(c, r);
    AppendKeeps(c, r, text, if spill <= |r.buffer + text| then spill else |r.buffer + text|);
    assert Dropped(c, s, text) + Kept(c, r) + text == Dropped(c, s, text) + (Kept(c, r) + text);
  }

  /**
   At every moment the backups from the oldest down, the current file and the buffer together are a
   suffix of everything ever written: what is missing is exactly what rotations dropped, in order.
   */
  lemma {:induction false} KeepsSuffix(c: Config, disk: Files, es: seq<Event>)
    ensures Written(c, disk, es) == Lost(c, disk, es) + Kept(c, RunAll(c, disk, es))
    decreases |es|
  {
    hide Kept, WriteState, FlushState, Dropped;
    if es == [] {
      assert [] + Kept(c, Opened(disk)) == Kept(c, Opened(disk));
    } else {
      var pre, e := es[..|es| - 1], es[|es| - 1];
      KeepsSuffix(c, disk, pre);
      var s, lost := RunAll(c, disk, pre), Lost(c, disk, pre);
      if e.Flush? {
        FlushKeeps(c, s);
        assert Written(c, disk, pre) + [] == Written(c, disk, pre) && lost + [] == lost;
      } else {
        WriteKeeps(c, s, e.text, e.spill);
        assert lost + Kept(c, s) + e.text == lost + (Kept(c, s) + e.text);
        assert lost + (Dropped(c, s, e.text) + Kept(c, RunAll(c, disk, es)))
          == Lost(c, disk, es) + Kept(c, RunAll(c, disk, es));
      }
    }
  }

  // -------------------------------------------------------------------- sizes

  /** Bytes written since the last flush. */
  function Unflushed(es: seq<Event>): nat {
    if es == [] || es[|es| - 1].Flush? then 0 else Unflushed(es[..|es| - 1]) + |es[|es| - 1].text|
  }

  /** No more than `batch` bytes are ever written between two flushes. */
  ghost predicate Batched(es: seq<Event>, batch: nat) {
    forall n :: 0 <= n <= |es| ==> Unflushed(es[..n]) <= batch
  }

  ghost predicate AllWithin(fs: Files, limit: nat) {
    forall p :: p in fs ==> |fs[p]| <= limit
  }

  /** All files fit, and the current one still does when the buffer is handed over. */
  ghost predicate Fits(s: State, limit: nat) {
    AllWithin(s.fs, limit) && |Content(s.fs, Current)| + |s.buffer| <= limit
  }

  lemma WriteFits(c: Config, s: State, text: Bytes, spill: nat, batch: nat)
    requires Fits(s, c.maxBytes + batch) && |s.buffer| + |text| <= batch
    ensures Fits(WriteState(c, s, text, spill), c.maxBytes + batch)
    ensures |WriteState(c, s, text, spill).buffer| <= |s.buffer| + |text|
  {
  }

  /**
   The size check cannot see the buffer, so the bound is the limit plus one unflushed batch: if at most
   `batch` bytes are written between flushes, every file stays within `max_bytes + batch`.
   */
  lemma {:induction false} SizesBounded(c: Config, disk: Files, es: seq<Event>, batch: nat)
    requires Batched(es, batch) && AllWithin(disk, c.maxBytes + batch)
    ensures Fits(RunAll(c, disk, es), c.maxBytes + batch) && |RunAll(c, disk, es).buffer| <= Unflushed(es)
    decreases |es|
  {
    hide WriteState;
    if es != [] {
      var pre, e := es[..|es| - 1], es[|es| - 1];
      assert forall n :: 0 <= n <= |pre| ==> pre[..n] == es[..n];
      SizesBounded(c, disk, pre, batch);
      assert es[..|es|] == es && Unflushed(es) <= batch;
      if e.Write? {
        WriteFits(c, RunAll(c, disk, pre), e.text, e.spill, batch);
      }
    }
  }

  /** A write followed by a flush, again and again. */
  ghost predicate FlushedEach(es: seq<Event>) {
    forall k :: 0 <= k < |es| ==> (es[k].Write? <==> k % 2 == 0)
  }

  /** When every write is flushed at once, no file exceeds the limit or the largest single write, whichever is more. */
  lemma {:induction false} FlushedSizesBounded(c: Config, disk: Files, es: seq<Event>, limit: nat)
    requires FlushedEach(es) && limit >= c.maxBytes
    requires forall k :: 0 <= k < |es| && es[k].Write? ==> |es[k].text| <= limit
    requires AllWithin(disk, limit)
    ensures Fits(RunAll(c, disk, es), limit) && (|es| % 2 == 0 ==> RunAll(c, disk, es).buffer == [])
    decreases |es|
  {
    hide WriteState;
    if es != [] {
      var pre, e := es[..|es| - 1], es[|es| - 1];
      assert forall k :: 0 <= k < |pre| ==> pre[k] == es[k];
      FlushedSizesBounded(c, disk, pre, limit);
      if e.Write? {
        assert |pre| % 2 == 0;
        EmptyBufferWriteFits(c, RunAll(c, disk, pre), e.text, e.spill, limit);
      }
    }
  }

  lemma EmptyBufferWriteFits(c: Config, s: State, text: Bytes, spill: nat, limit: nat)
    requires Fits(s, limit) && s.buffer == [] && |text| <= limit && c.maxBytes <= limit
    ensures Fits(WriteState(c, s, text, spill), limit)
  {
  }

  lemma TwoWrites(c: Config, s0: State, s1: State, s2: State)
    requires c.maxBytes == 4 && s0 == Opened(map[])
    requires s1 == WriteState(c, s0, [1, 2, 3, 4], 0) && s2 == WriteState(c, s1, [5, 6, 7, 8], 0)
    ensures FlushState(s2).fs == map[Current := [1, 2, 3, 4, 5, 6, 7, 8]]
  {
    assert s0 == State(map[Current := []], []);
    var a: Bytes, b: Bytes := [1, 2, 3, 4], [5, 6, 7, 8];
    assert [] + a == a && a[..0] == [] && a[0..] == a && [] + a[..0] == [];
    assert s1 == State(map[Current := []], a);
    assert (a + b)[..0] == [] && (a + b)[0..] == a + b && [] + (a + b)[..0] == [];
    assert s2 == State(map[Current := []], a + b);
    assert [] + (a + b) == [1, 2, 3, 4, 5, 6, 7, 8];
  }

  /** Two unflushed writes of four bytes into a sink limited to four leave a file of eight. */
  lemma UnflushedWritesOvershoot()
    ensures var es := [Write([1, 2, 3, 4], 0), Write([5, 6, 7, 8], 0), Flush];
      RunAll(Config(4, 5), map[], es).fs == map[Current := [1, 2, 3, 4, 5, 6, 7, 8]]
  {
    var c := Config(4, 5);
    var es := [Write([1, 2, 3, 4], 0), Write([5, 6, 7, 8], 0), Flush];
    var s0 := Opened(map[]);
    var s1 := WriteState(c, s0, [1, 2, 3, 4], 0);
    var s2 := WriteState(c, s1, [5, 6, 7, 8], 0);
    TwoWrites(c, s0, s1, s2);
    hide WriteState, FlushState;
    assert es[..2] == [es[0], es[1]] && es[..2][..1] == [es[0]] && [es[0]][..0] == [];
    assert RunAll(c, map[], []) == s0;
    assert RunAll(c, map[], [es[0]]) == s1;
    assert RunAll(c, map[], es[..2]) == s2;
    assert RunAll(c, map[], es) == FlushState(s2);
  }
}
