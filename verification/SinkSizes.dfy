/**
 When a file of the rotating sink outgrows its limit: exactly, from the sizes of the writes and when they reach the
 file.
 */
module SinkSizes {
  import opened Octets
  import opened RotatingSink
  import opened SinkRuns

  /** The bytes of the current file that the size check sees, and those still in the buffer. */
  datatype Sizes = Sizes(onDisk: nat, pending: nat)

  function SizesOf(s: State): Sizes {
    Sizes(|Content(s.fs, Current)|, |s.buffer|)
  }

  predicate Rotates(z: Sizes, n: nat, max: nat) {
    z.onDisk + n > max && z.onDisk > 0
  }

  /** A write of `n` bytes leaves everything within the limit. */
  predicate StaysWithin(z: Sizes, n: nat, max: nat) {
    if Rotates(z, n, max) then n <= max else z.onDisk + z.pending + n <= max
  }

  function SizesAfter(z: Sizes, e: Event, max: nat): Sizes {
    match e
    case Flush => Sizes(z.onDisk + z.pending, 0)
    case Write(text, spill) =>
      var r := if Rotates(z, |text|, max) then Sizes(0, 0) else z;
      var held := r.pending + |text|;
      var k := if spill <= held then spill else held;
      Sizes(r.onDisk + k, held - k)
  }

  /** The sizes over a run, from the size of the file it was opened on and the events alone. */
  function SizesOver(start: nat, es: seq<Event>, max: nat): Sizes {
    if es == [] then Sizes(start, 0) else SizesAfter(SizesOver(start, es[..|es| - 1], max), es[|es| - 1], max)
  }

  lemma WriteSizes(c: Config, s: State, e: Event)
    ensures SizesOf(After(c, s, e)) == SizesAfter(SizesOf(s), e, c.maxBytes)
  {
  }

  lemma {:induction false} RunSizes(c: Config, disk: Files, es: seq<Event>)
    ensures SizesOf(RunAll(c, disk, es)) == SizesOver(|Content(disk, Current)|, es, c.maxBytes)
  {
    hide After, SizesAfter;
    if es != [] {
      RunSizes(c, disk, es[..|es| - 1]);
      WriteSizes(c, RunAll(c, disk, es[..|es| - 1]), es[|es| - 1]);
    }
  }

  /** From files within the limit, a write keeps them so exactly when it stays within it. */
  lemma WriteFitsExactly(c: Config, s: State, text: Bytes, spill: nat)
    requires Fits(s, c.maxBytes)
    ensures Fits(WriteState(c, s, text, spill), c.maxBytes) <==> StaysWithin(SizesOf(s), |text|, c.maxBytes)
  {
  }

  lemma FlushFits(s: State, max: nat)
    requires Fits(s, max)
    ensures Fits(FlushState(s), max)
  {
  }

  /** Write `k` of the run stays within the limit, by the sizes of what came before it. */
  predicate Stays(start: nat, es: seq<Event>, k: nat, max: nat)
    requires k < |es|
  {
    es[k].Write? ==> StaysWithin(SizesOver(start, es[..k], max), |es[k].text|, max)
  }

  /** Every write of the run stays within the limit. */
  predicate AllStay(start: nat, es: seq<Event>, max: nat) {
    forall k :: 0 <= k < |es| ==> Stays(start, es, k, max)
  }

  lemma AllStaySnoc(start: nat, es: seq<Event>, max: nat)
    requires es != []
    ensures AllStay(start, es, max) <==> AllStay(start, es[..|es| - 1], max) && Stays(start, es, |es| - 1, max)
  {
    hide StaysWithin;
    var pre := es[..|es| - 1];
    forall k | 0 <= k < |pre|
      ensures Stays(start, es, k, max) <==> Stays(start, pre, k, max)
    {
      assert pre[..k] == es[..k];
    }
  }

  // ------------------------------------ counting what is buffered for the file

  /** At every moment of the run no file is over the limit, counting what the buffer still holds for it. */
  ghost predicate NeverOver(c: Config, disk: Files, es: seq<Event>) {
    forall n :: 0 <= n <= |es| ==> Fits(RunAll(c, disk, es[..n]), c.maxBytes)
  }

  lemma NeverOverSnoc(c: Config, disk: Files, es: seq<Event>)
    requires es != []
    ensures NeverOver(c, disk, es) <==> NeverOver(c, disk, es[..|es| - 1]) && Fits(RunAll(c, disk, es), c.maxBytes)
  {
    hide Fits, RunAll;
    var pre := es[..|es| - 1];
    assert forall n :: 0 <= n <= |pre| ==> pre[..n] == es[..n];
    assert es[..|es|] == es;
  }

  /**
   Over whole runs: with what is buffered for it no file is ever over the limit exactly when none was at the start and
   every write stays within it.
   */
  lemma {:induction false} NeverOverExactly(c: Config, disk: Files, es: seq<Event>)
    ensures NeverOver(c, disk, es) <==>
      AllWithin(disk, c.maxBytes) && AllStay(|Content(disk, Current)|, es, c.maxBytes)
    decreases |es|
  {
    hide Fits, StaysWithin, WriteState, FlushState;
    if es == [] {
      OpenedFits(disk, c.maxBytes);
      assert es[..0] == [];
    } else {
      var pre, e := es[..|es| - 1], es[|es| - 1];
      NeverOverExactly(c, disk, pre);
      NeverOverSnoc(c, disk, es);
      AllStaySnoc(|Content(disk, Current)|, es, c.maxBytes);
      var s := RunAll(c, disk, pre);
      RunSizes(c, disk, pre);
      assert pre[..|pre|] == pre;
      if NeverOver(c, disk, pre) {
        assert Fits(s, c.maxBytes);
        if e.Write? { WriteFitsExactly(c, s, e.text, e.spill); } else { FlushFits(s, c.maxBytes); }
      }
    }
  }

  lemma OpenedFits(disk: Files, max: nat)
    ensures Fits(Opened(disk), max) <==> AllWithin(disk, max)
  {
    var s := Opened(disk);
    if AllWithin(disk, max) {
      assert forall p :: p in s.fs ==> |s.fs[p]| <= max;
    }
    if Fits(s, max) {
      forall p | p in disk
        ensures |disk[p]| <= max
      {
        assert p in s.fs && s.fs[p] == disk[p];
      }
    }
  }

  /** With a flush after each write, no file and its buffer are ever over the limit exactly when no single write is. */
  lemma {:induction false} FlushedNeverOverExactly(c: Config, disk: Files, es: seq<Event>)
    requires FlushedEach(es) && AllWithin(disk, c.maxBytes)
    ensures NeverOver(c, disk, es) <==> forall k :: 0 <= k < |es| && es[k].Write? ==> |es[k].text| <= c.maxBytes
  {
    hide Stays, SizesOver, FlushedEach;
    var start, max := |Content(disk, Current)|, c.maxBytes;
    NeverOverExactly(c, disk, es);
    if forall k :: 0 <= k < |es| && es[k].Write? ==> |es[k].text| <= max {
      FlushedAllStay(start, es, max);
    }
    if AllStay(start, es, max) {
      forall k | 0 <= k < |es| && es[k].Write?
        ensures |es[k].text| <= max
      {
        WithinIsSmall(start, es, k, max);
      }
    }
  }

  lemma WithinIsSmall(start: nat, es: seq<Event>, k: nat, max: nat)
    requires k < |es| && es[k].Write? && Stays(start, es, k, max)
    ensures |es[k].text| <= max
  {
    hide SizesOver;
  }

  lemma {:induction false} FlushedAllStay(start: nat, es: seq<Event>, max: nat)
    requires FlushedEach(es) && start <= max
    requires forall k :: 0 <= k < |es| && es[k].Write? ==> |es[k].text| <= max
    ensures AllStay(start, es, max)
    ensures var z := SizesOver(start, es, max); z.onDisk + z.pending <= max && (|es| % 2 == 0 ==> z.pending == 0)
    decreases |es|
  {
    if es != [] {
      var pre := es[..|es| - 1];
      assert forall k :: 0 <= k < |pre| ==> pre[k] == es[k];
      FlushedAllStay(start, pre, max);
      AllStaySnoc(start, es, max);
    }
  }

  // -------------------------------------------------------- the files themselves

  /**
   No event puts a file over the limit: neither by what it hands over before a rotation nor by what it leaves behind.
   */
  predicate Lands(z: Sizes, e: Event, max: nat) {
    && (e.Write? && Rotates(z, |e.text|, max) ==> z.onDisk + z.pending <= max)
    && SizesAfter(z, e, max).onDisk <= max
  }

  lemma LandsExactly(c: Config, s: State, e: Event)
    requires AllWithin(s.fs, c.maxBytes)
    ensures AllWithin(After(c, s, e).fs, c.maxBytes) <==> Lands(SizesOf(s), e, c.maxBytes)
  {
    var r, max := After(c, s, e), c.maxBytes;
    WriteSizes(c, s, e);
    assert |Content(r.fs, Current)| == SizesAfter(SizesOf(s), e, max).onDisk && Current in r.fs;
    if e.Write? && NeedsRotation(c, s.fs, |e.text|) {
      RotatedFits(c, s, e.text, e.spill);
    }
  }

  /** A rotating write leaves the old file, whole, as the first backup, and every other backup as it was somewhere. */
  lemma RotatedFits(c: Config, s: State, text: Bytes, spill: nat)
    requires AllWithin(s.fs, c.maxBytes) && NeedsRotation(c, s.fs, |text|)
    ensures var r := WriteState(c, s, text, spill);
      && Backup(1) in r.fs && |r.fs[Backup(1)]| == |Content(s.fs, Current)| + |s.buffer|
      && forall p :: p in r.fs && p != Backup(1) && p != Current ==> |r.fs[p]| <= c.maxBytes
  {
  }

  /** At no moment of the run is a file over the limit. */
  ghost predicate FilesNeverOver(c: Config, disk: Files, es: seq<Event>) {
    forall n :: 0 <= n <= |es| ==> AllWithin(RunAll(c, disk, es[..n]).fs, c.maxBytes)
  }

  predicate AllLand(start: nat, es: seq<Event>, max: nat) {
    forall k :: 0 <= k < |es| ==> Lands(SizesOver(start, es[..k], max), es[k], max)
  }

  lemma FilesNeverOverSnoc(c: Config, disk: Files, es: seq<Event>)
    requires es != []
    ensures FilesNeverOver(c, disk, es) <==>
      FilesNeverOver(c, disk, es[..|es| - 1]) && AllWithin(RunAll(c, disk, es).fs, c.maxBytes)
  {
    hide AllWithin, RunAll;
    var pre := es[..|es| - 1];
    assert forall n :: 0 <= n <= |pre| ==> pre[..n] == es[..n];
    assert es[..|es|] == es;
  }

  lemma AllLandSnoc(start: nat, es: seq<Event>, max: nat)
    requires es != []
    ensures var pre := es[..|es| - 1];
      AllLand(start, es, max) <==> AllLand(start, pre, max) && Lands(SizesOver(start, pre, max), es[|es| - 1], max)
  {
    hide Lands, SizesOver;
    var pre := es[..|es| - 1];
    forall k | 0 <= k < |pre|
      ensures Lands(SizesOver(start, es[..k], max), es[k], max) <==> Lands(SizesOver(start, pre[..k], max), pre[k], max)
    {
      assert pre[..k] == es[..k];
    }
  }

  /** Over whole runs: no file is ever over the limit exactly when none was at the start and no event puts one there. */
  lemma {:induction false} FilesNeverOverExactly(c: Config, disk: Files, es: seq<Event>)
    ensures FilesNeverOver(c, disk, es) <==>
      AllWithin(disk, c.maxBytes) && AllLand(|Content(disk, Current)|, es, c.maxBytes)
    decreases |es|
  {
    hide AllWithin, Lands, After, Content;
    if es == [] {
      OpenedWithin(disk, c.maxBytes);
      assert es[..0] == [];
    } else {
      var pre, e := es[..|es| - 1], es[|es| - 1];
      FilesNeverOverExactly(c, disk, pre);
      FilesNeverOverSnoc(c, disk, es);
      AllLandSnoc(|Content(disk, Current)|, es, c.maxBytes);
      RunSizes(c, disk, pre);
      assert pre[..|pre|] == pre;
      if FilesNeverOver(c, disk, pre) {
        assert AllWithin(RunAll(c, disk, pre[..|pre|]).fs, c.maxBytes);
        LandsExactly(c, RunAll(c, disk, pre), e);
      }
    }
  }

  lemma OpenedWithin(disk: Files, max: nat)
    ensures AllWithin(Opened(disk).fs, max) <==> AllWithin(disk, max)
  {
    OpenedFits(disk, max);
    assert Fits(Opened(disk), max) <==> AllWithin(Opened(disk).fs, max);
  }

  /** When every write has been flushed, no file has ever been over the limit exactly when no single text is. */
  lemma FlushedFilesNeverOverExactly(c: Config, disk: Files, es: seq<Event>)
    requires FlushedEach(es) && |es| % 2 == 0 && AllWithin(disk, c.maxBytes)
    ensures FilesNeverOver(c, disk, es) <==> forall k :: 0 <= k < |es| && es[k].Write? ==> |es[k].text| <= c.maxBytes
  {
    hide Lands, SizesOver, FlushedEach, AllWithin, Stays, RunAll;
    var start, max := |Content(disk, Current)|, c.maxBytes;
    if forall k :: 0 <= k < |es| && es[k].Write? ==> |es[k].text| <= max {
      FlushedNeverOverExactly(c, disk, es);
      assert forall n :: 0 <= n <= |es| ==> Fits(RunAll(c, disk, es[..n]), max);
    }
    if FilesNeverOver(c, disk, es) {
      FilesNeverOverExactly(c, disk, es);
      forall k | 0 <= k < |es| && es[k].Write?
        ensures |es[k].text| <= max
      {
        FlushedTextLands(start, es, k, max);
      }
    }
  }

  /** The flush after a write puts the whole text into the file. */
  lemma FlushedTextLands(start: nat, es: seq<Event>, k: nat, max: nat)
    requires FlushedEach(es) && |es| % 2 == 0 && k < |es| && es[k].Write? && AllLand(start, es, max)
    ensures |es[k].text| <= max
  {
    hide Lands;
    assert k % 2 == 0 && k + 1 < |es| && es[k + 1].Flush?;
    var z := SizesOver(start, es[..k], max);
    assert es[..k + 1][..k] == es[..k];
    assert SizesOver(start, es[..k + 1], max) == SizesAfter(z, es[k], max);
    assert Lands(SizesOver(start, es[..k + 1], max), es[k + 1], max);
    FlushLands(z, es[k], max);
  }

  lemma FlushLands(z: Sizes, w: Event, max: nat)
    requires w.Write? && Lands(SizesAfter(z, w, max), Flush, max)
    ensures |w.text| <= max
  {
  }

  /** A text too long for the limit that stays in the buffer is no file over the limit. */
  lemma BufferedIsNotOver()
    ensures var es := [Write([1, 2, 3, 4, 5], 0)];
      FilesNeverOver(Config(4, 5), map[], es) && !NeverOver(Config(4, 5), map[], es)
  {
    var c, es, disk: Files := Config(4, 5), [Write([1, 2, 3, 4, 5], 0)], map[];
    assert es[..0] == [] && SizesOver(0, [], 4) == Sizes(0, 0);
    hide FilesNeverOver, NeverOver;
    FilesNeverOverExactly(c, disk, es);
    NeverOverExactly(c, disk, es);
    assert !Stays(0, es, 0, 4);
  }
}
