/**
 The rotating log sink: an append handle with a write buffer, a size check before each write, and numbered backups.
 */
module RotatingSink {
  import opened Octets

  type Bytes = seq<byte>

  datatype Path = Current | Backup(n: nat)

  type Files = map<Path, Bytes>

  function Content(fs: Files, p: Path): Bytes {
    if p in fs then fs[p] else []
  }

  function Rename(fs: Files, src: Path, dst: Path): Files
    requires src in fs && src != dst
  {
    fs[dst := fs[src]] - {src}
  }

  /** The sink's side of the world: its files, and what is written but not yet handed to the current file. */
  datatype State = State(fs: Files, buffer: Bytes)

  datatype Config = Config(maxBytes: nat, backupCount: nat)

  function FlushState(s: State): State {
    State(s.fs[Current := Content(s.fs, Current) + s.buffer], [])
  }

  /** Where the file at `p` stood before the renames of backups above `i`; at `i + 1` there is nothing. */
  function Origin(count: nat, i: int, p: Path): Path {
    if p.Backup? && 2 <= p.n <= count && i + 2 <= p.n then Backup(p.n - 1) else p
  }

  /** The loop counter after the last rename. */
  function Lowest(count: nat): int {
    if count == 0 then -1 else 0
  }

  predicate Moved(fs: Files, count: nat, i: int, p: Path) {
    p != Backup(if i < 0 then 0 else i + 1) && Origin(count, i, p) in fs
  }

  /** Every path that can exist once backups have been renumbered. */
  function Candidates(fs: Files): set<Path> {
    fs.Keys + (set q | q in fs && q.Backup? :: Backup(q.n + 1))
  }

  /** The backups renumbered: the oldest gone, number 1 free, everything beyond the count as it was. */
  function Renumbered(fs: Files, count: nat): Files {
    var i := Lowest(count);
    map p | p in Candidates(fs) && Moved(fs, count, i, p) :: fs[Origin(count, i, p)]
  }

  /** A whole rotation: renumber, make the current file backup 1 whatever stood there, start a fresh current file. */
  function Shifted(fs: Files, count: nat): Files {
    Renumbered(fs, count)[Backup(1) := Content(fs, Current)][Current := []]
  }

  predicate NeedsRotation(c: Config, fs: Files, n: nat) {
    var size := |Content(fs, Current)|;
    size + n > c.maxBytes && size > 0
  }

  /** One write; the buffer may hand any part of itself to the file on its own. */
  function WriteState(c: Config, s: State, text: Bytes, spill: nat): State {
    var r := if NeedsRotation(c, s.fs, |text|) then State(Shifted(FlushState(s).fs, c.backupCount), []) else s;
    var pending := r.buffer + text;
    var k := if spill <= |pending| then spill else |pending|;
    State(r.fs[Current := Content(r.fs, Current) + pending[..k]], pending[k..])
  }

  // The renames, one at a time.

  ghost predicate Midway(before: Files, count: nat, i: int, fs: Files) {
    && (forall p :: p in fs <==> Moved(before, count, i, p))
    && (forall p :: p in fs ==> fs[p] == before[Origin(count, i, p)])
  }

  lemma MidwayStarts(before: Files, count: nat)
    ensures Midway(before, count, count as int - 1, before - {Backup(count)})
  {
  }

  lemma RenameMovesOn(before: Files, count: nat, i: int, fs: Files)
    requires 1 <= i <= count - 1 && Midway(before, count, i, fs)
    ensures Midway(before, count, i - 1, if Backup(i) in fs then Rename(fs, Backup(i), Backup(i + 1)) else fs)
  {
  }

  lemma MidwayEnds(before: Files, count: nat, fs: Files)
    requires Midway(before, count, Lowest(count), fs)
    ensures fs == Renumbered(before, count)
  {
  }

  /** After the renames, moving the current file and opening a fresh one completes the rotation. */
  lemma RotationEnds(before: Files, count: nat)
    ensures var r := Renumbered(before, count);
      && (Current in r <==> Current in before)
      && (Current in before ==> Rename(r, Current, Backup(1))[Current := []] == Shifted(before, count))
  {
    var r := Renumbered(before, count);
    assert Current in before ==> Moved(before, count, Lowest(count), Current) && r[Current] == before[Current];
  }

  class RotatingTextSink {
    const config: Config
    var fs: Files
    var buffer: Bytes
    var isOpen: bool
    /** Whether the handle's file still stands at the current path. */
    var attached: bool

    function View(): State
      reads this
    {
      State(fs, buffer)
    }

    ghost predicate Valid()
      reads this
    {
      isOpen ==> (attached <==> Current in fs)
    }

    constructor (config: Config, disk: Files)
      ensures Valid() && this.config == config && isOpen && attached
      ensures View() == State(disk[Current := Content(disk, Current)], [])
    {
      this.config := config;
      fs := disk[Current := Content(disk, Current)];
      buffer, isOpen, attached := [], true, true;
    }

    /** Someone removes the current file behind the sink. */
    method CurrentDeleted()
      requires Valid()
      modifies this`fs, this`attached
      ensures Valid() && fs == old(fs) - {Current} && (isOpen ==> !attached)
    {
      fs := fs - {Current};
      attached := false;
    }

    /** The buffer goes to the handle's file, which nobody sees once it has been removed. */
    method Flush()
      requires Valid() && isOpen
      modifies this`fs, this`buffer
      ensures Valid() && buffer == []
      ensures attached ==> View() == FlushState(old(View()))
      ensures !attached ==> fs == old(fs)
    {
      if attached {
        fs := fs[Current := Content(fs, Current) + buffer];
      }
      buffer := [];
    }

    /** Drop the oldest backup, then rename from the highest number down. */
    method ShiftBackups()
      modifies this`fs
      ensures fs == Renumbered(old(fs), config.backupCount)
    {
      hide Midway, Renumbered, Rename;
      var count := config.backupCount;
      MidwayStarts(fs, count);
      fs := fs - {Backup(count)};
      var i: int := count as int - 1;
      while i >= 1
        invariant Lowest(count) <= i < count
        invariant Midway(old(fs), count, i, fs)
      {
        RenameMovesOn(old(fs), count, i, fs);
        if Backup(i) in fs {
          fs := Rename(fs, Backup(i), Backup(i + 1));
        }
        i := i - 1;
      }
      MidwayEnds(old(fs), count, fs);
    }

    /** Close, which flushes; renumber; move the current file if it is there; reopen. */
    method Rotate()
      requires Valid() && isOpen
      modifies this
      ensures Valid() && isOpen && attached && buffer == []
      ensures old(attached) ==> View() == State(Shifted(FlushState(old(View())).fs, config.backupCount), [])
      ensures !old(attached) ==> fs == Renumbered(old(fs), config.backupCount)[Current := []]
    {
      hide Renumbered, Shifted;
      Flush();
      RotationEnds(fs, config.backupCount);
      ShiftBackups();
      if Current in fs {
        fs := Rename(fs, Current, Backup(1));
      }
      fs := fs[Current := Content(fs, Current)];
      attached := true;
    }

    /**
     A size check, perhaps a rotation, then the text goes to the buffer. Once the current file has been removed its
     size reads zero, so no write ever rotates and reopens it, and nothing written reaches any file again.
     */
    method Write(text: Bytes) returns (ghost spill: nat)
      requires Valid()
      modifies this
      ensures Valid() && isOpen == old(isOpen) && attached == old(attached)
      ensures !isOpen ==> View() == old(View())
      ensures isOpen && attached ==> View() == WriteState(config, old(View()), text, spill)
      ensures isOpen && !attached ==> fs == old(fs)
    {
      spill := 0;
      if !isOpen {
        return;
      }
      var size := |Content(fs, Current)|;
      if size + |text| > config.maxBytes && size > 0 {
        Rotate();
      }
      buffer := buffer + text;
      var k: nat :| k <= |buffer|;
      if attached {
        fs := fs[Current := Content(fs, Current) + buffer[..k]];
      }
      buffer := buffer[k..];
      spill := k;
    }
  }

  /**
   A rotation path by path: every backup moves up by one, the last one is dropped, the current file becomes the first
   backup and starts anew, and backups beyond the count stay. With a count of zero, number zero is dropped instead.
   */
  lemma ShiftedExactly(fs: Files, count: nat, n: nat)
    ensures var after := Shifted(fs, count);
      && Current in after && after[Current] == []
      && Backup(1) in after && after[Backup(1)] == Content(fs, Current)
      && (2 <= n <= count ==>
            && (Backup(n) in after <==> Backup(n - 1) in fs)
            && (Backup(n) in after ==> after[Backup(n)] == fs[Backup(n - 1)]))
      && (n > count && n > 1 ==>
            && (Backup(n) in after <==> Backup(n) in fs)
            && (Backup(n) in after ==> after[Backup(n)] == fs[Backup(n)]))
      && (Backup(0) in after <==> Backup(0) in fs && count > 0)
  {
  }
}
