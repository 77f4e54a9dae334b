/** The file system exerciser: a buffer with the correct data, and the file under test, which is
    taken to behave as a POSIX file does. */
module Fsx {
  import opened Bytes
  import opened ShadowFile

  class Exerciser {
    const cfg: Config
    const original: Bytes
    const good: array<byte>
    const temp: array<byte>
    var fileSize: nat
    var testcalls: nat
    var disk: Bytes
    var failed: bool

    /** The correct data; whatever the buffer holds from `fileSize` on does not belong to it. */
    function Contents(): Bytes
      requires fileSize <= good.Length
      reads this, good
    {
      good[..fileSize]
    }

    /** The tests from here on touch the file, not only the buffer. */
    predicate Live()
      reads this
    {
      testcalls > cfg.simulated
    }

    predicate Shape()
      reads this
    {
      && Positive(cfg)
      && good.Length == cfg.maxfilelen && temp.Length == cfg.maxoplen && good != temp
      && fileSize <= cfg.maxfilelen
    }

    /** Between tests: the buffer agrees with the POSIX file of the run so far, and so does the file
        under test, except while the first operations are only simulated. */
    ghost predicate Valid(draws: seq<Draw>)
      reads this, good
    {
      && Shape() && testcalls == |draws|
      && Contents() == Posix(cfg, original, draws)
      && (cfg.simulated == 0 || Live() ==> disk == Contents())
      && (cfg.lite ==> |disk| == cfg.maxfilelen)
      && !failed
    }

    constructor (cfg: Config, original: Bytes)
      requires Positive(cfg)
      ensures Valid([]) && this.cfg == cfg && this.original == original
      ensures fresh(good) && fresh(temp)
    {
      this.cfg, this.original := cfg, original;
      good := new byte[cfg.maxfilelen](_ => 0);
      temp := new byte[cfg.maxoplen](_ => 0);
      fileSize := if cfg.lite then cfg.maxfilelen else 0;
      disk := Truncate([], if cfg.lite then cfg.maxfilelen else 0);
      testcalls, failed := 0, false;
    }

    method GenData(offset: nat, size: nat)
      requires offset + size <= good.Length
      modifies good
      ensures forall k :: 0 <= k < good.Length ==>
                good[k] == if offset <= k < offset + size then Stamp(original, testcalls, k) else old(good[k])
    {
      var at, left := offset, size;
      while left > 0
        invariant at + left == offset + size
        invariant forall k :: 0 <= k < good.Length ==>
                    good[k] == if offset <= k < at then Stamp(original, testcalls, k) else old(good[k])
      {
        left := left - 1;
        good[at] := (testcalls % 256) as byte;
        if at % 2 == 1 {
          good[at] := ((good[at] as int + ByteAt(original, at) as int) % 256) as byte;
        }
        at := at + 1;
      }
    }

    /** `memset` to zero. */
    method Clear(from: nat, to: nat)
      requires from <= to <= good.Length
      modifies good
      ensures forall k :: 0 <= k < good.Length ==> good[k] == if from <= k < to then 0 else old(good[k])
    {
      for k := from to to
        invariant forall i :: 0 <= i < good.Length ==> good[i] == if from <= i < k then 0 else old(good[i])
      {
        good[k] := 0;
      }
    }

    /** The half of a write that both kinds of writes do first: it updates the correct data, fills a
        hole with zeros and moves the end of the file. Growth is reported in lite mode. */
    method WriteGood(offset: nat, size: nat)
      requires Shape() && size > 0 && offset + size <= cfg.maxfilelen
      modifies good, `fileSize, `failed
      ensures Shape()
      ensures Contents() == Pwrite(old(Contents()), Data(original, testcalls, offset, size), offset)
      ensures good[offset..offset + size] == Data(original, testcalls, offset, size)
      ensures failed == (old(failed) || (cfg.lite && old(fileSize) < offset + size))
    {
      GenData(offset, size);
      if fileSize < offset + size {
        if fileSize < offset {
          Clear(fileSize, offset);
        }
        fileSize := offset + size;
        if cfg.lite {
          failed := true;
        }
      }
      ghost var data := Data(original, testcalls, offset, size);
      assert good[offset..offset + size] == data;
      ghost var file := Pwrite(old(Contents()), data, offset);
      assert |file| == fileSize;
      assert forall k :: 0 <= k < fileSize ==> good[k] == file[k];
    }

    method DoWrite(offset: nat, size: nat)
      requires Shape() && offset + size <= cfg.maxfilelen
      requires Live() ==> disk == Contents()
      modifies good, `fileSize, `failed, `disk
      ensures Shape()
      ensures var start := Aligned(offset, cfg.writebdy);
              && Contents() == Pwrite(old(Contents()), Data(original, testcalls, start, size), start)
              && failed == (old(failed) || (cfg.lite && size > 0 && old(fileSize) < start + size))
      ensures Live() && !failed ==> disk == Contents()
      ensures !Live() ==> disk == old(disk)
    {
      var start := offset - offset % cfg.writebdy;
      if size == 0 {
        return;
      }
      WriteGood(start, size);
      if failed || testcalls <= cfg.simulated {
        return;
      }
      disk := Pwrite(disk, good[start..start + size], start);
    }

    method DoMapWrite(offset: nat, size: nat)
      requires Shape() && offset + size <= cfg.maxfilelen
      requires Live() ==> disk == Contents()
      modifies good, `fileSize, `failed, `disk
      ensures Shape()
      ensures var start := Aligned(offset, cfg.writebdy);
              && Contents() == Pwrite(old(Contents()), Data(original, testcalls, start, size), start)
              && failed == (old(failed) || (cfg.lite && size > 0 && old(fileSize) < start + size))
      ensures Live() && !failed ==> disk == Contents()
      ensures !Live() ==> disk == old(disk)
    {
      var start := offset - offset % cfg.writebdy;
      if size == 0 {
        return;
      }
      var curFileSize := fileSize;
      WriteGood(start, size);
      if failed || testcalls <= cfg.simulated {
        return;
      }
      StoreMapped(start, size, curFileSize);
    }

    /** Grows the file under test if the write did, and stores the new data into its mapping. */
    method StoreMapped(start: nat, size: nat, curFileSize: nat)
      requires fileSize <= good.Length && |disk| == curFileSize && size > 0
      requires start + size <= fileSize == Max(curFileSize, start + size)
      modifies `disk
      ensures disk == Pwrite(old(disk), good[start..start + size], start)
    {
      MappedStoreIsPwrite(disk, good[start..start + size], start);
      if fileSize > curFileSize {
        disk := Truncate(disk, fileSize);
      }
      disk := Store(disk, good[start..start + size], start);
    }

    method DoTruncate(size: nat)
      requires Shape() && Aligned(size, cfg.truncbdy) <= cfg.maxfilelen
      requires Live() ==> disk == Contents()
      modifies good, `fileSize, `disk
      ensures Shape()
      ensures Contents() == Truncate(old(Contents()), Aligned(size, cfg.truncbdy))
      ensures Live() ==> disk == Contents()
      ensures !Live() ==> disk == old(disk)
    {
      var length := size - size % cfg.truncbdy;
      if length > fileSize {
        Clear(fileSize, length);
      }
      fileSize := length;
      assert Contents() == Truncate(old(Contents()), length);
      if testcalls <= cfg.simulated {
        return;
      }
      disk := Truncate(disk, length);
    }

    /** `read` into the front of the temporary buffer. */
    method ReadIntoTemp(start: nat, size: nat)
      requires size <= temp.Length && start + size <= |disk| && good != temp
      modifies temp
      ensures temp[..size] == disk[start..start + size]
    {
      for i := 0 to size
        invariant temp[..i] == disk[start..start + i]
      {
        temp[i] := disk[start + i];
      }
    }

    /** Compares what was read with the correct data. */
    method CheckBuffers(offset: nat, size: nat)
      requires size <= temp.Length && offset + size <= good.Length
      modifies `failed
      ensures failed == (old(failed) || temp[..size] != good[offset..offset + size])
    {
      var i := 0;
      while i < size && good[offset + i] == temp[i]
        invariant 0 <= i <= size
        invariant temp[..i] == good[offset..offset + i]
      {
        i := i + 1;
      }
      if i < size {
        assert temp[..size][i] != good[offset..offset + size][i];
        failed := true;
      }
    }

    /** A read that is carried out reports a failure exactly when the file under test is too short or
        differs from the correct data. */
    method DoRead(offset: nat, size: nat)
      requires Shape() && size <= cfg.maxoplen
      modifies temp, `failed
      ensures var start := Aligned(offset, cfg.readbdy);
              && var compared := Live() && 0 < size && start + size <= fileSize;
              && failed == (old(failed) || (compared &&
                   !(start + size <= |disk| && disk[start..start + size] == good[start..start + size])))
    {
      var start := offset - offset % cfg.readbdy;
      if size == 0 || size + start > fileSize || testcalls <= cfg.simulated {
        return;
      }
      if start + size > |disk| {
        failed := true;
        return;
      }
      ReadIntoTemp(start, size);
      CheckBuffers(start, size);
    }

    /** Brings the file up to date when the simulated tests are over. */
    method WriteFileImage()
      requires Shape() && (cfg.lite ==> |disk| <= fileSize)
      modifies `disk
      ensures disk == Contents()
    {
      disk := Pwrite(disk, good[..fileSize], 0);
      if !cfg.lite {
        disk := Truncate(disk, fileSize);
      }
      assert |disk| == fileSize;
      assert forall k :: 0 <= k < fileSize ==> disk[k] == good[k];
    }

    method CheckSize()
      modifies `failed
      ensures failed == (old(failed) || fileSize != |disk|)
    {
      if fileSize != |disk| {
        failed := true;
      }
    }

    /** A read at a drawn offset, cut to the file. */
    method DoSomeRead(offset0: nat, size0: nat)
      requires Shape() && !failed && size0 <= cfg.maxoplen
      requires Live() ==> disk == Contents()
      modifies temp, `failed
      ensures !failed
    {
      var offset, size := offset0, size0;
      if fileSize > 0 {
        offset := offset % fileSize;
      } else {
        offset := 0;
      }
      if offset + size > fileSize {
        size := fileSize - offset;
      }
      DoRead(offset, size);
    }

    /** A write at a drawn offset, cut to the buffer. */
    method DoSomeWrite(offset0: nat, size0: nat, mapped: bool)
      requires Shape() && !failed && (cfg.lite ==> fileSize == cfg.maxfilelen)
      requires Live() ==> disk == Contents()
      modifies good, `fileSize, `disk, `failed
      ensures Shape() && !failed
      ensures var offset := offset0 % cfg.maxfilelen;
              var size := if offset + size0 > cfg.maxfilelen then cfg.maxfilelen - offset else size0;
              var start := Aligned(offset, cfg.writebdy);
              Contents() == Pwrite(old(Contents()), Data(original, testcalls, start, size), start)
      ensures Live() ==> disk == Contents()
      ensures !Live() ==> disk == old(disk)
    {
      var offset, size := offset0 % cfg.maxfilelen, size0;
      if offset + size > cfg.maxfilelen {
        size := cfg.maxfilelen - offset;
      }
      if mapped {
        DoMapWrite(offset, size);
      } else {
        DoWrite(offset, size);
      }
    }

    /** The kind of operation; a mapped read that is turned off becomes a read. */
    method KindOfTest(rv: nat) returns (op: nat)
      ensures op == Kind(cfg, rv)
    {
      op := rv % (3 + (if cfg.lite then 0 else 1) + (if cfg.mappedWrites then 1 else 0));
      if op == 2 && !cfg.mappedReads {
        op := 0;
      }
    }

    /** The operation of one test. */
    method DoOne(op: nat, d: Draw)
      requires Shape() && !failed && (cfg.lite ==> fileSize == cfg.maxfilelen)
      requires op == Kind(cfg, d.rv) && DrawFits(cfg, d)
      requires Live() ==> disk == Contents()
      modifies good, temp, `fileSize, `disk, `failed
      ensures Shape() && !failed
      ensures Contents() == Effect(original, testcalls, ChosenOf(cfg, op, d, old(fileSize)), old(Contents()))
      ensures Live() ==> disk == Contents()
      ensures !Live() ==> disk == old(disk)
    {
      if !cfg.lite && op == 3 && cfg.style == 0 {
        DoTruncate(d.length % cfg.maxfilelen);
      } else {
        var size := cfg.maxoplen;
        if cfg.randomoplen {
          size := d.length % (cfg.maxoplen + 1);
        }
        assert size == DrawnSize(cfg, d) <= cfg.maxoplen;
        if !cfg.lite && op == 3 {
          DoTruncate(size);
        } else if op == 1 || op == (if cfg.lite then 3 else 4) {
          DoSomeWrite(d.offset, size, op != 1);
        } else {
          DoSomeRead(d.offset, size);
        }
      }
    }

    /** Writes the file image after the last simulated test, and counts the new test. */
    method BeginTest(ghost draws: seq<Draw>)
      requires Valid(draws) && (cfg.lite ==> fileSize == cfg.maxfilelen)
      modifies `testcalls, `disk
      ensures Shape() && testcalls == |draws| + 1 && Contents() == old(Contents())
      ensures Live() ==> disk == Contents()
      ensures cfg.lite ==> |disk| == cfg.maxfilelen
    {
      if cfg.simulated > 0 && testcalls == cfg.simulated {
        WriteFileImage();
      }
      testcalls := testcalls + 1;
    }

    /** One test: on a POSIX file it never reports a failure. */
    method Test(d: Draw, ghost draws: seq<Draw>)
      requires Valid(draws) && forall e :: e in draws + [d] ==> DrawFits(cfg, e)
      modifies this, good, temp
      ensures Valid(draws + [d])
    {
      SizeStaysInBounds(cfg, original, draws);
      PosixSnoc(cfg, original, draws, d);
      SizeStaysInBounds(cfg, original, draws + [d]);
      var op := KindOfTest(d.rv);
      BeginTest(draws);
      DoOne(op, d);
      if cfg.sizechecks && testcalls > cfg.simulated {
        CheckSize();
      }
    }
  }

  /** A store into a mapping: inside the file, and it does not change the size. */
  function Store(file: Bytes, data: Bytes, offset: nat): Bytes
    requires offset + |data| <= |file|
  {
    file[..offset] + data + file[offset + |data|..]
  }

  /** Growing the file first and storing into the mapping is the same as writing. */
  lemma MappedStoreIsPwrite(file: Bytes, data: Bytes, offset: nat)
    requires data != []
    ensures Store(Truncate(file, Max(|file|, offset + |data|)), data, offset) == Pwrite(file, data, offset)
    ensures offset + |data| <= |file| ==> Truncate(file, |file|) == file
  {
  }

  /** A whole run: for any options and any numbers drawn, as long as no truncate is drawn that is
      longer than the buffer, the buffer ends up as the POSIX file, the file under test agrees, and
      no failure is reported. */
  method RunTests(cfg: Config, original: Bytes, draws: seq<Draw>) returns (good: Bytes, disk: Bytes, failed: bool)
    requires Positive(cfg) && forall d :: d in draws ==> DrawFits(cfg, d)
    ensures !failed && good == Posix(cfg, original, draws)
    ensures cfg.simulated == 0 || |draws| > cfg.simulated ==> disk == good
  {
    var fsx := new Exerciser(cfg, original);
    ghost var done: seq<Draw> := [];
    var i := 0;
    while i < |draws|
      invariant 0 <= i <= |draws| && done == draws[..i] && fsx.Valid(done)
      invariant fsx.cfg == cfg && fsx.original == original
      invariant fresh(fsx) && fresh(fsx.good) && fresh(fsx.temp)
    {
      fsx.Test(draws[i], done);
      done := done + [draws[i]];
      i := i + 1;
    }
    assert done == draws;
    good, disk, failed := fsx.good[..fsx.fileSize], fsx.disk, fsx.failed;
  }
}
