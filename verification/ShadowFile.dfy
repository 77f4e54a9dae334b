/** What the file system exerciser does to a file, as a function of the numbers it draws: the
    operation each test picks, and the POSIX file that the picked operations produce. */
module ShadowFile {
  import opened Bytes

  /** The options that shape the operations. `simulated` tests change the shadow file only. */
  datatype Config = Config(
    maxfilelen: nat, maxoplen: nat, readbdy: nat, writebdy: nat, truncbdy: nat, style: nat,
    lite: bool, randomoplen: bool, mappedWrites: bool, mappedReads: bool, sizechecks: bool,
    simulated: nat)

  /** The option parser rejects zeros; in lite mode the length is that of the existing file. */
  predicate Positive(cfg: Config) {
    cfg.maxfilelen > 0 && cfg.maxoplen > 0 && cfg.readbdy > 0 && cfg.writebdy > 0 && cfg.truncbdy > 0
  }

  /** Small truncates (style 1) draw a length below `maxoplen`, not below `maxfilelen`. */
  predicate Roomy(cfg: Config)
    requires cfg.truncbdy > 0
  {
    cfg.style == 0 || cfg.lite || Aligned(cfg.maxoplen, cfg.truncbdy) <= cfg.maxfilelen
  }

  /** The numbers one test draws. */
  datatype Draw = Draw(rv: nat, length: nat, offset: nat)

  datatype Op =
    | ReadOp(offset: nat, size: nat)
    | MapReadOp(offset: nat, size: nat)
    | WriteOp(offset: nat, size: nat)
    | MapWriteOp(offset: nat, size: nat)
    | TruncateOp(size: nat)

  /** The last multiple of the boundary that is not past `n`. */
  function Aligned(n: nat, boundary: nat): (r: nat)
    requires boundary > 0
    ensures r <= n < r + boundary
    ensures r == boundary * (n / boundary)
  {
    n - n % boundary
  }

  lemma {:induction false} NextMultiple(boundary: nat, q: nat, r: nat)
    requires q < r
    ensures boundary * q + boundary <= boundary * r
  {
    if q + 1 < r {
      NextMultiple(boundary, q, r - 1);
      assert boundary * r == boundary * (r - 1) + boundary;
    } else {
      assert boundary * r == boundary * q + boundary;
    }
  }

  /** The part of the draw that selects the kind of operation. */
  function Kind(cfg: Config, rv: nat): nat {
    var kinds := 3 + (if cfg.lite then 0 else 1) + (if cfg.mappedWrites then 1 else 0);
    if rv % kinds == 2 && !cfg.mappedReads then 0 else rv % kinds
  }

  /** The operation a test picks for a file of `fileSize` bytes. */
  function Chosen(cfg: Config, d: Draw, fileSize: nat): Op
    requires Positive(cfg)
  {
    ChosenOf(cfg, Kind(cfg, d.rv), d, fileSize)
  }

  function ChosenOf(cfg: Config, kind: nat, d: Draw, fileSize: nat): Op
    requires Positive(cfg)
  {
    if !cfg.lite && kind == 3 && cfg.style == 0 then
      TruncateOp(Aligned(d.length % cfg.maxfilelen, cfg.truncbdy))
    else
      var size := DrawnSize(cfg, d);
      if !cfg.lite && kind == 3 then
        TruncateOp(Aligned(size, cfg.truncbdy))
      else if kind == 1 || kind == (if cfg.lite then 3 else 4) then
        var offset := d.offset % cfg.maxfilelen;
        var length := if offset + size > cfg.maxfilelen then cfg.maxfilelen - offset else size;
        var start := Aligned(offset, cfg.writebdy);
        if kind == 1 then WriteOp(start, length) else MapWriteOp(start, length)
      else
        var offset := if fileSize > 0 then d.offset % fileSize else 0;
        var length := if offset + size > fileSize then fileSize - offset else size;
        var start := Aligned(offset, cfg.readbdy);
        if kind == 0 then ReadOp(start, length) else MapReadOp(start, length)
  }

  /** An operation stays inside the buffers and the file it is picked for. */
  predicate Fits(cfg: Config, op: Op, fileSize: nat) {
    match op
    case ReadOp(o, n) => o + n <= fileSize && n <= cfg.maxoplen
    case MapReadOp(o, n) => o + n <= fileSize && n <= cfg.maxoplen
    case WriteOp(o, n) => o + n <= cfg.maxfilelen
    case MapWriteOp(o, n) => o + n <= cfg.maxfilelen
    case TruncateOp(n) => n <= cfg.maxfilelen && !cfg.lite
  }

  /** Alignment keeps the order of lengths. */
  lemma AlignedIsMonotone(m: nat, n: nat, boundary: nat)
    requires boundary > 0 && m <= n
    ensures Aligned(m, boundary) <= Aligned(n, boundary)
  {
    if m / boundary > n / boundary {
      NextMultiple(boundary, n / boundary, m / boundary);
    } else if m / boundary < n / boundary {
      NextMultiple(boundary, m / boundary, n / boundary);
    }
  }

  function DrawnSize(cfg: Config, d: Draw): nat {
    if cfg.randomoplen then d.length % (cfg.maxoplen + 1) else cfg.maxoplen
  }

  /** The draw is not a small truncate that is longer than the buffer. */
  predicate DrawFits(cfg: Config, d: Draw)
    requires cfg.truncbdy > 0
  {
    cfg.style != 0 && !cfg.lite && Kind(cfg, d.rv) == 3 ==> Aligned(DrawnSize(cfg, d), cfg.truncbdy) <= cfg.maxfilelen
  }

  /** One operation fits exactly then, whatever the options are. */
  lemma PickFitsExactly(cfg: Config, d: Draw, fileSize: nat)
    requires Positive(cfg) && fileSize <= cfg.maxfilelen
    ensures Fits(cfg, Chosen(cfg, d, fileSize), fileSize) <==> DrawFits(cfg, d)
  {
  }

  lemma RoomyDrawsFit(cfg: Config, d: Draw)
    requires Positive(cfg) && Roomy(cfg)
    ensures DrawFits(cfg, d)
  {
    if cfg.style != 0 && !cfg.lite {
      AlignedIsMonotone(DrawnSize(cfg, d), cfg.maxoplen, cfg.truncbdy);
    }
  }

  /** Every operation that can be picked fits exactly under the condition on the options. */
  lemma AllPicksFitExactlyWhenRoomy(cfg: Config, fileSize: nat)
    requires Positive(cfg) && fileSize <= cfg.maxfilelen
    ensures (forall d :: Fits(cfg, Chosen(cfg, d, fileSize), fileSize)) <==> Roomy(cfg)
  {
    if Roomy(cfg) {
      forall d ensures Fits(cfg, Chosen(cfg, d, fileSize), fileSize) {
        RoomyDrawsFit(cfg, d);
        PickFitsExactly(cfg, d, fileSize);
      }
    } else {
      LongestTruncate(cfg, fileSize);
      assert !Fits(cfg, Chosen(cfg, Draw(3, cfg.maxoplen, 0), fileSize), fileSize);
    }
  }

  /** The longest small truncate. */
  lemma LongestTruncate(cfg: Config, fileSize: nat)
    requires Positive(cfg) && cfg.style != 0 && !cfg.lite
    ensures Chosen(cfg, Draw(3, cfg.maxoplen, 0), fileSize) == TruncateOp(Aligned(cfg.maxoplen, cfg.truncbdy))
  {
    assert Kind(cfg, 3) == 3;
    assert cfg.maxoplen % (cfg.maxoplen + 1) == cfg.maxoplen;
  }

  // ---- What the numbers mean ------------------------------------------------------------------

  /** The number that selects the operation: one of three kinds, of one more unless the run is lite, and
      of one more with mapped writes. */
  function Which(cfg: Config, d: Draw): nat {
    d.rv % (if cfg.lite then if cfg.mappedWrites then 4 else 3 else if cfg.mappedWrites then 5 else 4)
  }

  function Length(cfg: Config, d: Draw): nat {
    if cfg.randomoplen then d.length % (cfg.maxoplen + 1) else cfg.maxoplen
  }

  /** Which operation is picked, by the number alone: 0 reads, 1 writes, 2 reads through a mapping (or
      reads, without mapped reads), 3 truncates, and the next one writes through a mapping. A lite run
      has no truncates, and its 3 is the mapped write. */
  lemma ChosenByNumber(cfg: Config, d: Draw, fileSize: nat)
    requires Positive(cfg)
    ensures var op, n := Chosen(cfg, d, fileSize), Which(cfg, d);
            && (op.WriteOp? <==> n == 1)
            && (op.MapWriteOp? <==> n == if cfg.lite then 3 else 4)
            && (op.TruncateOp? <==> n == 3 && !cfg.lite)
            && (op.MapReadOp? <==> n == 2 && cfg.mappedReads)
            && (op.ReadOp? <==> n == 0 || (n == 2 && !cfg.mappedReads))
  {
  }

  /** `r` is the last multiple of `boundary` up to `n`. */
  predicate LastMultiple(r: nat, n: nat, boundary: nat)
    requires boundary > 0
  {
    r % boundary == 0 && r <= n < r + boundary
  }

  lemma AlignedIsLastMultiple(n: nat, boundary: nat)
    requires boundary > 0
    ensures LastMultiple(Aligned(n, boundary), n, boundary)
  {
    var q := n / boundary;
    MultipleIsEven(boundary, q);
  }

  lemma MultipleIsEven(boundary: nat, q: nat)
    requires boundary > 0
    ensures (boundary * q) % boundary == 0
  {
    var p, r := (boundary * q) / boundary, (boundary * q) % boundary;
    assert boundary * q == boundary * p + r;
    if p < q {
      NextMultiple(boundary, p, q);
    } else if q < p {
      NextMultiple(boundary, q, p);
    }
  }

  /** Where the operation is and how long: an offset below the bound (for reads, below the end of the
      file), aligned down, and the length drawn, unless that would pass the bound from the offset
      drawn. */
  lemma ChosenPlace(cfg: Config, d: Draw, fileSize: nat)
    requires Positive(cfg)
    ensures var op, length := Chosen(cfg, d, fileSize), Length(cfg, d);
            match op
            case TruncateOp(size) =>
              LastMultiple(size, if cfg.style == 0 then d.length % cfg.maxfilelen else length, cfg.truncbdy)
            case WriteOp(o, n) =>
              var at := d.offset % cfg.maxfilelen;
              LastMultiple(o, at, cfg.writebdy) && n == Min(length, cfg.maxfilelen - at)
            case MapWriteOp(o, n) =>
              var at := d.offset % cfg.maxfilelen;
              LastMultiple(o, at, cfg.writebdy) && n == Min(length, cfg.maxfilelen - at)
            case ReadOp(o, n) =>
              var at := if fileSize == 0 then 0 else d.offset % fileSize;
              LastMultiple(o, at, cfg.readbdy) && n == Min(length, fileSize - at)
            case MapReadOp(o, n) =>
              var at := if fileSize == 0 then 0 else d.offset % fileSize;
              LastMultiple(o, at, cfg.readbdy) && n == Min(length, fileSize - at)
  {
    AlignedIsLastMultiple(DrawnSize(cfg, d), cfg.truncbdy);
    AlignedIsLastMultiple(d.length % cfg.maxfilelen, cfg.truncbdy);
    AlignedIsLastMultiple(d.offset % cfg.maxfilelen, cfg.writebdy);
    AlignedIsLastMultiple(if fileSize > 0 then d.offset % fileSize else 0, cfg.readbdy);
  }

  predicate Writes(op: Op, k: nat) {
    (op.WriteOp? || op.MapWriteOp?) && op.offset <= k < op.offset + op.size
  }

  predicate Cuts(op: Op, k: nat) {
    op.TruncateOp? && op.size <= k
  }

  lemma SmallModulo(n: nat, m: nat)
    requires n < m
    ensures n % m == n
  {
  }

  lemma AlignedTwice(n: nat, boundary: nat)
    requires boundary > 0
    ensures Aligned(Aligned(n, boundary), boundary) == Aligned(n, boundary)
  {
    AlignedIsLastMultiple(n, boundary);
  }

  /** The longest write from the boundary below a byte. */
  lemma SomeDrawWrites(cfg: Config, fileSize: nat, k: nat)
    requires Positive(cfg) && k < cfg.maxfilelen && k % cfg.writebdy < cfg.maxoplen
    ensures Writes(Chosen(cfg, Draw(1, cfg.maxoplen, Aligned(k, cfg.writebdy)), fileSize), k)
  {
    var at := Aligned(k, cfg.writebdy);
    var d := Draw(1, cfg.maxoplen, at);
    assert Kind(cfg, 1) == 1;
    SmallModulo(cfg.maxoplen, cfg.maxoplen + 1);
    SmallModulo(at, cfg.maxfilelen);
    AlignedTwice(k, cfg.writebdy);
    assert Chosen(cfg, d, fileSize) == WriteOp(at, Min(cfg.maxoplen, cfg.maxfilelen - at));
  }

  lemma WritesAreBounded(cfg: Config, d: Draw, fileSize: nat, k: nat)
    requires Positive(cfg) && Writes(Chosen(cfg, d, fileSize), k)
    ensures k < cfg.maxfilelen && k % cfg.writebdy < cfg.maxoplen
  {
    var op := Chosen(cfg, d, fileSize);
    ChosenPlace(cfg, d, fileSize);
    AlignedIsMonotone(op.offset, k, cfg.writebdy);
    assert Aligned(op.offset, cfg.writebdy) == op.offset;
  }

  /** Coverage: some draw writes a byte if and only if the byte is below the bound and no further behind
      its write boundary than an operation is long. With writes aligned to more than the longest
      operation, the other bytes are never written. */
  lemma ByteIsWrittenBySomeDraw(cfg: Config, fileSize: nat, k: nat)
    requires Positive(cfg)
    ensures (exists d :: Writes(Chosen(cfg, d, fileSize), k)) <==> k < cfg.maxfilelen && k % cfg.writebdy < cfg.maxoplen
  {
    if k < cfg.maxfilelen && k % cfg.writebdy < cfg.maxoplen {
      SomeDrawWrites(cfg, fileSize, k);
    }
    forall d | Writes(Chosen(cfg, d, fileSize), k) ensures k < cfg.maxfilelen && k % cfg.writebdy < cfg.maxoplen {
      WritesAreBounded(cfg, d, fileSize, k);
    }
  }

  /** The byte that test number `call` writes at `k`: its number, plus the original data at odd
      places, in a byte. */
  function Stamp(original: Bytes, call: nat, k: nat): byte {
    ((call % 256 + if k % 2 == 1 then ByteAt(original, k) as int else 0) % 256) as byte
  }

  function Data(original: Bytes, call: nat, offset: nat, size: nat): Bytes {
    seq(size, i requires 0 <= i => Stamp(original, call, offset + i))
  }

  /** What the operation does to a POSIX file. */
  function Effect(original: Bytes, call: nat, op: Op, file: Bytes): Bytes {
    match op
    case ReadOp(_, _) => file
    case MapReadOp(_, _) => file
    case WriteOp(o, n) => Pwrite(file, Data(original, call, o, n), o)
    case MapWriteOp(o, n) => Pwrite(file, Data(original, call, o, n), o)
    case TruncateOp(n) => Truncate(file, n)
  }

  function Initial(cfg: Config): Bytes {
    Truncate([], if cfg.lite then cfg.maxfilelen else 0)
  }

  /** The file after a list of operations; test number `i` carries out `ops[i - 1]`. */
  function After(original: Bytes, start: Bytes, ops: seq<Op>): Bytes {
    if ops == [] then
      start
    else
      var last := |ops| - 1;
      Effect(original, |ops|, ops[last], After(original, start, ops[..last]))
  }

  /** The operations of a run: each test picks one for the file as it is then. */
  function Ops(cfg: Config, original: Bytes, draws: seq<Draw>): (ops: seq<Op>)
    requires Positive(cfg)
    ensures |ops| == |draws|
  {
    if draws == [] then
      []
    else
      var last := |draws| - 1;
      var ops := Ops(cfg, original, draws[..last]);
      ops + [Chosen(cfg, draws[last], |After(original, Initial(cfg), ops)|)]
  }

  /** The file after all the tests of a run. */
  function Posix(cfg: Config, original: Bytes, draws: seq<Draw>): Bytes
    requires Positive(cfg)
  {
    After(original, Initial(cfg), Ops(cfg, original, draws))
  }

  lemma PosixSnoc(cfg: Config, original: Bytes, draws: seq<Draw>, d: Draw)
    requires Positive(cfg)
    ensures var file := Posix(cfg, original, draws);
            Posix(cfg, original, draws + [d]) == Effect(original, |draws| + 1, Chosen(cfg, d, |file|), file)
  {
    assert (draws + [d])[..|draws|] == draws;
    var ops := Ops(cfg, original, draws);
    assert Ops(cfg, original, draws + [d])[..|draws|] == ops;
  }

  /** A run starts with an empty file, or in lite mode with zeros up to the bound. */
  lemma FirstFile(cfg: Config, original: Bytes, k: nat)
    requires Positive(cfg)
    ensures |Posix(cfg, original, [])| == (if cfg.lite then cfg.maxfilelen else 0)
    ensures ByteAt(Posix(cfg, original, []), k) == 0
  {
    assert Ops(cfg, original, []) == [];
  }

  /** A picked write, in numbers. */
  lemma ChosenWrite(cfg: Config, d: Draw, fileSize: nat)
    requires Positive(cfg) && (Which(cfg, d) == 1 || Which(cfg, d) == if cfg.lite then 3 else 4)
    ensures var op, at := Chosen(cfg, d, fileSize), d.offset % cfg.maxfilelen;
            && (op.WriteOp? || op.MapWriteOp?) && op.offset == at - at % cfg.writebdy
            && op.size == Min(Length(cfg, d), cfg.maxfilelen - at)
  {
  }

  lemma WriteEffect(original: Bytes, call: nat, op: Op, file: Bytes, k: nat)
    requires op.WriteOp? || op.MapWriteOp?
    ensures var new_ := Effect(original, call, op, file);
            && ByteAt(new_, k) == (if op.offset <= k < op.offset + op.size then Stamp(original, call, k) else ByteAt(file, k))
            && |new_| == if op.size == 0 then |file| else Max(|file|, op.offset + op.size)
  {
    EffectKeepsOthers(original, call, op, file, k);
  }

  /** What one more test does to the file, by the numbers it draws: a write, mapped or not, stamps the
      bytes from the boundary below its offset on, with the number of the test, and leaves the others; a
      truncate keeps the bytes before its length, and adds zeros; a read does nothing. */
  lemma OneMoreTest(cfg: Config, original: Bytes, draws: seq<Draw>, d: Draw, k: nat)
    requires Positive(cfg)
    ensures var file, new_ := Posix(cfg, original, draws), Posix(cfg, original, draws + [d]);
            var n, at, length := Which(cfg, d), d.offset % cfg.maxfilelen, Length(cfg, d);
            var start, size := at - at % cfg.writebdy, Min(length, cfg.maxfilelen - at);
            var cut := if cfg.style == 0 then d.length % cfg.maxfilelen else length;
            if n == 1 || n == (if cfg.lite then 3 else 4) then
              && ByteAt(new_, k) == (if start <= k < start + size then Stamp(original, |draws| + 1, k) else ByteAt(file, k))
              && |new_| == if size == 0 then |file| else Max(|file|, start + size)
            else if n == 3 then
              new_ == Truncate(file, cut - cut % cfg.truncbdy)
            else
              new_ == file
  {
    var file := Posix(cfg, original, draws);
    PosixSnoc(cfg, original, draws, d);
    if Which(cfg, d) == 1 || Which(cfg, d) == (if cfg.lite then 3 else 4) {
      ChosenWrite(cfg, d, |file|);
      WriteEffect(original, |draws| + 1, Chosen(cfg, d, |file|), file, k);
    }
  }

  /** A truncated file has the length asked for; a byte before it keeps its value, and is zero if there
      was none. */
  lemma TruncateIsPrefix(file: Bytes, size: nat, k: nat)
    ensures |Truncate(file, size)| == size
    ensures ByteAt(Truncate(file, size), k) == if k < size && k < |file| then file[k] else 0
  {
  }

  /** The file never outgrows its bound, and in lite mode its size never changes. */
  lemma {:induction false} SizeStaysInBounds(cfg: Config, original: Bytes, draws: seq<Draw>)
    requires Positive(cfg) && forall d :: d in draws ==> DrawFits(cfg, d)
    ensures |Posix(cfg, original, draws)| <= cfg.maxfilelen
    ensures cfg.lite ==> |Posix(cfg, original, draws)| == cfg.maxfilelen
  {
    if draws != [] {
      var before, d := draws[..|draws| - 1], draws[|draws| - 1];
      assert before + [d] == draws;
      SizeStaysInBounds(cfg, original, before);
      PickFitsExactly(cfg, d, |Posix(cfg, original, before)|);
      PosixSnoc(cfg, original, before, d);
    }
  }

  /** A byte that an operation neither writes nor cuts off keeps its value. */
  lemma EffectKeepsOthers(original: Bytes, call: nat, op: Op, file: Bytes, k: nat)
    ensures Writes(op, k) ==> ByteAt(Effect(original, call, op, file), k) == Stamp(original, call, k)
    ensures Cuts(op, k) ==> ByteAt(Effect(original, call, op, file), k) == 0
    ensures !Writes(op, k) && !Cuts(op, k) ==> ByteAt(Effect(original, call, op, file), k) == ByteAt(file, k)
  {
    if Writes(op, k) {
      assert Data(original, call, op.offset, op.size)[k - op.offset] == Stamp(original, call, k);
    }
  }

  /** A byte holds the stamp of the last operation that wrote it, if no later one cut it off. */
  lemma {:induction false} ByteFromItsLastWriter(original: Bytes, start: Bytes, ops: seq<Op>, j: nat, k: nat)
    requires j < |ops| && Writes(ops[j], k)
    requires forall i :: j < i < |ops| ==> !Writes(ops[i], k) && !Cuts(ops[i], k)
    ensures ByteAt(After(original, start, ops), k) == Stamp(original, j + 1, k)
    decreases |ops|
  {
    var last := |ops| - 1;
    EffectKeepsOthers(original, |ops|, ops[last], After(original, start, ops[..last]), k);
    if j < last {
      ByteFromItsLastWriter(original, start, ops[..last], j, k);
    }
  }

  /** At even places a byte names the test that wrote it, modulo 256; the report about bad data
      prints such a byte. */
  lemma EvenByteNamesItsLastWriter(cfg: Config, original: Bytes, draws: seq<Draw>, j: nat, k: nat)
    requires Positive(cfg) && j < |draws| && k % 2 == 0
    requires var ops := Ops(cfg, original, draws);
             Writes(ops[j], k) && forall i :: j < i < |ops| ==> !Writes(ops[i], k) && !Cuts(ops[i], k)
    ensures ByteAt(Posix(cfg, original, draws), k) as int == (j + 1) % 256
  {
    ByteFromItsLastWriter(original, Initial(cfg), Ops(cfg, original, draws), j, k);
    StampInNumbers(original, j + 1, k);
  }

  /** The stamp, in numbers: the test modulo 256 at even places, and at odd places the same plus the
      byte that the run started from, modulo 256. */
  lemma StampInNumbers(original: Bytes, call: nat, k: nat)
    ensures k % 2 == 0 ==> Stamp(original, call, k) as int == call % 256
    ensures k % 2 == 1 ==> Stamp(original, call, k) as int == (call + ByteAt(original, k) as int) % 256
  {
  }

  /** A byte past the end of the file, or one that was cut off, reads as zero until an operation
      writes it: what a longer file left behind never comes back. */
  lemma {:induction false} CutBytesStayZero(original: Bytes, start: Bytes, ops: seq<Op>, j: nat, k: nat)
    requires j <= |ops| && if j == 0 then |start| <= k else Cuts(ops[j - 1], k)
    requires forall i :: j <= i < |ops| ==> !Writes(ops[i], k)
    ensures ByteAt(After(original, start, ops), k) == 0
    decreases |ops|
  {
    if ops != [] {
      var last := |ops| - 1;
      EffectKeepsOthers(original, |ops|, ops[last], After(original, start, ops[..last]), k);
      if j <= last {
        CutBytesStayZero(original, start, ops[..last], j, k);
      }
    }
  }
}
