/** How a file crosses the network: both ends cut it into buffers of BUFSIZE bytes, the receiving
    end joins them again, and the client finally hands the joined bytes to code that treats them
    as a zero-terminated string. */
module Transfer {
  import opened Bytes

  const BUFSIZE: nat := 65500

  /** What one `file.read(&buf[0], BUFSIZE)` at position `pos` obtains. */
  function ChunkAt(file: Bytes, pos: nat): Bytes {
    if pos <= |file| then file[pos..Min(pos + BUFSIZE, |file|)] else []
  }

  /** The messages of one stream that starts at `pos`: full buffers, then one short (possibly
      empty) buffer for the end of the file. */
  function ChunksFrom(file: Bytes, pos: nat): seq<Bytes>
    requires pos <= |file|
    decreases |file| - pos
  {
    if |file| - pos < BUFSIZE then [file[pos..]]
    else [file[pos..pos + BUFSIZE]] + ChunksFrom(file, pos + BUFSIZE)
  }

  function Chunks(file: Bytes): seq<Bytes> {
    ChunksFrom(file, 0)
  }

  /** The messages that get through when the stream breaks after `breaks` of them, if it does. */
  function Sent(file: Bytes, breaks: Option<nat>): seq<Bytes> {
    if Broken(file, breaks) then Chunks(file)[..breaks.value] else Chunks(file)
  }

  predicate Broken(file: Bytes, breaks: Option<nat>) {
    breaks.Some? && breaks.value < |Chunks(file)|
  }

  /** The bytes before the first zero byte: what `strlen` on `c_str()` leaves of a buffer. */
  function CutAtZero(b: Bytes): Bytes {
    if b == [] || b[0] == 0 then [] else [b[0]] + CutAtZero(b[1..])
  }

  lemma {:induction false} ChunksFromJoin(file: Bytes, pos: nat)
    requires pos <= |file|
    ensures Concat(ChunksFrom(file, pos)) == file[pos..]
    decreases |file| - pos
  {
    if |file| - pos < BUFSIZE {
      assert Concat([file[pos..]]) == file[pos..] + Concat([]);
    } else {
      ChunksFromJoin(file, pos + BUFSIZE);
      var head := file[pos..pos + BUFSIZE];
      var rest := ChunksFrom(file, pos + BUFSIZE);
      assert ([head] + rest)[1..] == rest;
      assert file[pos..] == head + file[pos + BUFSIZE..];
    }
  }

  /** The shape of a stream: every message but the last is a full buffer, and the last one is
      short, so a file whose length is a multiple of BUFSIZE ends with an empty message. */
  lemma {:induction false} ChunksFromShape(file: Bytes, pos: nat)
    requires pos <= |file|
    ensures var ms := ChunksFrom(file, pos);
            && |ms| == (|file| - pos) / BUFSIZE + 1
            && (forall i :: 0 <= i < |ms| - 1 ==> |ms[i]| == BUFSIZE)
            && |ms[|ms| - 1]| == (|file| - pos) % BUFSIZE
    decreases |file| - pos
  {
    if |file| - pos >= BUFSIZE {
      ChunksFromShape(file, pos + BUFSIZE);
      var n := |file| - pos;
      assert (n - BUFSIZE) / BUFSIZE == n / BUFSIZE - 1 && (n - BUFSIZE) % BUFSIZE == n % BUFSIZE;
    }
  }

  /** `CutAtZero` is exactly the longest prefix without a zero byte. */
  lemma {:induction false} CutAtZeroIsLongestPrefix(b: Bytes)
    ensures CutAtZero(b) <= b
    ensures 0 !in CutAtZero(b)
    ensures |CutAtZero(b)| < |b| ==> b[|CutAtZero(b)|] == 0
  {
    if b != [] && b[0] != 0 {
      CutAtZeroIsLongestPrefix(b[1..]);
      assert b == [b[0]] + b[1..];
    }
  }

  lemma CutIsIdentityExactlyWithoutZeros(b: Bytes)
    ensures CutAtZero(b) == b <==> 0 !in b
  {
    CutAtZeroIsLongestPrefix(b);
  }

  /** A prefix stays one when both are cut. */
  lemma {:induction false} CutOfPrefix(part: Bytes, whole: Bytes)
    requires part <= whole
    ensures CutAtZero(part) <= CutAtZero(whole)
  {
    if part != [] && part[0] != 0 {
      assert part[1..] <= whole[1..];
      CutOfPrefix(part[1..], whole[1..]);
    }
  }

  /** What gets through is a prefix of the file, and all of it or whole buffers. */
  lemma SentIsAPrefix(file: Bytes, breaks: Option<nat>)
    ensures Concat(Sent(file, breaks)) <= file
    ensures if Broken(file, breaks) then |Concat(Sent(file, breaks))| == BUFSIZE * breaks.value
            else Concat(Sent(file, breaks)) == file
  {
    var ms := Chunks(file);
    ChunksFromJoin(file, 0);
    if Broken(file, breaks) {
      var n := breaks.value;
      assert ms == ms[..n] + ms[n..];
      ConcatAppend(ms[..n], ms[n..]);
      ChunksFromShape(file, 0);
      WholeBuffers(ms[..n]);
    }
  }

  lemma {:induction false} WholeBuffers(ms: seq<Bytes>)
    requires forall i :: 0 <= i < |ms| ==> |ms[i]| == BUFSIZE
    ensures |Concat(ms)| == BUFSIZE * |ms|
  {
    if ms != [] {
      WholeBuffers(ms[1..]);
    }
  }

  /** The sending loop of both ends: full reads first, then the partial read at end of file. A
      write that fails ends the loop, and the end of the file is then not reached. */
  method SendFile(file: Bytes, breaks: Option<nat>) returns (messages: seq<Bytes>)
    ensures messages == Sent(file, breaks)
  {
    messages := [];
    var pos := 0;
    while |file| - pos >= BUFSIZE
      invariant 0 <= pos <= |file|
      invariant messages + ChunksFrom(file, pos) == Chunks(file)
      invariant breaks.Some? ==> |messages| <= breaks.value
      decreases |file| - pos
    {
      if breaks.Some? && |messages| == breaks.value {
        return;
      }
      ghost var sent := messages;
      messages := messages + [file[pos..pos + BUFSIZE]];
      assert sent + ([file[pos..pos + BUFSIZE]] + ChunksFrom(file, pos + BUFSIZE))
          == messages + ChunksFrom(file, pos + BUFSIZE);
      pos := pos + BUFSIZE;
    }
    if breaks.Some? && |messages| == breaks.value {
      return;
    }
    messages := messages + [file[pos..]];
  }

  /** The receiving loop of both ends: appends each message to what has arrived. */
  method ReceiveAll(messages: seq<Bytes>) returns (joined: Bytes)
    ensures joined == Concat(messages)
  {
    joined := [];
    var i := 0;
    while i < |messages|
      invariant 0 <= i <= |messages|
      invariant joined == Concat(messages[..i])
    {
      assert messages[..i + 1] == messages[..i] + [messages[i]];
      ConcatSnoc(messages[..i], messages[i]);
      joined := joined + messages[i];
      i := i + 1;
    }
    assert messages[..i] == messages;
  }

  /** `strlen` on the joined buffer, whose C string ends at the first zero byte. */
  method StrLen(b: Bytes) returns (n: nat)
    ensures n <= |b| && b[..n] == CutAtZero(b)
  {
    n := 0;
    while n < |b| && b[n] != 0
      invariant 0 <= n <= |b|
      invariant 0 !in b[..n]
    {
      assert b[..n + 1] == b[..n] + [b[n]];
      n := n + 1;
    }
    PrefixIsCut(b, n);
  }

  lemma {:induction false} PrefixIsCut(b: Bytes, n: nat)
    requires n <= |b| && 0 !in b[..n]
    requires n < |b| ==> b[n] == 0
    ensures CutAtZero(b) == b[..n]
  {
    if n > 0 {
      assert b[0] == b[..n][0];
      assert b[1..][..n - 1] == b[..n][1..];
      PrefixIsCut(b[1..], n - 1);
      assert b[..n] == [b[0]] + b[1..][..n - 1];
    }
  }

  /** A file flushed by one client and opened by another, with nothing in between: chunked,
      joined into the server's file, chunked again, joined again, and cut at the first zero. */
  method FlushThenOpen(file: Bytes) returns (stored: Bytes, fetched: Bytes)
    ensures stored == file
    ensures fetched == CutAtZero(file)
    ensures fetched == file <==> 0 !in file
  {
    var up := SendFile(file, None);
    stored := ReceiveAll(up);
    ChunksFromJoin(file, 0);
    var down := SendFile(stored, None);
    var buf := ReceiveAll(down);
    ChunksFromJoin(stored, 0);
    var n := StrLen(buf);
    fetched := buf[..n];
    CutIsIdentityExactlyWithoutZeros(file);
  }
}
