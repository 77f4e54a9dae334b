/** File contents and the few POSIX operations on them that the repository relies on. */
module Bytes {

  newtype byte = x: int | 0 <= x < 256

  type Bytes = seq<byte>

  datatype Option<+T> = None | Some(value: T)

  function Max(a: int, b: int): int {
    if a < b then b else a
  }

  function Min(a: int, b: int): int {
    if a < b then a else b
  }

  /** `pwrite` on a regular file: a gap before `offset` reads as zeros, and a write of no bytes
      does not extend the file. */
  function Pwrite(file: Bytes, data: Bytes, offset: nat): Bytes {
    if data == [] then
      file
    else
      seq(Max(|file|, offset + |data|), i requires 0 <= i =>
        if offset <= i < offset + |data| then data[i - offset] else ByteAt(file, i))
  }

  /** Byte `i` of a file that reads as zeros past its end. */
  function ByteAt(file: Bytes, i: nat): byte {
    if i < |file| then file[i] else 0
  }

  /** `ftruncate`: cuts the file, or extends it with zeros. */
  function Truncate(file: Bytes, size: nat): Bytes {
    seq(size, i requires 0 <= i => ByteAt(file, i))
  }

  /** Concatenation of a list of messages, in order. */
  function Concat(messages: seq<Bytes>): Bytes {
    if messages == [] then [] else messages[0] + Concat(messages[1..])
  }

  lemma {:induction false} ConcatAppend(a: seq<Bytes>, b: seq<Bytes>)
    ensures Concat(a + b) == Concat(a) + Concat(b)
  {
    if a == [] {
      assert a + b == b;
    } else {
      assert (a + b)[1..] == a[1..] + b;
      ConcatAppend(a[1..], b);
    }
  }

  lemma ConcatSnoc(a: seq<Bytes>, m: Bytes)
    ensures Concat(a + [m]) == Concat(a) + m
  {
    ConcatAppend(a, [m]);
    assert Concat([m]) == m + Concat([]);
  }

  /** Two files are equal when they have the same length and the same byte everywhere. */
  lemma SameBytes(a: Bytes, b: Bytes)
    requires |a| == |b|
    requires forall i: nat :: ByteAt(a, i) == ByteAt(b, i)
    ensures a == b
  {
    forall i | 0 <= i < |a| ensures a[i] == b[i] {
      assert ByteAt(a, i) == ByteAt(b, i);
    }
  }
}
