/** The queue that delays and reorders writes: entries are added at the tail, shuffled at any
    time, and executed from the head by a poller. */
module WriteQueue {
  import opened Bytes

  /** Operation 1 is a write of `data` at `offset`, 2 a close; other numbers do nothing. */
  datatype Entry = Entry(operation: int, path: string, data: Bytes, offset: nat)

  type Disk = map<string, Bytes>

  /** What executing an entry does to the files. `open` without create fails on a missing file. */
  function Effect(e: Entry, d: Disk): Disk {
    if e.operation == 1 && e.path in d then d[e.path := Pwrite(d[e.path], e.data, e.offset)] else d
  }

  /** The files after executing a list of entries in order. */
  function Drain(q: seq<Entry>, d: Disk): Disk {
    if q == [] then d else Drain(q[1..], Effect(q[0], d))
  }

  predicate Covers(e: Entry, i: int) {
    e.offset <= i < e.offset + |e.data|
  }

  predicate BothWrite(a: Entry, b: Entry) {
    a.operation == 1 && b.operation == 1 && a.path == b.path
  }

  predicate DisagreeAt(a: Entry, b: Entry, i: int) {
    Covers(a, i) && Covers(b, i) && a.data[i - a.offset] != b.data[i - b.offset]
  }

  /** Two entries do not conflict: unless both write the same file, and put different bytes at
      the same offset. Writes that do not overlap never conflict. */
  ghost predicate Compatible(a: Entry, b: Entry) {
    BothWrite(a, b) ==> forall i :: !DisagreeAt(a, b, i)
  }

  ghost predicate AllCompatible(q: seq<Entry>) {
    forall x, y :: x in q && y in q ==> Compatible(x, y)
  }

  // ---- Two entries --------------------------------------------------------------------------

  lemma PwriteAt(f: Bytes, x: Bytes, i: nat, k: nat)
    ensures |Pwrite(f, x, i)| == if x == [] then |f| else Max(|f|, i + |x|)
    ensures ByteAt(Pwrite(f, x, i), k) == if i <= k < i + |x| then x[k - i] else ByteAt(f, k)
  {
  }

  lemma WritesCommute(f: Bytes, a: Entry, b: Entry)
    requires forall i :: !DisagreeAt(a, b, i)
    ensures Pwrite(Pwrite(f, a.data, a.offset), b.data, b.offset)
         == Pwrite(Pwrite(f, b.data, b.offset), a.data, a.offset)
  {
    var fa, fb := Pwrite(f, a.data, a.offset), Pwrite(f, b.data, b.offset);
    var l, r := Pwrite(fa, b.data, b.offset), Pwrite(fb, a.data, a.offset);
    forall k: nat ensures ByteAt(l, k) == ByteAt(r, k) {
      PwriteAt(f, a.data, a.offset, k);
      PwriteAt(fa, b.data, b.offset, k);
      PwriteAt(f, b.data, b.offset, k);
      PwriteAt(fb, a.data, a.offset, k);
      assert !DisagreeAt(a, b, k);
    }
    SameBytes(l, r);
  }

  lemma EffectsCommute(a: Entry, b: Entry, d: Disk)
    requires Compatible(a, b)
    ensures Effect(b, Effect(a, d)) == Effect(a, Effect(b, d))
  {
    if BothWrite(a, b) && a.path in d {
      WritesCommute(d[a.path], a, b);
    }
  }

  /** On an existing file, order matters exactly for entries that conflict. */
  lemma EffectsCommuteExactlyWhenCompatible(a: Entry, b: Entry, d: Disk)
    requires a.operation == 1 ==> a.path in d
    ensures Effect(b, Effect(a, d)) == Effect(a, Effect(b, d)) <==> Compatible(a, b)
  {
    if Compatible(a, b) {
      EffectsCommute(a, b, d);
    } else {
      var i :| DisagreeAt(a, b, i);
      var f := d[a.path];
      PwriteAt(Pwrite(f, a.data, a.offset), b.data, b.offset, i);
      PwriteAt(Pwrite(f, b.data, b.offset), a.data, a.offset, i);
      assert Effect(b, Effect(a, d))[a.path] == Pwrite(Pwrite(f, a.data, a.offset), b.data, b.offset);
      assert Effect(a, Effect(b, d))[a.path] == Pwrite(Pwrite(f, b.data, b.offset), a.data, a.offset);
    }
  }

  // ---- A whole queue ------------------------------------------------------------------------

  lemma {:induction false} DrainAppend(a: seq<Entry>, b: seq<Entry>, d: Disk)
    ensures Drain(a + b, d) == Drain(b, Drain(a, d))
    decreases |a|
  {
    if a == [] {
      assert a + b == b;
    } else {
      assert (a + b)[1..] == a[1..] + b;
      DrainAppend(a[1..], b, Effect(a[0], d));
    }
  }

  lemma DrainSnoc(q: seq<Entry>, e: Entry, d: Disk)
    ensures Drain(q + [e], d) == Effect(e, Drain(q, d))
  {
    DrainAppend(q, [e], d);
    var m := Drain(q, d);
    assert [e][1..] == [];
    assert Drain([e], m) == Drain([], Effect(e, m));
  }

  lemma DrainTwo(q: seq<Entry>, a: Entry, b: Entry, d: Disk)
    ensures Drain(q + [a] + [b], d) == Effect(b, Effect(a, Drain(q, d)))
  {
    DrainSnoc(q, a, d);
    DrainSnoc(q + [a], b, d);
  }

  lemma DrainCons(e: Entry, q: seq<Entry>, d: Disk)
    ensures Drain([e] + q, d) == Drain(q, Effect(e, d))
  {
    assert ([e] + q)[1..] == q;
  }

  /** An entry moves to the front past entries it does not conflict with. */
  lemma {:induction false} MoveToFront(before: seq<Entry>, e: Entry, after: seq<Entry>, d: Disk)
    requires forall x :: x in before ==> Compatible(x, e)
    ensures Drain(before + [e] + after, d) == Drain([e] + before + after, d)
    decreases |before|
  {
    if before != [] {
      var x, rest := before[0], before[1..];
      var m := rest + after;
      assert before + [e] + after == [x] + (rest + [e] + after);
      assert [e] + rest + after == [e] + m;
      assert [e] + before + after == [e] + ([x] + m);
      MoveToFront(rest, e, after, Effect(x, d));
      EffectsCommute(x, e, d);
      DrainCons(x, rest + [e] + after, d);
      DrainCons(e, m, Effect(x, d));
      DrainCons(e, [x] + m, d);
      DrainCons(x, m, Effect(e, d));
    } else {
      assert before + [e] + after == [e] + before + after;
    }
  }

  lemma WithoutOne(before: seq<Entry>, e: Entry, after: seq<Entry>)
    ensures multiset(before + [e] + after) == multiset(before + after) + multiset{e}
  {
  }

  /** The same entry taken out of two queues with the same entries leaves the same entries. */
  lemma TakeOne(e: Entry, rest: seq<Entry>, before: seq<Entry>, after: seq<Entry>)
    requires multiset([e] + rest) == multiset(before + [e] + after)
    ensures multiset(rest) == multiset(before + after)
  {
    WithoutOne([], e, rest);
    assert [] + [e] + rest == [e] + rest && [] + rest == rest;
    WithoutOne(before, e, after);
    assert multiset(rest) == multiset([e] + rest) - multiset{e};
    assert multiset(before + after) == multiset(before + [e] + after) - multiset{e};
  }

  /** Reordering is unobservable: two queues with the same entries, none of which conflict, leave
      the same files, holes included. */
  lemma {:induction false} ReorderingIsUnobservable(q: seq<Entry>, r: seq<Entry>, d: Disk)
    requires multiset(q) == multiset(r) && AllCompatible(q)
    ensures Drain(q, d) == Drain(r, d)
    decreases |q|
  {
    if q == [] {
      assert |multiset(r)| == 0;
    } else {
      var e, rest := q[0], q[1..];
      assert e in multiset(r);
      var before, after := SplitAt(r, e);
      assert q == [e] + rest;
      TakeOne(e, rest, before, after);
      forall x | x in before ensures Compatible(x, e) {
        assert x in multiset(r);
      }
      MoveToFront(before, e, after, d);
      assert [e] + before + after == [e] + (before + after);
      DrainCons(e, before + after, d);
      DrainCons(e, rest, d);
      assert AllCompatible(rest);
      ReorderingIsUnobservable(rest, before + after, Effect(e, d));
    }
  }

  lemma SplitAt(r: seq<Entry>, e: Entry) returns (before: seq<Entry>, after: seq<Entry>)
    requires e in multiset(r)
    ensures r == before + [e] + after
  {
    var i :| 0 <= i < |r| && r[i] == e;
    before, after := r[..i], r[i + 1..];
  }

  ghost predicate OrderFree(q: seq<Entry>, d: Disk) {
    forall r: seq<Entry> :: multiset(r) == multiset(q) ==> Drain(r, d) == Drain(q, d)
  }

  lemma {:induction false} DrainKeepsFiles(q: seq<Entry>, d: Disk)
    ensures Drain(q, d).Keys == d.Keys
    decreases |q|
  {
    if q != [] {
      DrainKeepsFiles(q[1..], Effect(q[0], d));
    }
  }

  lemma BothToTheEnd(q: seq<Entry>, i: nat, j: nat) returns (rest: seq<Entry>)
    requires i < j < |q|
    ensures multiset(rest + [q[i]] + [q[j]]) == multiset(q)
    ensures multiset(rest + [q[j]] + [q[i]]) == multiset(q)
  {
    rest := q[..i] + q[i + 1..j] + q[j + 1..];
    assert q == q[..i] + [q[i]] + q[i + 1..j] + [q[j]] + q[j + 1..];
  }

  lemma ConflictShowsAtTheEnd(rest: seq<Entry>, a: Entry, b: Entry, d: Disk)
    requires !Compatible(a, b) && a.path in d
    ensures Drain(rest + [a] + [b], d) != Drain(rest + [b] + [a], d)
  {
    DrainTwo(rest, a, b, d);
    DrainTwo(rest, b, a, d);
    DrainKeepsFiles(rest, d);
    EffectsCommuteExactlyWhenCompatible(a, b, Drain(rest, d));
  }

  /** Two conflicting entries can be brought to the end in either order, and then it shows. */
  lemma ConflictIsObservable(q: seq<Entry>, i: nat, j: nat, d: Disk)
    requires i < j < |q| && !Compatible(q[i], q[j]) && q[i].path in d
    ensures !OrderFree(q, d)
  {
    var rest := BothToTheEnd(q, i, j);
    ConflictShowsAtTheEnd(rest, q[i], q[j], d);
    var ab, ba := rest + [q[i]] + [q[j]], rest + [q[j]] + [q[i]];
    assert Drain(ab, d) != Drain(q, d) || Drain(ba, d) != Drain(q, d);
  }

  /** The exact condition: with every written file present, all orders of a queue leave the same
      files if and only if no two of its entries conflict. */
  lemma OrderFreeExactlyWhenCompatible(q: seq<Entry>, d: Disk)
    requires forall e :: e in q && e.operation == 1 ==> e.path in d
    ensures OrderFree(q, d) <==> AllCompatible(q)
  {
    if AllCompatible(q) {
      forall r: seq<Entry> | multiset(r) == multiset(q) ensures Drain(r, d) == Drain(q, d) {
        ReorderingIsUnobservable(q, r, d);
      }
    } else {
      var x, y :| x in q && y in q && !Compatible(x, y);
      var i :| 0 <= i < |q| && q[i] == x;
      var j :| 0 <= j < |q| && q[j] == y;
      assert !Compatible(y, x) by {
        var k :| DisagreeAt(x, y, k);
        assert DisagreeAt(y, x, k);
      }
      if i < j {
        ConflictIsObservable(q, i, j, d);
      } else {
        assert i != j;
        ConflictIsObservable(q, j, i, d);
      }
    }
  }

  // ---- What a drained queue leaves ------------------------------------------------------------

  /** The entry writes byte `k` of the path. */
  predicate WritesByte(e: Entry, p: string, k: nat) {
    e.operation == 1 && e.path == p && e.offset <= k < e.offset + |e.data|
  }

  /** The last entry that writes byte `k` of the path, or -1. */
  function LastWriter(q: seq<Entry>, p: string, k: nat): (i: int)
    ensures -1 <= i < |q|
    ensures i >= 0 ==> WritesByte(q[i], p, k)
    ensures forall j :: i < j < |q| ==> !WritesByte(q[j], p, k)
  {
    if q == [] then -1
    else if WritesByte(q[|q| - 1], p, k) then |q| - 1
    else LastWriter(q[..|q| - 1], p, k)
  }

  /** How far the entries reach into a file of `size` bytes. */
  function Reach(q: seq<Entry>, p: string, size: nat): nat {
    if q == [] then size
    else
      var before, e := Reach(q[..|q| - 1], p, size), q[|q| - 1];
      if e.operation == 1 && e.path == p && e.data != [] then Max(before, e.offset + |e.data|) else before
  }

  lemma EffectOnByte(e: Entry, d: Disk, p: string, k: nat)
    requires p in d
    ensures p in Effect(e, d)
    ensures ByteAt(Effect(e, d)[p], k) == if WritesByte(e, p, k) then e.data[k - e.offset] else ByteAt(d[p], k)
    ensures |Effect(e, d)[p]| ==
              if e.operation == 1 && e.path == p && e.data != [] then Max(|d[p]|, e.offset + |e.data|) else |d[p]|
  {
    PwriteAt(d[p], e.data, e.offset, k);
  }

  /** After a queue has been drained, every byte of an existing file is the one that the last entry that
      writes it puts there; a byte that none writes is what it was, or zero in a gap. The file is as
      long as the furthest write reaches, and a missing file stays missing. */
  lemma {:induction false} DrainedByte(q: seq<Entry>, d: Disk, p: string, k: nat)
    ensures p in Drain(q, d) <==> p in d
    ensures p in d ==> var i := LastWriter(q, p, k);
              ByteAt(Drain(q, d)[p], k) == if i >= 0 then q[i].data[k - q[i].offset] else ByteAt(d[p], k)
    ensures p in d ==> |Drain(q, d)[p]| == Reach(q, p, |d[p]|)
    decreases |q|
  {
    DrainKeepsFiles(q, d);
    assert p in Drain(q, d).Keys <==> p in d.Keys;
    if q != [] && p in d {
      var before, e := q[..|q| - 1], q[|q| - 1];
      assert q == before + [e];
      DrainedByte(before, d, p, k);
      DrainSnoc(before, e, d);
      EffectOnByte(e, Drain(before, d), p, k);
    }
  }

  /** The entries that the file system callbacks add carry the operation numbers the other way
      round, so a write that the callback reported as done never reaches any file. */
  function FromWriteCallback(path: string, data: Bytes, offset: nat): Entry {
    Entry(2, path, data, offset)
  }

  function FromFlushCallback(path: string): Entry {
    Entry(1, path, [], 0)
  }

  predicate FromCallback(e: Entry) {
    e == FromWriteCallback(e.path, e.data, e.offset) || e == FromFlushCallback(e.path)
  }

  lemma {:induction false} CallbackWritesAreLost(q: seq<Entry>, d: Disk)
    requires forall e :: e in q ==> FromCallback(e)
    ensures Drain(q, d) == d
    decreases |q|
  {
    if q != [] {
      assert FromCallback(q[0]);
      assert Effect(q[0], d) == d;
      CallbackWritesAreLost(q[1..], d);
    }
  }

  // ---- The queue itself ---------------------------------------------------------------------

  class Queue {
    var entries: seq<Entry>
    var disk: Disk
    ghost const disk0: Disk
    ghost var inserted: seq<Entry>
    ghost var executed: seq<Entry>

    /** Every inserted entry is still queued or has been executed exactly once, and the files are
        what the executed ones left. */
    ghost predicate Valid() reads this {
      && multiset(inserted) == multiset(executed) + multiset(entries)
      && disk == Drain(executed, disk0)
    }

    constructor (disk: Disk)
      ensures Valid() && entries == [] && inserted == [] && this.disk == disk0 == disk
    {
      this.disk, disk0 := disk, disk;
      entries, inserted, executed := [], [], [];
    }

    method AddToQueue(operation: int, path: string, data: Bytes, offset: nat)
      requires Valid()
      modifies this
      ensures Valid() && disk == old(disk) && executed == old(executed)
      ensures entries == old(entries) + [Entry(operation, path, data, offset)]
      ensures inserted == old(inserted) + [Entry(operation, path, data, offset)]
    {
      var e := Entry(operation, path, data, offset);
      entries := entries + [e];
      inserted := inserted + [e];
    }

    /** Takes the queue apart into a vector, shuffles it and refills the queue. */
    method ShuffleQueue(draws: seq<nat>)
      requires Valid() && |draws| == |entries|
      modifies this
      ensures Valid() && multiset(entries) == multiset(old(entries))
      ensures disk == old(disk) && inserted == old(inserted) && executed == old(executed)
    {
      if entries == [] {
        return;
      }
      var vec := Take();
      Shuffle(vec, draws);
      Refill(vec);
    }

    /** Random swaps. */
    static method Shuffle(vec: array<Entry>, draws: seq<nat>)
      requires vec.Length == |draws|
      modifies vec
      ensures multiset(vec[..]) == multiset(old(vec[..]))
    {
      for i := 0 to vec.Length
        invariant multiset(vec[..]) == multiset(old(vec[..]))
      {
        var j := draws[i] % (i + 1);
        vec[i], vec[j] := vec[j], vec[i];
      }
    }

    method Refill(vec: array<Entry>)
      modifies this`entries
      ensures entries == old(entries) + vec[..]
    {
      for i := 0 to vec.Length
        invariant entries == old(entries) + vec[..i]
      {
        entries := entries + [vec[i]];
      }
      assert vec[..vec.Length] == vec[..];
    }

    /** Pops every entry into a vector of the queue's size. */
    method Take() returns (vec: array<Entry>)
      modifies this
      ensures fresh(vec) && vec[..] == old(entries) && entries == []
      ensures disk == old(disk) && inserted == old(inserted) && executed == old(executed)
    {
      vec := new Entry[|entries|];
      var i := 0;
      while i < vec.Length
        invariant 0 <= i <= vec.Length == |old(entries)|
        invariant vec[..i] + entries == old(entries)
        invariant disk == old(disk) && inserted == old(inserted) && executed == old(executed)
      {
        ghost var done, left := vec[..i], entries;
        vec[i] := entries[0];
        entries := entries[1..];
        i := i + 1;
        assert vec[..i] == done + [left[0]];
      }
      assert vec[..i] == vec[..];
    }

    /** Executes the head: nothing and 0 for an empty queue; a write needs an existing file; a
        close answers what closing answers; any other number is refused. */
    method ExecuteQueueHead(closes: int) returns (r: int)
      requires Valid()
      modifies this
      ensures Valid() && inserted == old(inserted)
      ensures old(entries) == [] ==> r == 0 && entries == [] && disk == old(disk) && executed == old(executed)
      ensures old(entries) != [] ==>
                var e := old(entries)[0];
                && entries == old(entries)[1..] && executed == old(executed) + [e]
                && disk == Effect(e, old(disk))
                && r == if e.operation == 1 then (if e.path in old(disk) then 0 else -1)
                        else if e.operation == 2 then closes else -1
    {
      if entries == [] {
        return 0;
      }
      var head := entries[0];
      entries := entries[1..];
      DrainSnoc(executed, head, disk0);
      executed := executed + [head];
      assert old(entries) == [head] + entries;
      if head.operation == 1 {
        if head.path !in disk {
          return -1;
        }
        disk := disk[head.path := Pwrite(disk[head.path], head.data, head.offset)];
        return 0;
      } else if head.operation == 2 {
        return closes;
      }
      return -1;
    }

    /** The poller, with any number of shuffles in between: once the queue is empty, entries that
        do not conflict have left what executing them in the order of insertion leaves. */
    method DrainAll(draws: seq<seq<nat>>, closes: int)
      requires Valid() && AllCompatible(inserted)
      modifies this
      ensures Valid() && entries == [] && inserted == old(inserted)
      ensures multiset(executed) == multiset(inserted)
      ensures disk == Drain(inserted, disk0)
    {
      var i := 0;
      while entries != []
        invariant Valid() && inserted == old(inserted)
        decreases |entries|
      {
        ghost var n := |entries|;
        if i < |draws| && |draws[i]| == |entries| {
          ShuffleQueue(draws[i]);
          assert |multiset(entries)| == n;
        }
        var _ := ExecuteQueueHead(closes);
        i := i + 1;
      }
      ReorderingIsUnobservable(inserted, executed, disk0);
    }
  }
}
