/** The inductive invariant of the protocol and the proof that every event keeps it. */
module ProtocolInvariant {
  import opened Bytes
  import opened Transfer
  import opened Protocol

  /** The put behind a publication has ended, and what it published is what arrived of its
      client's snapshot. */
  predicate PublishedBy(s: State, k: nat, x: Version) {
    && k < |s.puts|
    && s.puts[k].path == x.path
    && !s.puts[k].ending.Streaming? && !s.puts[k].stage.Waiting? && !s.puts[k].stage.Receiving?
    && x.bytes <= s.puts[k].snapshot && Whole(x.bytes, s.puts[k].snapshot)
    && (s.puts[k].ending.Complete? ==> x.bytes == s.puts[k].snapshot)
  }

  /** What a published inode holds: what it held when it was published, unless a create has cut it
      in place. */
  function Held(s: State, x: Version): Inode {
    if x.ino in s.torn then Inode([], s.torn[x.ino]) else Inode(x.bytes, x.mtime)
  }

  predicate VersionOk(s: State, x: Version) {
    && x.ino < |s.files| && s.files[x.ino] == Held(s, x)
    && x.mtime <= x.landed <= s.clock
    && (x.ino in s.torn ==> x.landed <= s.torn[x.ino] <= s.clock)
    && (x.source.ByCreate? ==> x.bytes == [] && x.mtime == x.landed)
    && (x.source.ByPut? ==> PublishedBy(s, x.source.put, x))
  }

  ghost predicate LogOk(s: State) {
    && (forall i :: i in s.torn ==> i < |s.files|)
    && (forall v :: 0 <= v < |s.log| ==> VersionOk(s, s.log[v]))
    && (forall v, w :: 0 <= v < w < |s.log| ==> InOrder(s.log[v], s.log[w]))
  }

  /** Publications appear in time order, each with an inode of its own; no put publishes twice, and
      a put writes its last byte after every earlier put has landed. */
  predicate InOrder(x: Version, y: Version) {
    && x.landed <= y.landed && x.ino != y.ino
    && (x.source.ByPut? && y.source.ByPut? ==> x.source != y.source && x.landed <= y.mtime)
  }

  /** A path names the inode of its last publication, until it is unlinked. */
  ghost predicate DirOk(s: State) {
    forall p :: p in s.dir ==> Names(s, p)
  }

  predicate Names(s: State, p: Path)
    requires p in s.dir
  {
    var v := LastVersion(s.log, p);
    v >= 0 && s.log[v].ino == s.dir[p]
  }

  /** The puts that have published, in the order of their publications. */
  function LandedPuts(log: seq<Version>): seq<nat> {
    if log == [] then []
    else
      var x := log[|log| - 1];
      LandedPuts(log[..|log| - 1]) + if x.source.ByPut? then [x.source.put] else []
  }

  /** The puts that took the lock and have left it again. */
  function LeftLock(s: State): seq<nat> {
    if s.lock.Some? && s.order != [] then s.order[..|s.order| - 1] else s.order
  }

  predicate HolderOk(s: State) {
    s.lock.Some? ==>
      && s.lock.value < |s.puts|
      && s.order != [] && s.order[|s.order| - 1] == s.lock.value
      && (s.puts[s.lock.value].stage.Receiving? || s.puts[s.lock.value].stage.Failed?)
  }

  ghost predicate LockOk(s: State) {
    HolderOk(s) && LandedPuts(s.log) == LeftLock(s)
  }

  /** Part of a file that consists of whole buffers, or all of it. */
  predicate Whole(part: Bytes, file: Bytes) {
    |part| % BUFSIZE == 0 || part == file
  }

  /** `arrived` and the queue together are the part of the snapshot the client has read, and it
      is cut into buffers. */
  predicate StreamOk(put: Put, arrived: Bytes) {
    var sent := arrived + Concat(put.queue);
    && (match put.ending
        case Streaming => put.pos <= |put.snapshot| && sent == put.snapshot[..put.pos] && put.pos % BUFSIZE == 0
        case Complete => sent == put.snapshot
        case Cut => sent <= put.snapshot)
    && (forall i :: 0 <= i <= |put.queue| ==> Whole(arrived + Concat(put.queue[..i]), put.snapshot))
  }

  ghost predicate PrivateInode(s: State, ino: nat) {
    && ino < |s.files| && s.files[ino].mtime <= s.clock && ino !in s.torn
    && (forall v :: 0 <= v < |s.log| ==> s.log[v].ino != ino)
    && (forall v :: 0 <= v < |s.log| && s.log[v].source.ByPut? ==> s.log[v].landed <= s.files[ino].mtime)
  }

  /** The file of version `ver` has not been cut. */
  predicate Uncut(s: State, ver: int) {
    0 <= ver < |s.log| && s.log[ver].ino !in s.torn
  }

  /** A time that was read off the file of version `ver`. */
  predicate TimeOf(s: State, ver: int, mtime: int) {
    0 <= ver < |s.log| && s.log[ver].mtime <= mtime && (Uncut(s, ver) ==> mtime == s.log[ver].mtime)
  }

  /** What a whole stream of version `ver` brings: all of it, or the part before it was cut. */
  predicate Delivers(s: State, ver: int, got: Bytes) {
    0 <= ver < |s.log| && got <= s.log[ver].bytes && (Uncut(s, ver) ==> got == s.log[ver].bytes)
  }

  /** What a client keeps of it. */
  predicate CutOf(s: State, ver: int, b: Bytes) {
    && 0 <= ver < |s.log| && b <= CutAtZero(s.log[ver].bytes)
    && (Uncut(s, ver) ==> b == CutAtZero(s.log[ver].bytes))
  }

  predicate OwnVersion(s: State, k: nat, ver: int) {
    0 <= ver < |s.log| && s.log[ver].source == ByPut(k)
  }

  ghost predicate PutOk(s: State, k: nat)
    requires k < |s.puts|
  {
    var put := s.puts[k];
    match put.stage
    case Waiting => StreamOk(put, [])
    case Receiving(ino) => s.lock == Some(k) && PrivateInode(s, ino) && StreamOk(put, s.files[ino].bytes)
    case Landed(ver) => OwnVersion(s, k, ver)
    case Replied(ver, stat, mtime) =>
      && OwnVersion(s, k, ver)
      && ver <= stat < |s.log| && s.log[stat].path == put.path && TimeOf(s, stat, mtime)
    case Failed => !put.ending.Streaming?
  }

  /** Version `ver` was the current one of the path at second `taken`. */
  ghost predicate CurrentAt(s: State, path: Path, ver: int, taken: int) {
    && 0 <= ver < |s.log| && s.log[ver].path == path
    && s.log[ver].landed <= taken <= s.clock
    && (forall w :: ver < w < |s.log| && s.log[w].path == path ==> taken <= s.log[w].landed)
  }

  ghost predicate FetchOk(s: State, read: Read) {
    match read.stage
    case Requested => read.got == []
    case Sending(ver, ino, pos) =>
      && CurrentAt(s, read.path, ver, read.taken)
      && s.log[ver].ino == ino
      && pos <= |s.log[ver].bytes| && read.got == s.log[ver].bytes[..pos]
    case Finished(ver) =>
      if ver == -1 then read.got == [] && read.taken <= s.clock
      else CurrentAt(s, read.path, ver, read.taken) && Delivers(s, ver, read.got)
    case Dropped => true
  }

  /** What a local copy is worth, by where it came from. */
  ghost predicate CopyOk(s: State, path: Path, f: LocalFile, dirty: bool) {
    match f.origin
    case Local => dirty
    case Unfetched => f.bytes == []
    case Fetched(ver, taken) =>
      taken <= f.mtime <= s.clock &&
      if ver == -1 then f.bytes == []
      else CurrentAt(s, path, ver, taken) && CutOf(s, ver, f.bytes)
    case Committed(ver, stat) =>
      && 0 <= ver <= stat < |s.log|
      && s.log[ver].path == path && s.log[ver].source.ByPut? && s.log[stat].path == path
      && f.bytes == s.log[ver].bytes && TimeOf(s, stat, f.mtime)
  }

  ghost predicate TaskOk(s: State, c: nat, path: Path, task: Task, cl: Client) {
    match task
    case Creating => path in cl.temp
    case Fetching(r) => r < |s.fetches| && s.fetches[r].client == c && s.fetches[r].path == path
    case Flushing(k) =>
      && k < |s.puts| && s.puts[k].client == c && s.puts[k].path == path
      && path in cl.temp && path in cl.dirty
      && s.puts[k].snapshot == cl.temp[path].bytes
  }

  ghost predicate ClientOk(s: State, c: nat, cl: Client) {
    && (forall p :: p in cl.temp ==> CopyOk(s, p, cl.temp[p], p in cl.dirty))
    && (forall p :: p in cl.task ==> TaskOk(s, c, p, cl.task[p], cl))
  }

  ghost predicate PutsOk(s: State) {
    forall k :: 0 <= k < |s.puts| ==> PutOk(s, k)
  }

  ghost predicate FetchesOk(s: State) {
    forall r :: 0 <= r < |s.fetches| ==> FetchOk(s, s.fetches[r])
  }

  ghost predicate ClientsOk(s: State) {
    forall c :: 0 <= c < |s.clients| ==> ClientOk(s, c, s.clients[c])
  }

  ghost predicate Inv(s: State) {
    LogOk(s) && DirOk(s) && LockOk(s) && PutsOk(s) && FetchesOk(s) && ClientsOk(s)
  }

  // ---- What later states keep -------------------------------------------------------------

  /** The clock and the log only grow, and new publications are not older than the state. */
  ghost predicate Grows(s: State, t: State) {
    && s.clock <= t.clock
    && |s.log| <= |t.log|
    && (forall v :: 0 <= v < |s.log| ==> t.log[v] == s.log[v])
    && (forall v :: |s.log| <= v < |t.log| ==> s.clock <= t.log[v].landed)
    && (forall i :: i in s.torn ==> i in t.torn)
  }

  /** What identifies a call never changes. */
  ghost predicate CallsStay(s: State, t: State) {
    && |s.puts| <= |t.puts| && |s.fetches| <= |t.fetches|
    && (forall k :: 0 <= k < |s.puts| ==> SameCall(s.puts[k], t.puts[k]))
    && (forall r :: 0 <= r < |s.fetches| ==>
          t.fetches[r].client == s.fetches[r].client && t.fetches[r].path == s.fetches[r].path)
  }

  predicate SameCall(a: Put, b: Put) {
    a.client == b.client && a.path == b.path && a.snapshot == b.snapshot && a.origin == b.origin
  }

  lemma CopyStays(s: State, t: State, path: Path, f: LocalFile, dirty: bool)
    requires Grows(s, t) && CopyOk(s, path, f, dirty)
    ensures CopyOk(t, path, f, dirty)
  {
  }

  lemma ClientStays(s: State, t: State, c: nat, cl: Client)
    requires Grows(s, t) && CallsStay(s, t) && ClientOk(s, c, cl)
    ensures ClientOk(t, c, cl)
  {
    forall p | p in cl.temp ensures CopyOk(t, p, cl.temp[p], p in cl.dirty) {
      CopyStays(s, t, p, cl.temp[p], p in cl.dirty);
    }
    forall p | p in cl.task ensures TaskOk(t, c, p, cl.task[p], cl) {
      assert TaskOk(s, c, p, cl.task[p], cl);
    }
  }

  /** Clients other than `c` are untouched, and `c` is shown to be in order by the caller. */
  lemma ClientsStay(s: State, t: State, c: nat)
    requires Grows(s, t) && CallsStay(s, t) && ClientsOk(s) && |t.clients| == |s.clients|
    requires forall d :: 0 <= d < |s.clients| && d != c ==> t.clients[d] == s.clients[d]
    requires c < |s.clients| ==> ClientOk(t, c, t.clients[c])
    ensures ClientsOk(t)
  {
    forall d | 0 <= d < |t.clients| ensures ClientOk(t, d, t.clients[d]) {
      if d != c {
        ClientStays(s, t, d, s.clients[d]);
      }
    }
  }

  /** Fetches other than `r` are untouched, and `r` is shown to be in order by the caller. */
  lemma FetchesStay(s: State, t: State, r: nat)
    requires Grows(s, t) && FetchesOk(s) && |s.fetches| <= |t.fetches| <= |s.fetches| + 1
    requires forall q :: 0 <= q < |s.fetches| && q != r ==> t.fetches[q] == s.fetches[q]
    requires |s.fetches| < |t.fetches| ==> r == |s.fetches|
    requires r < |t.fetches| ==> FetchOk(t, t.fetches[r])
    ensures FetchesOk(t)
  {
    forall q | 0 <= q < |t.fetches| ensures FetchOk(t, t.fetches[q]) {
      if q != r {
        assert FetchOk(s, s.fetches[q]);
      }
    }
  }

  /** No fetch and no client changes. */
  lemma ReadersStay(s: State, t: State)
    requires FetchesOk(s) && ClientsOk(s) && Grows(s, t) && CallsStay(s, t)
    requires t.fetches == s.fetches && t.clients == s.clients
    ensures FetchesOk(t) && ClientsOk(t)
  {
    FetchesStay(s, t, |s.fetches|);
    ClientsStay(s, t, |s.clients|);
  }

  /** The log is unchanged, and so is everything it speaks about. */
  lemma LogStays(s: State, t: State)
    requires LogOk(s) && t.log == s.log && t.torn == s.torn && s.clock <= t.clock && |s.files| <= |t.files|
    requires forall v :: 0 <= v < |s.log| ==> t.files[s.log[v].ino] == s.files[s.log[v].ino]
    requires |s.puts| <= |t.puts|
    requires forall k :: 0 <= k < |s.puts| && !s.puts[k].stage.Waiting? && !s.puts[k].stage.Receiving? ==>
               && SameCall(s.puts[k], t.puts[k]) && t.puts[k].ending == s.puts[k].ending
               && !t.puts[k].stage.Waiting? && !t.puts[k].stage.Receiving?
    ensures LogOk(t)
  {
    forall v | 0 <= v < |t.log| ensures VersionOk(t, t.log[v]) {
      assert VersionOk(s, s.log[v]);
    }
  }

  /** Nobody takes the lock or leaves it. */
  lemma LockStays(s: State, t: State)
    requires LockOk(s) && t.log == s.log && t.order == s.order && t.lock == s.lock && HolderOk(t)
    ensures LockOk(t)
  {
  }

  /** No name is added or changed. */
  lemma DirStays(s: State, t: State)
    requires DirOk(s) && t.log == s.log
    requires forall p :: p in t.dir ==> p in s.dir && t.dir[p] == s.dir[p]
    ensures DirOk(t)
  {
    forall p | p in t.dir ensures Names(t, p) { assert Names(s, p); }
  }

  /** A put that is not itself changed stays in order; if it is receiving, nothing it receives
      into may change either. */
  lemma PutStays(s: State, t: State, k: nat)
    requires Grows(s, t) && k < |s.puts| && k < |t.puts| && t.puts[k] == s.puts[k] && PutOk(s, k)
    requires s.puts[k].stage.Receiving? ==>
               && t.lock == s.lock && |s.files| <= |t.files|
               && (forall v :: |s.log| <= v < |t.log| ==> t.log[v].ino >= |s.files| && t.log[v].source.ByCreate?)
               && (s.puts[k].stage.ino in t.torn ==> s.puts[k].stage.ino in s.torn)
               && (s.puts[k].stage.ino < |s.files| ==> t.files[s.puts[k].stage.ino] == s.files[s.puts[k].stage.ino])
    ensures PutOk(t, k)
  {
  }

  /** The server is untouched and no call changes. */
  lemma ServerStays(s: State, t: State)
    requires Inv(s) && s.clock <= t.clock
    requires t.dir == s.dir && t.files == s.files && t.lock == s.lock && t.log == s.log && t.order == s.order
    requires t.puts == s.puts && t.torn == s.torn
    ensures LogOk(t) && DirOk(t) && LockOk(t) && PutsOk(t)
  {
    LogStays(s, t);
    DirStays(s, t);
    forall k | 0 <= k < |t.puts| ensures PutOk(t, k) { PutStays(s, t, k); }
  }

  // ---- Events of the clients ----------------------------------------------------------------

  lemma TickKeepsInv(s: State)
    requires Inv(s)
    ensures Inv(Apply(s, Tick))
  {
    var t := Apply(s, Tick);
    ServerStays(s, t);
    ReadersStay(s, t);
  }

  lemma OpenFetchKeepsInv(s: State, c: nat, p: Path)
    requires Inv(s) && Enabled(s, OpenFetch(c, p))
    ensures Inv(Apply(s, OpenFetch(c, p)))
  {
    var t := Apply(s, OpenFetch(c, p));
    ServerStays(s, t);
    FetchesStay(s, t, |s.fetches|);
    ClientStays(s, t, c, s.clients[c]);
    ClientsStay(s, t, c);
  }

  lemma EndTaskKeepsInv(s: State, c: nat, p: Path)
    requires Inv(s) && c < |s.clients|
    ensures Inv(EndTask(s, c, p))
  {
    var t := EndTask(s, c, p);
    ServerStays(s, t);
    FetchesStay(s, t, |s.fetches|);
    ClientStays(s, t, c, s.clients[c]);
    ClientsStay(s, t, c);
  }

  /** A client changes only what it holds for one path. */
  lemma LocalChangeKeepsInv(s: State, c: nat, p: Path, dl: Client)
    requires Inv(s) && c < |s.clients|
    requires var cl := s.clients[c];
             && (forall q :: q != p ==> (q in dl.temp <==> q in cl.temp) && (q in dl.dirty <==> q in cl.dirty))
             && (forall q :: q != p && q in cl.temp ==> dl.temp[q] == cl.temp[q])
             && (forall q :: q in dl.task && q != p ==> q in cl.task && dl.task[q] == cl.task[q])
             && (p in dl.temp ==> CopyOk(s, p, dl.temp[p], p in dl.dirty))
             && (p in dl.task ==> TaskOk(s, c, p, dl.task[p], dl))
    ensures Inv(WithClient(s, c, dl))
  {
    var cl, t := s.clients[c], WithClient(s, c, dl);
    ServerStays(s, t);
    FetchesStay(s, t, |s.fetches|);
    assert ClientOk(s, c, cl);
    forall q | q in dl.temp ensures CopyOk(s, q, dl.temp[q], q in dl.dirty) {
      if q != p { assert CopyOk(s, q, cl.temp[q], q in cl.dirty); }
    }
    forall q | q in dl.task ensures TaskOk(s, c, q, dl.task[q], dl) {
      if q != p { assert TaskOk(s, c, q, cl.task[q], cl); }
    }
    ClientStays(s, t, c, dl);
    ClientsStay(s, t, c);
  }

  lemma WriteKeepsInv(s: State, c: nat, p: Path, offset: nat, data: Bytes)
    requires Inv(s) && Enabled(s, Write(c, p, offset, data))
    ensures Inv(Apply(s, Write(c, p, offset, data)))
  {
    LocalChangeKeepsInv(s, c, p, Apply(s, Write(c, p, offset, data)).clients[c]);
  }

  lemma WriteGoneKeepsInv(s: State, c: nat, p: Path)
    requires Inv(s) && Enabled(s, WriteGone(c, p))
    ensures Inv(Apply(s, WriteGone(c, p)))
  {
    assert ClientOk(s, c, s.clients[c]);
    if p in s.clients[c].temp {
      assert CopyOk(s, p, s.clients[c].temp[p], p in s.clients[c].dirty);
    }
    LocalChangeKeepsInv(s, c, p, Apply(s, WriteGone(c, p)).clients[c]);
  }

  lemma OpenCreateKeepsInv(s: State, c: nat, p: Path)
    requires Inv(s) && Enabled(s, OpenCreate(c, p))
    ensures Inv(Apply(s, OpenCreate(c, p)))
  {
    LocalChangeKeepsInv(s, c, p, Apply(s, OpenCreate(c, p)).clients[c]);
  }

  lemma DropTempKeepsInv(s: State, c: nat, p: Path)
    requires Inv(s) && Enabled(s, DropTemp(c, p))
    ensures Inv(Apply(s, DropTemp(c, p)))
  {
    LocalChangeKeepsInv(s, c, p, Apply(s, DropTemp(c, p)).clients[c]);
  }

  lemma FetchDoneKeepsInv(s: State, c: nat, p: Path)
    requires Inv(s) && Enabled(s, FetchDone(c, p))
    ensures Inv(Apply(s, FetchDone(c, p)))
  {
    assert ClientOk(s, c, s.clients[c]);
    var r := s.clients[c].task[p].read;
    assert TaskOk(s, c, p, s.clients[c].task[p], s.clients[c]);
    assert FetchOk(s, s.fetches[r]);
    if s.fetches[r].stage.ver != -1 {
      CutOfPrefix(s.fetches[r].got, s.log[s.fetches[r].stage.ver].bytes);
    }
    LocalChangeKeepsInv(s, c, p, Apply(s, FetchDone(c, p)).clients[c]);
  }

  lemma FetchLostKeepsInv(s: State, c: nat, p: Path)
    requires Inv(s) && Enabled(s, FetchLost(c, p))
    ensures Inv(Apply(s, FetchLost(c, p)))
  {
    LocalChangeKeepsInv(s, c, p, Apply(s, FetchLost(c, p)).clients[c]);
  }

  lemma CommitKeepsInv(s: State, c: nat, p: Path)
    requires Inv(s) && Enabled(s, Commit(c, p))
    ensures Inv(Apply(s, Commit(c, p)))
  {
    assert ClientOk(s, c, s.clients[c]);
    assert TaskOk(s, c, p, s.clients[c].task[p], s.clients[c]);
    var k := s.clients[c].task[p].put;
    assert PutOk(s, k);
    assert VersionOk(s, s.log[s.puts[k].stage.ver]);
    LocalChangeKeepsInv(s, c, p, Apply(s, Commit(c, p)).clients[c]);
  }

  lemma RestartKeepsInv(s: State, c: nat)
    requires Inv(s) && Enabled(s, Restart(c))
    ensures Inv(Apply(s, Restart(c)))
  {
    var t := Apply(s, Restart(c));
    ServerStays(s, t);
    FetchesStay(s, t, |s.fetches|);
    ClientsStay(s, t, c);
  }

  lemma OpenedReadIsOk(s: State, r: nat)
    requires LogOk(s) && DirOk(s) && Enabled(s, ServerOpen(r)) && FetchOk(s, s.fetches[r])
    ensures FetchOk(Apply(s, ServerOpen(r)), Apply(s, ServerOpen(r)).fetches[r])
  {
    var p := s.fetches[r].path;
    if p in s.dir {
      assert Names(s, p);
      assert VersionOk(s, s.log[LastVersion(s.log, p)]);
    }
  }

  lemma ServerOpenKeepsInv(s: State, r: nat)
    requires Inv(s) && Enabled(s, ServerOpen(r))
    ensures Inv(Apply(s, ServerOpen(r)))
  {
    var t := Apply(s, ServerOpen(r));
    ServerStays(s, t);
    assert FetchOk(s, s.fetches[r]);
    OpenedReadIsOk(s, r);
    FetchesStay(s, t, r);
    ClientsStay(s, t, |s.clients|);
  }

  lemma ReadStaysOk(s: State, r: nat)
    requires LogOk(s) && Enabled(s, ReadChunk(r)) && FetchOk(s, s.fetches[r])
    ensures FetchOk(Apply(s, ReadChunk(r)), Apply(s, ReadChunk(r)).fetches[r])
  {
    var read := s.fetches[r];
    var x := s.log[read.stage.ver];
    assert VersionOk(s, x);
    var chunk := ChunkAt(s.files[x.ino].bytes, read.stage.pos);
    if x.ino in s.torn {
      assert chunk == [] && read.got + [] == read.got;
    } else {
      assert x.bytes[..read.stage.pos] + chunk == x.bytes[..read.stage.pos + |chunk|];
    }
  }

  lemma ReadChunkKeepsInv(s: State, r: nat)
    requires Inv(s) && Enabled(s, ReadChunk(r))
    ensures Inv(Apply(s, ReadChunk(r)))
  {
    var t := Apply(s, ReadChunk(r));
    ServerStays(s, t);
    assert FetchOk(s, s.fetches[r]);
    ReadStaysOk(s, r);
    FetchesStay(s, t, r);
    ClientsStay(s, t, |s.clients|);
  }

  // ---- Events of the puts -------------------------------------------------------------------

  lemma FlushBeginKeepsPuts(s: State, c: nat, p: Path)
    requires PutsOk(s) && Enabled(s, FlushBegin(c, p))
    ensures PutsOk(Apply(s, FlushBegin(c, p)))
  {
    var t := Apply(s, FlushBegin(c, p));
    forall k | 0 <= k < |t.puts| ensures PutOk(t, k) {
      if k < |s.puts| {
        assert PutOk(s, k);
        PutStays(s, t, k);
      }
    }
  }

  lemma FlushBeginKeepsClients(s: State, c: nat, p: Path)
    requires ClientsOk(s) && Enabled(s, FlushBegin(c, p))
    ensures ClientsOk(Apply(s, FlushBegin(c, p)))
  {
    var t := Apply(s, FlushBegin(c, p));
    assert ClientOk(s, c, s.clients[c]);
    ClientStays(s, t, c, s.clients[c]);
    ClientsStay(s, t, c);
  }

  lemma FlushBeginKeepsInv(s: State, c: nat, p: Path)
    requires Inv(s) && Enabled(s, FlushBegin(c, p))
    ensures Inv(Apply(s, FlushBegin(c, p)))
  {
    var t := Apply(s, FlushBegin(c, p));
    LogStays(s, t);
    DirStays(s, t);
    FlushBeginKeepsPuts(s, c, p);
    FetchesStay(s, t, |s.fetches|);
    FlushBeginKeepsClients(s, c, p);
  }

  /** One put changes while it waits or receives, and the rest of the server does not. */
  lemma PutChangeKeepsInv(s: State, k: nat, put: Put)
    requires Inv(s) && k < |s.puts|
    requires SameCall(s.puts[k], put)
    requires s.puts[k].stage.Waiting? || s.puts[k].stage.Receiving?
             || (put.ending == s.puts[k].ending && !put.stage.Waiting? && !put.stage.Receiving?)
    requires s.lock == Some(k) ==> put.stage.Receiving? || put.stage.Failed?
    requires PutOk(WithPut(s, k, put), k)
    ensures Inv(WithPut(s, k, put))
  {
    var t := WithPut(s, k, put);
    LogStays(s, t);
    DirStays(s, t);
    forall j | 0 <= j < |t.puts| ensures PutOk(t, j) {
      if j != k { PutStays(s, t, j); }
    }
    ReadersStay(s, t);
  }

  lemma SendKeepsStream(put: Put, arrived: Bytes)
    requires StreamOk(put, arrived) && put.ending.Streaming?
    ensures var chunk := ChunkAt(put.snapshot, put.pos);
            StreamOk(put.(pos := put.pos + |chunk|, queue := put.queue + [chunk],
                          ending := if |chunk| == BUFSIZE then Streaming else Complete), arrived)
  {
    var chunk := ChunkAt(put.snapshot, put.pos);
    assert put.snapshot[..put.pos] + chunk == put.snapshot[..put.pos + |chunk|];
    ConcatSnoc(put.queue, chunk);
    var sent := arrived + (Concat(put.queue) + chunk);
    assert (arrived + Concat(put.queue)) + chunk == sent;
    forall i | 0 <= i <= |put.queue| + 1
      ensures Whole(arrived + Concat((put.queue + [chunk])[..i]), put.snapshot)
    {
      if i <= |put.queue| {
        assert (put.queue + [chunk])[..i] == put.queue[..i];
      } else {
        assert (put.queue + [chunk])[..i] == put.queue + [chunk];
        assert Whole(sent, put.snapshot);
      }
    }
  }

  lemma ReceiveKeepsStream(put: Put, arrived: Bytes)
    requires StreamOk(put, arrived) && put.queue != []
    ensures StreamOk(put.(queue := put.queue[1..]), arrived + put.queue[0])
  {
    forall i | 0 <= i <= |put.queue| - 1
      ensures (arrived + put.queue[0]) + Concat(put.queue[1..][..i]) == arrived + Concat(put.queue[..i + 1])
    {
      assert put.queue[..i + 1][1..] == put.queue[1..][..i];
    }
    assert put.queue[1..][..|put.queue| - 1] == put.queue[1..] && put.queue[..|put.queue|] == put.queue;
  }

  lemma CutKeepsStream(put: Put, arrived: Bytes, keep: nat)
    requires StreamOk(put, arrived) && keep <= |put.queue|
    ensures StreamOk(put.(queue := put.queue[..keep], ending := Cut), arrived)
  {
    assert put.queue == put.queue[..keep] + put.queue[keep..];
    ConcatAppend(put.queue[..keep], put.queue[keep..]);
    assert arrived + Concat(put.queue) == (arrived + Concat(put.queue[..keep])) + Concat(put.queue[keep..]);
    forall i | 0 <= i <= keep ensures put.queue[..keep][..i] == put.queue[..i] {}
  }

  /** A put whose client is still sending has not reached its rename. */
  lemma StreamingPutIsOpen(s: State, k: nat)
    requires Inv(s) && k < |s.puts| && s.puts[k].ending.Streaming?
    ensures s.puts[k].stage.Waiting? || s.puts[k].stage.Receiving?
  {
    assert PutOk(s, k);
    assert forall v :: 0 <= v < |s.log| ==> VersionOk(s, s.log[v]);
  }

  lemma SendChunkKeepsInv(s: State, c: nat, p: Path)
    requires Inv(s) && Enabled(s, SendChunk(c, p))
    ensures Inv(Apply(s, SendChunk(c, p)))
  {
    var t := Apply(s, SendChunk(c, p));
    assert ClientOk(s, c, s.clients[c]);
    assert TaskOk(s, c, p, s.clients[c].task[p], s.clients[c]);
    var k := s.clients[c].task[p].put;
    var put := s.puts[k];
    assert PutOk(s, k);
    StreamingPutIsOpen(s, k);
    SendKeepsStream(put, if put.stage.Waiting? then [] else s.files[put.stage.ino].bytes);
    PutChangeKeepsInv(s, k, t.puts[k]);
  }

  lemma CutStreamKeepsInv(s: State, k: nat, keep: nat)
    requires Inv(s) && Enabled(s, CutStream(k, keep))
    ensures Inv(Apply(s, CutStream(k, keep)))
  {
    var put := s.puts[k];
    assert PutOk(s, k);
    CutKeepsStream(put, if put.stage.Waiting? then [] else s.files[put.stage.ino].bytes, keep);
    PutChangeKeepsInv(s, k, Apply(s, CutStream(k, keep)).puts[k]);
  }

  lemma RenameFailKeepsInv(s: State, k: nat)
    requires Inv(s) && Enabled(s, RenameFail(k))
    ensures Inv(Apply(s, RenameFail(k)))
  {
    PutChangeKeepsInv(s, k, s.puts[k].(stage := Failed));
  }

  lemma StatKeepsInv(s: State, k: nat)
    requires Inv(s) && Enabled(s, Stat(k))
    ensures Inv(Apply(s, Stat(k)))
  {
    var put := s.puts[k];
    assert PutOk(s, k);
    assert VersionOk(s, s.log[put.stage.ver]);
    if put.path in s.dir {
      assert Names(s, put.path);
      assert VersionOk(s, s.log[LastVersion(s.log, put.path)]);
    }
    PutChangeKeepsInv(s, k, Apply(s, Stat(k)).puts[k]);
  }

  lemma AcquireKeepsPuts(s: State, k: nat)
    requires LogOk(s) && LockOk(s) && PutsOk(s) && Enabled(s, Acquire(k))
    ensures PutsOk(Apply(s, Acquire(k)))
  {
    var t := Apply(s, Acquire(k));
    forall v | 0 <= v < |s.log| ensures s.log[v].ino < |s.files| && s.log[v].landed <= s.clock {
      assert VersionOk(s, s.log[v]);
    }
    forall j | 0 <= j < |t.puts| ensures PutOk(t, j) {
      assert PutOk(s, j);
      if j != k { PutStays(s, t, j); }
    }
  }

  lemma AcquireKeepsHolder(s: State, k: nat)
    requires HolderOk(s) && Enabled(s, Acquire(k))
    ensures var t := Apply(s, Acquire(k));
            HolderOk(t) && t.log == s.log && LeftLock(t) == LeftLock(s)
  {
    var t := Apply(s, Acquire(k));
    assert t.order[..|t.order| - 1] == s.order;
  }

  lemma AcquireKeepsLock(s: State, k: nat)
    requires LockOk(s) && Enabled(s, Acquire(k))
    ensures LockOk(Apply(s, Acquire(k)))
  {
    AcquireKeepsHolder(s, k);
  }

  lemma AcquireKeepsLog(s: State, k: nat)
    requires LogOk(s) && Enabled(s, Acquire(k))
    ensures LogOk(Apply(s, Acquire(k)))
  {
    forall v | 0 <= v < |s.log| ensures s.log[v].ino < |s.files| {
      assert VersionOk(s, s.log[v]);
    }
    LogStays(s, Apply(s, Acquire(k)));
  }

  lemma AcquireKeepsInv(s: State, k: nat)
    requires Inv(s) && Enabled(s, Acquire(k))
    ensures Inv(Apply(s, Acquire(k)))
  {
    var t := Apply(s, Acquire(k));
    AcquireKeepsLog(s, k);
    DirStays(s, t);
    AcquireKeepsLock(s, k);
    AcquireKeepsPuts(s, k);
    ReadersStay(s, t);
  }

  lemma ReceiveKeepsPuts(s: State, k: nat, spill: bool)
    requires LogOk(s) && PutsOk(s) && Enabled(s, Receive(k, spill))
    ensures PutsOk(Apply(s, Receive(k, spill)))
  {
    var t := Apply(s, Receive(k, spill));
    assert PutOk(s, k);
    forall v | 0 <= v < |s.log| ensures s.log[v].landed <= s.clock {
      assert VersionOk(s, s.log[v]);
    }
    ReceiveKeepsStream(s.puts[k], s.files[s.puts[k].stage.ino].bytes);
    forall j | 0 <= j < |t.puts| ensures PutOk(t, j) {
      assert PutOk(s, j);
      if j != k { PutStays(s, t, j); }
    }
  }

  lemma ReceiveKeepsLog(s: State, k: nat, spill: bool)
    requires LogOk(s) && Enabled(s, Receive(k, spill)) && PutOk(s, k)
    ensures LogOk(Apply(s, Receive(k, spill)))
  {
    LogStays(s, Apply(s, Receive(k, spill)));
  }

  lemma ReceiveKeepsServer(s: State, k: nat, spill: bool)
    requires LogOk(s) && DirOk(s) && LockOk(s) && PutsOk(s) && Enabled(s, Receive(k, spill))
    ensures var t := Apply(s, Receive(k, spill));
            LogOk(t) && DirOk(t) && LockOk(t) && PutsOk(t)
  {
    var t := Apply(s, Receive(k, spill));
    assert PutOk(s, k);
    ReceiveKeepsLog(s, k, spill);
    DirStays(s, t);
    LockStays(s, t);
    ReceiveKeepsPuts(s, k, spill);
  }

  lemma ReceiveKeepsInv(s: State, k: nat, spill: bool)
    requires Inv(s) && Enabled(s, Receive(k, spill))
    ensures Inv(Apply(s, Receive(k, spill)))
  {
    ReceiveKeepsServer(s, k, spill);
    ReadersStay(s, Apply(s, Receive(k, spill)));
  }

  // ---- Events that publish ------------------------------------------------------------------

  lemma LastVersionSnoc(log: seq<Version>, x: Version, p: Path)
    ensures LastVersion(log + [x], p) == if x.path == p then |log| else LastVersion(log, p)
  {
    assert (log + [x])[..|log|] == log;
  }

  /** The directory after a publication. */
  lemma PublishKeepsDir(s: State, t: State, x: Version)
    requires DirOk(s) && t.log == s.log + [x] && t.dir == s.dir[x.path := x.ino]
    ensures DirOk(t)
  {
    forall p | p in t.dir ensures Names(t, p) {
      LastVersionSnoc(s.log, x, p);
      if p != x.path { assert Names(s, p); }
    }
  }

  /** The log after a publication that is itself in order and comes after all others. */
  lemma PublishKeepsLog(s: State, t: State, x: Version)
    requires LogOk(s) && t.log == s.log + [x] && t.torn == s.torn && s.clock == t.clock && |s.files| <= |t.files|
    requires VersionOk(t, x)
    requires forall v :: 0 <= v < |s.log| ==> t.files[s.log[v].ino] == s.files[s.log[v].ino] && InOrder(s.log[v], x)
    requires |t.puts| == |s.puts|
    requires forall k :: 0 <= k < |s.puts| ==> t.puts[k] == s.puts[k] || (s.puts[k].stage.Receiving?)
    ensures LogOk(t)
  {
    forall v | 0 <= v < |s.log| ensures VersionOk(t, s.log[v]) {
      assert VersionOk(s, s.log[v]);
    }
  }

  /** Finding no file, or leaving a file alone, touches nothing the invariant speaks about. */
  lemma CreatesDoNotMatter(s: State, creates: seq<Creation>)
    requires Inv(s)
    ensures Inv(s.(creates := creates))
  {
    var t := s.(creates := creates);
    ServerStays(s, t);
    ReadersStay(s, t);
  }

  lemma ServerCreateKeepsLog(s: State, i: nat)
    requires Inv(s) && Enabled(s, ServerCreate(i))
    ensures LogOk(Apply(s, ServerCreate(i)))
  {
    var t := Apply(s, ServerCreate(i));
    var x := t.log[|s.log|];
    forall v | 0 <= v < |s.log|
      ensures t.files[s.log[v].ino] == s.files[s.log[v].ino] && InOrder(s.log[v], x)
    {
      assert VersionOk(s, s.log[v]);
    }
    PublishKeepsLog(s, t, x);
  }

  lemma ServerCreateKeepsPuts(s: State, i: nat)
    requires Inv(s) && Enabled(s, ServerCreate(i))
    ensures PutsOk(Apply(s, ServerCreate(i)))
  {
    var t := Apply(s, ServerCreate(i));
    forall j | 0 <= j < |t.puts| ensures PutOk(t, j) {
      PutStays(s, t, j);
    }
  }

  lemma LandedPutsSnoc(log: seq<Version>, x: Version)
    ensures LandedPuts(log + [x]) == LandedPuts(log) + if x.source.ByPut? then [x.source.put] else []
  {
    assert (log + [x])[..|log|] == log;
  }

  /** The fetches and the clients after a publication. */
  lemma PublishKeepsReaders(s: State, t: State, x: Version)
    requires FetchesOk(s) && ClientsOk(s) && t.log == s.log + [x] && x.landed == s.clock == t.clock && t.torn == s.torn
    requires t.fetches == s.fetches && t.clients == s.clients && CallsStay(s, t)
    ensures FetchesOk(t) && ClientsOk(t)
  {
    ReadersStay(s, t);
  }

  lemma ServerCreateKeepsHolder(s: State, i: nat)
    requires HolderOk(s) && Enabled(s, ServerCreate(i))
    ensures var t := Apply(s, ServerCreate(i));
            && HolderOk(t) && LeftLock(t) == LeftLock(s)
            && |t.log| == |s.log| + 1 && t.log == s.log + [t.log[|s.log|]] && t.log[|s.log|].source.ByCreate?
  {
  }

  lemma ServerCreateKeepsLock(s: State, i: nat)
    requires LockOk(s) && Enabled(s, ServerCreate(i))
    ensures LockOk(Apply(s, ServerCreate(i)))
  {
    ServerCreateKeepsHolder(s, i);
    LandedPutsSnoc(s.log, Apply(s, ServerCreate(i)).log[|s.log|]);
  }

  lemma ServerCreateKeepsDir(s: State, i: nat)
    requires DirOk(s) && Enabled(s, ServerCreate(i))
    ensures DirOk(Apply(s, ServerCreate(i)))
  {
    var t := Apply(s, ServerCreate(i));
    PublishKeepsDir(s, t, t.log[|s.log|]);
  }

  lemma ServerCreateKeepsReaders(s: State, i: nat)
    requires FetchesOk(s) && ClientsOk(s) && Enabled(s, ServerCreate(i))
    ensures FetchesOk(Apply(s, ServerCreate(i))) && ClientsOk(Apply(s, ServerCreate(i)))
  {
    var t := Apply(s, ServerCreate(i));
    PublishKeepsReaders(s, t, t.log[|s.log|]);
  }

  lemma ServerCreateKeepsInv(s: State, i: nat)
    requires Inv(s) && Enabled(s, ServerCreate(i))
    ensures Inv(Apply(s, ServerCreate(i)))
  {
    ServerCreateKeepsLog(s, i);
    ServerCreateKeepsPuts(s, i);
    ServerCreateKeepsDir(s, i);
    ServerCreateKeepsLock(s, i);
    ServerCreateKeepsReaders(s, i);
  }

  lemma LandKeepsLog(s: State, k: nat, spill: bool)
    requires Inv(s) && Enabled(s, Land(k, spill))
    ensures LogOk(Apply(s, Land(k, spill)))
  {
    var t := Apply(s, Land(k, spill));
    var x := t.log[|s.log|];
    assert PutOk(s, k);
    var put := s.puts[k];
    var arrived := s.files[put.stage.ino].bytes;
    assert Whole(arrived + Concat(put.queue[..0]), put.snapshot) && arrived + Concat([]) == arrived;
    forall v | 0 <= v < |s.log|
      ensures t.files[s.log[v].ino] == s.files[s.log[v].ino] && InOrder(s.log[v], x)
    {
      assert VersionOk(s, s.log[v]);
    }
    PublishKeepsLog(s, t, x);
  }

  lemma LandKeepsPuts(s: State, k: nat, spill: bool)
    requires Inv(s) && Enabled(s, Land(k, spill))
    ensures PutsOk(Apply(s, Land(k, spill)))
  {
    var t := Apply(s, Land(k, spill));
    assert PutOk(s, k);
    forall j | 0 <= j < |t.puts| ensures PutOk(t, j) {
      assert PutOk(s, j);
      if j != k { PutStays(s, t, j); }
    }
  }

  lemma LandKeepsHolder(s: State, k: nat, spill: bool)
    requires HolderOk(s) && s.lock == Some(k) && Enabled(s, Land(k, spill))
    ensures var t := Apply(s, Land(k, spill));
            HolderOk(t) && LeftLock(t) == LeftLock(s) + [k]
  {
    assert s.order == s.order[..|s.order| - 1] + [k];
  }

  lemma LandKeepsLock(s: State, k: nat, spill: bool)
    requires LockOk(s) && s.lock == Some(k) && Enabled(s, Land(k, spill))
    ensures LockOk(Apply(s, Land(k, spill)))
  {
    LandKeepsHolder(s, k, spill);
    LandedPutsSnoc(s.log, Apply(s, Land(k, spill)).log[|s.log|]);
  }

  lemma LandKeepsDir(s: State, k: nat, spill: bool)
    requires DirOk(s) && Enabled(s, Land(k, spill))
    ensures DirOk(Apply(s, Land(k, spill)))
  {
    var t := Apply(s, Land(k, spill));
    PublishKeepsDir(s, t, t.log[|s.log|]);
  }

  lemma LandKeepsReaders(s: State, k: nat, spill: bool)
    requires FetchesOk(s) && ClientsOk(s) && Enabled(s, Land(k, spill))
    ensures FetchesOk(Apply(s, Land(k, spill))) && ClientsOk(Apply(s, Land(k, spill)))
  {
    var t := Apply(s, Land(k, spill));
    PublishKeepsReaders(s, t, t.log[|s.log|]);
  }

  lemma LandKeepsInv(s: State, k: nat, spill: bool)
    requires Inv(s) && Enabled(s, Land(k, spill))
    ensures Inv(Apply(s, Land(k, spill)))
  {
    assert PutOk(s, k);
    LandKeepsLog(s, k, spill);
    LandKeepsPuts(s, k, spill);
    LandKeepsLock(s, k, spill);
    LandKeepsDir(s, k, spill);
    LandKeepsReaders(s, k, spill);
  }

  lemma PutsStay(s: State, t: State)
    requires PutsOk(s) && Grows(s, t) && t.puts == s.puts && t.log == s.log && t.torn == s.torn
    requires t.lock == s.lock && t.files == s.files
    ensures PutsOk(t)
  {
    forall k | 0 <= k < |t.puts| ensures PutOk(t, k) {
      assert PutOk(s, k);
      PutStays(s, t, k);
    }
  }

  lemma ServerUnlinkKeepsServer(s: State, p: Path)
    requires LogOk(s) && DirOk(s) && LockOk(s) && PutsOk(s) && Enabled(s, ServerUnlink(p))
    ensures var t := Apply(s, ServerUnlink(p));
            LogOk(t) && DirOk(t) && LockOk(t) && PutsOk(t)
  {
    var t := Apply(s, ServerUnlink(p));
    LogStays(s, t);
    DirStays(s, t);
    LockStays(s, t);
    PutsStay(s, t);
  }

  lemma ServerUnlinkKeepsInv(s: State, p: Path)
    requires Inv(s) && Enabled(s, ServerUnlink(p))
    ensures Inv(Apply(s, ServerUnlink(p)))
  {
    ServerUnlinkKeepsServer(s, p);
    ReadersStay(s, Apply(s, ServerUnlink(p)));
  }

  /** A create that cuts a file cuts a published one, which is no put's temp file. */
  lemma ServerTruncateKeepsLog(s: State, i: nat)
    requires LogOk(s) && DirOk(s) && Enabled(s, ServerTruncate(i))
    ensures LogOk(Apply(s, ServerTruncate(i)))
  {
    var t := Apply(s, ServerTruncate(i));
    forall v | 0 <= v < |t.log| ensures VersionOk(t, t.log[v]) {
      assert VersionOk(s, s.log[v]);
    }
  }

  lemma ServerTruncateKeepsPuts(s: State, i: nat)
    requires DirOk(s) && PutsOk(s) && Enabled(s, ServerTruncate(i))
    ensures PutsOk(Apply(s, ServerTruncate(i)))
  {
    var t := Apply(s, ServerTruncate(i));
    assert Names(s, s.creates[i].path);
    forall k | 0 <= k < |t.puts| ensures PutOk(t, k) {
      assert PutOk(s, k);
      PutStays(s, t, k);
    }
  }

  lemma ServerTruncateKeepsInv(s: State, i: nat)
    requires Inv(s) && Enabled(s, ServerTruncate(i))
    ensures Inv(Apply(s, ServerTruncate(i)))
  {
    var t := Apply(s, ServerTruncate(i));
    ServerTruncateKeepsLog(s, i);
    DirStays(s, t);
    LockStays(s, t);
    ServerTruncateKeepsPuts(s, i);
    ReadersStay(s, t);
  }

  /** A server that stops and starts again forgets its calls, and nothing else. */
  lemma ServerRestartKeepsCalls(s: State)
    requires PutsOk(s) && FetchesOk(s)
    ensures PutsOk(Apply(s, ServerRestart)) && FetchesOk(Apply(s, ServerRestart))
  {
    var t := Apply(s, ServerRestart);
    forall k | 0 <= k < |t.puts| ensures PutOk(t, k) {
      assert PutOk(s, k);
    }
    forall r | 0 <= r < |t.fetches| ensures FetchOk(t, t.fetches[r]) {
      assert FetchOk(s, s.fetches[r]);
    }
  }

  lemma ServerRestartFreesTheLock(s: State)
    requires LockOk(s)
    ensures LockOk(Apply(s, ServerRestart))
  {
    assert Apply(s, ServerRestart).order == LeftLock(s);
  }

  lemma ServerRestartKeepsLog(s: State)
    requires Inv(s)
    ensures LogOk(Apply(s, ServerRestart))
  {
    forall k | 0 <= k < |s.puts| && !s.puts[k].stage.Waiting? && !s.puts[k].stage.Receiving?
      ensures !s.puts[k].ending.Streaming?
    {
      if s.puts[k].ending.Streaming? { StreamingPutIsOpen(s, k); }
    }
    LogStays(s, Apply(s, ServerRestart));
  }

  lemma ServerRestartKeepsInv(s: State)
    requires Inv(s)
    ensures Inv(Apply(s, ServerRestart))
  {
    var t := Apply(s, ServerRestart);
    ServerRestartKeepsLog(s);
    DirStays(s, t);
    ServerRestartFreesTheLock(s);
    ServerRestartKeepsCalls(s);
    ClientsStay(s, t, |s.clients|);
  }

  // ---- Every run ----------------------------------------------------------------------------

  predicate ClientEvent(e: Event) {
    e.OpenFetch? || e.FetchDone? || e.FetchFail? || e.OpenCreate? || e.CreateReply? || e.Write?
    || e.FetchLost? || e.WriteGone? || e.FlushFail? || e.Commit? || e.DropTemp? || e.Restart?
  }

  predicate PutEvent(e: Event) {
    e.FlushBegin? || e.SendChunk? || e.CutStream? || e.Acquire? || e.Receive? || e.Land?
    || e.RenameFail? || e.Stat?
  }

  lemma ClientEventKeepsInv(s: State, e: Event)
    requires Inv(s) && Enabled(s, e) && ClientEvent(e)
    ensures Inv(Apply(s, e))
  {
    match e
    case OpenFetch(c, p) => OpenFetchKeepsInv(s, c, p);
    case FetchDone(c, p) => FetchDoneKeepsInv(s, c, p);
    case FetchFail(c, p) => EndTaskKeepsInv(s, c, p);
    case FetchLost(c, p) => FetchLostKeepsInv(s, c, p);
    case OpenCreate(c, p) => OpenCreateKeepsInv(s, c, p);
    case CreateReply(c, p) => EndTaskKeepsInv(s, c, p);
    case Write(c, p, offset, data) => WriteKeepsInv(s, c, p, offset, data);
    case WriteGone(c, p) => WriteGoneKeepsInv(s, c, p);
    case FlushFail(c, p) => EndTaskKeepsInv(s, c, p);
    case Commit(c, p) => CommitKeepsInv(s, c, p);
    case DropTemp(c, p) => DropTempKeepsInv(s, c, p);
    case Restart(c) => RestartKeepsInv(s, c);
  }

  lemma PutEventKeepsInv(s: State, e: Event)
    requires Inv(s) && Enabled(s, e) && PutEvent(e)
    ensures Inv(Apply(s, e))
  {
    match e
    case FlushBegin(c, p) => FlushBeginKeepsInv(s, c, p);
    case SendChunk(c, p) => SendChunkKeepsInv(s, c, p);
    case CutStream(k, keep) => CutStreamKeepsInv(s, k, keep);
    case Acquire(k) => AcquireKeepsInv(s, k);
    case Receive(k, spill) => ReceiveKeepsInv(s, k, spill);
    case Land(k, spill) => LandKeepsInv(s, k, spill);
    case RenameFail(k) => RenameFailKeepsInv(s, k);
    case Stat(k) => StatKeepsInv(s, k);
  }

  lemma OtherEventKeepsInv(s: State, e: Event)
    requires Inv(s) && Enabled(s, e) && !ClientEvent(e) && !PutEvent(e)
    ensures Inv(Apply(s, e))
  {
    match e
    case Tick => TickKeepsInv(s);
    case OpenReuse(c, p) =>
    case ServerOpen(r) => ServerOpenKeepsInv(s, r);
    case ReadChunk(r) => ReadChunkKeepsInv(s, r);
    case ServerMiss(p, flags) => CreatesDoNotMatter(s, Apply(s, e).creates);
    case ServerCreate(i) => ServerCreateKeepsInv(s, i);
    case ServerTruncate(i) => ServerTruncateKeepsInv(s, i);
    case ServerLeave(i) => CreatesDoNotMatter(s, Apply(s, e).creates);
    case ServerRestart => ServerRestartKeepsInv(s);
    case ServerUnlink(p) => ServerUnlinkKeepsInv(s, p);
  }

  /** Every event keeps the invariant. */
  lemma EventKeepsInv(s: State, e: Event)
    requires Inv(s) && Enabled(s, e)
    ensures Inv(Apply(s, e))
  {
    if ClientEvent(e) {
      ClientEventKeepsInv(s, e);
    } else if PutEvent(e) {
      PutEventKeepsInv(s, e);
    } else {
      OtherEventKeepsInv(s, e);
    }
  }

  lemma {:induction false} RunKeepsInv(s: State, es: seq<Event>, t: State)
    requires Inv(s) && Run(s, es) == Some(t)
    ensures Inv(t)
    decreases |es|
  {
    if es != [] {
      EventKeepsInv(s, es[0]);
      RunKeepsInv(Apply(s, es[0]), es[1..], t);
    }
  }

  /** The invariant holds in every reachable state. */
  lemma ReachableInv(s: State)
    requires Reachable(s)
    ensures Inv(s)
  {
    var n: nat, clock: int, es: seq<Event> :| ReachableBy(s, n, clock, es);
    RunKeepsInv(Init(n, clock), es, s);
  }
}
