/** What the protocol promises in every reachable state, whatever the interleaving. A file that a
    create has cut in place is named as an exception where it is one; module TornFiles says more
    about it. */
module ProtocolTheorems {
  import opened Bytes
  import opened Transfer
  import opened Protocol
  import opened ProtocolInvariant

  // ---- Publication --------------------------------------------------------------------------

  /** Atomic writes on the server: every inode that was ever published still holds what it was
      published with, unless a create has cut it in place: nothing, from a create, or what arrived of
      exactly one client's flush of that path, which is all of it unless the stream was cut, and then
      some of its whole buffers from the front. */
  lemma AtomicPublish(s: State, v: nat)
    requires Reachable(s) && v < |s.log|
    ensures var x := s.log[v];
            && x.ino < |s.files|
            && s.files[x.ino] == (if x.ino in s.torn then Inode([], s.torn[x.ino]) else Inode(x.bytes, x.mtime))
            && match x.source
               case ByCreate => x.bytes == []
               case ByPut(k) =>
                 && k < |s.puts| && s.puts[k].path == x.path
                 && x.bytes <= s.puts[k].snapshot
                 && (x.bytes == s.puts[k].snapshot || |x.bytes| % BUFSIZE == 0)
                 && (!s.puts[k].ending.Cut? ==> x.bytes == s.puts[k].snapshot)
  {
    ReachableInv(s);
    assert VersionOk(s, s.log[v]);
  }

  /** A path names the inode of its last publication, and of no other one. */
  lemma NamesItsLastPublication(s: State, p: Path, v: int)
    requires Reachable(s) && p in s.dir
    ensures LastVersion(s.log, p) >= 0 && Exists(s, p)
    ensures 0 <= v < |s.log| ==> (s.dir[p] == s.log[v].ino <==> v == LastVersion(s.log, p))
  {
    ReachableInv(s);
    assert Names(s, p);
    var n := LastVersion(s.log, p);
    assert VersionOk(s, s.log[n]);
    if 0 <= v < n {
      assert InOrder(s.log[v], s.log[n]);
    } else if n < v < |s.log| {
      assert InOrder(s.log[n], s.log[v]);
    }
  }

  /** The server's mutex: of two puts past their lock and before their rename, both are the same. */
  lemma AtMostOnePutPastItsLock(s: State, j: nat, k: nat)
    requires Reachable(s) && j < |s.puts| && k < |s.puts|
    requires s.puts[j].stage.Receiving? && s.puts[k].stage.Receiving?
    ensures j == k
  {
    ReachableInv(s);
    assert PutOk(s, j) && PutOk(s, k);
  }

  /** Last writer wins: puts publish exactly once, in the order in which they took the lock, with
      modification times that never fall. */
  lemma LastWriterWins(s: State)
    requires Reachable(s)
    ensures LandedPuts(s.log) == LeftLock(s)
    ensures forall v, w :: 0 <= v < w < |s.log| && s.log[v].source.ByPut? && s.log[w].source.ByPut? ==>
              && s.log[v].source.put != s.log[w].source.put
              && s.log[v].mtime <= s.log[v].landed <= s.log[w].mtime <= s.log[w].landed
  {
    ReachableInv(s);
    forall v, w | 0 <= v < w < |s.log| && s.log[v].source.ByPut? && s.log[w].source.ByPut?
      ensures s.log[v].source.put != s.log[w].source.put
      ensures s.log[v].mtime <= s.log[v].landed <= s.log[w].mtime <= s.log[w].landed
    {
      assert VersionOk(s, s.log[v]) && VersionOk(s, s.log[w]) && InOrder(s.log[v], s.log[w]);
    }
  }

  // ---- Reading ------------------------------------------------------------------------------

  /** Snapshot reads: a stream that has run to its end delivered one publication of the path, namely
      the one that was current when the server opened the file: whole, unless a create has cut that
      file in place, and then some of it from the front. */
  lemma SnapshotRead(s: State, r: nat)
    requires Reachable(s) && r < |s.fetches|
    requires s.fetches[r].stage.Finished? && s.fetches[r].stage.ver != -1
    ensures var read := s.fetches[r];
            && CurrentAt(s, read.path, read.stage.ver, read.taken)
            && Delivers(s, read.stage.ver, read.got)
  {
    ReachableInv(s);
    assert FetchOk(s, s.fetches[r]);
  }

  /** Runs only append to the log, and every fetch opened during a run reads a publication at
      least as new as the ones made before the run. */
  ghost predicate Fresh(s: State, t: State) {
    && |s.log| <= |t.log| && t.log[..|s.log|] == s.log
    && |s.fetches| <= |t.fetches|
    && (forall r :: 0 <= r < |s.fetches| ==> SameRead(s.fetches[r], t.fetches[r], LastVersion(s.log, s.fetches[r].path)))
    && (forall r :: |s.fetches| <= r < |t.fetches| ==> AtLeast(t.fetches[r], LastVersion(s.log, t.fetches[r].path)))
  }

  predicate AtLeast(read: Read, ver: int) {
    match read.stage
    case Requested => true
    case Sending(v, _, _) => ver <= v
    case Finished(v) => v == -1 || ver <= v
    case Dropped => true
  }

  predicate SameRead(before: Read, after: Read, ver: int) {
    before.path == after.path && (before.stage.Requested? ==> AtLeast(after, ver))
  }

  lemma {:induction false} LastVersionGrows(log: seq<Version>, more: seq<Version>, p: Path)
    ensures LastVersion(log, p) <= LastVersion(log + more, p)
  {
    var v := LastVersion(log, p);
    if v >= 0 {
      assert (log + more)[v] == log[v];
    }
  }

  /** What one event can do to a read: open it on the current version, or carry on with it. */
  predicate Advances(before: Read, after: Read, last: int) {
    && before.path == after.path
    && match before.stage
       case Requested => AtLeast(after, last)
       case Sending(v, _, _) => after.stage.Dropped? || (!after.stage.Requested? && after.stage.ver == v)
       case _ => after.stage == before.stage
  }

  ghost predicate Advanced(u: State, t: State) {
    && |u.log| <= |t.log| && t.log[..|u.log|] == u.log
    && |u.fetches| <= |t.fetches|
    && (forall r :: 0 <= r < |u.fetches| ==> Advances(u.fetches[r], t.fetches[r], LastVersion(u.log, u.fetches[r].path)))
    && (forall r :: |u.fetches| <= r < |t.fetches| ==> t.fetches[r].stage.Requested?)
  }

  lemma EventAdvances(u: State, e: Event)
    requires Enabled(u, e)
    ensures Advanced(u, Apply(u, e))
  {
    if e.ServerRestart? {
      RestartAdvances(u);
    } else if e.ServerOpen? || e.ReadChunk? {
      ReadAdvances(u, e);
    } else {
      OthersKeepReads(u, e);
    }
  }

  lemma RestartAdvances(u: State)
    ensures Advanced(u, Apply(u, ServerRestart))
  {
  }

  lemma ReadAdvances(u: State, e: Event)
    requires Enabled(u, e) && (e.ServerOpen? || e.ReadChunk?)
    ensures Advanced(u, Apply(u, e))
  {
  }

  lemma OthersKeepReads(u: State, e: Event)
    requires Enabled(u, e) && !e.ServerOpen? && !e.ReadChunk? && !e.ServerRestart?
    ensures var t := Apply(u, e);
            && u.log <= t.log && u.fetches <= t.fetches
            && forall r :: |u.fetches| <= r < |t.fetches| ==> t.fetches[r].stage.Requested?
  {
  }

  lemma AdvancedIsFresh(s: State, u: State, t: State)
    requires Fresh(s, u) && Advanced(u, t)
    ensures Fresh(s, t)
  {
    assert u.log == s.log + u.log[|s.log|..];
    forall r | 0 <= r < |u.fetches|
      ensures r < |s.fetches| ==> SameRead(s.fetches[r], t.fetches[r], LastVersion(s.log, s.fetches[r].path))
      ensures r >= |s.fetches| ==> AtLeast(t.fetches[r], LastVersion(s.log, t.fetches[r].path))
    {
      LastVersionGrows(s.log, u.log[|s.log|..], u.fetches[r].path);
      assert Advances(u.fetches[r], t.fetches[r], LastVersion(u.log, u.fetches[r].path));
      if r < |s.fetches| {
        assert SameRead(s.fetches[r], u.fetches[r], LastVersion(s.log, s.fetches[r].path));
      } else {
        assert AtLeast(u.fetches[r], LastVersion(s.log, u.fetches[r].path));
      }
    }
  }

  lemma {:induction false} RunIsFresh(s: State, u: State, es: seq<Event>, t: State)
    requires Fresh(s, u) && Run(u, es) == Some(t)
    ensures Fresh(s, t)
    decreases |es|
  {
    if es != [] {
      EventAdvances(u, es[0]);
      AdvancedIsFresh(s, u, Apply(u, es[0]));
      RunIsFresh(s, Apply(u, es[0]), es[1..], t);
    }
  }

  /** A stream that the server opens during a run and that has run to its end delivered a
      publication at least as new as every one made before the run, whole unless it was cut. */
  lemma ReadIsFresh(s: State, es: seq<Event>, t: State, r: nat)
    requires Reachable(s) && Run(s, es) == Some(t)
    requires r < |t.fetches| && (r < |s.fetches| ==> s.fetches[r].stage.Requested?)
    requires t.fetches[r].stage.Finished? && t.fetches[r].stage.ver != -1
    ensures var ver, p := t.fetches[r].stage.ver, t.fetches[r].path;
            && LastVersion(s.log, p) <= ver < |t.log| && t.log[ver].path == p
            && Delivers(t, ver, t.fetches[r].got)
  {
    ReachableInv(s);
    RunKeepsInv(s, es, t);
    RunIsFresh(s, s, es, t);
    assert FetchOk(t, t.fetches[r]);
    if r < |s.fetches| {
      assert SameRead(s.fetches[r], t.fetches[r], LastVersion(s.log, s.fetches[r].path));
    } else {
      assert AtLeast(t.fetches[r], LastVersion(s.log, t.fetches[r].path));
    }
  }

  /** Close to open: an open whose fetch reaches the server after a flush has landed leaves the
      client with that flush or a later publication of the path, up to the first zero byte. */
  lemma CloseToOpen(s: State, es: seq<Event>, t: State, c: nat, p: Path)
    requires Reachable(s) && Run(s, es) == Some(t) && Enabled(t, FetchDone(c, p))
    requires var r := t.clients[c].task[p].read;
             r < |s.fetches| ==> s.fetches[r].stage.Requested?
    ensures var ver := t.fetches[t.clients[c].task[p].read].stage.ver;
            ver != -1 ==>
              && LastVersion(s.log, p) <= ver < |t.log| && t.log[ver].path == p
              && CutOf(t, ver, Apply(t, FetchDone(c, p)).clients[c].temp[p].bytes)
  {
    ReachableInv(s);
    RunKeepsInv(s, es, t);
    var r := t.clients[c].task[p].read;
    assert ClientOk(t, c, t.clients[c]);
    assert TaskOk(t, c, p, t.clients[c].task[p], t.clients[c]);
    if t.fetches[r].stage.ver != -1 {
      ReadIsFresh(s, es, t, r);
      CutOfPrefix(t.fetches[r].got, t.log[t.fetches[r].stage.ver].bytes);
    }
  }

  // ---- Reusing the local copy ---------------------------------------------------------------

  /** `getOpenFlags` never answers 4: it needs a fresh copy in the cache while temp has none, and
      without a temp copy nothing clears `outOfDate`. It answers 2 exactly when the temp copy is
      not older than the server's file. */
  lemma OpenDecisionIsFetchOrReuse(serverMtime: int, temp: Option<int>, inCache: bool)
    ensures OpenDecision(serverMtime, temp, inCache) == 2 <==> temp.Some? && serverMtime <= temp.value
    ensures OpenDecision(serverMtime, temp, inCache) == 1 <==> temp.None? || temp.value < serverMtime
  {
  }

  /** The publication a clean local copy came from: its number, and whether the copy's time is
      known to be that publication's. */
  function CopyVersion(f: LocalFile): int {
    match f.origin
    case Local => -1
    case Unfetched => -1
    case Fetched(ver, _) => ver
    case Committed(ver, _) => ver
  }

  /** Bounded staleness: when an open reuses a clean copy, the copy is one publication of the path
      (cut at the first zero byte if it was fetched), or an empty one that stands for no publication
      (the fetch failed or found no file). If that is no longer the last one, the
      last one carries a modification time no later than the copy's. A committed copy whose
      `lstat` saw its own rename can be outrun only within the very second of its own time; a
      fetched one only by a publication that landed after the server opened the file. */
  lemma BoundedStaleness(s: State, c: nat, p: Path)
    requires Reachable(s) && c < |s.clients| && Exists(s, p) && Decision(s, c, p) == 2
    requires p !in s.clients[c].dirty
    ensures p in s.clients[c].temp
    ensures var f, n := s.clients[c].temp[p], LastVersion(s.log, p);
            && 0 <= n && s.log[n].mtime <= f.mtime
            && match f.origin
               case Local => false
               case Unfetched => f.bytes == []
               case Fetched(v, taken) =>
                 if v == -1 then f.bytes == []
                 else && 0 <= v <= n && CutOf(s, v, f.bytes)
                      && (v < n ==> taken <= s.log[n].landed)
               case Committed(v, stat) =>
                 && 0 <= v <= n && f.bytes == s.log[v].bytes
                 && (v == stat && v < n && Uncut(s, v) ==> s.log[n].mtime == f.mtime)
  {
    ReachableInv(s);
    assert Names(s, p);
    var n := LastVersion(s.log, p);
    var f := s.clients[c].temp[p];
    assert ClientOk(s, c, s.clients[c]);
    assert CopyOk(s, p, f, false);
    assert VersionOk(s, s.log[n]);
    if f.origin.Committed? && f.origin.ver < n {
      assert VersionOk(s, s.log[f.origin.ver]) && InOrder(s.log[f.origin.ver], s.log[n]);
    }
  }

  /** A copy is timed by its own publication: a fetch opened and finished within one second, or a
      commit whose `lstat` saw its own rename. */
  predicate OwnTime(f: LocalFile) {
    match f.origin
    case Local => false
    case Unfetched => false
    case Fetched(ver, taken) => ver != -1 && taken == f.mtime
    case Committed(ver, stat) => ver == stat
  }

  /** A stale copy that is timed by its own publication is not timed after the landing of the
      newest one. */
  lemma StaleCopyIsNotTimedLater(s: State, c: nat, p: Path)
    requires Reachable(s) && c < |s.clients| && Exists(s, p)
    requires p in s.clients[c].temp && p !in s.clients[c].dirty && OwnTime(s.clients[c].temp[p])
    requires CopyVersion(s.clients[c].temp[p]) != LastVersion(s.log, p)
    requires Uncut(s, CopyVersion(s.clients[c].temp[p])) && s.dir[p] !in s.torn
    ensures var n := LastVersion(s.log, p);
            && n >= 0 && s.clients[c].temp[p].mtime <= s.log[n].landed
            && s.files[s.dir[p]].mtime == s.log[n].mtime <= s.log[n].landed
  {
    ReachableInv(s);
    assert Names(s, p);
    var n := LastVersion(s.log, p);
    var f := s.clients[c].temp[p];
    assert ClientOk(s, c, s.clients[c]);
    assert CopyOk(s, p, f, false);
    assert VersionOk(s, s.log[n]);
    var v := CopyVersion(f);
    assert VersionOk(s, s.log[v]) && InOrder(s.log[v], s.log[n]);
  }

  /** When the newest publication landed in the second of its last write, an open reuses such a
      copy although it is stale if and only if that second is the copy's. */
  lemma StaleReuseIffSameSecond(s: State, c: nat, p: Path)
    requires Reachable(s) && c < |s.clients| && Exists(s, p)
    requires p in s.clients[c].temp && p !in s.clients[c].dirty && OwnTime(s.clients[c].temp[p])
    requires CopyVersion(s.clients[c].temp[p]) != LastVersion(s.log, p)
    requires Uncut(s, CopyVersion(s.clients[c].temp[p])) && s.dir[p] !in s.torn
    requires var n := LastVersion(s.log, p); n >= 0 ==> s.log[n].landed == s.log[n].mtime
    ensures LastVersion(s.log, p) >= 0
    ensures Decision(s, c, p) == 2 <==> s.log[LastVersion(s.log, p)].landed == s.clients[c].temp[p].mtime
  {
    StaleCopyIsNotTimedLater(s, c, p);
  }

  /** In general: a stale copy is reused only within the second in which the newest publication
      landed, unless and only unless the copy's second lies between that publication's last write
      and its rename. */
  lemma SameSecondBoundHoldsExactlyOutsideTheGap(s: State, c: nat, p: Path)
    requires Reachable(s) && c < |s.clients| && Exists(s, p)
    requires p in s.clients[c].temp && p !in s.clients[c].dirty && OwnTime(s.clients[c].temp[p])
    requires CopyVersion(s.clients[c].temp[p]) != LastVersion(s.log, p)
    requires Uncut(s, CopyVersion(s.clients[c].temp[p])) && s.dir[p] !in s.torn
    ensures LastVersion(s.log, p) >= 0
    ensures var f, x := s.clients[c].temp[p], s.log[LastVersion(s.log, p)];
            (Decision(s, c, p) == 2 ==> x.landed == f.mtime) <==> !(x.mtime <= f.mtime < x.landed)
  {
    StaleCopyIsNotTimedLater(s, c, p);
  }

  // ---- Another file's time --------------------------------------------------------------------

  /** The `lstat` of a put sees its own rename if and only if no publication of the path came
      between the two. */
  lemma StatSeesItsRename(s: State, k: nat)
    requires Reachable(s) && Enabled(s, Stat(k)) && s.puts[k].path in s.dir
    ensures var put, u := s.puts[k], Apply(s, Stat(k)).puts[k];
            && u.stage.Replied? && 0 <= put.stage.ver < |s.log|
            && (u.stage.stat == u.stage.ver <==>
                  forall v :: put.stage.ver < v < |s.log| ==> s.log[v].path != put.path)
            && (u.stage.stat == u.stage.ver <==> s.dir[put.path] == s.log[put.stage.ver].ino)
  {
    ReachableInv(s);
    assert PutOk(s, k);
    NamesItsLastPublication(s, s.puts[k].path, s.puts[k].stage.ver);
    assert VersionOk(s, s.log[s.puts[k].stage.ver]);
  }

  /** A committed copy that carries the time of the newest publication, which nobody has cut, is
      always reused, and it is that publication if and only if its `lstat` saw its own rename. So a
      copy that was filed under another file's time is reused, stale, for as long as that file is the
      newest. */
  lemma CopyUnderTheNewestTime(s: State, c: nat, p: Path)
    requires Reachable(s) && c < |s.clients| && Exists(s, p)
    requires p in s.clients[c].temp && p !in s.clients[c].dirty && s.clients[c].temp[p].origin.Committed?
    requires s.clients[c].temp[p].origin.stat == LastVersion(s.log, p) && s.dir[p] !in s.torn
    ensures Decision(s, c, p) == 2
    ensures var o := s.clients[c].temp[p].origin;
            && 0 <= o.ver < |s.log| && s.clients[c].temp[p].bytes == s.log[o.ver].bytes
            && (s.dir[p] == s.log[o.ver].ino <==> o.ver == o.stat)
  {
    ReachableInv(s);
    var f := s.clients[c].temp[p];
    assert ClientOk(s, c, s.clients[c]);
    assert CopyOk(s, p, f, false);
    NamesItsLastPublication(s, p, f.origin.ver);
    NamesItsLastPublication(s, p, f.origin.stat);
    AtomicPublish(s, f.origin.stat);
  }

  /** For any committed copy that is not the newest publication: it is reused if and only if the
      last write of the newest publication is not after the last write of the one whose time the
      copy carries. */
  lemma StaleCommitIsReusedExactly(s: State, c: nat, p: Path)
    requires Reachable(s) && c < |s.clients| && Exists(s, p)
    requires p in s.clients[c].temp && p !in s.clients[c].dirty && s.clients[c].temp[p].origin.Committed?
    requires s.clients[c].temp[p].origin.ver != LastVersion(s.log, p)
    requires Uncut(s, s.clients[c].temp[p].origin.stat) && s.dir[p] !in s.torn
    ensures var o, n := s.clients[c].temp[p].origin, LastVersion(s.log, p);
            && 0 <= o.ver <= o.stat <= n && s.dir[p] != s.log[o.ver].ino
            && (Decision(s, c, p) == 2 <==> s.log[n].mtime <= s.log[o.stat].mtime)
  {
    ReachableInv(s);
    var f := s.clients[c].temp[p];
    assert ClientOk(s, c, s.clients[c]);
    assert CopyOk(s, p, f, false);
    var n := LastVersion(s.log, p);
    NamesItsLastPublication(s, p, f.origin.ver);
    NamesItsLastPublication(s, p, n);
    AtomicPublish(s, n);
  }

  // ---- Flushing -----------------------------------------------------------------------------

  /** The client half of the agreement, which every commit reaches: equal bytes and times in temp
      and cache, the path clean, and nothing else changed at this client or anywhere. */
  predicate OnlyCommitted(s: State, t: State, c: nat, p: Path)
    requires c < |s.clients| && p in s.clients[c].temp
  {
    && c < |t.clients| && t == WithClient(s, c, t.clients[c])
    && var cl, dl := s.clients[c], t.clients[c];
    && p in dl.temp && p in dl.cache && p !in dl.dirty
    && dl.temp[p].bytes == dl.cache[p].bytes == cl.temp[p].bytes && dl.temp[p].mtime == dl.cache[p].mtime
    && dl.temp - {p} == cl.temp - {p} && dl.cache - {p} == cl.cache - {p} && dl.dirty == cl.dirty - {p}
  }

  lemma CommitEffect(s: State, c: nat, p: Path)
    requires Enabled(s, Commit(c, p))
    ensures var t := Apply(s, Commit(c, p));
            && OnlyCommitted(s, t, c, p)
            && t.clients[c].temp[p].mtime == s.puts[s.clients[c].task[p].put].stage.mtime
  {
  }

  /** What the reply of a put that the client commits says: its own publication, which is the whole
      temp file, and the time of that one or of a later one of the path. */
  lemma CommitReply(s: State, c: nat, p: Path)
    requires Reachable(s) && Enabled(s, Commit(c, p))
    ensures var k := s.clients[c].task[p].put; var st := s.puts[k].stage;
            && 0 <= st.ver <= st.stat < |s.log| && s.log[st.ver].source == ByPut(k)
            && s.log[st.ver].path == p && s.log[st.stat].path == p
            && s.log[st.ver].bytes == s.clients[c].temp[p].bytes && TimeOf(s, st.stat, st.mtime)
  {
    ReachableInv(s);
    var k := s.clients[c].task[p].put;
    assert ClientOk(s, c, s.clients[c]);
    assert TaskOk(s, c, p, s.clients[c].task[p], s.clients[c]);
    assert PutOk(s, k);
    assert VersionOk(s, s.log[s.puts[k].stage.ver]);
  }

  /** What a commit finds at the server. */
  lemma CommitSource(s: State, c: nat, p: Path)
    requires Reachable(s) && Enabled(s, Commit(c, p)) && p in s.dir
    ensures var st := s.puts[s.clients[c].task[p].put].stage;
            && 0 <= st.ver < |s.log| && Exists(s, p)
            && (s.dir[p] == s.log[st.ver].ino <==> st.ver == LastVersion(s.log, p))
            && (st.ver == LastVersion(s.log, p) && Uncut(s, st.ver) ==>
                  s.files[s.dir[p]] == Inode(s.clients[c].temp[p].bytes, st.mtime))
  {
    CommitReply(s, c, p);
    var st := s.puts[s.clients[c].task[p].put].stage;
    NamesItsLastPublication(s, p, st.ver);
    AtomicPublish(s, st.ver);
  }

  /** Three-way agreement, exactly: at a commit the server still names the file that this flush put
      there if and only if nothing has been published under the path since, and then temp, cache and
      server hold the same bytes with the same time, unless a create has cut that file. */
  lemma CommitAgrees(s: State, c: nat, p: Path)
    requires Reachable(s) && Enabled(s, Commit(c, p)) && p in s.dir
    ensures var t, own := Apply(s, Commit(c, p)), s.puts[s.clients[c].task[p].put].stage.ver;
            && OnlyCommitted(s, t, c, p) && 0 <= own < |s.log| && Exists(t, p)
            && (t.dir[p] == s.log[own].ino <==> own == LastVersion(s.log, p))
            && (own == LastVersion(s.log, p) && Uncut(s, own) ==>
                  t.files[t.dir[p]] == Inode(t.clients[c].temp[p].bytes, t.clients[c].temp[p].mtime))
  {
    CommitSource(s, c, p);
    CommitEffect(s, c, p);
  }

  /** Whatever else happened meanwhile, a committed flush published the whole temp file as the
      client held it from the start of the flush to the commit. */
  lemma CommittedFlushWasPublished(s: State, c: nat, p: Path)
    requires Reachable(s) && Enabled(s, Commit(c, p))
    ensures exists v :: 0 <= v < |s.log| && s.log[v].path == p
                     && s.log[v].source == ByPut(s.clients[c].task[p].put)
                     && s.log[v].bytes == s.clients[c].temp[p].bytes
  {
    CommitReply(s, c, p);
    assert s.log[s.puts[s.clients[c].task[p].put].stage.ver].path == p;
  }
}
