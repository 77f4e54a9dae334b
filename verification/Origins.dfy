/** Where the bytes that a flush sends come from. An open of a path with unflushed writes fetches
    like any other if the server's file is newer, and it keeps the mark. */
module Origins {
  import opened Bytes
  import opened Transfer
  import opened Protocol
  import opened ProtocolInvariant
  import opened ProtocolTheorems
  import opened Runs

  /** What a put sends if its client has written no byte since it got the file: an earlier
      publication of the path, fetched (cut at the first zero byte) or committed, or nothing. */
  predicate SnapshotOk(s: State, put: Put) {
    match put.origin
    case Local => true
    case Unfetched => put.snapshot == []
    case Fetched(v, _) =>
      if v == -1 then put.snapshot == []
      else 0 <= v < |s.log| && s.log[v].path == put.path && CutOf(s, v, put.snapshot)
    case Committed(v, _) => 0 <= v < |s.log| && s.log[v].path == put.path && put.snapshot == s.log[v].bytes
  }

  ghost predicate SnapshotsOk(s: State) {
    forall k :: 0 <= k < |s.puts| ==> SnapshotOk(s, s.puts[k])
  }

  /** An event appends to the log, cuts more files or none, keeps what identifies every put, and
      starts at most one. */
  ghost predicate CallsGoOn(s: State, t: State) {
    && s.log <= t.log && |s.puts| <= |t.puts|
    && (forall i :: i in s.torn ==> i in t.torn)
    && (forall k :: 0 <= k < |s.puts| ==> SameCall(s.puts[k], t.puts[k]))
  }

  lemma EventKeepsCalls(s: State, e: Event)
    requires Enabled(s, e)
    ensures CallsGoOn(s, Apply(s, e))
    ensures !e.FlushBegin? ==> |Apply(s, e).puts| == |s.puts|
  {
    EventAdvances(s, e);
    TornFilesStayTorn(s, e);
    if e.ServerRestart? {
      RestartKeepsCalls(s);
    } else if !PutEvent(e) {
      OthersKeepPuts(s, e);
    }
  }

  lemma TornFilesStayTorn(s: State, e: Event)
    requires Enabled(s, e)
    ensures forall i :: i in s.torn ==> i in Apply(s, e).torn
  {
  }

  lemma RestartKeepsCalls(s: State)
    ensures var t := Apply(s, ServerRestart);
            |t.puts| == |s.puts| && forall k :: 0 <= k < |s.puts| ==> SameCall(s.puts[k], t.puts[k])
  {
  }

  lemma OthersKeepPuts(s: State, e: Event)
    requires Enabled(s, e) && !PutEvent(e) && !e.ServerRestart?
    ensures Apply(s, e).puts == s.puts
  {
  }

  /** The log grows and the puts stay, and a new one is shown to be in order by the caller. */
  lemma SnapshotsStay(s: State, t: State)
    requires SnapshotsOk(s) && CallsGoOn(s, t)
    requires forall k :: |s.puts| <= k < |t.puts| ==> SnapshotOk(t, t.puts[k])
    ensures SnapshotsOk(t)
  {
    forall k | 0 <= k < |t.puts| ensures SnapshotOk(t, t.puts[k]) {
      if k < |s.puts| {
        assert SnapshotOk(s, s.puts[k]) && SameCall(s.puts[k], t.puts[k]);
      }
    }
  }

  lemma FlushSnapshotIsOk(s: State, c: nat, p: Path)
    requires ClientsOk(s) && Enabled(s, FlushBegin(c, p))
    ensures var t := Apply(s, FlushBegin(c, p));
            |t.puts| == |s.puts| + 1 && SnapshotOk(t, t.puts[|s.puts|])
  {
    assert ClientOk(s, c, s.clients[c]);
    assert CopyOk(s, p, s.clients[c].temp[p], true);
  }

  lemma EventKeepsSnapshots(s: State, e: Event)
    requires ClientsOk(s) && SnapshotsOk(s) && Enabled(s, e)
    ensures SnapshotsOk(Apply(s, e))
  {
    EventKeepsCalls(s, e);
    if e.FlushBegin? {
      FlushSnapshotIsOk(s, e.c, e.path);
    }
    SnapshotsStay(s, Apply(s, e));
  }

  lemma {:induction false} RunKeepsSnapshots(s: State, es: seq<Event>, t: State)
    requires Inv(s) && SnapshotsOk(s) && Run(s, es) == Some(t)
    ensures SnapshotsOk(t)
    decreases |es|
  {
    if es != [] {
      EventKeepsInv(s, es[0]);
      EventKeepsSnapshots(s, es[0]);
      RunKeepsSnapshots(Apply(s, es[0]), es[1..], t);
    }
  }

  // ---- What the client wrote ------------------------------------------------------------------

  /** Events that replace or remove the client's temp file of the path. */
  predicate Resets(e: Event, c: nat, p: Path) {
    || e == FetchDone(c, p) || e == FetchLost(c, p) || e == OpenCreate(c, p)
    || e == DropTemp(c, p) || e == Restart(c)
  }

  predicate WritesTo(e: Event, c: nat, p: Path) {
    e.Write? && e.c == c && e.path == p
  }

  /** The client's writes to the path since its temp file was last replaced or removed. */
  function WritesSince(es: seq<Event>, c: nat, p: Path): seq<(nat, Bytes)> {
    if es == [] then []
    else
      var before, e := es[..|es| - 1], es[|es| - 1];
      if Resets(e, c, p) then []
      else if WritesTo(e, c, p) then WritesSince(before, c, p) + [(e.offset, e.data)]
      else WritesSince(before, c, p)
  }

  function Replay(b: Bytes, writes: seq<(nat, Bytes)>): Bytes {
    if writes == [] then b
    else
      var n := |writes| - 1;
      Pwrite(Replay(b, writes[..n]), writes[n].1, writes[n].0)
  }

  /** What a temp file starts as: empty, or a fetched publication of the path. */
  ghost predicate IsBase(s: State, p: Path, b: Bytes) {
    b == [] || exists v :: 0 <= v < |s.log| && s.log[v].path == p && CutOf(s, v, b)
  }

  lemma BaseStays(s: State, t: State, p: Path, b: Bytes)
    requires CallsGoOn(s, t) && IsBase(s, p, b)
    ensures IsBase(t, p, b)
  {
    if b != [] {
      var v :| 0 <= v < |s.log| && s.log[v].path == p && CutOf(s, v, b);
      assert t.log[v].path == p && CutOf(t, v, b);
    }
  }

  /** What an event does to a temp file that is there afterwards: it has been replaced by an empty or
      fetched one, written to, or left with its bytes. */
  predicate OnTemp(before: Client, after: Client, e: Event, c: nat, p: Path)
    requires p in after.temp
  {
    var f := after.temp[p];
    if Resets(e, c, p) then
      !f.origin.Committed? && (f.origin.Local? ==> f.bytes == [])
    else
      && p in before.temp
      && f.bytes == if WritesTo(e, c, p) then Pwrite(before.temp[p].bytes, e.data, e.offset)
                    else before.temp[p].bytes
  }

  lemma OthersDoNeither(e: Event, c: nat, p: Path)
    requires ServerSide(e) || Actor(e) != c
    ensures !Resets(e, c, p) && !WritesTo(e, c, p) && e != WriteGone(c, p)
  {
  }

  lemma EventOnTemp(s: State, e: Event, c: nat, p: Path)
    requires Enabled(s, e) && c < |s.clients| == |Apply(s, e).clients| && p in Apply(s, e).clients[c].temp
    ensures OnTemp(s.clients[c], Apply(s, e).clients[c], e, c, p)
  {
    if ServerSide(e) || Actor(e) != c {
      OnlyItsOwnEvents(s, e, c);
      OthersDoNeither(e, c, p);
    } else {
      OwnEventOnTemp(s, e, c, p);
    }
  }

  lemma OwnEventOnTemp(s: State, e: Event, c: nat, p: Path)
    requires Enabled(s, e) && !ServerSide(e) && Actor(e) == c < |s.clients| == |Apply(s, e).clients|
    requires p in Apply(s, e).clients[c].temp
    ensures OnTemp(s.clients[c], Apply(s, e).clients[c], e, c, p)
  {
    if Resets(e, c, p) {
      ResetOnTemp(s, e, c, p);
    } else {
      StepOnTemp(s, e, c, p);
    }
  }

  lemma ResetOnTemp(s: State, e: Event, c: nat, p: Path)
    requires Enabled(s, e) && Resets(e, c, p) && c < |s.clients| == |Apply(s, e).clients|
    requires p in Apply(s, e).clients[c].temp
    ensures OnTemp(s.clients[c], Apply(s, e).clients[c], e, c, p)
  {
  }

  lemma StepOnTemp(s: State, e: Event, c: nat, p: Path)
    requires Enabled(s, e) && !ServerSide(e) && Actor(e) == c < |s.clients| == |Apply(s, e).clients|
    requires !Resets(e, c, p) && p in Apply(s, e).clients[c].temp
    ensures OnTemp(s.clients[c], Apply(s, e).clients[c], e, c, p)
  {
  }

  /** A base that has just been made. */
  lemma NewBase(s: State, c: nat, p: Path)
    requires Reachable(s) && c < |s.clients| && p in s.clients[c].temp
    requires var f := s.clients[c].temp[p];
             !f.origin.Committed? && (f.origin.Local? ==> f.bytes == [])
    ensures IsBase(s, p, s.clients[c].temp[p].bytes)
  {
    ReachableInv(s);
    var f := s.clients[c].temp[p];
    assert ClientOk(s, c, s.clients[c]);
    assert CopyOk(s, p, f, p in s.clients[c].dirty);
    if f.origin.Fetched? && f.origin.ver != -1 {
      assert s.log[f.origin.ver].path == p;
    }
  }

  /** In every run, a temp file is what it started as with the client's writes since on top, whatever
      else has happened. */
  lemma {:induction false} TempIsAReplay(s: State, n: nat, clock: int, es: seq<Event>, c: nat, p: Path)
    returns (b: Bytes)
    requires ReachableBy(s, n, clock, es) && c < |s.clients| && p in s.clients[c].temp
    ensures IsBase(s, p, b) && s.clients[c].temp[p].bytes == Replay(b, WritesSince(es, c, p))
    decreases |es|
  {
    var u := LastStep(Init(n, clock), es, s);
    var before, e := es[..|es| - 1], es[|es| - 1];
    SameClients(u, e);
    EventOnTemp(u, e, c, p);
    if Resets(e, c, p) {
      b := s.clients[c].temp[p].bytes;
      NewBase(s, c, p);
    } else {
      b := TempIsAReplay(u, n, clock, before, c, p);
      EventKeepsCalls(u, e);
      BaseStays(u, s, p, b);
      if WritesTo(e, c, p) {
        OneMoreWrite(b, WritesSince(before, c, p), e.offset, e.data);
      }
    }
  }

  lemma OneMoreWrite(b: Bytes, writes: seq<(nat, Bytes)>, offset: nat, data: Bytes)
    ensures Replay(b, writes + [(offset, data)]) == Pwrite(Replay(b, writes), data, offset)
  {
    assert (writes + [(offset, data)])[..|writes|] == writes;
  }

  /** A put started at step `i` of the run and sends what temp held then. */
  ghost predicate StartedAt(s: State, es: seq<Event>, put: Put, i: nat, b: Bytes) {
    && i < |es| && es[i] == FlushBegin(put.client, put.path)
    && IsBase(s, put.path, b)
    && put.snapshot == Replay(b, WritesSince(es[..i], put.client, put.path))
  }

  lemma FlushSendsTemp(s: State, c: nat, p: Path)
    requires Enabled(s, FlushBegin(c, p))
    ensures var t := Apply(s, FlushBegin(c, p));
            && |t.puts| == |s.puts| + 1
            && var put := t.puts[|s.puts|];
            put.client == c && put.path == p && put.snapshot == s.clients[c].temp[p].bytes
  {
  }

  lemma NewPutStarts(s: State, n: nat, clock: int, es: seq<Event>, c: nat, p: Path) returns (b: Bytes)
    requires ReachableBy(s, n, clock, es) && Enabled(s, FlushBegin(c, p))
    ensures var t := Apply(s, FlushBegin(c, p));
            |t.puts| == |s.puts| + 1 && StartedAt(t, es + [FlushBegin(c, p)], t.puts[|s.puts|], |es|, b)
  {
    var t := Apply(s, FlushBegin(c, p));
    b := TempIsAReplay(s, n, clock, es, c, p);
    EventKeepsCalls(s, FlushBegin(c, p));
    BaseStays(s, t, p, b);
    FlushSendsTemp(s, c, p);
    assert (es + [FlushBegin(c, p)])[..|es|] == es;
  }

  lemma StartedStays(s: State, t: State, es: seq<Event>, e: Event, k: nat, i: nat, b: Bytes)
    requires CallsGoOn(s, t) && k < |s.puts| && StartedAt(s, es, s.puts[k], i, b)
    ensures StartedAt(t, es + [e], t.puts[k], i, b)
  {
    assert SameCall(s.puts[k], t.puts[k]);
    BaseStays(s, t, s.puts[k].path, b);
    assert (es + [e])[..i] == es[..i];
  }

  lemma {:induction false} PutStarted(s: State, n: nat, clock: int, es: seq<Event>, k: nat) returns (i: nat, b: Bytes)
    requires ReachableBy(s, n, clock, es) && k < |s.puts|
    ensures StartedAt(s, es, s.puts[k], i, b)
    decreases |es|
  {
    var u := LastStep(Init(n, clock), es, s);
    var before, e := es[..|es| - 1], es[|es| - 1];
    assert es == before + [e];
    EventKeepsCalls(u, e);
    if k < |u.puts| {
      i, b := PutStarted(u, n, clock, before, k);
      StartedStays(u, s, before, e, k, i, b);
    } else {
      i := |before|;
      b := NewPutStarts(u, n, clock, before, e.c, e.path);
    }
  }

  /** What every flush of every run sends: what its temp file started as, with exactly the client's
      own writes since on top, in order; and if no byte was written since the client fetched or
      committed the file, that publication. */
  lemma SnapshotsHaveOrigins(s: State, n: nat, clock: int, es: seq<Event>, k: nat) returns (i: nat, b: Bytes)
    requires ReachableBy(s, n, clock, es) && k < |s.puts|
    ensures StartedAt(s, es, s.puts[k], i, b) && SnapshotOk(s, s.puts[k])
  {
    RunKeepsSnapshots(Init(n, clock), es, s);
    i, b := PutStarted(s, n, clock, es, k);
  }

  // ---- Fetched bytes under a mark -------------------------------------------------------------

  /** The path is marked, but what temp holds is not the client's own writing. */
  predicate ForeignDirty(s: State, c: nat, p: Path) {
    c < |s.clients| && p in s.clients[c].dirty && p in s.clients[c].temp && !s.clients[c].temp[p].origin.Local?
  }

  /** How a client gets there: the end of a fetch over a path that is marked, whose unflushed writes
      are gone then; or, while temp holds a copy without a byte of the client's, a write that stores
      nothing, or that goes to a removed temp file. Nothing else leads there. */
  lemma ForeignDirtyBegins(s: State, e: Event, c: nat, p: Path)
    requires Enabled(s, e) && c < |s.clients| && !ForeignDirty(s, c, p)
    ensures ForeignDirty(Apply(s, e), c, p) <==> BeginsForeignDirty(s, e, c, p)
  {
    if ServerSide(e) || Actor(e) != c {
      OnlyItsOwnEvents(s, e, c);
      OthersDoNeither(e, c, p);
    } else {
      OwnEventBeginsForeignDirty(s, e, c, p);
    }
  }

  predicate BeginsForeignDirty(s: State, e: Event, c: nat, p: Path)
    requires c < |s.clients|
  {
    || ((e == FetchDone(c, p) || e == FetchLost(c, p)) && p in s.clients[c].dirty)
    || ((e == WriteGone(c, p) || (WritesTo(e, c, p) && e.data == []))
        && p in s.clients[c].temp && !s.clients[c].temp[p].origin.Local?)
  }

  lemma OwnEventBeginsForeignDirty(s: State, e: Event, c: nat, p: Path)
    requires Enabled(s, e) && c < |s.clients| && !ServerSide(e) && Actor(e) == c && !ForeignDirty(s, c, p)
    ensures ForeignDirty(Apply(s, e), c, p) <==> BeginsForeignDirty(s, e, c, p)
  {
  }

  /** When it happens without any interference: an open of a path with unflushed writes fetches if
      and only if the server's file is newer than the last write. The writes are then lost, the mark
      stays, and the next flush sends the server's own file back, cut at its first zero byte. */
  lemma OutOfDateOpenLosesWrites(s: State, c: nat, p: Path) returns (t: State)
    requires Reachable(s) && Idle(s, c, p) && p in s.dir
    requires p in s.clients[c].temp && p in s.clients[c].dirty
    ensures Exists(s, p)
    ensures Enabled(s, OpenFetch(c, p)) <==> s.clients[c].temp[p].mtime < s.files[s.dir[p]].mtime
    ensures Enabled(s, OpenFetch(c, p)) ==>
              && Leads(s, t) && Enabled(t, FlushBegin(c, p)) && ForeignDirty(t, c, p)
              && t.files == s.files && t.dir == s.dir
              && Apply(t, FlushBegin(c, p)).puts[|t.puts|].snapshot == CutAtZero(s.files[s.dir[p]].bytes)
  {
    NamesItsLastPublication(s, p, 0);
    t := s;
    if Enabled(s, OpenFetch(c, p)) {
      t := FetchOverWrites(s, c, p);
    }
  }

  lemma FetchOverWrites(s: State, c: nat, p: Path) returns (t: State)
    requires Enabled(s, OpenFetch(c, p)) && p in s.dir && p in s.clients[c].dirty
    ensures Leads(s, t) && Enabled(t, FlushBegin(c, p)) && ForeignDirty(t, c, p)
    ensures t.files == s.files && t.dir == s.dir
    ensures t.clients[c].temp[p].bytes == CutAtZero(s.files[s.dir[p]].bytes)
  {
    var u, read := FetchReceived(s, c, p);
    t := Apply(u, FetchDone(c, p));
    LeadsStep(s, u, FetchDone(c, p));
  }
}
