/** What a client finds after it has been restarted. */
module Recovery {
  import opened Bytes
  import opened Transfer
  import opened Protocol
  import opened ProtocolInvariant
  import opened ProtocolTheorems
  import opened Runs

  /** The client has no temp copy of the path, and at most a fetch of it under way that began when
      there were `first` of them. */
  predicate NoCopyYet(u: State, c: nat, p: Path, first: nat) {
    && c < |u.clients| && first <= |u.fetches|
    && p !in u.clients[c].temp
    && (p in u.clients[c].task ==> u.clients[c].task[p].Fetching? && first <= u.clients[c].task[p].read)
  }

  lemma EventKeepsNoCopy(u: State, e: Event, c: nat, p: Path, first: nat)
    requires NoCopyYet(u, c, p, first) && Enabled(u, e)
    requires e != FetchDone(c, p) && e != FetchLost(c, p) && e != OpenCreate(c, p)
    ensures e != OpenReuse(c, p) && e != FlushBegin(c, p)
    ensures NoCopyYet(Apply(u, e), c, p, first)
  {
    OnlyItsOwnEvents(u, e, c);
    FetchesGrow(u, e);
    if !ServerSide(e) && Actor(e) == c {
      OwnEventKeepsNoCopy(u, e, c, p, first);
    }
  }

  lemma OwnEventKeepsNoCopy(u: State, e: Event, c: nat, p: Path, first: nat)
    requires NoCopyYet(u, c, p, first) && Enabled(u, e) && !ServerSide(e) && Actor(e) == c
    requires e != FetchDone(c, p) && e != FetchLost(c, p) && e != OpenCreate(c, p)
    ensures e != OpenReuse(c, p) && e != FlushBegin(c, p)
    ensures NoCopyYet(Apply(u, e), c, p, first)
  {
  }

  lemma {:induction false} RunKeepsNoCopy(u: State, es: seq<Event>, t: State, c: nat, p: Path, first: nat)
    requires NoCopyYet(u, c, p, first) && Run(u, es) == Some(t)
    requires FetchDone(c, p) !in es && FetchLost(c, p) !in es && OpenCreate(c, p) !in es
    ensures OpenReuse(c, p) !in es && FlushBegin(c, p) !in es
    ensures NoCopyYet(t, c, p, first)
    decreases |es|
  {
    if es != [] {
      EventKeepsNoCopy(u, es[0], c, p, first);
      assert es == [es[0]] + es[1..];
      RunKeepsNoCopy(Apply(u, es[0]), es[1..], t, c, p, first);
    }
  }

  /** Crash recovery, in every run after a restart at any point: until the client has fetched a path
      (or created it), no open reuses a copy of it and no flush sends one, and the first fetch that
      finds the file leaves the client with a publication at least as new as every one before the
      restart, up to the first zero byte, whatever all clients and the server do meanwhile. It takes
      that no open with O_CREAT makes an empty file in place of a fetch that failed. */
  lemma RecoveryServesTheServersVersion(s: State, es: seq<Event>, t: State, c: nat, p: Path)
    requires Reachable(s) && c < |s.clients|
    requires Run(Apply(s, Restart(c)), es) == Some(t)
    requires FetchDone(c, p) !in es && FetchLost(c, p) !in es && OpenCreate(c, p) !in es
    requires Enabled(t, FetchDone(c, p))
    ensures OpenReuse(c, p) !in es && FlushBegin(c, p) !in es
    ensures var ver := t.fetches[t.clients[c].task[p].read].stage.ver;
            ver != -1 ==>
              && LastVersion(s.log, p) <= ver < |t.log| && t.log[ver].path == p
              && CutOf(t, ver, Apply(t, FetchDone(c, p)).clients[c].temp[p].bytes)
  {
    var u := Apply(s, Restart(c));
    LeadsOne(s, Restart(c));
    ReachableLeads(s, u);
    RunKeepsNoCopy(u, es, t, c, p, |s.fetches|);
    CloseToOpen(u, es, t, c, p);
  }

  /** That event, which needs a failed fetch and no temp file, and no other one gives a client an empty
      copy that came from nowhere. */
  lemma OnlyALostFetchIsUnfetched(s: State, e: Event, c: nat, p: Path)
    requires Enabled(s, e) && !HoldsUnfetched(s, c, p)
    ensures HoldsUnfetched(Apply(s, e), c, p) <==> e == FetchLost(c, p)
  {
    if c < |s.clients| {
      OnlyItsOwnEvents(s, e, c);
      if !ServerSide(e) && Actor(e) == c {
        OwnLostFetch(s, e, c, p);
      }
    } else {
      SameClients(s, e);
    }
  }

  lemma OwnLostFetch(s: State, e: Event, c: nat, p: Path)
    requires Enabled(s, e) && !HoldsUnfetched(s, c, p) && !ServerSide(e) && Actor(e) == c < |s.clients|
    ensures HoldsUnfetched(Apply(s, e), c, p) <==> e == FetchLost(c, p)
  {
  }

  lemma NamesAreFiles(s: State, c: nat)
    requires Reachable(s) && c < |s.clients|
    ensures WellNamed(ViewOf(s, c))
  {
    forall q | q in s.dir ensures s.dir[q] < |s.files| {
      NamesItsLastPublication(s, q, LastVersion(s.log, q));
    }
  }

  /** A restart changes nothing but the client's temp store, marks and calls. If nothing comes in
      between, the next open of a path the server has then leaves exactly the server's file, clean,
      and it is a run of the protocol. */
  lemma UndisturbedRecovery(s: State, c: nat, p: Path, o: OpenCase) returns (t: State)
    requires Reachable(s) && c < |s.clients| && p in s.dir && o.fetched
    ensures Leads(Apply(s, Restart(c)), t) && OnlyClient(Apply(s, Restart(c)), t, c, p)
    ensures var v := ViewOf(s, c).(temp := map[], dirty := {});
            WellNamed(v) && ViewOf(t, c) == AfterOpen(v, p, o, s.clock) == AfterFetch(v, p, s.clock)
  {
    NamesAreFiles(s, c);
    var u := Apply(s, Restart(c));
    assert ViewOf(u, c) == ViewOf(s, c).(temp := map[], dirty := {});
    t := OpenIsARun(u, c, p, o);
  }

  lemma RestartKeepsClients(s: State, c: nat, p: Path)
    requires Enabled(s, FlushBegin(c, p))
    ensures var u := Apply(s, ServerRestart);
            Enabled(u, FlushBegin(c, p)) && u.lock.None? && u.clock == s.clock && u.clients == s.clients
  {
  }

  /** A restart of the server undoes what a failed rename leaves behind: whoever held the lock, any flush
      can run to its end afterwards. */
  lemma RestartedServerTakesFlushes(s: State, c: nat, p: Path) returns (t: State)
    requires Enabled(s, FlushBegin(c, p))
    ensures Leads(Apply(s, ServerRestart), t) && OnlyClient(Apply(s, ServerRestart), t, c, p)
    ensures ViewOf(t, c) == AfterFlush(ViewOf(Apply(s, ServerRestart), c), p, s.clock)
  {
    RestartKeepsClients(s, c, p);
    t := FlushIsARun(Apply(s, ServerRestart), c, p);
  }
}
