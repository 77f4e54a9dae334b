/** What a state holds, told from the list of events that led there and not from what the events do
    to states: the second of an event is the number of ticks before it. */
module Histories {
  import opened Bytes
  import opened Protocol
  import opened ProtocolInvariant
  import opened ProtocolTheorems
  import opened Runs

  function Ticks(es: seq<Event>): nat {
    if es == [] then 0
    else Ticks(es[..|es| - 1]) + if es[|es| - 1].Tick? then 1 else 0
  }

  /** The second in which event `i` of a run happens. */
  function Second(clock: int, es: seq<Event>, i: nat): int
    requires i <= |es|
  {
    clock + Ticks(es[..i])
  }

  lemma OnlyTicksMoveTheClock(s: State, e: Event)
    requires Enabled(s, e)
    ensures Apply(s, e).clock == s.clock + if e.Tick? then 1 else 0
  {
  }

  lemma {:induction false} ClockIsTicks(s: State, n: nat, clock: int, es: seq<Event>)
    requires ReachableBy(s, n, clock, es)
    ensures s.clock == Second(clock, es, |es|)
    decreases |es|
  {
    assert es[..|es|] == es;
    if es != [] {
      var u := LastStep(Init(n, clock), es, s);
      ClockIsTicks(u, n, clock, es[..|es| - 1]);
      assert es[..|es| - 1][..|es| - 1] == es[..|es| - 1];
      OnlyTicksMoveTheClock(u, es[|es| - 1]);
    }
  }

  /** The seconds of a run are those of any longer one. */
  lemma SecondStays(clock: int, es: seq<Event>, e: Event, i: nat)
    requires i <= |es|
    ensures Second(clock, es + [e], i) == Second(clock, es, i)
  {
    assert (es + [e])[..i] == es[..i];
  }

  // ---- The temp file --------------------------------------------------------------------------

  /** Events that make, change, re-time or remove the client's temp file of the path. A write of no
      bytes does nothing to it. */
  predicate Touches(e: Event, c: nat, p: Path) {
    || (e.Write? && e.c == c && e.path == p && e.data != [])
    || e == OpenCreate(c, p) || e == FetchDone(c, p) || e == FetchLost(c, p)
    || e == Commit(c, p) || e == DropTemp(c, p) || e == Restart(c)
  }

  predicate Removes(e: Event, c: nat, p: Path) {
    e == DropTemp(c, p) || e == Restart(c)
  }

  /** The last event that touched the temp file, or -1. */
  function LastTouch(es: seq<Event>, c: nat, p: Path): (i: int)
    ensures -1 <= i < |es|
    ensures i >= 0 ==> Touches(es[i], c, p)
    ensures forall j :: i < j < |es| ==> !Touches(es[j], c, p)
  {
    if es == [] then -1
    else if Touches(es[|es| - 1], c, p) then |es| - 1
    else LastTouch(es[..|es| - 1], c, p)
  }

  /** The event a copy comes from. */
  predicate Made(e: Event, c: nat, p: Path, origin: Origin) {
    match origin
    case Local => (e.Write? && e.c == c && e.path == p && e.data != []) || e == OpenCreate(c, p)
    case Unfetched => e == FetchLost(c, p)
    case Fetched(_, _) => e == FetchDone(c, p)
    case Committed(_, _) => e == Commit(c, p)
  }

  predicate SameFile(before: Client, after: Client, p: Path) {
    && (p in after.temp <==> p in before.temp)
    && (p in after.temp ==> after.temp[p] == before.temp[p])
  }

  predicate Touched(after: Client, e: Event, c: nat, p: Path, now: int) {
    && (p in after.temp <==> !Removes(e, c, p))
    && (p in after.temp ==> Made(e, c, p, after.temp[p].origin)
                            && (!after.temp[p].origin.Committed? ==> after.temp[p].mtime == now))
  }

  lemma UntouchedIsSame(s: State, e: Event, c: nat, p: Path)
    requires Enabled(s, e) && c < |s.clients| == |Apply(s, e).clients| && !Touches(e, c, p)
    ensures SameFile(s.clients[c], Apply(s, e).clients[c], p)
  {
    OnlyItsOwnEvents(s, e, c);
    if !ServerSide(e) && Actor(e) == c {
      OwnUntouchedIsSame(s, e, c, p);
    }
  }

  lemma OwnUntouchedIsSame(s: State, e: Event, c: nat, p: Path)
    requires Enabled(s, e) && c < |s.clients| == |Apply(s, e).clients| && !Touches(e, c, p)
    requires !ServerSide(e) && Actor(e) == c
    ensures SameFile(s.clients[c], Apply(s, e).clients[c], p)
  {
  }

  lemma TouchSetsTheTime(s: State, e: Event, c: nat, p: Path)
    requires Enabled(s, e) && c < |s.clients| == |Apply(s, e).clients| && Touches(e, c, p)
    ensures Touched(Apply(s, e).clients[c], e, c, p, s.clock)
  {
  }

  /** A client has a temp file of a path exactly if the last event that touched it was not a removal;
      the file is what that event made it, and its time is the second of that event: of the last
      write that stored a byte, of the create, or of the end of the fetch (a commit sets the time
      that the server reported). */
  lemma {:induction false} TempTime(s: State, n: nat, clock: int, es: seq<Event>, c: nat, p: Path)
    requires ReachableBy(s, n, clock, es) && c < |s.clients|
    ensures var i := LastTouch(es, c, p);
            && (p in s.clients[c].temp <==> i >= 0 && !Removes(es[i], c, p))
            && (p in s.clients[c].temp ==>
                  var f := s.clients[c].temp[p];
                  && Made(es[i], c, p, f.origin)
                  && (!f.origin.Committed? ==> f.mtime == Second(clock, es, i)))
    decreases |es|
  {
    if es != [] {
      var u := LastStep(Init(n, clock), es, s);
      var before, e := es[..|es| - 1], es[|es| - 1];
      SameClients(u, e);
      if Touches(e, c, p) {
        TouchSetsTheTime(u, e, c, p);
        ClockIsTicks(u, n, clock, before);
        assert before[..|before|] == before;
      } else {
        TempTime(u, n, clock, before, c, p);
        UntouchedIsSame(u, e, c, p);
        var i := LastTouch(before, c, p);
        if i >= 0 {
          assert es == before + [e];
          SecondStays(clock, before, e, i);
        }
      }
    }
  }

  // ---- The persistent cache and the marks -----------------------------------------------------

  predicate Syncs(e: Event, c: nat, p: Path) {
    e == FetchDone(c, p) || e == Commit(c, p) || e == OpenCreate(c, p)
  }

  function LastSync(es: seq<Event>, c: nat, p: Path): (i: int)
    ensures -1 <= i < |es|
    ensures i >= 0 ==> Syncs(es[i], c, p)
    ensures forall j :: i < j < |es| ==> !Syncs(es[j], c, p)
  {
    if es == [] then -1
    else if Syncs(es[|es| - 1], c, p) then |es| - 1
    else LastSync(es[..|es| - 1], c, p)
  }

  /** A sync copies temp to the cache, and nothing else changes the cache. */
  predicate CacheStep(before: Client, after: Client, e: Event, c: nat, p: Path) {
    if Syncs(e, c, p) then
      p in after.cache && p in after.temp && after.cache[p] == after.temp[p]
    else
      (p in after.cache <==> p in before.cache) && (p in after.cache ==> after.cache[p] == before.cache[p])
  }

  lemma OthersDoNotSync(e: Event, c: nat, p: Path)
    requires ServerSide(e) || Actor(e) != c
    ensures !Syncs(e, c, p)
  {
  }

  lemma EventOnCache(s: State, e: Event, c: nat, p: Path)
    requires Enabled(s, e) && c < |s.clients| == |Apply(s, e).clients|
    ensures CacheStep(s.clients[c], Apply(s, e).clients[c], e, c, p)
  {
    if ServerSide(e) || Actor(e) != c {
      OnlyItsOwnEvents(s, e, c);
      OthersDoNotSync(e, c, p);
    } else {
      OwnEventOnCache(s, e, c, p);
    }
  }

  lemma OwnEventOnCache(s: State, e: Event, c: nat, p: Path)
    requires Enabled(s, e) && c < |s.clients| == |Apply(s, e).clients| && !ServerSide(e) && Actor(e) == c
    ensures CacheStep(s.clients[c], Apply(s, e).clients[c], e, c, p)
  {
    if Syncs(e, c, p) {
      SyncCopiesTemp(s, e, c, p);
    }
  }

  lemma SyncCopiesTemp(s: State, e: Event, c: nat, p: Path)
    requires Enabled(s, e) && c < |s.clients| == |Apply(s, e).clients| && Syncs(e, c, p)
    ensures CacheStep(s.clients[c], Apply(s, e).clients[c], e, c, p)
  {
  }

  /** The cache holds what temp held after the last fetch, commit or create of the path, whatever has
      happened to temp since, restarts included. */
  lemma {:induction false} CacheIsTheLastSync(s: State, n: nat, clock: int, es: seq<Event>, c: nat, p: Path)
    returns (u: State)
    requires ReachableBy(s, n, clock, es) && c < |s.clients|
    ensures var i := LastSync(es, c, p);
            && (p in s.clients[c].cache <==> i >= 0)
            && (i >= 0 ==>
                  && ReachableBy(u, n, clock, es[..i + 1]) && c < |u.clients| && p in u.clients[c].temp
                  && s.clients[c].cache[p] == u.clients[c].temp[p])
    decreases |es|
  {
    u := s;
    if es != [] {
      var w := LastStep(Init(n, clock), es, s);
      var before, e := es[..|es| - 1], es[|es| - 1];
      SameClients(w, e);
      EventOnCache(w, e, c, p);
      if Syncs(e, c, p) {
        assert es[..|es|] == es;
      } else {
        u := CacheIsTheLastSync(w, n, clock, before, c, p);
        var i := LastSync(before, c, p);
        assert i >= 0 ==> before[..i + 1] == es[..i + 1];
      }
    }
  }

  /** Whether the path is marked: a write (whatever it stores) or a create marks it, a commit, a removal
      or a restart unmarks it. */
  function Marked(es: seq<Event>, c: nat, p: Path): bool {
    if es == [] then false
    else
      var e := es[|es| - 1];
      if (e.Write? && e.c == c && e.path == p) || e == WriteGone(c, p) || e == OpenCreate(c, p) then true
      else if e == Commit(c, p) || e == DropTemp(c, p) || e == Restart(c) then false
      else Marked(es[..|es| - 1], c, p)
  }

  lemma EventOnMark(s: State, e: Event, c: nat, p: Path)
    requires Enabled(s, e) && c < |s.clients| == |Apply(s, e).clients|
    ensures p in Apply(s, e).clients[c].dirty <==>
              if (e.Write? && e.c == c && e.path == p) || e == WriteGone(c, p) || e == OpenCreate(c, p) then true
              else if e == Commit(c, p) || e == DropTemp(c, p) || e == Restart(c) then false
              else p in s.clients[c].dirty
  {
    OnlyItsOwnEvents(s, e, c);
    if !ServerSide(e) && Actor(e) == c {
      OwnEventOnMark(s, e, c, p);
    }
  }

  lemma OwnEventOnMark(s: State, e: Event, c: nat, p: Path)
    requires Enabled(s, e) && c < |s.clients| == |Apply(s, e).clients| && !ServerSide(e) && Actor(e) == c
    ensures p in Apply(s, e).clients[c].dirty <==>
              if (e.Write? && e.path == p) || e == WriteGone(c, p) || e == OpenCreate(c, p) then true
              else if e == Commit(c, p) || e == DropTemp(c, p) || e == Restart(c) then false
              else p in s.clients[c].dirty
  {
  }

  lemma {:induction false} DirtyIsMarked(s: State, n: nat, clock: int, es: seq<Event>, c: nat, p: Path)
    requires ReachableBy(s, n, clock, es) && c < |s.clients|
    ensures p in s.clients[c].dirty <==> Marked(es, c, p)
    decreases |es|
  {
    if es != [] {
      var u := LastStep(Init(n, clock), es, s);
      SameClients(u, es[|es| - 1]);
      DirtyIsMarked(u, n, clock, es[..|es| - 1], c, p);
      EventOnMark(u, es[|es| - 1], c, p);
    }
  }
}
