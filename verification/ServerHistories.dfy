/** What the server holds and what it answered, told from the list of events that led there. */
module ServerHistories {
  import opened Bytes
  import opened Transfer
  import opened Protocol
  import opened ProtocolInvariant
  import opened ProtocolTheorems
  import opened Runs
  import opened Origins
  import opened Histories

  // ---- The lock -------------------------------------------------------------------------------

  /** The put that took the lock last, unless it has landed or the server has been restarted since. A
      failed rename gives nothing back. */
  function Holder(es: seq<Event>): Option<nat> {
    if es == [] then None
    else
      var e := es[|es| - 1];
      if e.Acquire? then Some(e.k)
      else if e.Land? || e.ServerRestart? then None
      else Holder(es[..|es| - 1])
  }

  lemma EventOnLock(s: State, e: Event)
    requires Enabled(s, e)
    ensures Apply(s, e).lock == if e.Acquire? then Some(e.k) else if e.Land? || e.ServerRestart? then None else s.lock
  {
  }

  /** The lock is held by exactly that put, and a put can take it only when nobody holds it. */
  lemma {:induction false} LockHasItsHolder(s: State, n: nat, clock: int, es: seq<Event>)
    requires ReachableBy(s, n, clock, es)
    ensures s.lock == Holder(es)
    ensures forall k :: Enabled(s, Acquire(k)) ==> Holder(es).None?
    decreases |es|
  {
    if es != [] {
      var u := LastStep(Init(n, clock), es, s);
      LockHasItsHolder(u, n, clock, es[..|es| - 1]);
      EventOnLock(u, es[|es| - 1]);
    }
  }

  // ---- Publications ---------------------------------------------------------------------------

  predicate Publishing(e: Event) {
    e.Land? || e.ServerCreate?
  }

  /** The events of a run that published something, in order. */
  function PubIndices(es: seq<Event>): (all: seq<nat>)
    ensures forall v :: 0 <= v < |all| ==> all[v] < |es| && Publishing(es[all[v]])
    ensures forall v, w :: 0 <= v < w < |all| ==> all[v] < all[w]
    ensures forall i :: 0 <= i < |es| && Publishing(es[i]) ==> i in all
  {
    if es == [] then []
    else PubIndices(es[..|es| - 1]) + if Publishing(es[|es| - 1]) then [|es| - 1] else []
  }

  /** The last event up to which the bytes of put `k` went to its temp file. */
  predicate Spills(e: Event, k: nat) {
    e == Acquire(k) || e == Receive(k, true) || e == Land(k, true)
  }

  function LastSpill(es: seq<Event>, k: nat): (i: int)
    ensures -1 <= i < |es|
    ensures i >= 0 ==> Spills(es[i], k)
    ensures forall j :: i < j < |es| ==> !Spills(es[j], k)
  {
    if es == [] then -1
    else if Spills(es[|es| - 1], k) then |es| - 1
    else LastSpill(es[..|es| - 1], k)
  }

  predicate ReceivingInto(s: State, k: nat, ino: nat) {
    k < |s.puts| && s.puts[k].stage == Receiving(ino) && ino < |s.files|
  }

  lemma OnlyItsPutWrites(s: State, e: Event, k: nat, ino: nat)
    requires Inv(s) && Enabled(s, e) && e != Acquire(k) && ReceivingInto(Apply(s, e), k, ino)
    ensures ReceivingInto(s, k, ino)
    ensures Apply(s, e).files[ino].mtime == if e == Receive(k, true) then s.clock else s.files[ino].mtime
  {
    StillReceiving(s, e, k, ino);
    assert PutOk(s, k);
    if e.ServerTruncate? {
      assert Names(s, s.creates[e.i].path);
    } else if e.Receive? || e.Land? {
      assert PutOk(s, e.k);
    }
    FileOfReceiver(s, e, k, ino);
  }

  lemma StillReceiving(s: State, e: Event, k: nat, ino: nat)
    requires Inv(s) && Enabled(s, e) && e != Acquire(k) && ReceivingInto(Apply(s, e), k, ino)
    ensures k < |s.puts| && s.puts[k].stage == Receiving(ino)
  {
    if !PutEvent(e) && !e.ServerRestart? {
      OthersKeepPuts(s, e);
    } else {
      WasReceiving(s, e, k, ino);
    }
  }

  lemma WasReceiving(s: State, e: Event, k: nat, ino: nat)
    requires Enabled(s, e) && (PutEvent(e) || e.ServerRestart?) && e != Acquire(k)
    requires ReceivingInto(Apply(s, e), k, ino)
    ensures k < |s.puts| && s.puts[k].stage == Receiving(ino)
  {
  }

  lemma FileOfReceiver(s: State, e: Event, k: nat, ino: nat)
    requires Enabled(s, e) && e != Acquire(k) && ReceivingInto(s, k, ino) && ReceivingInto(Apply(s, e), k, ino)
    requires e.ServerTruncate? ==> s.dir[s.creates[e.i].path] != ino
    requires e.Receive? || e.Land? ==> e.k == k
    ensures Apply(s, e).files[ino].mtime == if e == Receive(k, true) then s.clock else s.files[ino].mtime
  {
  }

  lemma AcquireTime(s: State, k: nat, ino: nat)
    requires Enabled(s, Acquire(k)) && ReceivingInto(Apply(s, Acquire(k)), k, ino)
    ensures Apply(s, Acquire(k)).files[ino].mtime == s.clock
  {
  }

  /** The time of an inode is the second of event `i`. */
  predicate TimedBy(s: State, ino: nat, clock: int, es: seq<Event>, i: int) {
    ino < |s.files| && 0 <= i < |es| && s.files[ino].mtime == Second(clock, es, i)
  }

  lemma SpillsNow(s: State, n: nat, clock: int, es: seq<Event>, e: Event, k: nat, ino: nat)
    requires ReachableBy(s, n, clock, es) && Enabled(s, e) && ReceivingInto(Apply(s, e), k, ino)
    requires e == Acquire(k) || (e == Receive(k, true) && Apply(s, e).files[ino].mtime == s.clock)
    ensures TimedBy(Apply(s, e), ino, clock, es + [e], LastSpill(es + [e], k))
  {
    ClockIsTicks(s, n, clock, es);
    SecondStays(clock, es, e, |es|);
    assert LastSpill(es + [e], k) == |es|;
    if e == Acquire(k) {
      AcquireTime(s, k, ino);
    }
  }

  lemma SpilledBefore(s: State, t: State, clock: int, es: seq<Event>, e: Event, k: nat, ino: nat)
    requires !Spills(e, k) && TimedBy(s, ino, clock, es, LastSpill(es, k))
    requires ino < |t.files| && t.files[ino].mtime == s.files[ino].mtime
    ensures TimedBy(t, ino, clock, es + [e], LastSpill(es + [e], k))
  {
    assert (es + [e])[..|es|] == es;
    SecondStays(clock, es, e, LastSpill(es, k));
  }

  lemma WritingTimeAfter(s: State, n: nat, clock: int, es: seq<Event>, e: Event, k: nat, ino: nat)
    requires ReachableBy(s, n, clock, es) && Enabled(s, e) && ReceivingInto(Apply(s, e), k, ino)
    requires e != Acquire(k) && ReceivingInto(s, k, ino) ==> TimedBy(s, ino, clock, es, LastSpill(es, k))
    ensures TimedBy(Apply(s, e), ino, clock, es + [e], LastSpill(es + [e], k))
  {
    if e == Acquire(k) {
      SpillsNow(s, n, clock, es, e, k, ino);
    } else {
      assert Reachable(s);
      ReachableInv(s);
      OnlyItsPutWrites(s, e, k, ino);
      if e == Receive(k, true) {
        SpillsNow(s, n, clock, es, e, k, ino);
      } else {
        NoLandWhileReceiving(s, e, k, ino);
        SpilledBefore(s, Apply(s, e), clock, es, e, k, ino);
      }
    }
  }

  lemma NoLandWhileReceiving(s: State, e: Event, k: nat, ino: nat)
    requires Enabled(s, e) && ReceivingInto(Apply(s, e), k, ino)
    ensures e != Land(k, true)
  {
  }

  /** The time of a temp file on the server is the second in which bytes last went to it. */
  lemma {:induction false} WritingTime(s: State, n: nat, clock: int, es: seq<Event>, k: nat, ino: nat)
    requires ReachableBy(s, n, clock, es) && ReceivingInto(s, k, ino)
    ensures TimedBy(s, ino, clock, es, LastSpill(es, k))
    decreases |es|
  {
    var u := LastStep(Init(n, clock), es, s);
    var before, e := es[..|es| - 1], es[|es| - 1];
    assert es == before + [e];
    if e != Acquire(k) && ReceivingInto(u, k, ino) {
      WritingTime(u, n, clock, before, k, ino);
    }
    WritingTimeAfter(u, n, clock, before, e, k, ino);
  }

  /** What the run says about version `v`, which event `i` published: when it landed, for whom, and
      in which second its last byte was written. */
  predicate ToldBy(s: State, clock: int, es: seq<Event>, i: nat, x: Version)
    requires i < |es|
  {
    && x.landed == Second(clock, es, i)
    && match es[i]
       case Land(k, _) =>
         && x.source == ByPut(k) && k < |s.puts| && x.path == s.puts[k].path
         && LastSpill(es[..i + 1], k) >= 0 && x.mtime == Second(clock, es, LastSpill(es[..i + 1], k))
       case ServerCreate(j) =>
         && x.source == ByCreate && j < |s.creates| && x.path == s.creates[j].path
         && x.mtime == x.landed && x.bytes == []
       case _ => false
  }

  lemma EventOnLog(s: State, e: Event)
    requires Enabled(s, e)
    ensures |Apply(s, e).log| == |s.log| + if Publishing(e) then 1 else 0
    ensures s.log <= Apply(s, e).log
  {
    EventAdvances(s, e);
    if !Publishing(e) {
      OthersKeepTheLog(s, e);
    }
  }

  lemma OthersKeepTheLog(s: State, e: Event)
    requires Enabled(s, e) && !Publishing(e)
    ensures Apply(s, e).log == s.log
  {
  }

  lemma CreatesStay(s: State, e: Event)
    requires Enabled(s, e)
    ensures |s.creates| <= |Apply(s, e).creates|
    ensures forall j :: 0 <= j < |s.creates| ==> Apply(s, e).creates[j].path == s.creates[j].path
  {
  }

  lemma StillToldBy(s: State, t: State, clock: int, es: seq<Event>, e: Event, i: nat, x: Version)
    requires i < |es| && ToldBy(s, clock, es, i, x) && CallsGoOn(s, t)
    requires |s.creates| <= |t.creates| && forall j :: 0 <= j < |s.creates| ==> t.creates[j].path == s.creates[j].path
    ensures ToldBy(t, clock, es + [e], i, x)
  {
    assert (es + [e])[..i + 1] == es[..i + 1];
    SecondStays(clock, es, e, i);
    if es[i].Land? {
      SecondStays(clock, es, e, LastSpill(es[..i + 1], es[i].k));
      assert SameCall(s.puts[es[i].k], t.puts[es[i].k]);
    }
  }

  lemma LastSpillOfLand(es: seq<Event>, k: nat, spill: bool)
    ensures LastSpill(es + [Land(k, spill)], k) == if spill then |es| else LastSpill(es, k)
  {
    assert (es + [Land(k, spill)])[..|es|] == es;
  }

  lemma LandIsTold(s: State, n: nat, clock: int, es: seq<Event>, k: nat, spill: bool)
    requires ReachableBy(s, n, clock, es) && Enabled(s, Land(k, spill))
    ensures var t := Apply(s, Land(k, spill));
            |t.log| == |s.log| + 1 && ToldBy(t, clock, es + [Land(k, spill)], |es|, t.log[|s.log|])
  {
    var e := Land(k, spill);
    var all := es + [e];
    ClockIsTicks(s, n, clock, es);
    WritingTime(s, n, clock, es, k, s.puts[k].stage.ino);
    assert all[..|es| + 1] == all && all[..|es|] == es == es[..|es|];
    LastSpillOfLand(es, k, spill);
    if !spill {
      SecondStays(clock, es, e, LastSpill(es, k));
    }
  }

  lemma CreateIsTold(s: State, n: nat, clock: int, es: seq<Event>, j: nat)
    requires ReachableBy(s, n, clock, es) && Enabled(s, ServerCreate(j))
    ensures var t := Apply(s, ServerCreate(j));
            |t.log| == |s.log| + 1 && ToldBy(t, clock, es + [ServerCreate(j)], |es|, t.log[|s.log|])
  {
    ClockIsTicks(s, n, clock, es);
    assert (es + [ServerCreate(j)])[..|es|] == es == es[..|es|];
  }

  ghost predicate AllTold(s: State, clock: int, es: seq<Event>) {
    && |s.log| == |PubIndices(es)|
    && forall v :: 0 <= v < |s.log| ==> ToldBy(s, clock, es, PubIndices(es)[v], s.log[v])
  }

  lemma OldAreStillTold(s: State, clock: int, es: seq<Event>, e: Event)
    requires AllTold(s, clock, es) && Enabled(s, e)
    ensures var t := Apply(s, e);
            forall v :: 0 <= v < |s.log| ==> v < |t.log| && ToldBy(t, clock, es + [e], PubIndices(es)[v], t.log[v])
  {
    var t := Apply(s, e);
    EventOnLog(s, e);
    EventKeepsCalls(s, e);
    CreatesStay(s, e);
    forall v | 0 <= v < |s.log| ensures v < |t.log| && ToldBy(t, clock, es + [e], PubIndices(es)[v], t.log[v]) {
      StillToldBy(s, t, clock, es, e, PubIndices(es)[v], s.log[v]);
      assert t.log[v] == s.log[v];
    }
  }

  lemma NewIsTold(s: State, n: nat, clock: int, es: seq<Event>, e: Event)
    requires ReachableBy(s, n, clock, es) && Enabled(s, e) && Publishing(e)
    ensures var t := Apply(s, e);
            |t.log| == |s.log| + 1 && ToldBy(t, clock, es + [e], |es|, t.log[|s.log|])
  {
    if e.Land? {
      LandIsTold(s, n, clock, es, e.k, e.spill);
    } else {
      CreateIsTold(s, n, clock, es, e.i);
    }
  }

  lemma PubSnoc(es: seq<Event>, e: Event)
    ensures PubIndices(es + [e]) == PubIndices(es) + if Publishing(e) then [|es|] else []
  {
    assert (es + [e])[..|es|] == es;
  }

  lemma AllToldAfter(s: State, n: nat, clock: int, es: seq<Event>, e: Event)
    requires ReachableBy(s, n, clock, es) && Enabled(s, e) && AllTold(s, clock, es)
    ensures AllTold(Apply(s, e), clock, es + [e])
  {
    var t := Apply(s, e);
    OldAreStillTold(s, clock, es, e);
    EventOnLog(s, e);
    PubSnoc(es, e);
    if Publishing(e) {
      NewIsTold(s, n, clock, es, e);
    }
    forall v | 0 <= v < |t.log| ensures ToldBy(t, clock, es + [e], PubIndices(es + [e])[v], t.log[v]) {
      if v < |s.log| {
        assert PubIndices(es + [e])[v] == PubIndices(es)[v];
      }
    }
  }

  /** The publications of a run are exactly what its renames and creates published, in order: each
      landed in the second of its event, and its time is the second in which its last byte was
      written, which is one before the rename for a put whose stream had been written through. */
  lemma {:induction false} PublicationsAreTold(s: State, n: nat, clock: int, es: seq<Event>)
    requires ReachableBy(s, n, clock, es)
    ensures AllTold(s, clock, es)
    decreases |es|
  {
    if es != [] {
      var u := LastStep(Init(n, clock), es, s);
      PublicationsAreTold(u, n, clock, es[..|es| - 1]);
      AllToldAfter(u, n, clock, es[..|es| - 1], es[|es| - 1]);
      assert es == es[..|es| - 1] + [es[|es| - 1]];
    }
  }

  // ---- Names ----------------------------------------------------------------------------------

  lemma EventOnName(s: State, e: Event, p: Path)
    requires Enabled(s, e)
    ensures var t := Apply(s, e);
            && |t.log| == |s.log| + (if Publishing(e) then 1 else 0) && s.log <= t.log
            && (p in t.dir <==> (Publishing(e) && t.log[|s.log|].path == p) || (p in s.dir && e != ServerUnlink(p)))
  {
    EventOnLog(s, e);
  }

  /** Something was published under the path and it has not been unlinked since. */
  predicate PublishedSince(log: seq<Version>, es: seq<Event>, p: Path)
    requires |log| == |PubIndices(es)|
  {
    && LastVersion(log, p) >= 0
    && forall j :: PubIndices(es)[LastVersion(log, p)] < j < |es| ==> es[j] != ServerUnlink(p)
  }

  lemma PublishedAfter(log: seq<Version>, more: seq<Version>, es: seq<Event>, e: Event, p: Path)
    requires |log| == |PubIndices(es)| && log <= more && |more| == |log| + if Publishing(e) then 1 else 0
    ensures |more| == |PubIndices(es + [e])|
    ensures PublishedSince(more, es + [e], p) <==>
              (Publishing(e) && more[|log|].path == p) || (PublishedSince(log, es, p) && e != ServerUnlink(p))
  {
    PubSnoc(es, e);
    LastVersionAfter(log, more, p);
    var v := LastVersion(log, p);
    if !(Publishing(e) && more[|log|].path == p) && v >= 0 {
      SameAfter(es, e, p, PubIndices(es)[v]);
    }
  }

  lemma SameAfter(es: seq<Event>, e: Event, p: Path, i: nat)
    requires i < |es|
    ensures (forall j :: i < j < |es + [e]| ==> (es + [e])[j] != ServerUnlink(p)) <==>
              e != ServerUnlink(p) && forall j :: i < j < |es| ==> es[j] != ServerUnlink(p)
  {
    var all := es + [e];
    assert all[|es|] == e && forall j :: 0 <= j < |es| ==> all[j] == es[j];
  }

  /** A path has a file exactly if something was published under it and it has not been unlinked since
      the last publication. */
  lemma {:induction false} NamedUntilUnlinked(s: State, n: nat, clock: int, es: seq<Event>, p: Path)
    requires ReachableBy(s, n, clock, es)
    ensures |s.log| == |PubIndices(es)|
    ensures p in s.dir <==> PublishedSince(s.log, es, p)
    decreases |es|
  {
    if es != [] {
      var u := LastStep(Init(n, clock), es, s);
      var before, e := es[..|es| - 1], es[|es| - 1];
      NamedUntilUnlinked(u, n, clock, before, p);
      EventOnName(u, e, p);
      PublishedAfter(u.log, s.log, before, e, p);
      assert es == before + [e];
    }
  }

  lemma LastVersionAfter(log: seq<Version>, more: seq<Version>, p: Path)
    requires log <= more && |more| <= |log| + 1
    ensures LastVersion(more, p) == if |more| > |log| && more[|log|].path == p then |log| else LastVersion(log, p)
  {
    if |more| > |log| {
      assert more == log + [more[|log|]];
      LastVersionSnoc(log, more[|log|], p);
    } else {
      assert more == log;
    }
  }

  // ---- Cuts -----------------------------------------------------------------------------------

  /** The paths for which creates found no file, in order. */
  function CreatePaths(es: seq<Event>): seq<Path> {
    if es == [] then []
    else CreatePaths(es[..|es| - 1]) + if es[|es| - 1].ServerMiss? then [es[|es| - 1].path] else []
  }

  predicate SamePaths(creates: seq<Creation>, paths: seq<Path>) {
    |creates| == |paths| && forall i :: 0 <= i < |paths| ==> creates[i].path == paths[i]
  }

  lemma EventOnCreates(s: State, e: Event, paths: seq<Path>)
    requires Enabled(s, e) && SamePaths(s.creates, paths)
    ensures SamePaths(Apply(s, e).creates, paths + if e.ServerMiss? then [e.path] else [])
  {
  }

  lemma {:induction false} CreatesAreMisses(s: State, n: nat, clock: int, es: seq<Event>)
    requires ReachableBy(s, n, clock, es)
    ensures SamePaths(s.creates, CreatePaths(es))
    decreases |es|
  {
    if es != [] {
      var u := LastStep(Init(n, clock), es, s);
      CreatesAreMisses(u, n, clock, es[..|es| - 1]);
      EventOnCreates(u, es[|es| - 1], CreatePaths(es[..|es| - 1]));
    }
  }

  /** The create behind the event found no file under this path, and it opens with a cut. */
  predicate CutsAt(e: Event, paths: seq<Path>, p: Path) {
    e.ServerTruncate? && e.i < |paths| && paths[e.i] == p
  }

  /** The last event that cut the file of the path in place, or -1. */
  function LastCut(es: seq<Event>, p: Path): (i: int)
    ensures -1 <= i < |es|
  {
    if es == [] then -1
    else if CutsAt(es[|es| - 1], CreatePaths(es), p) then |es| - 1
    else LastCut(es[..|es| - 1], p)
  }

  predicate SameTear(s: State, t: State, ino: nat) {
    && (ino in t.torn <==> ino in s.torn)
    && (ino in t.torn ==> t.torn[ino] == s.torn[ino])
  }

  lemma PublishedFileIsWhole(s: State, e: Event)
    requires Inv(s) && Enabled(s, e) && Publishing(e)
    ensures var t := Apply(s, e);
            |t.log| == |s.log| + 1 && var p := t.log[|s.log|].path; p in t.dir && t.dir[p] !in t.torn
  {
    if e.Land? {
      assert PutOk(s, e.k);
    }
  }

  lemma OnlyTruncatesTear(s: State, e: Event, ino: nat)
    requires Enabled(s, e) && !e.ServerTruncate?
    ensures SameTear(s, Apply(s, e), ino)
  {
  }

  lemma OtherNamesOtherFile(s: State, p: Path, q: Path)
    requires LogOk(s) && p in s.dir && q in s.dir && Names(s, p) && Names(s, q) && p != q
    ensures s.dir[p] != s.dir[q]
  {
    var v, w := LastVersion(s.log, p), LastVersion(s.log, q);
    if v < w {
      assert InOrder(s.log[v], s.log[w]);
    } else {
      assert InOrder(s.log[w], s.log[v]);
    }
  }

  lemma TruncateTears(s: State, i: nat, p: Path)
    requires Inv(s) && Enabled(s, ServerTruncate(i)) && p in s.dir
    ensures var t := Apply(s, ServerTruncate(i));
            if s.creates[i].path == p then s.dir[p] in t.torn && t.torn[s.dir[p]] == s.clock
            else SameTear(s, t, s.dir[p])
  {
    if s.creates[i].path != p {
      assert Names(s, p) && Names(s, s.creates[i].path);
      OtherNamesOtherFile(s, p, s.creates[i].path);
    }
  }

  lemma EventOnTear(s: State, e: Event, p: Path)
    requires Inv(s) && Enabled(s, e) && p in s.dir
    ensures var t := Apply(s, e);
            if e.ServerTruncate? && s.creates[e.i].path == p then s.dir[p] in t.torn && t.torn[s.dir[p]] == s.clock
            else SameTear(s, t, s.dir[p])
  {
    if e.ServerTruncate? {
      TruncateTears(s, e.i, p);
    } else {
      OnlyTruncatesTear(s, e, s.dir[p]);
    }
  }

  lemma EventOnDir(s: State, e: Event, p: Path)
    requires Enabled(s, e) && p in Apply(s, e).dir
    ensures var t := Apply(s, e);
            |t.log| == |s.log| + (if Publishing(e) then 1 else 0)
            && ((Publishing(e) && t.log[|s.log|].path == p) || (p in s.dir && t.dir[p] == s.dir[p]))
  {
    EventOnLog(s, e);
  }

  /** Whether the file of the path has been cut since it was published, and when. */
  predicate TornBy(s: State, clock: int, es: seq<Event>, p: Path)
    requires |s.log| == |PubIndices(es)|
  {
    p in s.dir ==>
      && LastVersion(s.log, p) >= 0
      && var j := LastCut(es, p);
         && (s.dir[p] in s.torn <==> j > PubIndices(es)[LastVersion(s.log, p)])
         && (s.dir[p] in s.torn ==> s.torn[s.dir[p]] == Second(clock, es, j))
  }

  lemma CutSnoc(es: seq<Event>, e: Event, p: Path)
    ensures LastCut(es + [e], p) == if CutsAt(e, CreatePaths(es), p) then |es| else LastCut(es, p)
  {
    assert (es + [e])[..|es|] == es;
    if e.ServerTruncate? {
      assert CreatePaths(es + [e]) == CreatePaths(es);
    }
  }

  lemma TornAfterPublication(s: State, clock: int, es: seq<Event>, e: Event, p: Path)
    requires Inv(s) && Enabled(s, e) && Publishing(e) && |s.log| == |PubIndices(es)|
    requires |Apply(s, e).log| == |s.log| + 1 && s.log <= Apply(s, e).log && Apply(s, e).log[|s.log|].path == p
    ensures |Apply(s, e).log| == |PubIndices(es + [e])| && TornBy(Apply(s, e), clock, es + [e], p)
  {
    PubSnoc(es, e);
    CutSnoc(es, e, p);
    PublishedFileIsWhole(s, e);
    LastVersionAfter(s.log, Apply(s, e).log, p);
  }

  lemma TornAfterOther(s: State, clock: int, es: seq<Event>, e: Event, p: Path)
    requires Inv(s) && Enabled(s, e) && |s.log| == |PubIndices(es)| && SamePaths(s.creates, CreatePaths(es))
    requires s.clock == Second(clock, es, |es|) && TornBy(s, clock, es, p)
    requires p in s.dir && p in Apply(s, e).dir && Apply(s, e).dir[p] == s.dir[p]
    requires |Apply(s, e).log| == |s.log| + (if Publishing(e) then 1 else 0) && s.log <= Apply(s, e).log
    requires LastVersion(Apply(s, e).log, p) == LastVersion(s.log, p)
    ensures |Apply(s, e).log| == |PubIndices(es + [e])| && TornBy(Apply(s, e), clock, es + [e], p)
  {
    PubSnoc(es, e);
    CutSnoc(es, e, p);
    EventOnTear(s, e, p);
    assert PubIndices(es + [e])[LastVersion(s.log, p)] == PubIndices(es)[LastVersion(s.log, p)];
    if CutsAt(e, CreatePaths(es), p) {
      SecondStays(clock, es, e, |es|);
    } else if LastCut(es, p) >= 0 {
      SecondStays(clock, es, e, LastCut(es, p));
    }
  }

  lemma TornAfter(s: State, clock: int, es: seq<Event>, e: Event, p: Path)
    requires Inv(s) && Enabled(s, e) && |s.log| == |PubIndices(es)| && SamePaths(s.creates, CreatePaths(es))
    requires s.clock == Second(clock, es, |es|) && TornBy(s, clock, es, p) && p in Apply(s, e).dir
    ensures |Apply(s, e).log| == |PubIndices(es + [e])| && TornBy(Apply(s, e), clock, es + [e], p)
  {
    EventOnDir(s, e, p);
    EventOnLog(s, e);
    if Publishing(e) && Apply(s, e).log[|s.log|].path == p {
      TornAfterPublication(s, clock, es, e, p);
    } else {
      LastVersionAfter(s.log, Apply(s, e).log, p);
      TornAfterOther(s, clock, es, e, p);
    }
  }

  lemma TornStep(s: State, n: nat, clock: int, es: seq<Event>, e: Event, p: Path)
    requires ReachableBy(s, n, clock, es) && Enabled(s, e) && |s.log| == |PubIndices(es)| && TornBy(s, clock, es, p)
    ensures |Apply(s, e).log| == |PubIndices(es + [e])| && TornBy(Apply(s, e), clock, es + [e], p)
  {
    EventOnLog(s, e);
    PubSnoc(es, e);
    if p in Apply(s, e).dir {
      CreatesAreMisses(s, n, clock, es);
      ClockIsTicks(s, n, clock, es);
      assert Reachable(s);
      ReachableInv(s);
      TornAfter(s, clock, es, e, p);
    }
  }

  /** The file under a path has been cut in place exactly if a create that had found none opened it
      with a cut since its publication; it was cut last in the second of the last such open. */
  lemma {:induction false} TornSinceItsPublication(s: State, n: nat, clock: int, es: seq<Event>, p: Path)
    requires ReachableBy(s, n, clock, es)
    ensures |s.log| == |PubIndices(es)| && TornBy(s, clock, es, p)
    decreases |es|
  {
    if es != [] {
      var u := LastStep(Init(n, clock), es, s);
      TornSinceItsPublication(u, n, clock, es[..|es| - 1], p);
      TornStep(u, n, clock, es[..|es| - 1], es[|es| - 1], p);
      assert es == es[..|es| - 1] + [es[|es| - 1]];
    }
  }

  // ---- Answers --------------------------------------------------------------------------------

  predicate Opened(read: Read) {
    read.stage.Sending? || read.stage.Finished?
  }

  lemma RestartKeepsReads(s: State, r: nat)
    requires r < |s.fetches| && Opened(Apply(s, ServerRestart).fetches[r])
    ensures Apply(s, ServerRestart).fetches[r] == s.fetches[r]
  {
  }

  predicate ReadEvent(e: Event) {
    e.OpenFetch? || e.ServerOpen? || e.ReadChunk? || e.ServerRestart?
  }

  lemma OthersKeepReads(s: State, e: Event)
    requires Enabled(s, e) && !ReadEvent(e)
    ensures Apply(s, e).fetches == s.fetches
  {
  }

  predicate SameStream(a: Read, b: Read) {
    Opened(a) && Opened(b) && a.path == b.path && a.taken == b.taken && a.stage.ver == b.stage.ver
  }

  lemma ReadEventGoesOn(s: State, e: Event, r: nat)
    requires Enabled(s, e) && ReadEvent(e) && !e.ServerRestart? && e != ServerOpen(r)
    requires r < |Apply(s, e).fetches| && Opened(Apply(s, e).fetches[r])
    ensures r < |s.fetches| && SameStream(s.fetches[r], Apply(s, e).fetches[r])
  {
  }

  lemma ReadGoesOn(s: State, e: Event, r: nat)
    requires Enabled(s, e) && r < |Apply(s, e).fetches| && Opened(Apply(s, e).fetches[r]) && e != ServerOpen(r)
    ensures r < |s.fetches| && SameStream(s.fetches[r], Apply(s, e).fetches[r])
  {
    if e.ServerRestart? {
      RestartKeepsReads(s, r);
    } else if ReadEvent(e) {
      ReadEventGoesOn(s, e, r);
    } else {
      OthersKeepReads(s, e);
    }
  }

  lemma OpenSees(s: State, r: nat)
    requires Enabled(s, ServerOpen(r))
    ensures var a, b := s.fetches[r], Apply(s, ServerOpen(r)).fetches[r];
            && a.path == b.path && b.taken == s.clock && Opened(b)
            && b.stage.ver == if a.path in s.dir then LastVersion(s.log, a.path) else -1
  {
  }

  /** A stream belongs to the publication that the path had when the server opened it, in the second
      of that event. */
  lemma {:induction false} ReadSeesWhatWasCurrent(s: State, n: nat, clock: int, es: seq<Event>, r: nat)
    returns (j: nat, u: State)
    requires ReachableBy(s, n, clock, es) && r < |s.fetches| && Opened(s.fetches[r])
    ensures j < |es| && es[j] == ServerOpen(r) && ReachableBy(u, n, clock, es[..j])
    ensures var read := s.fetches[r];
            && read.taken == Second(clock, es, j)
            && read.stage.ver == if read.path in u.dir then LastVersion(u.log, read.path) else -1
    decreases |es|
  {
    var w := LastStep(Init(n, clock), es, s);
    var before, e := es[..|es| - 1], es[|es| - 1];
    assert es == before + [e];
    if e == ServerOpen(r) {
      j, u := |before|, w;
      OpenSees(w, r);
      ClockIsTicks(w, n, clock, before);
      assert es[..j] == before == before[..j];
    } else {
      ReadGoesOn(w, e, r);
      j, u := ReadSeesWhatWasCurrent(w, n, clock, before, r);
      SecondStays(clock, before, e, j);
      assert es[..j] == before[..j];
    }
  }

  predicate SameReply(a: Put, b: Put) {
    a.stage == b.stage && a.path == b.path
  }

  lemma RestartKeepsReply(s: State, k: nat)
    requires k < |s.puts| && Apply(s, ServerRestart).puts[k].stage.Replied?
    ensures SameReply(s.puts[k], Apply(s, ServerRestart).puts[k])
  {
  }

  lemma PutEventKeepsReply(s: State, e: Event, k: nat)
    requires Enabled(s, e) && PutEvent(e) && e != Stat(k)
    requires k < |Apply(s, e).puts| && Apply(s, e).puts[k].stage.Replied?
    ensures k < |s.puts| && SameReply(s.puts[k], Apply(s, e).puts[k])
  {
  }

  lemma ReplyGoesOn(s: State, e: Event, k: nat)
    requires Enabled(s, e) && k < |Apply(s, e).puts| && Apply(s, e).puts[k].stage.Replied? && e != Stat(k)
    ensures k < |s.puts| && SameReply(s.puts[k], Apply(s, e).puts[k])
  {
    if e.ServerRestart? {
      RestartKeepsReply(s, k);
    } else if PutEvent(e) {
      PutEventKeepsReply(s, e, k);
    } else {
      OthersKeepPuts(s, e);
    }
  }

  /** The reply to a put carries the time of whatever the path named when the `lstat` looked. */
  lemma {:induction false} ReplyIsWhatStatSaw(s: State, n: nat, clock: int, es: seq<Event>, k: nat)
    returns (j: nat, u: State)
    requires ReachableBy(s, n, clock, es) && k < |s.puts| && s.puts[k].stage.Replied?
    ensures j < |es| && es[j] == Stat(k) && ReachableBy(u, n, clock, es[..j])
    ensures var put := s.puts[k];
            && Exists(u, put.path)
            && put.stage.stat == LastVersion(u.log, put.path)
            && put.stage.mtime == u.files[u.dir[put.path]].mtime
    decreases |es|
  {
    var w := LastStep(Init(n, clock), es, s);
    var before, e := es[..|es| - 1], es[|es| - 1];
    assert es == before + [e];
    if e == Stat(k) {
      j, u := |before|, w;
      assert es[..j] == before;
    } else {
      ReplyGoesOn(w, e, k);
      j, u := ReplyIsWhatStatSaw(w, n, clock, before, k);
      assert es[..j] == before[..j];
    }
  }

  /** The state before event `i` of a run. */
  lemma {:induction false} StateBefore(s: State, n: nat, clock: int, es: seq<Event>, i: nat) returns (u: State, t: State)
    requires ReachableBy(s, n, clock, es) && i < |es|
    ensures ReachableBy(u, n, clock, es[..i]) && Enabled(u, es[i])
    ensures t == Apply(u, es[i]) && ReachableBy(t, n, clock, es[..i + 1])
    decreases |es|
  {
    var w := LastStep(Init(n, clock), es, s);
    if i == |es| - 1 {
      assert es[..i + 1] == es;
      u, t := w, s;
    } else {
      u, t := StateBefore(w, n, clock, es[..|es| - 1], i);
      assert es[..|es| - 1][..i] == es[..i] && es[..|es| - 1][..i + 1] == es[..i + 1];
    }
  }

  lemma {:induction false} SinceItsTouch(s: State, n: nat, clock: int, es: seq<Event>, c: nat, p: Path) returns (t: State)
    requires ReachableBy(s, n, clock, es) && c < |s.clients| && p in s.clients[c].temp
    ensures LastTouch(es, c, p) >= 0 && ReachableBy(t, n, clock, es[..LastTouch(es, c, p) + 1])
    ensures |t.clients| == |s.clients| && SameFile(t.clients[c], s.clients[c], p)
    decreases |es|
  {
    TempTime(s, n, clock, es, c, p);
    var u := LastStep(Init(n, clock), es, s);
    var before, e := es[..|es| - 1], es[|es| - 1];
    SameClients(u, e);
    if Touches(e, c, p) {
      t := s;
      assert es[..|es|] == es;
    } else {
      UntouchedIsSame(u, e, c, p);
      t := SinceItsTouch(u, n, clock, before, c, p);
      assert before[..LastTouch(before, c, p) + 1] == es[..LastTouch(before, c, p) + 1];
    }
  }

  lemma CommitGives(s: State, c: nat, p: Path)
    requires Enabled(s, Commit(c, p))
    ensures var t, put := Apply(s, Commit(c, p)), s.puts[s.clients[c].task[p].put];
            && p in t.clients[c].temp
            && t.clients[c].temp[p].mtime == put.stage.mtime && t.clients[c].temp[p].bytes == s.clients[c].temp[p].bytes
  {
  }

  lemma CommittedItsPut(s: State, c: nat, p: Path)
    requires Inv(s) && Enabled(s, Commit(c, p))
    ensures var put := s.puts[s.clients[c].task[p].put];
            put.path == p && put.client == c && s.clients[c].temp[p].bytes == put.snapshot
  {
    assert ClientOk(s, c, s.clients[c]);
    assert TaskOk(s, c, p, s.clients[c].task[p], s.clients[c]);
  }

  /** The commit that made a committed file, and the state before it. */
  lemma ItsCommit(s: State, n: nat, clock: int, es: seq<Event>, c: nat, p: Path) returns (t: State)
    requires ReachableBy(s, n, clock, es) && c < |s.clients|
    requires p in s.clients[c].temp && s.clients[c].temp[p].origin.Committed?
    ensures var i := LastTouch(es, c, p);
            i >= 0 && es[i] == Commit(c, p) && ReachableBy(t, n, clock, es[..i])
    ensures Enabled(t, Commit(c, p)) && c < |Apply(t, Commit(c, p)).clients|
    ensures SameFile(Apply(t, Commit(c, p)).clients[c], s.clients[c], p)
  {
    TempTime(s, n, clock, es, c, p);
    var after := SinceItsTouch(s, n, clock, es, c, p);
    var also;
    t, also := StateBefore(s, n, clock, es, LastTouch(es, c, p));
    assert also == after;
  }

  lemma ItsReply(t: State, n: nat, clock: int, es: seq<Event>, c: nat, p: Path) returns (k: nat, j: nat, u: State)
    requires ReachableBy(t, n, clock, es) && Enabled(t, Commit(c, p))
    ensures k < |t.puts| && t.puts[k].path == p && t.puts[k].client == c && k == t.clients[c].task[p].put
    ensures t.clients[c].temp[p].bytes == t.puts[k].snapshot
    ensures j < |es| && es[j] == Stat(k) && ReachableBy(u, n, clock, es[..j])
    ensures Exists(u, p) && t.puts[k].stage.mtime == u.files[u.dir[p]].mtime
  {
    assert Reachable(t);
    ReachableInv(t);
    CommittedItsPut(t, c, p);
    k := t.clients[c].task[p].put;
    j, u := ReplyIsWhatStatSaw(t, n, clock, es, k);
  }

  /** A committed file holds what its client flushed, under the time that the path's file had when the
      server looked, whatever had happened to the path by then. */
  lemma CommittedTime(s: State, n: nat, clock: int, es: seq<Event>, c: nat, p: Path)
    returns (k: nat, j: nat, u: State, t: State)
    requires ReachableBy(s, n, clock, es) && c < |s.clients|
    requires p in s.clients[c].temp && s.clients[c].temp[p].origin.Committed?
    ensures var i := LastTouch(es, c, p);
            && j < i && es[i] == Commit(c, p) && es[j] == Stat(k)
            && ReachableBy(t, n, clock, es[..i]) && ReachableBy(u, n, clock, es[..j])
    ensures k < |t.puts| && t.puts[k].path == p && t.puts[k].client == c
    ensures s.clients[c].temp[p].bytes == t.puts[k].snapshot
    ensures Exists(u, p) && s.clients[c].temp[p].mtime == u.files[u.dir[p]].mtime
  {
    t := ItsCommit(s, n, clock, es, c, p);
    var i := LastTouch(es, c, p);
    k, j, u := ItsReply(t, n, clock, es[..i], c, p);
    CommitGives(t, c, p);
    assert es[..i][..j] == es[..j];
  }

  // ---- What an open decides, by the events of the run -----------------------------------------

  /** The second in which the last byte of version `v` was written. */
  function WrittenAt(clock: int, es: seq<Event>, v: nat): int
    requires v < |PubIndices(es)|
  {
    var i := PubIndices(es)[v];
    Second(clock, es, if es[i].Land? then Max(LastSpill(es[..i + 1], es[i].k), 0) else i)
  }

  /** The second in which the file of a path whose last publication is `v` last changed. */
  function ChangedAt(clock: int, es: seq<Event>, p: Path, v: nat): int
    requires v < |PubIndices(es)|
  {
    if LastCut(es, p) > PubIndices(es)[v] then Second(clock, es, LastCut(es, p)) else WrittenAt(clock, es, v)
  }

  lemma FileIsHeld(s: State, p: Path)
    requires Reachable(s) && p in s.dir
    ensures LastVersion(s.log, p) >= 0 && Exists(s, p)
    ensures var x := s.log[LastVersion(s.log, p)];
            x.ino == s.dir[p] && s.files[s.dir[p]] == Held(s, x)
  {
    var v := LastVersion(s.log, p);
    NamesItsLastPublication(s, p, v);
    ReachableInv(s);
    assert VersionOk(s, s.log[v]);
  }

  lemma WrittenTime(s: State, n: nat, clock: int, es: seq<Event>, v: nat)
    requires ReachableBy(s, n, clock, es) && v < |s.log|
    ensures |s.log| == |PubIndices(es)| && s.log[v].mtime == WrittenAt(clock, es, v)
  {
    PublicationsAreTold(s, n, clock, es);
    assert ToldBy(s, clock, es, PubIndices(es)[v], s.log[v]);
  }

  /** The time of a server file is the second in which its last byte was written, or in which it was
      last cut. */
  lemma FileTime(s: State, n: nat, clock: int, es: seq<Event>, p: Path)
    requires ReachableBy(s, n, clock, es) && p in s.dir
    ensures var v := LastVersion(s.log, p);
            && 0 <= v < |PubIndices(es)| && Exists(s, p)
            && s.files[s.dir[p]].mtime == ChangedAt(clock, es, p, v)
            && (LastCut(es, p) > PubIndices(es)[v] ==> s.files[s.dir[p]].bytes == [])
  {
    assert Reachable(s);
    FileIsHeld(s, p);
    WrittenTime(s, n, clock, es, LastVersion(s.log, p));
    TornSinceItsPublication(s, n, clock, es, p);
  }

  /** Reuse by the events alone: an open reuses a temp file that no commit has re-timed if and only if
      the server's file did not change after the last event that touched the temp file: the last write
      that stored a byte, the create, or the end of the fetch. */
  lemma ReuseIsByTheLastTouch(s: State, n: nat, clock: int, es: seq<Event>, c: nat, p: Path)
    requires ReachableBy(s, n, clock, es) && c < |s.clients| && p in s.dir
    requires p in s.clients[c].temp && !s.clients[c].temp[p].origin.Committed?
    ensures Exists(s, p) && 0 <= LastVersion(s.log, p) < |PubIndices(es)| && LastTouch(es, c, p) >= 0
    ensures Decision(s, c, p) ==
              if ChangedAt(clock, es, p, LastVersion(s.log, p)) <= Second(clock, es, LastTouch(es, c, p)) then 2 else 1
  {
    FileTime(s, n, clock, es, p);
    TempTime(s, n, clock, es, c, p);
  }

  /** A stale copy that was fetched is reused if and only if the newest publication of the path was
      written, and not cut since, no later than the second in which the fetch ended. */
  lemma StaleFetchIsReusedExactly(s: State, n: nat, clock: int, es: seq<Event>, c: nat, p: Path)
    requires ReachableBy(s, n, clock, es) && c < |s.clients| && p in s.dir
    requires p in s.clients[c].temp && s.clients[c].temp[p].origin.Fetched?
    requires s.clients[c].temp[p].origin.ver != LastVersion(s.log, p)
    ensures Exists(s, p) && 0 <= LastVersion(s.log, p) < |PubIndices(es)|
    ensures var i, v := LastTouch(es, c, p), LastVersion(s.log, p);
            && i >= 0 && es[i] == FetchDone(c, p)
            && s.clients[c].temp[p].mtime == Second(clock, es, i)
            && (Decision(s, c, p) == 2 <==> ChangedAt(clock, es, p, v) <= Second(clock, es, i))
            && (s.dir[p] !in s.torn ==> ChangedAt(clock, es, p, v) == WrittenAt(clock, es, v))
  {
    TempTime(s, n, clock, es, c, p);
    ReuseIsByTheLastTouch(s, n, clock, es, c, p);
    TornSinceItsPublication(s, n, clock, es, p);
  }

  /** An open drops unflushed writes if and only if the server's file changed after the last of those
      writes that stored a byte (or after the create, if there was none). The writes are then lost,
      the mark stays, and the next flush sends the server's own file back, cut at its first zero
      byte. */
  lemma UnflushedWritesAreDroppedExactly(s: State, n: nat, clock: int, es: seq<Event>, c: nat, p: Path)
    returns (t: State)
    requires ReachableBy(s, n, clock, es) && Idle(s, c, p) && p in s.dir
    requires p in s.clients[c].temp && s.clients[c].temp[p].origin.Local?
    ensures Exists(s, p) && 0 <= LastVersion(s.log, p) < |PubIndices(es)|
    ensures var i := LastTouch(es, c, p);
            && i >= 0 && (es[i] == OpenCreate(c, p) || (WritesTo(es[i], c, p) && es[i].data != []))
            && (Enabled(s, OpenFetch(c, p)) <==>
                  Second(clock, es, i) < ChangedAt(clock, es, p, LastVersion(s.log, p)))
    ensures Enabled(s, OpenFetch(c, p)) ==>
              && Leads(s, t) && Enabled(t, FlushBegin(c, p)) && ForeignDirty(t, c, p)
              && Apply(t, FlushBegin(c, p)).puts[|t.puts|].snapshot == CutAtZero(s.files[s.dir[p]].bytes)
  {
    TempTime(s, n, clock, es, c, p);
    ReuseIsByTheLastTouch(s, n, clock, es, c, p);
    UnflushedIsMarked(s, n, clock, es, c, p);
    t := OutOfDateOpenLosesWrites(s, c, p);
  }

  lemma UnflushedIsMarked(s: State, n: nat, clock: int, es: seq<Event>, c: nat, p: Path)
    requires ReachableBy(s, n, clock, es) && c < |s.clients|
    requires p in s.clients[c].temp && s.clients[c].temp[p].origin.Local?
    ensures p in s.clients[c].dirty
  {
    assert Reachable(s);
    ReachableInv(s);
    assert ClientOk(s, c, s.clients[c]);
    assert CopyOk(s, p, s.clients[c].temp[p], p in s.clients[c].dirty);
  }
}
