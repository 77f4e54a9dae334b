/** The one event that breaks atomicity: a create for which the server found no file opens the path
    with O_TRUNC when a put has landed there meanwhile. */
module TornFiles {
  import opened Bytes
  import opened Transfer
  import opened Protocol
  import opened ProtocolInvariant
  import opened ProtocolTheorems
  import opened Runs

  /** A published inode holds what it was published with. */
  predicate Kept(s: State, v: nat)
    requires v < |s.log|
  {
    s.log[v].ino < |s.files| && s.files[s.log[v].ino] == Inode(s.log[v].bytes, s.log[v].mtime)
  }

  /** The event cuts this inode. */
  predicate Hits(s: State, e: Event, ino: nat) {
    e.ServerTruncate? && Enabled(s, e) && s.dir[s.creates[e.i].path] == ino
  }

  /** Some event of the run cuts this inode. */
  ghost predicate HitIn(s: State, es: seq<Event>, ino: nat)
    decreases |es|
  {
    es != [] && Enabled(s, es[0]) && (Hits(s, es[0], ino) || HitIn(Apply(s, es[0]), es[1..], ino))
  }

  lemma EventTears(s: State, e: Event, ino: nat)
    requires Enabled(s, e)
    ensures ino in Apply(s, e).torn <==> ino in s.torn || Hits(s, e, ino)
  {
  }

  lemma {:induction false} RunTears(s: State, es: seq<Event>, t: State, ino: nat)
    requires Run(s, es) == Some(t)
    ensures ino in t.torn <==> ino in s.torn || HitIn(s, es, ino)
    decreases |es|
  {
    if es != [] {
      EventTears(s, es[0], ino);
      RunTears(Apply(s, es[0]), es[1..], t, ino);
    }
  }

  /** Exactly, in every run: a publication still holds what it was published with if and only if no
      create has cut its own file, or it is empty and was last cut in the second of its time. What
      creates do to other files does not matter. */
  lemma KeptExactlyUnlessHit(s: State, n: nat, clock: int, es: seq<Event>, v: nat)
    requires ReachableBy(s, n, clock, es) && v < |s.log|
    ensures var x := s.log[v];
            && (x.ino in s.torn <==> HitIn(Init(n, clock), es, x.ino))
            && (Kept(s, v) <==> !HitIn(Init(n, clock), es, x.ino)
                                || (x.bytes == [] && x.mtime == s.torn[x.ino]))
  {
    AtomicPublish(s, v);
    RunTears(Init(n, clock), es, s, s.log[v].ino);
  }

  /** Such an event breaks exactly the last publication of its path, unless that one is empty and of
      this very second anyway. */
  lemma TruncateBreaksTheLastPublication(s: State, i: nat, v: nat)
    requires Reachable(s) && Enabled(s, ServerTruncate(i)) && v < |s.log| && Kept(s, v)
    ensures var t := Apply(s, ServerTruncate(i));
            && t.log == s.log && t.dir == s.dir
            && (Kept(t, v) <==> v != LastVersion(s.log, s.creates[i].path)
                                || (s.log[v].bytes == [] && s.log[v].mtime == s.clock))
  {
    NamesItsLastPublication(s, s.creates[i].path, v);
  }

  /** A stream that reads on after such an event ends with what it had: it delivers the publication
      it opened if and only if it had read all of it. */
  lemma TruncateCutsTheStream(s: State, i: nat, r: nat)
    requires Reachable(s) && Enabled(s, ServerTruncate(i)) && Enabled(s, ReadChunk(r))
    requires s.fetches[r].stage.ino == s.dir[s.creates[i].path]
    ensures var t := Apply(s, ServerTruncate(i));
            && Enabled(t, ReadChunk(r))
            && var read, before := Apply(t, ReadChunk(r)).fetches[r], s.fetches[r].stage;
            && 0 <= before.ver < |s.log| && before.pos <= |s.log[before.ver].bytes|
            && read.stage == Protocol.Finished(before.ver)
            && read.got == s.log[before.ver].bytes[..before.pos]
            && (read.got == s.log[before.ver].bytes <==> before.pos == |s.log[before.ver].bytes|)
  {
    ReachableInv(s);
    assert FetchOk(s, s.fetches[r]);
    var st := s.fetches[r].stage;
    assert ChunkAt([], st.pos) == [];
    assert s.fetches[r].got + [] == s.fetches[r].got;
  }

  // ---- When no file is cut --------------------------------------------------------------------

  /** Every create of the run that finds no file carries flags that cut nothing. */
  predicate HarmlessCreates(es: seq<Event>) {
    forall i :: 0 <= i < |es| && es[i].ServerMiss? ==> !Truncates(es[i].flags)
  }

  predicate HarmlessPending(s: State) {
    forall i :: 0 <= i < |s.creates| ==> !Truncates(s.creates[i].flags)
  }

  lemma EventKeepsHarmless(s: State, e: Event)
    requires HarmlessPending(s) && Enabled(s, e) && (e.ServerMiss? ==> !Truncates(e.flags))
    ensures !e.ServerTruncate? && HarmlessPending(Apply(s, e))
  {
  }

  /** Without O_TRUNC, or with O_CREAT and O_EXCL, in the flags of all creates no file is ever cut. */
  lemma {:induction false} HarmlessRunsCutNothing(s: State, es: seq<Event>, t: State, ino: nat)
    requires HarmlessPending(s) && Run(s, es) == Some(t) && HarmlessCreates(es)
    ensures !HitIn(s, es, ino)
    decreases |es|
  {
    if es != [] {
      EventKeepsHarmless(s, es[0]);
      assert forall i :: 0 <= i < |es[1..]| ==> es[1..][i] == es[i + 1];
      HarmlessRunsCutNothing(Apply(s, es[0]), es[1..], t, ino);
    }
  }
}
