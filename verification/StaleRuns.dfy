/** Five concrete runs that show where the protocol's promises end. Each state is written out, and
    each step is checked against the protocol. */
module StaleRuns {
  import opened Bytes
  import opened Transfer
  import opened Protocol
  import opened ProtocolTheorems
  import Runs

  const F: Path := "/f"

  /** One more step of a run, to a state that is written out. */
  lemma Step(s: State, e: Event, t: State)
    requires Reachable(s) && Enabled(s, e) && Apply(s, e) == t
    ensures Reachable(t)
  {
    var n: nat, clock: int, es: seq<Event> :| ReachableBy(s, n, clock, es);
    Runs.RunSnoc(Init(n, clock), es, s, e);
    assert ReachableBy(t, n, clock, es + [e]);
  }

  /** A file of exactly one buffer: its stream is a full message, which the server writes through,
      and an empty one. */
  const DATA: Bytes := seq(BUFSIZE, _ => 7)

  lemma DataChunks()
    ensures |DATA| == BUFSIZE && DATA != [] && Pwrite([], DATA, 0) == DATA
    ensures ChunkAt(DATA, 0) == DATA && ChunkAt(DATA, BUFSIZE) == []
  {
  }

  /** Client 0 creates /f, writes the data and flushes it. */
  function Writer(b: Bytes, task: map<Path, Task>): Client {
    Client(map[F := LocalFile(b, 0, Local)], map[F := LocalFile([], 0, Local)], {F}, task)
  }

  const CREATED := Version(F, 0, [], 0, 0, ByCreate)

  /** Two creates find no file. The first one creates it; the second one stays behind. */
  const CREATE := OpenFlags(true, false, false)
  const CUT := OpenFlags(true, false, true)

  const A0 := State(0, map[], [], None, [], [], [], [NEW_CLIENT, NEW_CLIENT], [], [], map[])
  const A1 := A0.(clients := [Writer([], map[F := Creating]), NEW_CLIENT])
  const M1 := A1.(creates := [Creation(F, CREATE, true)])
  const M2 := A1.(creates := [Creation(F, CREATE, true), Creation(F, CUT, true)])
  const A2 := A1.(dir := map[F := 0], files := [Inode([], 0)], log := [CREATED],
                  creates := [Creation(F, CREATE, false), Creation(F, CUT, true)])
  const A3 := A2.(clients := [Writer([], map[]), NEW_CLIENT])
  const A4 := A3.(clients := [Writer(DATA, map[]), NEW_CLIENT])
  const A5 := A4.(puts := [Put(0, F, DATA, Local, 0, [], Streaming, Waiting)],
                  clients := [Writer(DATA, map[F := Flushing(0)]), NEW_CLIENT])
  const A6 := A5.(puts := [Put(0, F, DATA, Local, BUFSIZE, [DATA], Streaming, Waiting)])
  const A7 := A6.(puts := [Put(0, F, DATA, Local, BUFSIZE, [DATA, []], Complete, Waiting)])
  const A8 := A7.(puts := [Put(0, F, DATA, Local, BUFSIZE, [DATA, []], Complete, Receiving(1))],
                  files := [Inode([], 0), Inode([], 0)], lock := Some(0), order := [0])
  const A9 := A8.(puts := [Put(0, F, DATA, Local, BUFSIZE, [[]], Complete, Receiving(1))],
                  files := [Inode([], 0), Inode(DATA, 0)])
  const A10 := A9.(puts := [Put(0, F, DATA, Local, BUFSIZE, [], Complete, Receiving(1))])

  lemma ReachA1()
    ensures Reachable(A1)
  {
    assert Init(2, 0).clients == A0.clients;
    assert ReachableBy(A0, 2, 0, []);
    assert Apply(A0, OpenCreate(0, F)).clients[0] == A1.clients[0];
    Step(A0, OpenCreate(0, F), A1);
  }

  lemma ReachA2()
    ensures Reachable(A2)
  {
    ReachA1();
    Step(A1, ServerMiss(F, CREATE), M1);
    Step(M1, ServerMiss(F, CUT), M2);
    assert Apply(M2, ServerCreate(0)).creates == A2.creates;
    Step(M2, ServerCreate(0), A2);
  }

  lemma ReachA4()
    ensures Reachable(A4)
  {
    ReachA2();
    assert Apply(A2, CreateReply(0, F)).clients[0].task == map[];
    Step(A2, CreateReply(0, F), A3);
    DataChunks();
    assert Apply(A3, Write(0, F, 0, DATA)).clients[0] == A4.clients[0];
    Step(A3, Write(0, F, 0, DATA), A4);
  }

  lemma ReachA6()
    ensures Reachable(A6)
  {
    ReachA4();
    Step(A4, FlushBegin(0, F), A5);
    DataChunks();
    assert Apply(A5, SendChunk(0, F)).puts[0] == A6.puts[0];
    Step(A5, SendChunk(0, F), A6);
  }

  lemma ReachA7()
    ensures Reachable(A7)
  {
    ReachA6();
    DataChunks();
    assert A6.puts[0].queue + [[]] == A7.puts[0].queue;
    assert Apply(A6, SendChunk(0, F)).puts[0] == A7.puts[0];
    Step(A6, SendChunk(0, F), A7);
  }

  lemma ReachA8()
    ensures Reachable(A8)
  {
    ReachA7();
    assert Apply(A7, Acquire(0)).puts == A8.puts;
    Step(A7, Acquire(0), A8);
  }

  lemma ReachA9()
    ensures Reachable(A9)
  {
    ReachA8();
    assert A8.files[1].bytes + A8.puts[0].queue[0] == DATA && A8.puts[0].queue[1..] == [[]];
    assert Apply(A8, Receive(0, true)).files == A9.files;
    assert Apply(A8, Receive(0, true)).puts == A9.puts;
    Step(A8, Receive(0, true), A9);
  }

  lemma ReachA10()
    ensures Reachable(A10)
  {
    ReachA9();
    assert A9.files[1].bytes + A9.puts[0].queue[0] == DATA && A9.puts[0].queue[1..] == [];
    assert Apply(A9, Receive(0, false)).files == A10.files;
    assert Apply(A9, Receive(0, false)).puts == A10.puts;
    Step(A9, Receive(0, false), A10);
  }

  // ---- A fetch between the last write and the rename ---------------------------------------

  const COPY := LocalFile([], 1, Fetched(0, 1))
  const LATE := Version(F, 1, DATA, 0, 2, ByPut(0))

  function Reader(task: map<Path, Task>): Client {
    Client(map[], map[], {}, task)
  }

  const B9 := A10.(clock := 1)
  const B10 := B9.(fetches := [Read(1, F, Requested, 1, [])],
                   clients := [A10.clients[0], Reader(map[F := Fetching(0)])])
  const B11 := B10.(fetches := [Read(1, F, Sending(0, 0, 0), 1, [])])
  const B12 := B11.(fetches := [Read(1, F, Protocol.Finished(0), 1, [])])
  const B13 := B12.(clients := [A10.clients[0], Client(map[F := COPY], map[F := COPY], {}, map[])])
  const B14 := B13.(clock := 2)
  const B15 := B14.(dir := map[F := 1], lock := None, log := [CREATED, LATE],
                    puts := [Put(0, F, DATA, Local, BUFSIZE, [], Complete, Landed(1))])

  lemma ReachB11()
    ensures Reachable(B11)
  {
    ReachA10();
    Step(A10, Tick, B9);
    assert Apply(B9, OpenFetch(1, F)).clients == B10.clients;
    Step(B9, OpenFetch(1, F), B10);
    assert Apply(B10, ServerOpen(0)).fetches == B11.fetches;
    Step(B10, ServerOpen(0), B11);
  }

  lemma ReachB12()
    ensures Reachable(B12)
  {
    ReachB11();
    assert B11.fetches[0].got + ChunkAt(B11.files[0].bytes, 0) == [];
    assert Apply(B11, ReadChunk(0)).fetches[0] == B12.fetches[0];
    assert Apply(B11, ReadChunk(0)).fetches == B12.fetches;
    Step(B11, ReadChunk(0), B12);
  }

  lemma ReachB13()
    ensures Reachable(B13)
  {
    ReachB12();
    assert Apply(B12, FetchDone(1, F)).clients[1].task == map[];
    assert Apply(B12, FetchDone(1, F)).clients == B13.clients;
    Step(B12, FetchDone(1, F), B13);
  }

  lemma ReachB14()
    ensures Reachable(B14)
  {
    ReachB13();
    Step(B13, Tick, B14);
  }

  lemma ReachB15()
    ensures Reachable(B15)
  {
    ReachB14();
    assert Apply(B14, Land(0, false)).files == B15.files;
    assert Apply(B14, Land(0, false)).dir == B15.dir;
    Step(B14, Land(0, false), B15);
  }

  /** A put whose last byte is written in second 0 and whose rename happens in second 2 is missed
      by a client that fetches the old file in second 1: its clean copy, taken within one second,
      is reused although the newer publication neither was written nor landed in that second. */
  lemma StaleAcrossSeconds()
    ensures Reachable(B15) && Exists(B15, F)
    ensures F in B15.clients[1].temp && F !in B15.clients[1].dirty && OwnTime(B15.clients[1].temp[F])
    ensures Decision(B15, 1, F) == 2
    ensures var f, n := B15.clients[1].temp[F], LastVersion(B15.log, F);
            && n >= 0 && CopyVersion(f) != n && f.bytes != B15.log[n].bytes
            && B15.log[n].mtime < f.mtime < B15.log[n].landed
  {
    ReachB15();
    DataChunks();
  }

  // ---- A put that is written and lands while a fetch is under way -------------------------

  const SLOW := LocalFile([], 3, Fetched(0, 1))
  const MEANWHILE := Version(F, 1, DATA, 2, 2, ByPut(0))

  const G12 := B11.(clock := 2)
  const G13 := G12.(dir := map[F := 1], files := [Inode([], 0), Inode(DATA, 2)], lock := None,
                    log := [CREATED, MEANWHILE],
                    puts := [Put(0, F, DATA, Local, BUFSIZE, [], Complete, Landed(1))])
  const G14 := G13.(clock := 3)
  const G15 := G14.(fetches := [Read(1, F, Protocol.Finished(0), 1, [])])
  const G16 := G15.(clients := [A10.clients[0], Client(map[F := SLOW], map[F := SLOW], {}, map[])])

  lemma ReachG12()
    ensures Reachable(G12)
  {
    ReachB11();
    Step(B11, Tick, G12);
  }

  lemma StepG13()
    ensures Enabled(G12, Land(0, true)) && Apply(G12, Land(0, true)) == G13
  {
    assert Apply(G12, Land(0, true)).files == G13.files;
    assert Apply(G12, Land(0, true)).dir == G13.dir;
  }

  lemma ReachG13()
    ensures Reachable(G13)
  {
    ReachG12();
    StepG13();
    Step(G12, Land(0, true), G13);
  }

  lemma ReachG14()
    ensures Reachable(G14)
  {
    ReachG13();
    Step(G13, Tick, G14);
  }

  lemma StepG15()
    ensures Enabled(G14, ReadChunk(0)) && Apply(G14, ReadChunk(0)) == G15
  {
    assert G14.fetches[0].got + ChunkAt(G14.files[0].bytes, 0) == [];
    assert Apply(G14, ReadChunk(0)).fetches[0] == G15.fetches[0];
    assert Apply(G14, ReadChunk(0)).fetches == G15.fetches;
  }

  lemma ReachG15()
    ensures Reachable(G15)
  {
    ReachG14();
    StepG15();
    Step(G14, ReadChunk(0), G15);
  }

  lemma ReachG16()
    ensures Reachable(G16)
  {
    ReachG15();
    assert Apply(G15, FetchDone(1, F)).clients[1].task == map[];
    assert Apply(G15, FetchDone(1, F)).clients == G16.clients;
    Step(G15, FetchDone(1, F), G16);
  }

  lemma WhatG16Holds()
    ensures Exists(G16, F) && LastVersion(G16.log, F) == 1 && G16.log[1] == MEANWHILE
    ensures G16.files[G16.dir[F]] == Inode(DATA, 2) && G16.clients[1].temp[F] == SLOW && F !in G16.clients[1].dirty
    ensures Enabled(G16, OpenReuse(1, F))
  {
  }

  /** A fetch that the server opens in second 1 and that ends in second 3 misses a put whose last byte
      is written, and whose rename happens, in second 2: the copy carries the time of the end of the
      fetch, so an open reuses what was replaced before it was even stored. */
  lemma StaleAfterASlowFetch()
    ensures Reachable(G16) && Exists(G16, F)
    ensures Enabled(G16, OpenReuse(1, F)) && G16.clients[1].temp[F] == SLOW && F !in G16.clients[1].dirty
    ensures LastVersion(G16.log, F) == 1 && G16.log[1] == MEANWHILE
    ensures SLOW.origin == Fetched(0, 1) && SLOW.bytes != MEANWHILE.bytes
    ensures 1 < MEANWHILE.mtime && MEANWHILE.mtime == MEANWHILE.landed < SLOW.mtime
  {
    ReachG16();
    WhatG16Holds();
    DataChunks();
  }

  // ---- A reply that carries another publication's time -------------------------------------

  const LANDED := Version(F, 1, DATA, 0, 0, ByPut(0))
  const AGAIN := Version(F, 2, [], 1, 1, ByCreate)
  const KEPT := LocalFile(DATA, 1, Committed(1, 2))

  const C9 := A10.(dir := map[F := 1], lock := None, log := [CREATED, LANDED],
                  puts := [Put(0, F, DATA, Local, BUFSIZE, [], Complete, Landed(1))])
  const C10 := C9.(dir := map[])
  const C11 := C10.(clock := 1)
  const C12 := C11.(dir := map[F := 2], files := [Inode([], 0), Inode(DATA, 0), Inode([], 1)],
                    log := [CREATED, LANDED, AGAIN],
                    creates := [Creation(F, CREATE, false), Creation(F, CUT, false)])
  const C13 := C12.(puts := [Put(0, F, DATA, Local, BUFSIZE, [], Complete, Replied(1, 2, 1))])
  const C14 := C13.(clients := [Client(map[F := KEPT], map[F := KEPT], {}, map[]), NEW_CLIENT])

  lemma ReachC9()
    ensures Reachable(C9)
  {
    ReachA10();
    assert Apply(A10, Land(0, false)).files == C9.files;
    assert Apply(A10, Land(0, false)).dir == C9.dir;
    Step(A10, Land(0, false), C9);
  }

  lemma ReachC11()
    ensures Reachable(C11)
  {
    ReachC9();
    assert Apply(C9, ServerUnlink(F)).dir == C10.dir;
    Step(C9, ServerUnlink(F), C10);
    Step(C10, Tick, C11);
  }

  lemma ReachC12()
    ensures Reachable(C12)
  {
    ReachC11();
    assert Apply(C11, ServerCreate(1)).dir == C12.dir;
    Step(C11, ServerCreate(1), C12);
  }

  lemma ReachC13()
    ensures Reachable(C13)
  {
    ReachC12();
    assert Apply(C12, Stat(0)).puts == C13.puts;
    Step(C12, Stat(0), C13);
  }

  lemma ReachC14()
    ensures Reachable(C14)
  {
    ReachC13();
    var t := Apply(C13, Commit(0, F));
    assert t.clients[0].temp == C14.clients[0].temp && t.clients[0].cache == C14.clients[0].cache;
    assert t.clients[0].dirty == {} && t.clients[0].task == map[];
    assert t.clients == C14.clients;
    Step(C13, Commit(0, F), C14);
  }

  /** The `lstat` after the unlock reads the time of whatever the path names by then. Here the
      file was unlinked and created again a second later in between: the client commits its own
      bytes under the new file's time, is clean, and keeps reusing them. */
  lemma CommitUnderAnothersTime()
    ensures Reachable(C14) && Exists(C14, F)
    ensures F in C14.clients[0].temp && F !in C14.clients[0].dirty
    ensures Decision(C14, 0, F) == 2
    ensures var f := C14.clients[0].temp[F];
            && f.origin == Committed(1, 2) && C14.log[1].landed < f.mtime
            && f.mtime == C14.files[C14.dir[F]].mtime && f.bytes != C14.files[C14.dir[F]].bytes
  {
    ReachC14();
    DataChunks();
  }

  // ---- A create that cuts a published file -------------------------------------------------

  const LISTENING := Read(1, F, Sending(1, 1, 0), 0, [])
  const HEARD := Read(1, F, Protocol.Finished(1), 0, [])

  const D10 := C9.(fetches := [Read(1, F, Requested, 0, [])],
                   clients := [A10.clients[0], Reader(map[F := Fetching(0)])])
  const D11 := D10.(fetches := [LISTENING])
  const D12 := D11.(files := [Inode([], 0), Inode([], 0)], torn := map[1 := 0],
                    creates := [Creation(F, CREATE, false), Creation(F, CUT, false)])
  const D13 := D12.(fetches := [HEARD])

  lemma ReachD11()
    ensures Reachable(D11)
  {
    ReachC9();
    assert Apply(C9, OpenFetch(1, F)).clients == D10.clients;
    Step(C9, OpenFetch(1, F), D10);
    assert Apply(D10, ServerOpen(0)).fetches == D11.fetches;
    Step(D10, ServerOpen(0), D11);
  }

  lemma ReachD12()
    ensures Reachable(D12)
  {
    ReachD11();
    assert Apply(D11, ServerTruncate(1)).files == D12.files;
    assert Apply(D11, ServerTruncate(1)).creates == D12.creates;
    assert Apply(D11, ServerTruncate(1)).torn == D12.torn;
    Step(D11, ServerTruncate(1), D12);
  }

  lemma ReachD13()
    ensures Reachable(D13)
  {
    ReachD12();
    assert D12.fetches[0].got + ChunkAt(D12.files[1].bytes, 0) == [];
    assert Apply(D12, ReadChunk(0)).fetches[0] == D13.fetches[0];
    assert Apply(D12, ReadChunk(0)).fetches == D13.fetches;
    Step(D12, ReadChunk(0), D13);
  }

  /** A create that found no file opens the path with O_TRUNC after another client's complete flush
      has landed there: the published file is empty, and a client whose stream was under way is told
      that the file it opened is empty. */
  lemma TornPublication()
    ensures Reachable(D13) && Exists(D13, F) && LastVersion(D13.log, F) == 1
    ensures D13.log[1].source == ByPut(0) && D13.puts[0].ending.Complete?
    ensures D13.log[1].bytes == D13.puts[0].snapshot != [] && D13.files[D13.dir[F]].bytes == []
    ensures D13.fetches[0].stage == Protocol.Finished(1) && D13.fetches[0].got != D13.log[1].bytes
  {
    ReachD13();
    DataChunks();
  }

  // ---- A failed fetch under O_CREAT --------------------------------------------------------

  const NOTHING := LocalFile([], 0, Unfetched)

  const E10 := C9.(fetches := [Read(1, F, Requested, 0, [])],
                   clients := [A10.clients[0], Reader(map[F := Fetching(0)])])
  const E11 := E10.(clients := [A10.clients[0], Client(map[F := NOTHING], map[], {}, map[])])

  lemma StepE10()
    ensures Enabled(C9, OpenFetch(1, F)) && Apply(C9, OpenFetch(1, F)) == E10
  {
    assert Apply(C9, OpenFetch(1, F)).clients == E10.clients;
  }

  lemma StepE11()
    ensures Enabled(E10, FetchLost(1, F)) && Apply(E10, FetchLost(1, F)) == E11
  {
    assert Apply(E10, FetchLost(1, F)).clients[1] == E11.clients[1];
    assert Apply(E10, FetchLost(1, F)).clients == E11.clients;
  }

  lemma ReachE11()
    ensures Reachable(E11)
  {
    ReachC9();
    StepE10();
    Step(C9, OpenFetch(1, F), E10);
    StepE11();
    Step(E10, FetchLost(1, F), E11);
  }

  lemma RunOfTwo(s: State, a: Event, u: State, b: Event, t: State)
    requires Enabled(s, a) && Apply(s, a) == u && Enabled(u, b) && Apply(u, b) == t
    ensures Run(s, [a, b]) == Some(t)
  {
    assert [a, b][1..] == [b] && [b][1..] == [];
    assert Run(u, [b]) == Run(t, []);
  }

  lemma FreshClient()
    ensures Apply(C9, Restart(1)) == C9
  {
    assert Apply(C9, Restart(1)).clients == C9.clients;
  }

  lemma WhatE11Holds()
    ensures Exists(E11, F) && Enabled(E11, OpenReuse(1, F)) && F !in E11.clients[1].dirty
    ensures LastVersion(E11.log, F) == 1 && E11.log[1] == LANDED && E11.files[E11.dir[F]] == Inode(DATA, 0)
  {
  }

  /** A client that has just started opens an existing file with O_CREAT and the fetch fails: the
      local open makes an empty file, which carries no mark. From then on opens reuse it, although it
      is nobody's publication and the server has the file: the promise of recovery fails here. */
  lemma EmptyInPlaceOfTheFile()
    ensures Reachable(E11) && Exists(E11, F)
    ensures Apply(C9, Restart(1)) == C9 && Run(C9, [OpenFetch(1, F), FetchLost(1, F)]) == Some(E11)
    ensures Enabled(E11, OpenReuse(1, F)) && F !in E11.clients[1].dirty
    ensures E11.clients[1].temp[F].bytes == [] != E11.files[E11.dir[F]].bytes
    ensures E11.files[E11.dir[F]].bytes == E11.log[LastVersion(E11.log, F)].bytes
  {
    ReachE11();
    WhatE11Holds();
    DataChunks();
    FreshClient();
    StepE10();
    StepE11();
    RunOfTwo(C9, OpenFetch(1, F), E10, FetchLost(1, F), E11);
  }
}
