/** Runs of the protocol that nothing interrupts: what the code of one client and the server does
    when it is executed alone, as lists of events. */
module Runs {
  import opened Bytes
  import opened Transfer
  import opened Protocol
  import opened ProtocolInvariant

  lemma {:induction false} RunAppend(s: State, a: seq<Event>, b: seq<Event>)
    ensures Run(s, a + b) == match Run(s, a) case None => None case Some(t) => Run(t, b)
    decreases |a|
  {
    if a == [] {
      assert a + b == b;
    } else {
      assert (a + b)[0] == a[0] && (a + b)[1..] == a[1..] + b;
      if Enabled(s, a[0]) {
        RunAppend(Apply(s, a[0]), a[1..], b);
      }
    }
  }

  lemma RunSnoc(s: State, es: seq<Event>, t: State, e: Event)
    requires Run(s, es) == Some(t) && Enabled(t, e)
    ensures Run(s, es + [e]) == Some(Apply(t, e))
  {
    RunAppend(s, es, [e]);
    var u := Apply(t, e);
    assert [e][1..] == [];
    assert Run(u, []) == Some(u);
  }

  /** The last step of a run. */
  lemma LastStep(s: State, es: seq<Event>, t: State) returns (u: State)
    requires es != [] && Run(s, es) == Some(t)
    ensures Run(s, es[..|es| - 1]) == Some(u) && Enabled(u, es[|es| - 1]) && t == Apply(u, es[|es| - 1])
  {
    var before, e := es[..|es| - 1], es[|es| - 1];
    assert es == before + [e];
    RunAppend(s, before, [e]);
    u := Run(s, before).value;
    assert [e][1..] == [];
  }

  /** Only a client's own events change what it holds. */
  lemma OnlyItsOwnEvents(s: State, e: Event, c: nat)
    requires Enabled(s, e) && c < |s.clients|
    ensures |Apply(s, e).clients| == |s.clients|
    ensures ServerSide(e) || Actor(e) != c ==> Apply(s, e).clients[c] == s.clients[c]
  {
    if ServerSide(e) {
      ServerSideKeepsClients(s, e);
    }
  }

  /** No client comes or goes. */
  lemma SameClients(s: State, e: Event)
    requires Enabled(s, e)
    ensures |Apply(s, e).clients| == |s.clients|
  {
    if |s.clients| > 0 {
      OnlyItsOwnEvents(s, e, 0);
    }
  }

  lemma ServerSideKeepsClients(s: State, e: Event)
    requires Enabled(s, e) && ServerSide(e)
    ensures Apply(s, e).clients == s.clients
  {
  }

  lemma FetchesGrow(s: State, e: Event)
    requires Enabled(s, e)
    ensures |s.fetches| <= |Apply(s, e).fetches|
  {
  }

  /** `t` can be reached from `s`. */
  ghost predicate Leads(s: State, t: State) {
    exists es: seq<Event> :: Run(s, es) == Some(t)
  }

  lemma LeadsSelf(s: State)
    ensures Leads(s, s)
  {
    assert Run(s, []) == Some(s);
  }

  lemma LeadsStep(s: State, t: State, e: Event)
    requires Leads(s, t) && Enabled(t, e)
    ensures Leads(s, Apply(t, e))
  {
    var es: seq<Event> :| Run(s, es) == Some(t);
    RunSnoc(s, es, t, e);
  }

  lemma ReachableLeads(s: State, t: State)
    requires Reachable(s) && Leads(s, t)
    ensures Reachable(t)
  {
    var n: nat, clock: int, es: seq<Event> :| ReachableBy(s, n, clock, es);
    var fs: seq<Event> :| Run(s, fs) == Some(t);
    RunAppend(Init(n, clock), es, fs);
    assert ReachableBy(t, n, clock, es + fs);
  }

  // ---- What one client and the server hold ---------------------------------------------------

  datatype View = View(dir: map<Path, nat>, files: seq<Inode>,
                       temp: map<Path, Inode>, cache: map<Path, Inode>, dirty: set<Path>)

  function Plain(m: map<Path, LocalFile>): map<Path, Inode> {
    map p | p in m :: Inode(m[p].bytes, m[p].mtime)
  }

  lemma PlainUpdate(m: map<Path, LocalFile>, p: Path, f: LocalFile)
    ensures Plain(m[p := f]) == Plain(m)[p := Inode(f.bytes, f.mtime)]
  {
  }

  function ViewOf(s: State, c: nat): View
    requires c < |s.clients|
  {
    var cl := s.clients[c];
    View(s.dir, s.files, Plain(cl.temp), Plain(cl.cache), cl.dirty)
  }

  /** After a flush: the server has a new inode under the path, and all three copies agree. */
  function AfterFlush(v: View, p: Path, now: int): View
    requires p in v.temp
  {
    var f := Inode(v.temp[p].bytes, now);
    View(v.dir[p := |v.files|], v.files + [f], v.temp[p := f], v.cache[p := f], v.dirty - {p})
  }

  /** The three copies agree and the path is clean. */
  predicate Agree(v: View, p: Path) {
    && p in v.dir && v.dir[p] < |v.files| && p in v.temp && p in v.cache && p !in v.dirty
    && v.temp[p] == v.cache[p] == v.files[v.dir[p]]
  }

  /** Three-way agreement, on the bytes that the client had; every other path keeps what it has. */
  lemma FlushAgrees(v: View, p: Path, now: int)
    requires p in v.temp && WellNamed(v)
    ensures var w := AfterFlush(v, p, now);
            && Agree(w, p) && w.temp[p] == Inode(v.temp[p].bytes, now)
            && w.temp - {p} == v.temp - {p} && w.cache - {p} == v.cache - {p} && w.dirty == v.dirty - {p}
            && w.dir - {p} == v.dir - {p}
            && forall q :: q in v.dir && q != p ==> w.files[w.dir[q]] == v.files[v.dir[q]]
  {
  }

  /** After a flush whose stream broke, whose reply was lost or whose copy to the cache failed: the
      server has published what arrived, and the client has changed nothing. */
  function AfterBrokenFlush(v: View, p: Path, sent: seq<Bytes>, now: int): View {
    v.(dir := v.dir[p := |v.files|], files := v.files + [Inode(Concat(sent), now)])
  }

  /** After a flush whose rename failed: what arrived stays behind under no name. */
  function AfterFailedRename(v: View, sent: seq<Bytes>, now: int): View {
    v.(files := v.files + [Inode(Concat(sent), now)])
  }

  predicate WellNamed(v: View) {
    forall p :: p in v.dir ==> v.dir[p] < |v.files|
  }

  /** After a fetch: both local copies are the server's bytes up to the first zero byte. A file that
      the server lacks arrives as an empty one. */
  function AfterFetch(v: View, p: Path, now: int): View
    requires WellNamed(v)
  {
    var f := Inode(if p in v.dir then CutAtZero(v.files[v.dir[p]].bytes) else [], now);
    v.(temp := v.temp[p := f], cache := v.cache[p := f])
  }

  /** After a create: the path is empty and dirty at the client, and empty at the server if the
      server's open succeeded. */
  function AfterCreate(v: View, p: Path, created: bool, now: int): View {
    var f := Inode([], now);
    var u := v.(temp := v.temp[p := f], cache := v.cache[p := f], dirty := v.dirty + {p});
    if created then u.(dir := v.dir[p := |v.files|], files := v.files + [f]) else u
  }

  /** After a fetch that failed while there is no temp file and the caller's flags have O_CREAT: the
      local open makes an empty one, which carries no mark. */
  function AfterLostFetch(v: View, p: Path, now: int): View {
    v.(temp := v.temp[p := Inode([], now)])
  }

  /** What an open does not decide itself: whether it is a create, whether the caller's flags have
      O_CREAT, whether the server's create and the fetch succeed, and the time that `getOpenFlags`
      reads when there is none. */
  datatype OpenCase = OpenCase(create: bool, creat: bool, created: bool, unset: int, fetched: bool)

  predicate MayCreate(o: OpenCase) {
    o.create || o.creat
  }

  /** The open of an existing path that ends with an empty file that nobody published. */
  predicate LosesFetch(v: View, p: Path, o: OpenCase) {
    p in v.dir && !o.fetched && o.creat && p !in v.temp
  }

  /** What `getOpenFlags` decides when it does not decide to create. */
  function Choice(v: View, p: Path, unset: int): int
    requires WellNamed(v)
  {
    OpenDecision(if p in v.dir then v.files[v.dir[p]].mtime else unset,
                 if p in v.temp then Some(v.temp[p].mtime) else None, p in v.cache)
  }

  /** After an open, up to the local open; a failed fetch is ignored. */
  function AfterOpen(v: View, p: Path, o: OpenCase, now: int): View
    requires WellNamed(v)
  {
    if p !in v.dir && MayCreate(o) then AfterCreate(v, p, o.created, now)
    else if Choice(v, p, o.unset) == 1 && o.fetched then AfterFetch(v, p, now)
    else if LosesFetch(v, p, o) then AfterLostFetch(v, p, now)
    else v
  }

  /** After a write of which `written` bytes succeed (-1 for an error), to the temp file or to one
      that has been removed. */
  function AfterWrite(v: View, p: Path, data: Bytes, offset: nat, attached: bool, written: int, now: int): View
    requires attached ==> p in v.temp
    requires -1 <= written <= |data|
  {
    var u := v.(dirty := v.dirty + {p});
    if attached && written > 0 then
      u.(temp := v.temp[p := Inode(Pwrite(v.temp[p].bytes, data[..written], offset), now)])
    else u
  }

  /** `deleteFromTemp`. */
  function WithoutTemp(v: View, p: Path): View {
    v.(temp := v.temp - {p}, dirty := v.dirty - {p})
  }

  /** `Unlink`: the local copy goes first. */
  function AfterUnlink(v: View, p: Path): View {
    WithoutTemp(v, p).(dir := v.dir - {p})
  }

  /** Everything but one path is as it was, and no file of the server has changed. */
  predicate OnlyPath(v: View, w: View, p: Path) {
    && w.temp - {p} == v.temp - {p} && w.cache - {p} == v.cache - {p} && w.dirty - {p} == v.dirty - {p}
    && w.dir - {p} == v.dir - {p} && v.files <= w.files
  }

  predicate SameServer(v: View, w: View) {
    w.dir == v.dir && w.files == v.files
  }

  /** An open, by what the server and the client have. An existing file that is newer than temp, or that
      temp lacks, arrives in both stores up to its first zero byte, under the current time, and marks
      nothing; a failed fetch changes nothing, but leaves an empty file if temp has none and the flags
      have O_CREAT; any other open of an existing file changes nothing. A missing file that may be
      created is empty and marked at the client, and empty at the server too if its open succeeds. */
  lemma OpenSettles(v: View, p: Path, o: OpenCase, now: int)
    requires WellNamed(v)
    ensures var w := AfterOpen(v, p, o, now);
            && OnlyPath(v, w, p)
            && (p in v.dir ==> SameServer(v, w) && w.dirty == v.dirty)
            && (p in v.dir && p in v.temp && v.files[v.dir[p]].mtime <= v.temp[p].mtime ==> w == v)
            && (p in v.dir && (p in v.temp ==> v.files[v.dir[p]].mtime > v.temp[p].mtime) ==>
                  if o.fetched then
                    && p in w.temp && p in w.cache && w.temp[p] == w.cache[p]
                    && w.temp[p].bytes == CutAtZero(v.files[v.dir[p]].bytes) && w.temp[p].mtime == now
                  else
                    && w.cache == v.cache
                    && (p in w.temp <==> p in v.temp || o.creat)
                    && (p in w.temp ==> w.temp[p] == if p in v.temp then v.temp[p] else Inode([], now)))
            && (p !in v.dir && (o.create || o.creat) ==>
                  && p in w.temp && p in w.cache && w.temp[p] == w.cache[p] == Inode([], now) && p in w.dirty
                  && (p in w.dir <==> o.created) && (!o.created ==> SameServer(v, w))
                  && (o.created ==> w.dir[p] == |v.files| && w.files == v.files + [Inode([], now)]))
  {
  }

  /** A write, byte by byte: of the written bytes only, at their place, with zeros in a gap; the time is
      that of the write if a byte was written, and the mark is set in any case. */
  lemma WriteSettles(v: View, p: Path, data: Bytes, offset: nat, attached: bool, written: int, now: int, k: nat)
    requires (attached ==> p in v.temp) && -1 <= written <= |data|
    ensures var w := AfterWrite(v, p, data, offset, attached, written, now);
            && OnlyPath(v, w, p) && SameServer(v, w) && w.cache == v.cache && p in w.dirty
            && (!attached || written <= 0 ==> w.temp == v.temp)
            && (attached && written > 0 ==>
                  && p in w.temp && w.temp[p].mtime == now
                  && |w.temp[p].bytes| == Max(|v.temp[p].bytes|, offset + written)
                  && ByteAt(w.temp[p].bytes, k)
                       == if offset <= k < offset + written then data[k - offset] else ByteAt(v.temp[p].bytes, k))
  {
  }

  /** Only client `c` and the server have changed, and the client is done. */
  ghost predicate OnlyClient(s: State, t: State, c: nat, p: Path) {
    && |t.clients| == |s.clients| && c < |s.clients|
    && (forall d :: 0 <= d < |s.clients| && d != c ==> t.clients[d] == s.clients[d])
    && t.clients[c].task == s.clients[c].task - {p}
    && t.lock == s.lock && t.clock == s.clock
  }

  // ---- Flush ----------------------------------------------------------------------------------

  lemma LeadsOne(s: State, e: Event)
    requires Enabled(s, e)
    ensures Leads(s, Apply(s, e))
  {
    LeadsSelf(s);
    LeadsStep(s, s, e);
  }

  /** Client `c` is sending `b` as put `k`: it is at `pos`, and `queue` is under way. */
  predicate SendingAt(s: State, c: nat, p: Path, k: nat, b: Bytes, pos: nat, queue: seq<Bytes>) {
    && FlushingAt(s, c, p) && p in s.clients[c].temp
    && k == s.clients[c].task[p].put && b == s.clients[c].temp[p].bytes
    && s.puts[k].ending.Streaming? && pos == s.puts[k].pos <= |b| && queue == s.puts[k].queue
  }

  /** The same state with a put further on. */
  function SentTo(s: State, k: nat, pos: nat, queue: seq<Bytes>, ending: Ending): State
    requires k < |s.puts|
  {
    WithPut(s, k, s.puts[k].(pos := pos, queue := queue, ending := ending))
  }

  /** A full message of a flush. */
  lemma SendFull(s: State, c: nat, p: Path, k: nat, b: Bytes, pos: nat, queue: seq<Bytes>) returns (t: State)
    requires SendingAt(s, c, p, k, b, pos, queue) && pos + BUFSIZE <= |b|
    ensures Leads(s, t) && t == SentTo(s, k, pos + BUFSIZE, queue + [b[pos..pos + BUFSIZE]], Streaming)
    ensures SendingAt(t, c, p, k, b, pos + BUFSIZE, queue + [b[pos..pos + BUFSIZE]])
  {
    t := Apply(s, SendChunk(c, p));
    LeadsOne(s, SendChunk(c, p));
  }

  /** The last message of a flush. */
  lemma SendLast(s: State, c: nat, p: Path, k: nat, b: Bytes, pos: nat, queue: seq<Bytes>) returns (t: State)
    requires SendingAt(s, c, p, k, b, pos, queue) && |b| < pos + BUFSIZE
    ensures Leads(s, t) && t == SentTo(s, k, |b|, queue + [b[pos..]], Complete)
  {
    assert ChunkAt(b, pos) == b[pos..];
    t := Apply(s, SendChunk(c, p));
    LeadsOne(s, SendChunk(c, p));
  }

  lemma SentTwice(s: State, k: nat, pos: nat, queue: seq<Bytes>, end: nat, all: seq<Bytes>)
    requires k < |s.puts|
    ensures SentTo(SentTo(s, k, pos, queue, Streaming), k, end, all, Complete) == SentTo(s, k, end, all, Complete)
  {
  }

  lemma QueueGoesOn(queue: seq<Bytes>, b: Bytes, pos: nat)
    requires pos + BUFSIZE <= |b|
    ensures queue + ChunksFrom(b, pos) == (queue + [b[pos..pos + BUFSIZE]]) + ChunksFrom(b, pos + BUFSIZE)
  {
  }

  /** The sending loop, run to its end. */
  lemma {:induction false} SendToEnd(s: State, c: nat, p: Path, k: nat, b: Bytes, pos: nat, queue: seq<Bytes>)
    returns (t: State)
    requires SendingAt(s, c, p, k, b, pos, queue)
    ensures Leads(s, t) && t == SentTo(s, k, |b|, queue + ChunksFrom(b, pos), Complete)
    decreases |b| - pos
  {
    if |b| < pos + BUFSIZE {
      t := SendLast(s, c, p, k, b, pos, queue);
    } else {
      var u := SendFull(s, c, p, k, b, pos, queue);
      var more := queue + [b[pos..pos + BUFSIZE]];
      t := SendToEnd(u, c, p, k, b, pos + BUFSIZE, more);
      LeadsOn(s, u, t);
      QueueGoesOn(queue, b, pos);
      SentTwice(s, k, pos + BUFSIZE, more, |b|, more + ChunksFrom(b, pos + BUFSIZE));
    }
  }

  lemma LeadsOn(s: State, t: State, u: State)
    requires Leads(s, t) && Leads(t, u)
    ensures Leads(s, u)
  {
    var es: seq<Event> :| Run(s, es) == Some(t);
    var fs: seq<Event> :| Run(t, fs) == Some(u);
    RunAppend(s, es, fs);
  }

  /** The server after it has received `b`, with `queue` still under way. */
  function Received(s: State, k: nat, b: Bytes, queue: seq<Bytes>): State
    requires ReceivingAt(s, k)
  {
    var ino := s.puts[k].stage.ino;
    WithPut(s, k, s.puts[k].(queue := queue)).(
      files := s.files[ino := Inode(s.files[ino].bytes + b, s.clock)])
  }

  /** One message into the server's temp file, within the second of the last one. */
  lemma ReceiveOne(s: State, k: nat) returns (t: State)
    requires ReceivingAt(s, k) && s.puts[k].queue != []
    ensures Leads(s, t) && t == Received(s, k, s.puts[k].queue[0], s.puts[k].queue[1..])
  {
    t := Apply(s, Receive(k, true));
    LeadsOne(s, Receive(k, true));
  }

  lemma ReceivedTwice(s: State, k: nat, a: Bytes, q: seq<Bytes>, b: Bytes)
    requires ReceivingAt(s, k)
    ensures var u := Received(s, k, a, q);
            ReceivingAt(u, k) && u.puts[k].queue == q && Received(u, k, b, []) == Received(s, k, a + b, [])
  {
    var ino := s.puts[k].stage.ino;
    assert (s.files[ino].bytes + a) + b == s.files[ino].bytes + (a + b);
  }

  /** The receiving loop of PutFile, run to its end within one second. */
  lemma {:induction false} ReceiveToEnd(s: State, k: nat) returns (t: State)
    requires ReceivingAt(s, k) && s.files[s.puts[k].stage.ino].mtime == s.clock
    ensures Leads(s, t) && t == Received(s, k, Concat(s.puts[k].queue), [])
    decreases |s.puts[k].queue|
  {
    var q := s.puts[k].queue;
    if q == [] {
      t := s;
      LeadsSelf(s);
      assert s.files[s.puts[k].stage.ino].bytes + Concat([]) == s.files[s.puts[k].stage.ino].bytes;
    } else {
      var u := ReceiveOne(s, k);
      ReceivedTwice(s, k, q[0], q[1..], Concat(q[1..]));
      t := ReceiveToEnd(u, k);
      LeadsOn(s, u, t);
    }
  }

  lemma FlushSent(s: State, c: nat, p: Path) returns (t: State)
    requires Enabled(s, FlushBegin(c, p))
    ensures Leads(s, t)
    ensures var cl := s.clients[c]; var b := cl.temp[p].bytes;
            t == WithClient(s.(puts := s.puts + [Put(c, p, b, cl.temp[p].origin, |b|, Chunks(b), Complete, Waiting)]), c,
                            cl.(task := cl.task[p := Flushing(|s.puts|)]))
  {
    var cl := s.clients[c];
    var b := cl.temp[p].bytes;
    var u := Apply(s, FlushBegin(c, p));
    LeadsOne(s, FlushBegin(c, p));
    t := SendToEnd(u, c, p, |s.puts|, b, 0, []);
    LeadsOn(s, u, t);
    assert [] + ChunksFrom(b, 0) == Chunks(b);
    assert t.puts == s.puts + [Put(c, p, b, cl.temp[p].origin, |b|, Chunks(b), Complete, Waiting)];
  }

  /** What the server holds after a put of `b` that nothing interrupts. */
  function Stored(s: State, k: nat, b: Bytes): State
    requires k < |s.puts|
  {
    var put := s.puts[k];
    var n := |s.log|;
    s.(puts := s.puts[k := put.(queue := [], stage := Replied(n, n, s.clock))],
       dir := s.dir[put.path := |s.files|], files := s.files + [Inode(b, s.clock)],
       log := s.log + [Version(put.path, |s.files|, b, s.clock, s.clock, ByPut(k))], order := s.order + [k])
  }

  /** Lock, open the temp file and receive everything. */
  lemma PutReceived(s: State, k: nat) returns (t: State)
    requires Enabled(s, Acquire(k)) && !s.puts[k].ending.Streaming?
    ensures Leads(s, t)
    ensures t == s.(puts := s.puts[k := s.puts[k].(queue := [], stage := Receiving(|s.files|))],
                    files := s.files + [Inode(Concat(s.puts[k].queue), s.clock)],
                    lock := Some(k), order := s.order + [k])
  {
    var b := Concat(s.puts[k].queue);
    var u := Apply(s, Acquire(k));
    LeadsOne(s, Acquire(k));
    t := ReceiveToEnd(u, k);
    LeadsOn(s, u, t);
    assert [] + b == b;
    assert t.files == s.files + [Inode(b, s.clock)];
    assert t.puts == s.puts[k := s.puts[k].(queue := [], stage := Receiving(|s.files|))];
  }

  /** The rename fails. */
  lemma PutNotRenamed(s: State, k: nat) returns (t: State)
    requires Enabled(s, Acquire(k)) && !s.puts[k].ending.Streaming?
    ensures Leads(s, t)
    ensures t.files == s.files + [Inode(Concat(s.puts[k].queue), s.clock)] && t.lock == Some(k)
    ensures t.dir == s.dir && t.clients == s.clients && t.clock == s.clock && |t.puts| == |s.puts|
  {
    var u := PutReceived(s, k);
    t := Apply(u, RenameFail(k));
    LeadsStep(s, u, RenameFail(k));
  }

  /** Rename and unlock. */
  lemma PutLanded(s: State, k: nat) returns (t: State)
    requires Enabled(s, Acquire(k)) && !s.puts[k].ending.Streaming?
    ensures Leads(s, t)
    ensures var u := Stored(s, k, Concat(s.puts[k].queue));
            t == u.(puts := u.puts[k := u.puts[k].(stage := Landed(|s.log|))])
  {
    var u := PutReceived(s, k);
    t := Apply(u, Land(k, false));
    LeadsStep(s, u, Land(k, false));
    assert t.files == u.files;
    assert t.puts == s.puts[k := s.puts[k].(queue := [], stage := Landed(|s.log|))];
  }

  /** And the `lstat` that follows. */
  lemma PutStored(s: State, k: nat) returns (t: State)
    requires Enabled(s, Acquire(k)) && !s.puts[k].ending.Streaming?
    ensures Leads(s, t)
    ensures t == Stored(s, k, Concat(s.puts[k].queue))
  {
    var u := PutLanded(s, k);
    LastVersionSnoc(s.log, u.log[|s.log|], s.puts[k].path);
    t := Apply(u, Stat(k));
    LeadsStep(s, u, Stat(k));
    assert t.puts == Stored(s, k, Concat(s.puts[k].queue)).puts;
  }

  /** The whole of `Flush` for a dirty path, with the server's lock free and nothing in between,
      is a run of the protocol, and it ends in `AfterFlush`. */
  lemma FlushIsARun(s: State, c: nat, p: Path) returns (t: State)
    requires Enabled(s, FlushBegin(c, p)) && s.lock.None?
    ensures Leads(s, t) && OnlyClient(s, t, c, p)
    ensures ViewOf(t, c) == AfterFlush(ViewOf(s, c), p, s.clock)
  {
    var b := s.clients[c].temp[p].bytes;
    var k := |s.puts|;
    var s1 := FlushSent(s, c, p);
    var s2 := PutStored(s1, k);
    LeadsOn(s, s1, s2);
    ChunksFromJoin(b, 0);
    assert s2 == Stored(s1, k, b) && s2.clients == s1.clients;
    t := CommitStored(s, s2, c, p, k);
  }

  /** The last step of it: the client commits what the server has just stored. */
  lemma CommitStored(s: State, u: State, c: nat, p: Path, k: nat) returns (t: State)
    requires c < |s.clients| && p in s.clients[c].temp && k < |u.puts| && Leads(s, u)
    requires u.clients == s.clients[c := s.clients[c].(task := s.clients[c].task[p := Flushing(k)])]
    requires p !in s.clients[c].task && u.clock == s.clock && u.lock == s.lock
    requires u.puts[k].stage.Replied? && u.puts[k].ending.Complete? && u.puts[k].stage.mtime == s.clock
    requires u.dir == s.dir[p := |s.files|] && u.files == s.files + [Inode(s.clients[c].temp[p].bytes, s.clock)]
    ensures Leads(s, t) && OnlyClient(s, t, c, p)
    ensures ViewOf(t, c) == AfterFlush(ViewOf(s, c), p, s.clock)
  {
    t := Apply(u, Commit(c, p));
    LeadsStep(s, u, Commit(c, p));
    assert t.clients[c].task == s.clients[c].task;
    PlainUpdate(s.clients[c].temp, p, t.clients[c].temp[p]);
    PlainUpdate(s.clients[c].cache, p, t.clients[c].temp[p]);
  }

  /** The same flush with a stream that breaks after `n` messages. */
  lemma FlushCut(s: State, c: nat, p: Path, n: nat) returns (t: State)
    requires Enabled(s, FlushBegin(c, p)) && n <= |Chunks(s.clients[c].temp[p].bytes)|
    ensures Leads(s, t)
    ensures var cl := s.clients[c]; var b := cl.temp[p].bytes;
            t == WithClient(s.(puts := s.puts + [Put(c, p, b, cl.temp[p].origin, |b|, Chunks(b)[..n], Cut, Waiting)]),
                            c, cl.(task := cl.task[p := Flushing(|s.puts|)]))
  {
    var cl := s.clients[c];
    var b := cl.temp[p].bytes;
    var u := FlushSent(s, c, p);
    t := Apply(u, CutStream(|s.puts|, n));
    LeadsStep(s, u, CutStream(|s.puts|, n));
    assert t.puts == s.puts + [Put(c, p, b, cl.temp[p].origin, |b|, Chunks(b)[..n], Cut, Waiting)];
  }

  /** The client gives up its flush and keeps everything. */
  lemma FlushGivenUp(s: State, u: State, c: nat, p: Path) returns (t: State)
    requires c < |s.clients| && p !in s.clients[c].task && Leads(s, u) && u.clock == s.clock
    requires exists k: nat ::
               k < |u.puts| && u.clients == s.clients[c := s.clients[c].(task := s.clients[c].task[p := Flushing(k)])]
    ensures Leads(s, t) && t.clients == s.clients
    ensures t.dir == u.dir && t.files == u.files && t.lock == u.lock && t.clock == s.clock
  {
    t := Apply(u, FlushFail(c, p));
    LeadsStep(s, u, FlushFail(c, p));
    assert t.clients[c].task == s.clients[c].task;
  }

  /** A flush whose stream breaks, or whose reply is lost, is a run of the protocol. */
  lemma BrokenFlushIsARun(s: State, c: nat, p: Path, n: nat) returns (t: State)
    requires Enabled(s, FlushBegin(c, p)) && s.lock.None? && n <= |Chunks(s.clients[c].temp[p].bytes)|
    ensures Leads(s, t) && t.lock == s.lock && t.clients == s.clients
    ensures var v := ViewOf(s, c);
            ViewOf(t, c) == AfterBrokenFlush(v, p, Chunks(v.temp[p].bytes)[..n], s.clock)
  {
    var s1 := FlushCut(s, c, p, n);
    var s2 := PutStored(s1, |s.puts|);
    LeadsOn(s, s1, s2);
    t := FlushGivenUp(s, s2, c, p);
  }

  /** So is one whose rename fails; it leaves the server's lock taken. */
  lemma FailedRenameIsARun(s: State, c: nat, p: Path, n: nat) returns (t: State)
    requires Enabled(s, FlushBegin(c, p)) && s.lock.None? && n <= |Chunks(s.clients[c].temp[p].bytes)|
    ensures Leads(s, t) && t.lock.Some? && t.clients == s.clients
    ensures var v := ViewOf(s, c);
            ViewOf(t, c) == AfterFailedRename(v, Chunks(v.temp[p].bytes)[..n], s.clock)
  {
    var s1 := FlushCut(s, c, p, n);
    var s2 := PutNotRenamed(s1, |s.puts|);
    LeadsOn(s, s1, s2);
    t := FlushGivenUp(s, s2, c, p);
  }

  // ---- Open -----------------------------------------------------------------------------------

  /** The read loop of the server's Open, run to its end. */
  lemma {:induction false} ReadToEnd(s: State, r: nat) returns (t: State)
    requires r < |s.fetches| && s.fetches[r].stage.Sending? && s.fetches[r].stage.ino < |s.files|
    requires var st := s.fetches[r].stage; var b := s.files[st.ino].bytes;
             st.pos <= |b| && s.fetches[r].got == b[..st.pos]
    ensures Leads(s, t)
    ensures var st := s.fetches[r].stage;
            t == WithRead(s, r, s.fetches[r].(stage := Protocol.Finished(st.ver), got := s.files[st.ino].bytes))
    decreases |s.files[s.fetches[r].stage.ino].bytes| - s.fetches[r].stage.pos
  {
    var st := s.fetches[r].stage;
    var b := s.files[st.ino].bytes;
    var chunk := ChunkAt(b, st.pos);
    var u := Apply(s, ReadChunk(r));
    LeadsOne(s, ReadChunk(r));
    assert b[..st.pos] + chunk == b[..st.pos + |chunk|];
    if |chunk| == BUFSIZE {
      t := ReadToEnd(u, r);
      LeadsOn(s, u, t);
    } else {
      assert b[..|b|] == b;
      t := u;
    }
  }

  /** The decision to fetch, the server's open and the whole stream. */
  lemma FetchReceived(s: State, c: nat, p: Path) returns (t: State, read: Read)
    requires Enabled(s, OpenFetch(c, p))
    ensures Leads(s, t)
    ensures read.stage.Finished? && read.got == if p in s.dir then s.files[s.dir[p]].bytes else []
    ensures var cl := s.clients[c];
            t == WithClient(s, c, cl.(task := cl.task[p := Fetching(|s.fetches|)])).(fetches := s.fetches + [read])
  {
    var r := |s.fetches|;
    var s1 := Apply(s, OpenFetch(c, p));
    LeadsOne(s, OpenFetch(c, p));
    t := Apply(s1, ServerOpen(r));
    LeadsStep(s, s1, ServerOpen(r));
    if p in s.dir {
      var s2 := t;
      t := ReadToEnd(s2, r);
      LeadsOn(s, s2, t);
    }
    read := t.fetches[r];
    assert t.fetches == s.fetches + [read];
  }

  /** The whole of a fetch, with nothing in between, is a run of the protocol, and it ends in
      `AfterFetch`. */
  lemma FetchIsARun(s: State, c: nat, p: Path) returns (t: State)
    requires Enabled(s, OpenFetch(c, p)) && WellNamed(ViewOf(s, c))
    ensures Leads(s, t) && OnlyClient(s, t, c, p)
    ensures ViewOf(t, c) == AfterFetch(ViewOf(s, c), p, s.clock)
    ensures p in t.clients[c].temp && t.clients[c].temp[p].origin.Fetched?
  {
    var u, read := FetchReceived(s, c, p);
    t := Apply(u, FetchDone(c, p));
    LeadsStep(s, u, FetchDone(c, p));
    assert t.clients[c].task == s.clients[c].task;
    PlainUpdate(s.clients[c].temp, p, t.clients[c].temp[p]);
    PlainUpdate(s.clients[c].cache, p, t.clients[c].temp[p]);
  }

  /** A fetch that fails changes nothing, if the local open does not make a file. */
  lemma FailedFetchIsARun(s: State, c: nat, p: Path) returns (t: State)
    requires Enabled(s, OpenFetch(c, p))
    ensures Leads(s, t) && OnlyClient(s, t, c, p)
    ensures ViewOf(t, c) == ViewOf(s, c) && t.clients[c].temp == s.clients[c].temp
  {
    var u := Apply(s, OpenFetch(c, p));
    LeadsOne(s, OpenFetch(c, p));
    t := Apply(u, FetchFail(c, p));
    LeadsStep(s, u, FetchFail(c, p));
    assert t.clients[c].task == s.clients[c].task;
  }

  /** And if it does, that is a run too. */
  lemma LostFetchIsARun(s: State, c: nat, p: Path) returns (t: State)
    requires Enabled(s, OpenFetch(c, p)) && p !in s.clients[c].temp
    ensures Leads(s, t) && OnlyClient(s, t, c, p)
    ensures ViewOf(t, c) == AfterLostFetch(ViewOf(s, c), p, s.clock)
    ensures p in t.clients[c].temp && t.clients[c].temp[p].origin.Unfetched?
  {
    var u := Apply(s, OpenFetch(c, p));
    LeadsOne(s, OpenFetch(c, p));
    t := Apply(u, FetchLost(c, p));
    LeadsStep(s, u, FetchLost(c, p));
    assert t.clients[c].task == s.clients[c].task;
    PlainUpdate(s.clients[c].temp, p, t.clients[c].temp[p]);
  }

  /** The server's half of a create: it finds no file and opens one, or fails to. */
  lemma ServerCreated(s: State, p: Path, created: bool) returns (t: State)
    requires p !in s.dir
    ensures Leads(s, t)
    ensures t == (if created then
                    s.(dir := s.dir[p := |s.files|], files := s.files + [Inode([], s.clock)],
                       log := s.log + [Version(p, |s.files|, [], s.clock, s.clock, ByCreate)])
                  else s).(creates := t.creates)
  {
    var flags := OpenFlags(true, false, false);
    var u, i := Apply(s, ServerMiss(p, flags)), |s.creates|;
    LeadsOne(s, ServerMiss(p, flags));
    var e := if created then ServerCreate(i) else ServerLeave(i);
    t := Apply(u, e);
    LeadsStep(s, u, e);
  }

  /** The client's half of it. */
  lemma LocallyCreated(s: State, c: nat, p: Path) returns (t: State)
    requires Enabled(s, OpenCreate(c, p))
    ensures Leads(s, t)
    ensures var cl, f := s.clients[c], LocalFile([], s.clock, Local);
            t == WithClient(s, c, Client(cl.temp[p := f], cl.cache[p := f], cl.dirty + {p}, cl.task[p := Creating]))
  {
    t := Apply(s, OpenCreate(c, p));
    LeadsOne(s, OpenCreate(c, p));
  }

  /** The client's create has been answered. */
  lemma CreateAnswered(s: State, u: State, c: nat, p: Path) returns (t: State)
    requires c < |s.clients| == |u.clients| && p !in s.clients[c].task && Leads(s, u)
    requires u.clients[c].task == s.clients[c].task[p := Creating]
    ensures Leads(s, t) && t == WithClient(u, c, u.clients[c].(task := s.clients[c].task))
  {
    t := Apply(u, CreateReply(c, p));
    LeadsStep(s, u, CreateReply(c, p));
    assert t.clients[c].task == s.clients[c].task;
  }

  /** The whole of `Open` for a path the server lacks, asked to create it, is a run of the
      protocol, and it ends in `AfterCreate`. */
  lemma CreateIsARun(s: State, c: nat, p: Path, created: bool) returns (t: State)
    requires Enabled(s, OpenCreate(c, p))
    ensures Leads(s, t) && OnlyClient(s, t, c, p)
    ensures ViewOf(t, c) == AfterCreate(ViewOf(s, c), p, created, s.clock)
    ensures p in t.clients[c].temp && t.clients[c].temp[p].origin.Local?
  {
    var s1 := LocallyCreated(s, c, p);
    var s2 := ServerCreated(s1, p, created);
    LeadsOn(s, s1, s2);
    t := CreateAnswered(s, s2, c, p);
    PlainUpdate(s.clients[c].temp, p, LocalFile([], s.clock, Local));
    PlainUpdate(s.clients[c].cache, p, LocalFile([], s.clock, Local));
  }

  /** What the client holds for the path came out of a fetch that failed. */
  predicate HoldsUnfetched(s: State, c: nat, p: Path) {
    c < |s.clients| && p in s.clients[c].temp && s.clients[c].temp[p].origin.Unfetched?
  }

  /** The whole of `Open`, whatever it decides and whatever fails, is a run of the protocol. It
      leaves an empty copy that nobody published if and only if the path exists, the fetch failed,
      the flags have O_CREAT and temp was absent, unless such a copy was there before and stays. */
  lemma OpenIsARun(s: State, c: nat, p: Path, o: OpenCase) returns (t: State)
    requires Idle(s, c, p) && WellNamed(ViewOf(s, c))
    ensures Leads(s, t) && OnlyClient(s, t, c, p)
    ensures ViewOf(t, c) == AfterOpen(ViewOf(s, c), p, o, s.clock)
    ensures !HoldsUnfetched(s, c, p) ==> (HoldsUnfetched(t, c, p) <==> LosesFetch(ViewOf(s, c), p, o))
  {
    if p !in s.dir && MayCreate(o) {
      t := CreateIsARun(s, c, p, o.created);
    } else if Choice(ViewOf(s, c), p, o.unset) == 1 {
      if o.fetched {
        t := FetchIsARun(s, c, p);
      } else if o.creat && p !in s.clients[c].temp {
        t := LostFetchIsARun(s, c, p);
      } else {
        t := FailedFetchIsARun(s, c, p);
      }
    } else {
      t := s;
      LeadsSelf(s);
      assert s.clients[c].task - {p} == s.clients[c].task;
    }
  }

  // ---- Writes ---------------------------------------------------------------------------------

  /** A write, whole, short or failed, to the temp file or to a removed one, is one event. */
  lemma WriteIsARun(s: State, c: nat, p: Path, data: Bytes, offset: nat, attached: bool, written: int)
    returns (t: State)
    requires Idle(s, c, p) && (attached ==> p in s.clients[c].temp) && -1 <= written <= |data|
    ensures Leads(s, t) && OnlyClient(s, t, c, p)
    ensures ViewOf(t, c) == AfterWrite(ViewOf(s, c), p, data, offset, attached, written, s.clock)
  {
    assert s.clients[c].task - {p} == s.clients[c].task;
    if attached {
      var e := Write(c, p, offset, data[..Max(written, 0)]);
      t := Apply(s, e);
      LeadsOne(s, e);
      PlainUpdate(s.clients[c].temp, p, t.clients[c].temp[p]);
      if written <= 0 {
        assert t.clients[c].temp == s.clients[c].temp;
      }
    } else {
      t := Apply(s, WriteGone(c, p));
      LeadsOne(s, WriteGone(c, p));
    }
  }

  // ---- Removals -------------------------------------------------------------------------------

  /** Removing the temp copy is an event, and `Unlink` is two. */
  lemma UnlinkIsARun(s: State, c: nat, p: Path) returns (m: State, t: State)
    requires Idle(s, c, p)
    ensures Leads(s, m) && OnlyClient(s, m, c, p) && ViewOf(m, c) == WithoutTemp(ViewOf(s, c), p)
    ensures Leads(s, t) && OnlyClient(s, t, c, p) && ViewOf(t, c) == AfterUnlink(ViewOf(s, c), p)
  {
    LeadsSelf(s);
    m := Apply(s, DropTemp(c, p));
    LeadsStep(s, s, DropTemp(c, p));
    assert m.clients[c].task == s.clients[c].task == s.clients[c].task - {p};
    assert Plain(m.clients[c].temp) == Plain(s.clients[c].temp) - {p};
    if p in s.dir {
      t := Apply(m, ServerUnlink(p));
      LeadsStep(s, m, ServerUnlink(p));
    } else {
      t := m;
      assert s.dir - {p} == s.dir;
    }
  }
}
