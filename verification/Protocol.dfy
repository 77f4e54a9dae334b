/** The client/server protocol as a state machine: any number of clients, one server whose
    handlers run concurrently, one shared clock in whole seconds. Every event below is one atomic
    action of the code; a run is a list of events, so a statement about all runs covers every
    interleaving. `log`, `order`, `torn`, `Origin`, `snapshot` and `taken` are history: no event is
    enabled or disabled by them.

    A create is two actions of the server: it finds no file (`ServerMiss`), and some time later it
    opens the path with the flags of the client, which creates the file, cuts one that has appeared
    meanwhile, or leaves things as they are. A write may go to a temp file that has been removed
    (`WriteGone`): it changes no file under a name, but it marks the path. */
module Protocol {
  import opened Bytes
  import opened Transfer

  type Path = string

  /** A server inode. */
  datatype Inode = Inode(bytes: Bytes, mtime: int)

  datatype Source = ByPut(put: nat) | ByCreate

  /** One publication: at second `landed` the server made inode `ino` reachable under `path`. */
  datatype Version = Version(path: Path, ino: nat, bytes: Bytes, mtime: int, landed: int, source: Source)

  /** Where the bytes of a local file came from. Version numbers index the log; -1 stands for a
      fetch that found no file. `Unfetched` is the empty file that the local open of a create makes
      after a fetch that failed. */
  datatype Origin =
    | Local
    | Unfetched
    | Fetched(ver: int, taken: int)
    | Committed(ver: int, stat: int)

  datatype LocalFile = LocalFile(bytes: Bytes, mtime: int, origin: Origin)

  /** The flags of an open that a create passes on to the server. */
  datatype OpenFlags = OpenFlags(creat: bool, excl: bool, trunc: bool)

  /** A create for which the server has found no file but has not opened one yet. */
  datatype Creation = Creation(path: Path, flags: OpenFlags, pending: bool)

  /** What a client is doing with a path. One client works on one path serially. */
  datatype Task = Creating | Fetching(read: nat) | Flushing(put: nat)

  datatype Client = Client(temp: map<Path, LocalFile>, cache: map<Path, LocalFile>,
                           dirty: set<Path>, task: map<Path, Task>)

  datatype PutStage =
    | Waiting
    | Receiving(ino: nat)
    | Landed(ver: int)
    | Replied(ver: int, stat: int, mtime: int)
    | Failed

  datatype Ending = Streaming | Complete | Cut

  /** A PutFile call: the client has read `pos` bytes of its temp file, `queue` is under way. */
  datatype Put = Put(client: nat, path: Path, snapshot: Bytes, origin: Origin, pos: nat,
                     queue: seq<Bytes>, ending: Ending, stage: PutStage)

  datatype ReadStage =
    | Requested
    | Sending(ver: int, ino: nat, pos: nat)
    | Finished(ver: int)
    | Dropped

  /** A server Open call that streams a file to a client, which has joined `got` so far. */
  datatype Read = Read(client: nat, path: Path, stage: ReadStage, taken: int, got: Bytes)

  /** `torn` tells when an inode was last cut in place by a create. */
  datatype State = State(clock: int, dir: map<Path, nat>, files: seq<Inode>, lock: Option<nat>,
                         puts: seq<Put>, fetches: seq<Read>, creates: seq<Creation>, clients: seq<Client>,
                         log: seq<Version>, order: seq<nat>, torn: map<nat, int>)

  datatype Event =
    | Tick
    | OpenReuse(c: nat, path: Path)
    | OpenFetch(c: nat, path: Path)
    | ServerOpen(r: nat)
    | ReadChunk(r: nat)
    | FetchDone(c: nat, path: Path)
    | FetchFail(c: nat, path: Path)
    | FetchLost(c: nat, path: Path)
    | OpenCreate(c: nat, path: Path)
    | ServerMiss(path: Path, flags: OpenFlags)
    | ServerCreate(i: nat)
    | ServerTruncate(i: nat)
    | ServerLeave(i: nat)
    | CreateReply(c: nat, path: Path)
    | Write(c: nat, path: Path, offset: nat, data: Bytes)
    | WriteGone(c: nat, path: Path)
    | FlushBegin(c: nat, path: Path)
    | SendChunk(c: nat, path: Path)
    | CutStream(k: nat, keep: nat)
    | FlushFail(c: nat, path: Path)
    | Acquire(k: nat)
    | Receive(k: nat, spill: bool)
    | Land(k: nat, spill: bool)
    | RenameFail(k: nat)
    | Stat(k: nat)
    | Commit(c: nat, path: Path)
    | DropTemp(c: nat, path: Path)
    | ServerUnlink(path: Path)
    | ServerRestart
    | Restart(c: nat)

  const NEW_CLIENT: Client := Client(map[], map[], {}, map[])

  function Init(clients: nat, clock: int): State {
    State(clock, map[], [], None, [], [], [], seq(clients, _ => NEW_CLIENT), [], [], map[])
  }

  /** The number of the last publication of a path, or -1. */
  function LastVersion(log: seq<Version>, path: Path): (v: int)
    ensures -1 <= v < |log|
    ensures v >= 0 ==> log[v].path == path
    ensures forall w :: v < w < |log| ==> log[w].path != path
  {
    if log == [] then -1
    else if log[|log| - 1].path == path then |log| - 1
    else LastVersion(log[..|log| - 1], path)
  }

  /** `getOpenFlags` for a path the server has: 1 fetch, 2 reuse the temp copy, 4 copy the cache. */
  function OpenDecision(serverMtime: int, temp: Option<int>, inCache: bool): int {
    var outOfDate := if temp.Some? then serverMtime > temp.value else true;
    if temp.None? && !inCache then 1
    else if temp.None? && inCache && !outOfDate then 4
    else if outOfDate then 1
    else 2
  }

  function TempMtime(cl: Client, path: Path): Option<int> {
    if path in cl.temp then Some(cl.temp[path].mtime) else None
  }

  /** What `Open` of an existing path would decide now. */
  function Decision(s: State, c: nat, path: Path): int
    requires c < |s.clients| && path in s.dir && s.dir[path] < |s.files|
  {
    OpenDecision(s.files[s.dir[path]].mtime, TempMtime(s.clients[c], path), path in s.clients[c].cache)
  }

  predicate Idle(s: State, c: nat, path: Path) {
    c < |s.clients| && path !in s.clients[c].task
  }

  predicate Exists(s: State, path: Path) {
    path in s.dir && s.dir[path] < |s.files|
  }

  predicate Creates(s: State, i: nat) {
    i < |s.creates| && s.creates[i].pending
  }

  /** An open that cuts a file it finds: O_TRUNC, unless O_EXCL makes it fail. */
  predicate Truncates(flags: OpenFlags) {
    flags.trunc && !(flags.creat && flags.excl)
  }

  predicate FetchingAt(s: State, c: nat, path: Path) {
    c < |s.clients| && path in s.clients[c].task && s.clients[c].task[path].Fetching?
    && s.clients[c].task[path].read < |s.fetches|
  }

  predicate FlushingAt(s: State, c: nat, path: Path) {
    c < |s.clients| && path in s.clients[c].task && s.clients[c].task[path].Flushing?
    && s.clients[c].task[path].put < |s.puts|
  }

  predicate ReceivingAt(s: State, k: nat) {
    k < |s.puts| && s.puts[k].stage.Receiving? && s.puts[k].stage.ino < |s.files|
  }

  predicate Enabled(s: State, e: Event) {
    match e
    case Tick => true
    case OpenReuse(c, p) => Idle(s, c, p) && p in s.clients[c].temp
                            && (p in s.dir ==> Exists(s, p) && Decision(s, c, p) == 2)
    case OpenFetch(c, p) => Idle(s, c, p) && (p in s.dir ==> Exists(s, p) && Decision(s, c, p) == 1)
    case ServerOpen(r) => r < |s.fetches| && s.fetches[r].stage.Requested?
    case ReadChunk(r) => r < |s.fetches| && s.fetches[r].stage.Sending? && s.fetches[r].stage.ino < |s.files|
    case FetchDone(c, p) => FetchingAt(s, c, p) && s.fetches[s.clients[c].task[p].read].stage.Finished?
    case FetchFail(c, p) => FetchingAt(s, c, p)
    case FetchLost(c, p) => FetchingAt(s, c, p) && p !in s.clients[c].temp
    case OpenCreate(c, p) => Idle(s, c, p) && p !in s.dir
    case ServerMiss(p, flags) => p !in s.dir
    case ServerCreate(i) => Creates(s, i) && s.creates[i].flags.creat && s.creates[i].path !in s.dir
    case ServerTruncate(i) => Creates(s, i) && Truncates(s.creates[i].flags) && Exists(s, s.creates[i].path)
    case ServerLeave(i) => Creates(s, i)
    case CreateReply(c, p) => c < |s.clients| && p in s.clients[c].task && s.clients[c].task[p].Creating?
    case Write(c, p, offset, data) => Idle(s, c, p) && p in s.clients[c].temp
    case WriteGone(c, p) => Idle(s, c, p)
    case FlushBegin(c, p) => Idle(s, c, p) && p in s.clients[c].temp && p in s.clients[c].dirty
    case SendChunk(c, p) => FlushingAt(s, c, p) && p in s.clients[c].temp
                            && s.puts[s.clients[c].task[p].put].ending.Streaming?
    case CutStream(k, keep) => k < |s.puts| && (s.puts[k].stage.Waiting? || s.puts[k].stage.Receiving?)
                               && keep <= |s.puts[k].queue|
    case FlushFail(c, p) => FlushingAt(s, c, p)
    case Acquire(k) => k < |s.puts| && s.puts[k].stage.Waiting? && s.lock.None?
    case Receive(k, spill) => ReceivingAt(s, k) && s.puts[k].queue != []
    case Land(k, spill) => ReceivingAt(s, k) && s.puts[k].queue == [] && !s.puts[k].ending.Streaming?
    case RenameFail(k) => ReceivingAt(s, k) && s.puts[k].queue == [] && !s.puts[k].ending.Streaming?
    case Stat(k) => k < |s.puts| && s.puts[k].stage.Landed?
                    && (s.puts[k].path in s.dir ==> Exists(s, s.puts[k].path))
    case Commit(c, p) => FlushingAt(s, c, p) && p in s.clients[c].temp
                         && s.puts[s.clients[c].task[p].put].stage.Replied?
                         && s.puts[s.clients[c].task[p].put].ending.Complete?
    case DropTemp(c, p) => Idle(s, c, p)
    case ServerUnlink(p) => p in s.dir
    case ServerRestart => true
    case Restart(c) => c < |s.clients|
  }

  /** Events of the server, the network and the clock. */
  predicate ServerSide(e: Event) {
    e.Tick? || e.ServerOpen? || e.ReadChunk? || e.ServerMiss? || e.ServerCreate? || e.ServerTruncate?
    || e.ServerLeave? || e.CutStream? || e.Acquire? || e.Receive? || e.Land? || e.RenameFail? || e.Stat?
    || e.ServerUnlink? || e.ServerRestart?
  }

  /** The client an event belongs to. */
  function Actor(e: Event): nat
    requires !ServerSide(e)
  {
    e.c
  }

  function WithClient(s: State, c: nat, cl: Client): State
    requires c < |s.clients|
  {
    s.(clients := s.clients[c := cl])
  }

  function WithPut(s: State, k: nat, put: Put): State
    requires k < |s.puts|
  {
    s.(puts := s.puts[k := put])
  }

  function WithRead(s: State, r: nat, read: Read): State
    requires r < |s.fetches|
  {
    s.(fetches := s.fetches[r := read])
  }

  function Opened(s: State, i: nat): State
    requires i < |s.creates|
  {
    s.(creates := s.creates[i := s.creates[i].(pending := false)])
  }

  /** A new inode becomes reachable under a path. */
  function Publish(s: State, v: Version): State {
    s.(dir := s.dir[v.path := v.ino], log := s.log + [v])
  }

  /** The next message of a flush: what the client reads of its temp file at its position. */
  function ApplySendChunk(s: State, c: nat, p: Path): State
    requires Enabled(s, SendChunk(c, p))
  {
    var k := s.clients[c].task[p].put;
    var put := s.puts[k];
    var chunk := ChunkAt(s.clients[c].temp[p].bytes, put.pos);
    WithPut(s, k, put.(pos := put.pos + |chunk|, queue := put.queue + [chunk],
                       ending := if |chunk| == BUFSIZE then Streaming else Complete))
  }

  /** The next message of a fetch: what the server reads of the inode it opened. */
  function ApplyReadChunk(s: State, r: nat): State
    requires Enabled(s, ReadChunk(r))
  {
    var read := s.fetches[r];
    var Sending(ver, ino, pos) := read.stage;
    var chunk := ChunkAt(s.files[ino].bytes, pos);
    WithRead(s, r, read.(got := read.got + chunk,
                         stage := if |chunk| == BUFSIZE then Sending(ver, ino, pos + |chunk|) else Finished(ver)))
  }

  /** A message is written to the server's temp file. The stream buffers, so the inode's mtime
      moves only when the bytes spill to the file. */
  function ApplyReceive(s: State, k: nat, spill: bool): State
    requires Enabled(s, Receive(k, spill))
  {
    var put := s.puts[k];
    var ino := put.stage.ino;
    var f := s.files[ino];
    WithPut(s, k, put.(queue := put.queue[1..])).(
      files := s.files[ino := Inode(f.bytes + put.queue[0], if spill then s.clock else f.mtime)])
  }

  /** Close (which may spill), rename, unlock. The rename keeps the inode's mtime. */
  function ApplyLand(s: State, k: nat, spill: bool): State
    requires Enabled(s, Land(k, spill))
  {
    var put := s.puts[k];
    var ino := put.stage.ino;
    var f := s.files[ino].(mtime := if spill then s.clock else s.files[ino].mtime);
    var v := Version(put.path, ino, f.bytes, f.mtime, s.clock, ByPut(k));
    Publish(WithPut(s, k, put.(stage := Landed(|s.log|))), v).(files := s.files[ino := f], lock := None)
  }

  /** The `lstat` after the unlock sees whatever the path names by then. */
  function ApplyStat(s: State, k: nat): State
    requires Enabled(s, Stat(k))
  {
    var put := s.puts[k];
    if put.path in s.dir then
      WithPut(s, k, put.(stage := Replied(put.stage.ver, LastVersion(s.log, put.path), s.files[s.dir[put.path]].mtime)))
    else
      WithPut(s, k, put.(stage := Failed))
  }

  /** `commitToCache`: copy temp to cache, give both the time the server reported, clear the mark. */
  function ApplyCommit(s: State, c: nat, p: Path): State
    requires Enabled(s, Commit(c, p))
  {
    var cl := s.clients[c];
    var reply := s.puts[cl.task[p].put].stage;
    var f := LocalFile(cl.temp[p].bytes, reply.mtime, Committed(reply.ver, reply.stat));
    WithClient(s, c, cl.(temp := cl.temp[p := f], cache := cl.cache[p := f],
                         dirty := cl.dirty - {p}, task := cl.task - {p}))
  }

  /** The end of a fetch: cache and temp get the joined bytes up to the first zero byte. */
  function ApplyFetchDone(s: State, c: nat, p: Path): State
    requires Enabled(s, FetchDone(c, p))
  {
    var cl := s.clients[c];
    var read := s.fetches[cl.task[p].read];
    var f := LocalFile(CutAtZero(read.got), s.clock, Fetched(read.stage.ver, read.taken));
    WithClient(s, c, cl.(temp := cl.temp[p := f], cache := cl.cache[p := f], task := cl.task - {p}))
  }

  function ApplyWrite(s: State, c: nat, p: Path, offset: nat, data: Bytes): State
    requires Enabled(s, Write(c, p, offset, data))
  {
    var cl := s.clients[c];
    var f := cl.temp[p];
    var g := if data == [] then f else LocalFile(Pwrite(f.bytes, data, offset), s.clock, Local);
    WithClient(s, c, cl.(temp := cl.temp[p := g], dirty := cl.dirty + {p}))
  }

  /** A fetch fails, and the local open, which has O_CREAT and finds no temp file, makes one. */
  function ApplyFetchLost(s: State, c: nat, p: Path): State
    requires Enabled(s, FetchLost(c, p))
  {
    var cl := s.clients[c];
    WithClient(s, c, cl.(temp := cl.temp[p := LocalFile([], s.clock, Unfetched)], task := cl.task - {p}))
  }

  function ApplyOpenCreate(s: State, c: nat, p: Path): State
    requires Enabled(s, OpenCreate(c, p))
  {
    var cl := s.clients[c];
    var f := LocalFile([], s.clock, Local);
    WithClient(s, c, cl.(temp := cl.temp[p := f], cache := cl.cache[p := f],
                         dirty := cl.dirty + {p}, task := cl.task[p := Creating]))
  }

  function ApplyServerOpen(s: State, r: nat): State
    requires Enabled(s, ServerOpen(r))
  {
    var read := s.fetches[r];
    WithRead(s, r, read.(taken := s.clock,
      stage := if read.path in s.dir then Sending(LastVersion(s.log, read.path), s.dir[read.path], 0)
               else Finished(-1)))
  }

  /** A call that the server was working on when it stopped. */
  function Aborted(put: Put): Put {
    put.(ending := if put.ending.Streaming? then Cut else put.ending,
         stage := if put.stage.Replied? then put.stage else Failed)
  }

  /** The server stops and starts again: it keeps its files and nothing else. The lock is free, and
      a put that held it does not count as having taken it. */
  function ApplyServerRestart(s: State): State {
    s.(lock := None,
       order := if s.lock.Some? && s.order != [] then s.order[..|s.order| - 1] else s.order,
       puts := seq(|s.puts|, k requires 0 <= k < |s.puts| => Aborted(s.puts[k])),
       fetches := seq(|s.fetches|, r requires 0 <= r < |s.fetches| =>
         if s.fetches[r].stage.Finished? then s.fetches[r] else s.fetches[r].(stage := Dropped)),
       creates := seq(|s.creates|, i requires 0 <= i < |s.creates| => s.creates[i].(pending := false)))
  }

  /** A create cuts the file that the path names by now. */
  function ApplyServerTruncate(s: State, i: nat): State
    requires Enabled(s, ServerTruncate(i))
  {
    var ino := s.dir[s.creates[i].path];
    Opened(s, i).(files := s.files[ino := Inode([], s.clock)], torn := s.torn[ino := s.clock])
  }

  function EndTask(s: State, c: nat, p: Path): State
    requires c < |s.clients|
  {
    WithClient(s, c, s.clients[c].(task := s.clients[c].task - {p}))
  }

  function Apply(s: State, e: Event): State
    requires Enabled(s, e)
  {
    match e
    case Tick => s.(clock := s.clock + 1)
    case OpenReuse(c, p) => s
    case OpenFetch(c, p) =>
      var cl := s.clients[c];
      WithClient(s.(fetches := s.fetches + [Read(c, p, Requested, s.clock, [])]), c,
                 cl.(task := cl.task[p := Fetching(|s.fetches|)]))
    case ServerOpen(r) => ApplyServerOpen(s, r)
    case ReadChunk(r) => ApplyReadChunk(s, r)
    case FetchDone(c, p) => ApplyFetchDone(s, c, p)
    case FetchFail(c, p) => EndTask(s, c, p)
    case FetchLost(c, p) => ApplyFetchLost(s, c, p)
    case OpenCreate(c, p) => ApplyOpenCreate(s, c, p)
    case ServerMiss(p, flags) => s.(creates := s.creates + [Creation(p, flags, true)])
    case ServerCreate(i) =>
      Publish(Opened(s, i), Version(s.creates[i].path, |s.files|, [], s.clock, s.clock, ByCreate)).(
        files := s.files + [Inode([], s.clock)])
    case ServerTruncate(i) => ApplyServerTruncate(s, i)
    case ServerLeave(i) => Opened(s, i)
    case CreateReply(c, p) => EndTask(s, c, p)
    case Write(c, p, offset, data) => ApplyWrite(s, c, p, offset, data)
    case WriteGone(c, p) => WithClient(s, c, s.clients[c].(dirty := s.clients[c].dirty + {p}))
    case FlushBegin(c, p) =>
      var cl, f := s.clients[c], s.clients[c].temp[p];
      WithClient(s.(puts := s.puts + [Put(c, p, f.bytes, f.origin, 0, [], Streaming, Waiting)]), c,
                 cl.(task := cl.task[p := Flushing(|s.puts|)]))
    case SendChunk(c, p) => ApplySendChunk(s, c, p)
    case CutStream(k, keep) =>
      WithPut(s, k, s.puts[k].(queue := s.puts[k].queue[..keep], ending := Cut))
    case FlushFail(c, p) => EndTask(s, c, p)
    case Acquire(k) =>
      WithPut(s, k, s.puts[k].(stage := Receiving(|s.files|))).(
        lock := Some(k), order := s.order + [k], files := s.files + [Inode([], s.clock)])
    case Receive(k, spill) => ApplyReceive(s, k, spill)
    case Land(k, spill) => ApplyLand(s, k, spill)
    case RenameFail(k) => WithPut(s, k, s.puts[k].(stage := Failed))
    case Stat(k) => ApplyStat(s, k)
    case Commit(c, p) => ApplyCommit(s, c, p)
    case DropTemp(c, p) =>
      var cl := s.clients[c];
      WithClient(s, c, cl.(temp := cl.temp - {p}, dirty := cl.dirty - {p}))
    case ServerUnlink(p) => s.(dir := s.dir - {p})
    case ServerRestart => ApplyServerRestart(s)
    case Restart(c) =>
      WithClient(s, c, Client(map[], s.clients[c].cache, {}, map[]))
  }

  /** The state after a list of events, if each of them is enabled in turn. */
  function Run(s: State, es: seq<Event>): Option<State>
    decreases |es|
  {
    if es == [] then Some(s)
    else if Enabled(s, es[0]) then Run(Apply(s, es[0]), es[1..])
    else None
  }

  ghost predicate ReachableBy(s: State, n: nat, clock: int, es: seq<Event>) {
    Run(Init(n, clock), es) == Some(s)
  }

  ghost predicate Reachable(s: State) {
    exists n: nat, clock: int, es: seq<Event> :: ReachableBy(s, n, clock, es)
  }
}
