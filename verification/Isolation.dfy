/** Bytes that a client has written but not flushed are nobody else's business. The statements
    compare two runs of the same events that differ only in those bytes. */
module Isolation {
  import opened Bytes
  import opened Transfer
  import opened Protocol
  import opened Runs

  /** The same state, with other bytes in client `c`'s temp copy of `p`, if there is one. */
  function WithBytes(s: State, c: nat, p: Path, b: Bytes): State
    requires c < |s.clients|
  {
    WithClient(s, c, s.clients[c].(temp := OtherBytes(s.clients[c].temp, p, b)))
  }

  function OtherBytes(m: map<Path, LocalFile>, p: Path, b: Bytes): map<Path, LocalFile> {
    if p in m then m[p := m[p].(bytes := b)] else m
  }

  lemma OtherBytesUpdate(m: map<Path, LocalFile>, p: Path, b: Bytes, q: Path, f: LocalFile)
    ensures OtherBytes(m, p, b)[q := f] == OtherBytes(m[q := f], p, if q == p then f.bytes else b)
  {
  }

  predicate NotFlushing(s: State, c: nat, p: Path) {
    c < |s.clients| && (p in s.clients[c].task ==> !s.clients[c].task[p].Flushing?)
  }

  /** What an event leaves in the temp copy that held `b` instead. */
  function BytesAfter(s: State, e: Event, c: nat, p: Path, b: Bytes): Bytes
    requires Enabled(s, e)
  {
    match e
    case Write(d, q, offset, data) => if d == c && q == p then Pwrite(b, data, offset) else b
    case OpenCreate(d, q) => if d == c && q == p then [] else b
    case FetchLost(d, q) => if d == c && q == p then [] else b
    case FetchDone(d, q) => if d == c && q == p then CutAtZero(s.fetches[s.clients[d].task[q].read].got) else b
    case _ => b
  }

  lemma ServerSideIgnoresClients(s: State, e: Event, clients: seq<Client>)
    requires ServerSide(e) && Enabled(s, e)
    ensures Enabled(s.(clients := clients), e)
    ensures Apply(s.(clients := clients), e) == Apply(s, e).(clients := clients)
  {
  }

  /** An event of another client neither sees nor changes client `c`. */
  lemma OtherClientsIgnoreBytes(s: State, e: Event, c: nat, cl: Client)
    requires c < |s.clients| && !ServerSide(e) && Actor(e) != c && Enabled(s, e)
    ensures Enabled(WithClient(s, c, cl), e)
    ensures Apply(s, e).clients[c] == s.clients[c]
    ensures Apply(WithClient(s, c, cl), e) == WithClient(Apply(s, e), c, cl)
  {
    var u, t := Apply(WithClient(s, c, cl), e), WithClient(Apply(s, e), c, cl);
    assert u.clients == t.clients;
  }

  predicate IgnoresBytes(s: State, e: Event, c: nat, p: Path, b: Bytes) {
    && Enabled(s, e) && c < |s.clients|
    && Enabled(WithBytes(s, c, p, b), e)
    && NotFlushing(Apply(s, e), c, p)
    && Apply(WithBytes(s, c, p, b), e) == WithBytes(Apply(s, e), c, p, BytesAfter(s, e, c, p, b))
  }

  /** The client's own events that open or end something. */
  lemma OwnOpensIgnoreBytes(s: State, e: Event, c: nat, p: Path, b: Bytes)
    requires NotFlushing(s, c, p) && !ServerSide(e) && Actor(e) == c && Enabled(s, e)
    requires e.OpenReuse? || e.OpenFetch? || e.FetchFail? || e.CreateReply? || e.FlushFail?
    ensures IgnoresBytes(s, e, c, p, b)
  {
    var u, v := Apply(WithBytes(s, c, p, b), e), WithBytes(Apply(s, e), c, p, b);
    assert u.clients[c].temp == v.clients[c].temp;
    assert u.clients == v.clients;
  }

  /** The client's own events that remove local files, and a write to a removed one. */
  lemma OwnRemovalsIgnoreBytes(s: State, e: Event, c: nat, p: Path, b: Bytes)
    requires NotFlushing(s, c, p) && !ServerSide(e) && Actor(e) == c && Enabled(s, e)
    requires e.DropTemp? || e.Restart? || e.WriteGone?
    ensures IgnoresBytes(s, e, c, p, b)
  {
    var u, v := Apply(WithBytes(s, c, p, b), e), WithBytes(Apply(s, e), c, p, b);
    assert u.clients[c].temp == v.clients[c].temp;
    assert u.clients == v.clients;
  }

  /** A write of the client, to this path or another. */
  lemma WriteIgnoresBytes(s: State, c: nat, q: Path, offset: nat, data: Bytes, p: Path, b: Bytes)
    requires NotFlushing(s, c, p) && Enabled(s, Write(c, q, offset, data))
    ensures IgnoresBytes(s, Write(c, q, offset, data), c, p, b)
  {
    var e := Write(c, q, offset, data);
    var u, v := Apply(WithBytes(s, c, p, b), e), WithBytes(Apply(s, e), c, p, BytesAfter(s, e, c, p, b));
    assert u.clients[c].temp == v.clients[c].temp;
    assert u.clients == v.clients;
  }

  /** The end of a fetch replaces the bytes. */
  lemma FetchDoneIgnoresBytes(s: State, c: nat, q: Path, p: Path, b: Bytes)
    requires NotFlushing(s, c, p) && Enabled(s, FetchDone(c, q))
    ensures IgnoresBytes(s, FetchDone(c, q), c, p, b)
  {
    var e := FetchDone(c, q);
    var u, v := Apply(WithBytes(s, c, p, b), e), WithBytes(Apply(s, e), c, p, BytesAfter(s, e, c, p, b));
    OtherBytesUpdate(s.clients[c].temp, p, b, q, Apply(s, e).clients[c].temp[q]);
    assert u.clients == v.clients;
  }

  /** A failed fetch that leaves an empty copy found none. */
  lemma FetchLostIgnoresBytes(s: State, c: nat, q: Path, p: Path, b: Bytes)
    requires NotFlushing(s, c, p) && Enabled(s, FetchLost(c, q))
    ensures IgnoresBytes(s, FetchLost(c, q), c, p, b)
  {
    var e := FetchLost(c, q);
    var u, v := Apply(WithBytes(s, c, p, b), e), WithBytes(Apply(s, e), c, p, BytesAfter(s, e, c, p, b));
    OtherBytesUpdate(s.clients[c].temp, p, b, q, Apply(s, e).clients[c].temp[q]);
    assert u.clients == v.clients;
  }

  /** A create empties the copy. */
  lemma OpenCreateIgnoresBytes(s: State, c: nat, q: Path, p: Path, b: Bytes)
    requires NotFlushing(s, c, p) && Enabled(s, OpenCreate(c, q))
    ensures IgnoresBytes(s, OpenCreate(c, q), c, p, b)
  {
    var e := OpenCreate(c, q);
    var u, v := Apply(WithBytes(s, c, p, b), e), WithBytes(Apply(s, e), c, p, BytesAfter(s, e, c, p, b));
    OtherBytesUpdate(s.clients[c].temp, p, b, q, Apply(s, e).clients[c].temp[q]);
    assert u.clients == v.clients;
  }

  /** A flush of another path reads other bytes. */
  lemma FlushBeginIgnoresBytes(s: State, c: nat, q: Path, p: Path, b: Bytes)
    requires NotFlushing(s, c, p) && Enabled(s, FlushBegin(c, q)) && q != p
    ensures IgnoresBytes(s, FlushBegin(c, q), c, p, b)
  {
    var e := FlushBegin(c, q);
    var u, v := Apply(WithBytes(s, c, p, b), e), WithBytes(Apply(s, e), c, p, BytesAfter(s, e, c, p, b));
    assert u.clients[c].temp == v.clients[c].temp;
    assert u.clients == v.clients;
  }

  /** So do the messages of such a flush. */
  lemma SendChunkIgnoresBytes(s: State, c: nat, q: Path, p: Path, b: Bytes)
    requires NotFlushing(s, c, p) && Enabled(s, SendChunk(c, q))
    ensures IgnoresBytes(s, SendChunk(c, q), c, p, b)
  {
    var e := SendChunk(c, q);
    var u, v := Apply(WithBytes(s, c, p, b), e), WithBytes(Apply(s, e), c, p, BytesAfter(s, e, c, p, b));
    assert u.clients[c].temp == v.clients[c].temp;
    assert u.clients == v.clients;
  }

  /** And so does its commit. */
  lemma CommitIgnoresBytes(s: State, c: nat, q: Path, p: Path, b: Bytes)
    requires NotFlushing(s, c, p) && Enabled(s, Commit(c, q))
    ensures IgnoresBytes(s, Commit(c, q), c, p, b)
  {
    var e := Commit(c, q);
    var u, v := Apply(WithBytes(s, c, p, b), e), WithBytes(Apply(s, e), c, p, BytesAfter(s, e, c, p, b));
    assert u.clients[c].temp == v.clients[c].temp;
    assert u.clients == v.clients;
  }

  lemma ForeignBytesAfter(s: State, e: Event, c: nat, p: Path, b: Bytes)
    requires Enabled(s, e) && (ServerSide(e) || Actor(e) != c)
    ensures BytesAfter(s, e, c, p, b) == b
  {
  }

  lemma ServerEventIgnoresBytes(s: State, e: Event, c: nat, p: Path, b: Bytes)
    requires NotFlushing(s, c, p) && Enabled(s, e) && ServerSide(e)
    ensures IgnoresBytes(s, e, c, p, b)
  {
    ServerSideIgnoresClients(s, e, WithBytes(s, c, p, b).clients);
    ServerSideKeepsClients(s, e);
    ForeignBytesAfter(s, e, c, p, b);
  }

  lemma ForeignEventIgnoresBytes(s: State, e: Event, c: nat, p: Path, b: Bytes)
    requires NotFlushing(s, c, p) && Enabled(s, e) && !ServerSide(e) && Actor(e) != c
    ensures IgnoresBytes(s, e, c, p, b)
  {
    OtherClientsIgnoreBytes(s, e, c, WithBytes(s, c, p, b).clients[c]);
    OnlyItsOwnEvents(s, e, c);
    ForeignBytesAfter(s, e, c, p, b);
  }

  lemma OwnEventIgnoresBytes(s: State, e: Event, c: nat, p: Path, b: Bytes)
    requires NotFlushing(s, c, p) && Enabled(s, e) && !ServerSide(e) && Actor(e) == c && e != FlushBegin(c, p)
    ensures IgnoresBytes(s, e, c, p, b)
  {
    match e
    case Write(_, q, offset, data) => WriteIgnoresBytes(s, c, q, offset, data, p, b);
    case FetchDone(_, q) => FetchDoneIgnoresBytes(s, c, q, p, b);
    case OpenCreate(_, q) => OpenCreateIgnoresBytes(s, c, q, p, b);
    case FlushBegin(_, q) => FlushBeginIgnoresBytes(s, c, q, p, b);
    case SendChunk(_, q) => SendChunkIgnoresBytes(s, c, q, p, b);
    case Commit(_, q) => CommitIgnoresBytes(s, c, q, p, b);
    case DropTemp(_, _) => OwnRemovalsIgnoreBytes(s, e, c, p, b);
    case FetchLost(_, q) => FetchLostIgnoresBytes(s, c, q, p, b);
    case WriteGone(_, _) => OwnRemovalsIgnoreBytes(s, e, c, p, b);
    case Restart(_) => OwnRemovalsIgnoreBytes(s, e, c, p, b);
    case _ => OwnOpensIgnoreBytes(s, e, c, p, b);
  }

  /** One event: it is enabled whatever the bytes are, and does the same to everything else. */
  lemma EventIgnoresBytes(s: State, e: Event, c: nat, p: Path, b: Bytes)
    requires NotFlushing(s, c, p) && Enabled(s, e) && e != FlushBegin(c, p)
    ensures IgnoresBytes(s, e, c, p, b)
  {
    if ServerSide(e) {
      ServerEventIgnoresBytes(s, e, c, p, b);
    } else if Actor(e) != c {
      ForeignEventIgnoresBytes(s, e, c, p, b);
    } else {
      OwnEventIgnoresBytes(s, e, c, p, b);
    }
  }

  lemma {:induction false} RunIgnoresBytes(s: State, es: seq<Event>, t: State, c: nat, p: Path, b: Bytes)
    returns (left: Bytes)
    requires NotFlushing(s, c, p) && Run(s, es) == Some(t) && FlushBegin(c, p) !in es
    ensures c < |t.clients|
    ensures Run(WithBytes(s, c, p, b), es) == Some(WithBytes(t, c, p, left))
    decreases |es|
  {
    if es == [] {
      left := b;
    } else {
      EventIgnoresBytes(s, es[0], c, p, b);
      left := RunIgnoresBytes(Apply(s, es[0]), es[1..], t, c, p, BytesAfter(s, es[0], c, p, b));
    }
  }

  /** Isolation: had the client written other bytes, then until it flushes that path every event
      would still be possible, and the server, every other client and everything this client
      holds for other paths would be the same. */
  lemma UnflushedBytesAreInvisible(s: State, es: seq<Event>, t: State, c: nat, p: Path, b: Bytes)
    requires NotFlushing(s, c, p) && Run(s, es) == Some(t) && FlushBegin(c, p) !in es
    ensures |t.clients| == |s.clients|
    ensures var r := Run(WithBytes(s, c, p, b), es);
            && r.Some?
            && r.value.(clients := t.clients) == t
            && |r.value.clients| == |t.clients|
            && (forall d :: 0 <= d < |t.clients| && d != c ==> r.value.clients[d] == t.clients[d])
            && r.value.clients[c].temp - {p} == t.clients[c].temp - {p}
            && r.value.clients[c].cache == t.clients[c].cache
            && r.value.clients[c].dirty == t.clients[c].dirty
  {
    var left := RunIgnoresBytes(s, es, t, c, p, b);
    RunKeepsClients(s, es, t);
  }

  lemma {:induction false} RunKeepsClients(s: State, es: seq<Event>, t: State)
    requires Run(s, es) == Some(t)
    ensures |t.clients| == |s.clients|
    decreases |es|
  {
    if es != [] {
      assert |Apply(s, es[0]).clients| == |s.clients|;
      RunKeepsClients(Apply(s, es[0]), es[1..], t);
    }
  }

  /** What a crash loses: a restart of the client leaves no trace of the unflushed
      bytes at all, so the two runs are equal from there on. */
  lemma RestartForgetsUnflushedBytes(s: State, before: seq<Event>, m: State, after: seq<Event>,
                                     c: nat, p: Path, b: Bytes)
    requires NotFlushing(s, c, p) && Run(s, before) == Some(m) && FlushBegin(c, p) !in before
    ensures c < |m.clients|
    ensures Run(WithBytes(s, c, p, b), before + [Restart(c)] + after) == Run(Apply(m, Restart(c)), after)
  {
    RunKeepsClients(s, before, m);
    var left := RunIgnoresBytes(s, before, m, c, p, b);
    var u := WithBytes(m, c, p, left);
    RunAppend(WithBytes(s, c, p, b), before, [Restart(c)] + after);
    assert before + [Restart(c)] + after == before + ([Restart(c)] + after);
    assert ([Restart(c)] + after)[1..] == after;
    assert Apply(u, Restart(c)).clients == Apply(m, Restart(c)).clients;
  }
}
