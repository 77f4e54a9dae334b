# A verified model of BNFS

BNFS is an AFS-like network file system: clients keep whole files in a volatile *temp* store and a
persistent *cache*, fetch a file when they open it and it is out of date, and send it back when
they flush it. The server stores plain files and keeps no state about its clients. The same
repository carries a queue that delays and reorders writes, an INI parser that configures error
injection, and the file system exerciser `fsx`. This project models these parts in Dafny and proves
what they promise.

`dafny verify dfyconfig.toml` checks the whole project.

## How it is built

- **Bytes, Transfer**: POSIX file contents, the cutting of files into messages of 65500 bytes, and
  the C string at the end of a fetch.
- **Protocol** is the consistency protocol as a state machine: any number of clients, one server
  with concurrent handlers, its global PutFile lock, inodes, in-flight puts, reads and creates, and
  one clock in whole seconds. An event is one atomic action of the code, so statements about all
  runs cover all interleavings. `log`, `order`, `torn`, `Origin`, `snapshot` and `taken` are history
  that no event depends on. **ProtocolInvariant** holds the inductive invariant and **ProtocolTheorems** what
  follows from it; **Recovery** is about restarts, **Origins** about the bytes that flushes send,
  **Isolation** about two runs that differ in unflushed bytes, **TornFiles** about the one event that
  breaks atomicity, and **StaleRuns** has five concrete runs that mark the limits.
- **Histories** and **ServerHistories** say what a state holds as a function of the list of events
  that led there, not of what the events do to states: which file, under which time, with which mark,
  and what an open then decides.
- **Session** is the code of one client and of the server as classes, executed alone, with every
  step that can fail. Its contracts are the `View` functions of **Runs**, where opens, flushes, broken
  flushes, failed renames and removals are shown to be runs of the protocol.
- **WriteQueue**, **ConfText** (the pure parser), **ConfParser** (the parser in its buffers),
  **ConfLaws**, **ConfGrammar** (the lines by their spelling, without the parser), **ErrorInjection**, **ShadowFile** (what fsx's draws mean), **Fsx** (its buffers) and
  **OpLog** (its ring log) are the other parts.

## What the proofs found

- *Atomic writes depend on the flags of creates.* The server first looks for the file and then
  opens it with the client's flags. If a put lands in between and the flags have O_TRUNC without
  O_EXCL, the published file is cut in place, under the eyes of its readers (`TornPublication`).
  Exactly the files that are hit in this way lose what was published
  (`KeptExactlyUnlessHit`, `TruncateBreaksTheLastPublication`, `TruncateCutsTheStream`); all results
  hold in every reachable state and name such files as the exception. Without such flags there are
  none (`HarmlessRunsCutNothing`).
- *A failed fetch can pass for a file.* `Open` ignores the result of a fetch and opens the temp path
  with the caller's flags. With O_CREAT and no temp file, the open of an existing path makes an
  empty file there, succeeds, and leaves it clean, so later opens reuse it, after a restart too
  (`EmptyInPlaceOfTheFile`). `OpenIsARun` and `OnlyALostFetchIsUnfetched` say exactly when.
- *Staleness is bounded, but not always by one second.* Modification times have whole seconds and
  an open fetches only if the server's time is strictly later, so a publication in the second of
  the copy is missed. When the newest publication landed in the second of its last write this is the
  exact condition (`StaleReuseIffSameSecond`). A put renames its temp file without changing the time
  of its last write, though. If a client fetches between that write and the rename, its copy is
  reused although the newer file landed seconds later (`StaleAcrossSeconds`), and the bound of one
  second holds exactly for the copies that were not taken in such a gap
  (`SameSecondBoundHoldsExactlyOutsideTheGap`). A slow fetch does the same: its copy carries the time of
  its end, so whatever was published after the server had opened the file, up to that second, is
  missed (`StaleAfterASlowFetch`, and exactly `StaleFetchIsReusedExactly`). A C++ stream that writes a full message through when
  it arrives has nothing left to write at the end of a file of whole buffers, so the gap lasts as
  long as the end of the stream is delayed. What holds without any condition is `BoundedStaleness`.
  Close-to-open, promised in README.md line 3, is proved for opens that fetch (`CloseToOpen`); an
  open that reuses its copy has it only as far as `BoundedStaleness` goes.
- *The reply to a put can carry another file's time.* The `lstat` comes after the unlock. If the
  path was replaced in between (exactly then: `StatSeesItsRename`), the client files its own bytes,
  clean, under the other file's time and keeps reusing them for as long as that file is the newest
  (`CopyUnderTheNewestTime`; `CommitUnderAnothersTime` is a run that gets there). At a commit the
  server still names this flush's file exactly when nothing has been published under the path since,
  and then all three copies agree (`CommitAgrees`).
- *An open can throw unflushed writes away.* An open of a dirty path fetches like any other if the
  server's file is newer, and keeps the mark, so the next flush sends the server's own bytes back,
  cut at a zero byte (`OutOfDateOpenLosesWrites`, `ForeignDirtyBegins`). By the events of a run that
  is exactly when the server's file changed after the second of the last write that stored a byte
  (`UnflushedWritesAreDroppedExactly`). In general a flush sends
  what the temp file started as with exactly the client's writes since on top
  (`SnapshotsHaveOrigins`). Writes are also lost when the header message of a flush cannot be sent:
  that removes the temp file (`Session.AfsClient.Flush`).
- *A broken stream still publishes* what arrived, while the client reports a failure and stays dirty;
  and a failed copy to the cache is reported as success (`Session.AfsClient.Flush`).
- *Opening a missing path without create* succeeds with an empty, clean local copy: the server
  answers with one empty message (`Session.AfsClient.Open`).
- *Fetched files end at their first zero byte* (`FlushThenOpen`); flushing is exact.
- *Flag 4 of `getOpenFlags` is dead*: the cache is never served from (`OpenDecisionIsFetchOrReuse`).
- *Queued writes are lost*: the FUSE callbacks pass 2 for a write and 1 for a flush, the queue
  executes 1 as a write and 2 as a close (`CallbackWritesAreLost`).
- *A failed rename on the server returns with the lock held*, so no later put can take it until the
  server is restarted.
- *An unknown option leaves an entry behind* in the error injection list, and an unknown type is
  answered with -1, which the parser takes for success: only 0 is a failure.
- *Small truncates of fsx need maxoplen to fit maxfilelen*; the option parser does not check it
  (`AllPicksFitExactlyWhenRoomy`).
- *fsx does not write every byte under every option.* A write has at most maxoplen bytes and starts at
  the boundary below the offset drawn. With writebdy above maxoplen the bytes
  maxoplen or more behind a boundary are never written (`ByteIsWrittenBySomeDraw`, which is exact).

## Model

| member | source | states |
|---|---|---|
| `Transfer.ChunksFromShape` | unreliablefs/unreliablefs/afs_client.cc:555-576 | A file is sent as full buffers and one short last message, which is empty for a length that is a multiple of 65500; the number of messages is exact |
| `Transfer.ChunksFromJoin` | unreliablefs/unreliablefs/afs_server.cc:252-255 | Joining the messages of a stream gives back the file from the point where the stream began |
| `Transfer.SendFile` | unreliablefs/unreliablefs/afs_server.cc:213-228 | The sending loop of both ends terminates and sends exactly the messages of the file, or the first ones if a write on the stream fails |
| `Transfer.SentIsAPrefix` | unreliablefs/unreliablefs/afs_client.cc:563-576 | What a broken stream gets through is whole buffers from the front of the file; an unbroken one gets all of it through |
| `Transfer.ReceiveAll` | unreliablefs/unreliablefs/afs_client.cc:444-447 | The receiving loop joins all messages in order |
| `Transfer.StrLen` | unreliablefs/unreliablefs/cache_helper.cc:302-302 | The length a writer uses ends at the first zero byte of the joined buffer |
| `Transfer.CutAtZeroIsLongestPrefix` | unreliablefs/unreliablefs/cache_helper.cc:286-286 | What a writer stores is the longest prefix of the fetched bytes without a zero byte |
| `Transfer.CutIsIdentityExactlyWithoutZeros` | unreliablefs/unreliablefs/afs_client.cc:456-457 | Fetching keeps a file intact if and only if it holds no zero byte |
| `Transfer.FlushThenOpen` | unreliablefs/unreliablefs/afs_client.cc:444-457 | Client chunking, server reassembly, server chunking and fetch compose to "the bytes before the first zero byte", hence to the identity exactly on zero-free files |
| `Protocol.LastVersion` | unreliablefs/unreliablefs/afs_server.cc:259-259 | The last publication of a path in the history: it is of that path, and no later one is |
| `ProtocolInvariant.FlushBeginKeepsInv` | unreliablefs/unreliablefs/afs_client.cc:549-561 | The start of a flush keeps the invariant |
| `ProtocolInvariant.SendChunkKeepsInv` | unreliablefs/unreliablefs/afs_client.cc:563-576 | Sending a message keeps the invariant: what arrived and what is under way is the part of the snapshot read so far, in whole buffers |
| `ProtocolInvariant.CutStreamKeepsInv` | unreliablefs/unreliablefs/afs_server.cc:252-255 | Losing any tail of a stream keeps the invariant |
| `ProtocolInvariant.AcquireKeepsInv` | unreliablefs/unreliablefs/afs_server.cc:248-251 | Taking the lock and opening the server temp file keeps the invariant: the new inode is unpublished |
| `ProtocolInvariant.ReceiveKeepsInv` | unreliablefs/unreliablefs/afs_server.cc:252-255 | Writing a message to the server temp file changes no published inode |
| `ProtocolInvariant.LandKeepsInv` | unreliablefs/unreliablefs/afs_server.cc:256-267 | Close, rename and unlock publish what arrived, in lock order and in time order |
| `ProtocolInvariant.RenameFailKeepsInv` | unreliablefs/unreliablefs/afs_server.cc:259-263 | A failed rename, which returns with the lock held, keeps the invariant |
| `ProtocolInvariant.StatKeepsInv` | unreliablefs/unreliablefs/afs_server.cc:269-279 | The `lstat` after the unlock reports the time of some publication of the path that is not older than the put itself |
| `ProtocolInvariant.ServerOpenKeepsInv` | unreliablefs/unreliablefs/afs_server.cc:189-193 | A server open fixes the publication that is current at that moment |
| `ProtocolInvariant.ReadChunkKeepsInv` | unreliablefs/unreliablefs/afs_server.cc:213-228 | What a reader has joined is a prefix of the one publication it opened, whatever happened to the path since |
| `ProtocolInvariant.ServerCreateKeepsInv` | unreliablefs/unreliablefs/afs_server.cc:197-204 | The open of a create, some time after no file was found, publishes an empty file if there is still none |
| `ProtocolInvariant.CreatesDoNotMatter` | unreliablefs/unreliablefs/afs_server.cc:193-197 | Finding no file, and an open that leaves a file alone, keep the invariant |
| `ProtocolInvariant.ServerTruncateKeepsInv` | unreliablefs/unreliablefs/afs_server.cc:197-198 | The open of a create that cuts a file which has appeared meanwhile keeps the invariant: it cuts a published file, never the temp file of a put |
| `ProtocolInvariant.ServerRestartKeepsInv` | README.md:9-9 | A server that stops in the middle of any calls and starts again, with its files and nothing else, keeps the invariant; its lock is free then |
| `ProtocolInvariant.ServerUnlinkKeepsInv` | unreliablefs/unreliablefs/afs_server.cc:292-302 | An unlink removes the name only |
| `ProtocolInvariant.OpenFetchKeepsInv` | unreliablefs/unreliablefs/afs_client.cc:355-356 | The decision to fetch keeps the invariant |
| `ProtocolInvariant.FetchDoneKeepsInv` | unreliablefs/unreliablefs/afs_client.cc:456-457 | The end of a fetch leaves a copy of one publication, cut at its first zero byte; that its time is the second of this event, in every run, is `Histories.TempTime` |
| `ProtocolInvariant.FetchLostKeepsInv` | unreliablefs/unreliablefs/afs_client.cc:378-383 | So does a fetch that fails under O_CREAT with no temp file: the local open makes an empty one, unmarked |
| `ProtocolInvariant.OpenCreateKeepsInv` | unreliablefs/unreliablefs/afs_client.cc:362-371 | The client side of a create keeps the invariant |
| `ProtocolInvariant.WriteKeepsInv` | unreliablefs/unreliablefs/unreliablefs_ops.c:347-352 | A local write keeps the invariant; the path is dirty afterwards |
| `ProtocolInvariant.WriteGoneKeepsInv` | unreliablefs/unreliablefs/unreliablefs_ops.c:347-352 | So does a write through a descriptor whose temp file has been removed: it only marks the path |
| `ProtocolInvariant.CommitKeepsInv` | unreliablefs/unreliablefs/cache_helper.cc:321-354 | A commit leaves a clean copy of the publication the flush made, under the reported time |
| `ProtocolInvariant.DropTempKeepsInv` | unreliablefs/unreliablefs/cache_helper.cc:392-398 | Removing a temp file keeps the invariant |
| `ProtocolInvariant.RestartKeepsInv` | unreliablefs/unreliablefs/cache_helper.cc:356-363 | A client restart at any point keeps the invariant |
| `ProtocolInvariant.EventKeepsInv` | unreliablefs/unreliablefs/afs_server.cc:184-303 | Every event of the protocol keeps the invariant |
| `ProtocolInvariant.ReachableInv` | unreliablefs/unreliablefs/afs_server.cc:184-303 | The invariant holds in every reachable state, for any number of clients and every interleaving, with restarts of clients and of the server |
| `ProtocolTheorems.AtomicPublish` | unreliablefs/unreliablefs/afs_server.cc:236-267 | Every inode that was ever published still holds what it was published with, unless a create has cut that very inode: nothing, from a create, or what arrived of exactly one flush, which is a prefix in whole buffers of that client's snapshot, and all of it unless the stream was cut |
| `ProtocolTheorems.NamesItsLastPublication` | unreliablefs/unreliablefs/afs_server.cc:259-259 | A path names the inode of its last publication and of no other one |
| `ProtocolTheorems.AtMostOnePutPastItsLock` | unreliablefs/unreliablefs/afs_server.cc:248-267 | Two puts between lock and rename are the same put |
| `ProtocolTheorems.LastWriterWins` | unreliablefs/unreliablefs/afs_server.cc:248-267 | Puts publish once each, in the order in which they took the lock, with modification times that never fall |
| `ProtocolTheorems.SnapshotRead` | unreliablefs/unreliablefs/afs_server.cc:184-234 | A completed stream delivered exactly one publication, the one current when the server opened the file: whole, or if a create has cut that file, some of it from the front |
| `ProtocolTheorems.ReadIsFresh` | unreliablefs/unreliablefs/afs_server.cc:184-234 | A stream opened during a run and completed delivered a publication at least as new as any made before the run, whole unless its file was cut |
| `ProtocolTheorems.CloseToOpen` | README.md:3-3 | After an open whose fetch reaches the server later than a flush has landed, the client holds that flush or a later publication, up to the first zero byte, unless a create has cut that file |
| `ProtocolTheorems.OpenDecisionIsFetchOrReuse` | unreliablefs/unreliablefs/afs_client.cc:311-341 | The decision is fetch or reuse; flag 4 never comes out. Reuse happens if and only if there is a temp copy that is not older than the server's file |
| `ProtocolTheorems.BoundedStaleness` | unreliablefs/unreliablefs/afs_client.cc:295-357 | A clean copy that an open reuses is one publication of the path (cut at a zero byte if fetched), or an empty one after a fetch that failed or found nothing; a newer publication can only have a time not after the copy's, and for an own-time commit exactly the copy's own second |
| `ProtocolTheorems.StaleReuseIffSameSecond` | unreliablefs/unreliablefs/cache_helper.cc:201-211 | For a stale copy timed by its own publication and a newest publication, neither cut by a create, where the newest landed in the second of its last write: the open reuses the copy if and only if that second is the copy's |
| `ProtocolTheorems.StaleCopyIsNotTimedLater` | unreliablefs/unreliablefs/cache_helper.cc:201-211 | Such a copy is never timed after the landing of the newest publication, and the server shows the time of that publication's last write |
| `ProtocolTheorems.SameSecondBoundHoldsExactlyOutsideTheGap` | unreliablefs/unreliablefs/cache_helper.cc:201-211 | In general, by that inequality: the copy is reused only in the second of the landing, if and only if the copy's second is not between the newest publication's last write and its rename |
| `ProtocolTheorems.StatSeesItsRename` | unreliablefs/unreliablefs/afs_server.cc:259-271 | The late `lstat` sees the put's own rename if and only if the path still names the put's file, that is, if and only if nothing was published under the path in between |
| `ProtocolTheorems.CopyUnderTheNewestTime` | unreliablefs/unreliablefs/cache_helper.cc:346-347 | A committed copy that carries the newest publication's time, if that file is not cut, is always reused, and the server names its file if and only if its `lstat` saw its own rename; so a copy filed under another file's time is reused stale as long as that file is the newest |
| `ProtocolTheorems.StaleCommitIsReusedExactly` | unreliablefs/unreliablefs/cache_helper.cc:201-211 | Any other stale committed copy is reused if and only if the newest publication's last write is not after that of the one whose time it carries |
| `ProtocolTheorems.CommitAgrees` | unreliablefs/unreliablefs/afs_client.cc:583-596 | Three-way agreement, exactly: at a commit the server still names the file of this flush if and only if nothing has been published there since, and then, if no create has cut that file, temp, cache and server agree in bytes and time; in any case temp and cache agree, the path is clean, and nothing else changed |
| `ProtocolTheorems.CommittedFlushWasPublished` | unreliablefs/unreliablefs/afs_client.cc:578-592 | A committed flush published the client's whole temp file |
| `Origins.SnapshotsHaveOrigins` | unreliablefs/unreliablefs/afs_client.cc:535-576 | What every put of every run sends: the file that temp started as (empty, or a publication of the path up to its first zero byte) with exactly the client's own writes since on top, in order; and with no byte written since, the fetched or committed publication |
| `Origins.TempIsAReplay` | unreliablefs/unreliablefs/unreliablefs_ops.c:347-352 | The same of every temp file in every run, whatever all clients and the server do |
| `Origins.ForeignDirtyBegins` | unreliablefs/unreliablefs/unreliablefs_ops.c:347-352 | A client comes to hold bytes that are not its own under a dirty mark exactly by a fetch over a marked path, or, over such a copy, by a write that fails, stores nothing, or goes to a removed temp file |
| `Origins.OutOfDateOpenLosesWrites` | unreliablefs/unreliablefs/afs_client.cc:355-356 | An open of a marked path fetches if and only if the server's file is newer than the temp file, whatever made that (its time is the subject of `Histories.TempTime`); the bytes in temp are lost, the mark stays, and the next flush can send the server's own file back, cut at its first zero byte |
| `Histories.TempTime` | unreliablefs/unreliablefs/unreliablefs_ops.c:347-352 | In every run, by its events: a client has a temp file exactly if the last event that touched it was not a removal; the file came from that event, and its time is the second of it: of the last write that stored a byte, of the create, or of the end of the fetch. Only a commit sets another time |
| `Histories.CacheIsTheLastSync` | unreliablefs/unreliablefs/cache_helper.cc:321-354 | In every run the cache holds what temp held after the last fetch, commit or create of the path, whatever has happened to temp since |
| `Histories.DirtyIsMarked` | unreliablefs/unreliablefs/cache_helper.cc:376-383 | In every run a path is marked exactly if a write, whatever it stored, or a create came after the last commit, removal or restart |
| `ServerHistories.LockHasItsHolder` | unreliablefs/unreliablefs/afs_server.cc:248-267 | In every run the lock is held exactly by the put that took it last, unless that has landed or the server has been restarted; a failed rename gives nothing back |
| `ServerHistories.PublicationsAreTold` | unreliablefs/unreliablefs/afs_server.cc:248-267 | In every run the publications are exactly what its renames and creates published, in order; each landed in the second of its event, and its time is the second in which bytes last went to the file: of the opening, of a message that was written through, or of the close |
| `ServerHistories.NamedUntilUnlinked` | unreliablefs/unreliablefs/afs_server.cc:284-303 | In every run a path has a file exactly if something was published under it and it has not been unlinked since |
| `ServerHistories.TornSinceItsPublication` | unreliablefs/unreliablefs/afs_server.cc:193-198 | In every run the file under a path has been cut in place exactly if a create that had found none opened it with a cut since its publication, last in the second of that open |
| `ServerHistories.ReadSeesWhatWasCurrent` | unreliablefs/unreliablefs/afs_server.cc:189-193 | In every run a stream belongs to the publication that the path had when the server opened it, in the second of that event |
| `ServerHistories.ReplyIsWhatStatSaw` | unreliablefs/unreliablefs/afs_server.cc:269-279 | In every run the reply to a put carries the time of whatever the path named when the `lstat` looked |
| `ServerHistories.CommittedTime` | unreliablefs/unreliablefs/cache_helper.cc:346-347 | In every run a committed file holds what its client flushed, under the time of the file that the `lstat` of that flush saw |
| `ServerHistories.FileTime` | unreliablefs/unreliablefs/afs_server.cc:252-259 | In every run the time of a server file is the second in which its last byte was written, or in which it was last cut; then it is empty |
| `ServerHistories.ReuseIsByTheLastTouch` | unreliablefs/unreliablefs/cache_helper.cc:201-211 | By the events alone, in every run: an open of an existing file reuses a temp file that no commit has re-timed if and only if the server's file did not change after the last event that touched the temp file; otherwise it fetches |
| `ServerHistories.StaleFetchIsReusedExactly` | unreliablefs/unreliablefs/afs_client.cc:456-457 | In every run a stale fetched copy carries the second in which its fetch ended, and is reused if and only if the newest publication was written (or cut) no later than that second |
| `ServerHistories.UnflushedWritesAreDroppedExactly` | unreliablefs/unreliablefs/afs_client.cc:355-356 | In every run an open drops unflushed writes if and only if the server's file changed after the second of the last write that stored a byte (or of the create, if there was none); the mark stays and the next flush can send the server's own file back |
| `TornFiles.TruncateBreaksTheLastPublication` | unreliablefs/unreliablefs/afs_server.cc:190-198 | A create that found no file but opens one with O_TRUNC destroys exactly the last publication of the path, unless that is empty and of this second |
| `TornFiles.TruncateCutsTheStream` | unreliablefs/unreliablefs/afs_server.cc:213-228 | A stream under way then ends with what it had, and delivers its publication if and only if it had read all of it |
| `TornFiles.KeptExactlyUnlessHit` | unreliablefs/unreliablefs/afs_server.cc:193-198 | Exactly, in every run: a publication is kept if and only if no create has cut its own file, or it is empty and of the second of that cut; creates on other files do not matter |
| `TornFiles.HarmlessRunsCutNothing` | unreliablefs/unreliablefs/afs_server.cc:197-198 | No run cuts any file if no create carries O_TRUNC, or each that does carries O_CREAT and O_EXCL |
| `StaleRuns.StaleAcrossSeconds` | unreliablefs/unreliablefs/afs_server.cc:252-259 | A reachable state where an open misses a publication that neither was written nor landed in the second of the copy: last write in second 0, fetch in second 1, rename in second 2 |
| `StaleRuns.CommitUnderAnothersTime` | unreliablefs/unreliablefs/afs_server.cc:267-279 | A reachable state where the late `lstat` saw another file: the client keeps its own bytes, clean, under the other file's time |
| `StaleRuns.TornPublication` | unreliablefs/unreliablefs/afs_server.cc:190-198 | A reachable state where a complete flush has been cut to nothing by such a create, under a reader's stream |
| `StaleRuns.EmptyInPlaceOfTheFile` | unreliablefs/unreliablefs/afs_client.cc:378-383 | A run right after a client's start in which a fetch fails under O_CREAT: the client holds an empty clean copy of an existing file and reuses it |
| `StaleRuns.StaleAfterASlowFetch` | unreliablefs/unreliablefs/afs_client.cc:428-460 | A reachable state where an open reuses a publication that was replaced before the fetch of it had ended: opened by the server in second 1, replaced in second 2, stored in second 3 |
| `Isolation.EventIgnoresBytes` | unreliablefs/unreliablefs/unreliablefs_ops.c:347-352 | Any event except the flush of that path does the same to everything else, whatever bytes a client has written to its temp copy |
| `Isolation.UnflushedBytesAreInvisible` | unreliablefs/unreliablefs/afs_client.cc:541-545 | Noninterference: in every run without a flush of that path, other written bytes change neither the server, nor any other client, nor what else this client holds |
| `Isolation.RestartForgetsUnflushedBytes` | unreliablefs/unreliablefs/cache_helper.cc:55-76 | After a restart two runs that differed in unflushed bytes are equal |
| `Runs.FlushIsARun` | unreliablefs/unreliablefs/afs_client.cc:530-597 | The code of a flush, executed alone, is a run of the protocol with the result that the client code is proved to compute |
| `Runs.FlushAgrees` | unreliablefs/unreliablefs/afs_client.cc:592-592 | That result is three-way agreement on the client's bytes, and no other path changes |
| `Runs.BrokenFlushIsARun` | unreliablefs/unreliablefs/afs_client.cc:563-588 | So is a flush whose stream breaks anywhere: the server publishes what arrived, the client changes nothing |
| `Runs.FailedRenameIsARun` | unreliablefs/unreliablefs/afs_server.cc:259-263 | So is a flush whose rename fails: nothing is published and the lock stays taken |
| `Runs.FetchIsARun` | unreliablefs/unreliablefs/afs_client.cc:428-460 | So is a fetch |
| `Runs.CreateIsARun` | unreliablefs/unreliablefs/afs_client.cc:362-372 | So is an open that creates, whether or not the server's open succeeds |
| `Runs.FailedFetchIsARun` | unreliablefs/unreliablefs/afs_client.cc:438-454 | So is a fetch whose stream breaks; it changes nothing |
| `Runs.LostFetchIsARun` | unreliablefs/unreliablefs/afs_client.cc:378-383 | So is one after which the local open, with O_CREAT and no temp file, makes an empty file |
| `Runs.OpenIsARun` | unreliablefs/unreliablefs/afs_client.cc:345-398 | So is the whole of an open, whatever it decides and whatever fails; it leaves an empty copy that nobody published if and only if the path exists, the fetch failed, the flags have O_CREAT and temp was absent |
| `Runs.WriteIsARun` | unreliablefs/unreliablefs/unreliablefs_ops.c:347-352 | So is a write, whole, short or failed, to the temp file or to a removed one |
| `Runs.UnlinkIsARun` | unreliablefs/unreliablefs/afs_client.cc:462-485 | So are the removal of a temp copy and an unlink |
| `Runs.OpenSettles` | unreliablefs/unreliablefs/afs_client.cc:345-398 | What an open leaves, case by case, of both stores, the mark and the server, for an existing or a missing file, a newer or older temp copy, a fetch or a create that works or fails; no other path changes |
| `Runs.WriteSettles` | unreliablefs/unreliablefs/unreliablefs_ops.c:347-358 | What a write leaves, byte by byte: the written bytes at their place, zeros in a gap, the time of the write if a byte was written, the mark in any case, and nothing else |
| `Recovery.RecoveryServesTheServersVersion` | unreliablefs/unreliablefs/afs_client.cc:306-319 | Crash recovery, in every run after a restart at any point: no open of a path reuses a copy and no flush sends one before a fetch or a create, and the first fetch that finds the file leaves a publication at least as new as all before the restart, up to the first zero byte, provided that no open with O_CREAT replaces a failed fetch by an empty file |
| `Recovery.OnlyALostFetchIsUnfetched` | unreliablefs/unreliablefs/afs_client.cc:355-383 | That happens exactly when a fetch fails, the flags have O_CREAT and temp has no file; no other event leaves such a copy |
| `Recovery.UndisturbedRecovery` | unreliablefs/unreliablefs/cache_helper.cc:356-363 | With nothing in between, the next open after a restart leaves exactly the server's file, clean, and everything else as it was |
| `Recovery.RestartedServerTakesFlushes` | unreliablefs/unreliablefs/afs_server.cc:248-251 | After a restart of the server any flush can run to its end, whoever held the lock before |
| `Session.FileServer.GetAttr` | unreliablefs/unreliablefs/afs_server.cc:80-114 | The modification time of an existing path |
| `Session.FileServer.Open` | unreliablefs/unreliablefs/afs_server.cc:184-234 | Streams an existing file without changing anything, and as much of it as gets through; for a missing one sends one empty message and creates it only when asked to and the open succeeds |
| `Session.FileServer.PutFile` | unreliablefs/unreliablefs/afs_server.cc:236-282 | A new inode with the joined messages is renamed into place; a failed rename changes no name and keeps the lock |
| `Session.FileServer.Unlink` | unreliablefs/unreliablefs/afs_server.cc:284-303 | Removes the name, fails if there is none, keeps every inode |
| `Session.CacheHelper.constructor` | unreliablefs/unreliablefs/cache_helper.cc:356-363 | A start empties temp and the dirty set and keeps the cache |
| `Session.CacheHelper.CleanTempDir` | unreliablefs/unreliablefs/cache_helper.cc:55-76 | The loop over the directory removes every temp file |
| `Session.CacheHelper.WriteFileToTemp` | unreliablefs/unreliablefs/cache_helper.cc:292-306 | Stores the data up to its first zero byte |
| `Session.CacheHelper.WriteFileToCache` | unreliablefs/unreliablefs/cache_helper.cc:276-290 | The same for the cache |
| `Session.CacheHelper.CommitToCache` | unreliablefs/unreliablefs/cache_helper.cc:321-354 | Copies temp to cache, gives both the time, clears the mark; without a temp file, or if the copying fails, nothing changes |
| `Session.CacheHelper.DeleteFromTemp` | unreliablefs/unreliablefs/cache_helper.cc:392-398 | Removes the temp file and the mark |
| `Session.CacheHelper.MarkFileDirty` | unreliablefs/unreliablefs/cache_helper.cc:376-383 | Adds the mark and nothing else |
| `Session.AfsClient.GetOpenFlags` | unreliablefs/unreliablefs/afs_client.cc:295-342 | 3 exactly for a missing path that may be created, 2 exactly for a temp copy that is not older than the server's time (or than the time that was never set, if there is no file), 1 otherwise, never 4 |
| `Session.AfsClient.FetchAndSyncServerFile` | unreliablefs/unreliablefs/afs_client.cc:428-460 | Both stores end up with the server's file up to its first zero byte, and with an empty file if it has none; a broken stream changes nothing |
| `Session.AfsClient.Open` | unreliablefs/unreliablefs/afs_client.cc:345-398 | The whole of an open in every case, with a failed create or fetch ignored and the caller's O_CREAT passed to the local open; a failing local open removes the temp copy again |
| `Session.AfsClient.Write` | unreliablefs/unreliablefs/unreliablefs_ops.c:347-358 | A positional write of as many bytes as succeed, to temp under the current time or to a removed file, its return value, and the mark in any case; `Runs.WriteSettles` says what that leaves |
| `Session.AfsClient.Flush` | unreliablefs/unreliablefs/afs_client.cc:530-597 | Every branch of a flush: no temp file, clean path (no change anywhere), no connection (local bytes thrown away), failed rename, broken stream (a prefix is published), failed copy to the cache (0, still dirty), and the agreeing result |
| `Session.AfsClient.Unlink` | unreliablefs/unreliablefs/afs_client.cc:462-485 | Removes temp and mark before it asks the server, so they are gone even when the server fails |
| `WriteQueue.EffectsCommuteExactlyWhenCompatible` | unreliablefs/unreliablefs/afs_client.cc:119-138 | On existing files two entries commute if and only if they do not put different bytes at one offset of one file |
| `WriteQueue.ReorderingIsUnobservable` | unreliablefs/unreliablefs/afs_client.cc:147-169 | Any two orders of a queue without conflicting entries leave the same files, holes included |
| `WriteQueue.ConflictIsObservable` | unreliablefs/unreliablefs/afs_client.cc:147-169 | Two conflicting entries always make some order visible |
| `WriteQueue.OrderFreeExactlyWhenCompatible` | unreliablefs/unreliablefs/afs_client.cc:147-169 | All orders of a queue agree if and only if no two entries conflict |
| `WriteQueue.CallbackWritesAreLost` | unreliablefs/unreliablefs/unreliablefs_ops.c:325-325 | The callbacks pass the operation numbers swapped: draining a queue they filled changes no file |
| `WriteQueue.DrainedByte` | unreliablefs/unreliablefs/afs_client.cc:119-138 | After a queue has been drained every byte of an existing file is the one that its last writer in the queue puts there, otherwise what it was, or zero in a gap; the file is as long as the furthest write reaches, and a missing file stays missing |
| `WriteQueue.Queue.AddToQueue` | unreliablefs/unreliablefs/afs_client.cc:95-108 | Appends one entry |
| `WriteQueue.Queue.ShuffleQueue` | unreliablefs/unreliablefs/afs_client.cc:147-169 | Refills the queue with the same entries in some order |
| `WriteQueue.Queue.Shuffle` | unreliablefs/unreliablefs/afs_client.cc:159-161 | Random swaps keep the entries |
| `WriteQueue.Queue.Take` | unreliablefs/unreliablefs/afs_client.cc:152-157 | Pops every entry into a vector, in order |
| `WriteQueue.Queue.ExecuteQueueHead` | unreliablefs/unreliablefs/afs_client.cc:110-145 | Pops and executes exactly the head, with the answers of every branch |
| `WriteQueue.Queue.DrainAll` | unreliablefs/unreliablefs/unreliablefs.c:135-146 | With any shuffles between head executions every inserted entry is executed exactly once and the files are those of the insertion order |
| `ConfParser.RStripAt` | unreliablefs/unreliablefs/conf.c:48-54 | In place: the string loses exactly its white space at the end |
| `ConfParser.LSkipAt` | unreliablefs/unreliablefs/conf.c:57-62 | Points at the first character that is not white space |
| `ConfParser.FindCharsOrComment` | unreliablefs/unreliablefs/conf.c:67-82 | Points at the first delimiter, inline comment or end |
| `ConfParser.StrNCpy0` | unreliablefs/unreliablefs/conf.c:86-94 | Copies a string, cut to the buffer, with its NUL |
| `ConfParser.StringReader.Read` | unreliablefs/unreliablefs/conf.c:265-288 | Delivers the next line as far as it fits, consumes exactly that, and never delivers an empty one |
| `ConfParser.IniParser.SectionAt` | unreliablefs/unreliablefs/conf.c:180-196 | A section line in the buffer does what the pure parser says |
| `ConfParser.IniParser.PairAt` | unreliablefs/unreliablefs/conf.c:197-228 | So does a pair line |
| `ConfParser.IniParser.BodyAt` | unreliablefs/unreliablefs/conf.c:169-228 | So does any stripped line, continuations included; `ConfGrammar.BodyMeans` says what that is by the spelling of the line |
| `ConfGrammar.BodyMeans` | unreliablefs/unreliablefs/conf.c:167-228 | A line does what the item it spells stands for, told without the parser: a comment nothing, a continuation one call with the last name and the whole text, a heading sets the section cut to 49 characters and forgets the name, a pair calls with its name and its value up to an inline comment, anything else is a problem |
| `ConfParser.IniParser.ParseLine` | unreliablefs/unreliablefs/conf.c:157-228 | So does a raw line, with the byte order mark of the first one |
| `ConfParser.IniParser.ParseStream` | unreliablefs/unreliablefs/conf.c:97-241 | Refinement: the loop over the 200-byte buffer makes exactly the calls, and returns the line number, of the pure fold over buffer-sized lines, and stays inside its buffers; what these are for any text is `ConfGrammar.EveryTextMeansItsItems` |
| `ConfLaws.PiecesAreLossless` | unreliablefs/unreliablefs/conf.c:265-288 | For every buffer of at least two bytes the lines join to the text; each is non-empty, fits the buffer, has a newline only at its end, and ends early only at a newline or the end |
| `ConfParser.ReadLines` | unreliablefs/unreliablefs/conf.c:265-288 | Repeated calls of the reader deliver exactly these lines and reach the end |
| `ConfLaws.FirstErrorIsReported` | unreliablefs/unreliablefs/conf.c:176-240 | The answer is 0 if and only if no line fails, otherwise the least failing line; parsing goes on |
| `ConfLaws.CommentsMeanNothing` | unreliablefs/unreliablefs/conf.c:159-195 | A blank or comment line, indented or not, inserted at any line boundary but ahead of a byte order mark, leaves all calls unchanged and only shifts the number of a later error |
| `ConfLaws.LongCommentIsNotOne` | unreliablefs/unreliablefs/conf.c:275-282 | Any comment line of 200 characters or more, at any line boundary, counts as a comment of 199 characters, and the rest of it is parsed as a line of its own with whatever follows |
| `ConfGrammar.SectionSetsTheSection` | unreliablefs/unreliablefs/conf.c:180-191 | A heading, indented only where no name stands, with anything behind its bracket, sets the section, cut to 49 characters, and forgets the last name |
| `ConfGrammar.PairCalls` | unreliablefs/unreliablefs/conf.c:197-216 | A pair makes one call with the whole name and the value, for `=` and `:`, any white space, and an inline comment behind white space; the name is kept, cut to 49 characters |
| `ConfGrammar.MoreCallsAgain` | unreliablefs/unreliablefs/conf.c:173-179 | An indented line behind a name calls again with that name; its value is the whole text, inline `;` included |
| `ConfGrammar.BadFails` | unreliablefs/unreliablefs/conf.c:192-228 | A line is a problem, and makes no call, if its bracket is not closed, or if it has no delimiter, outside an inline comment |
| `ConfGrammar.EveryLineIsAnItem` | unreliablefs/unreliablefs/conf.c:157-228 | There is no other line: any text whatever is spelled by an item that can stand where it stands |
| `ConfGrammar.JoinedLinesAreDelivered` | unreliablefs/unreliablefs/conf.c:265-288 | Lines that a reader could have delivered are what it delivers of their text, so the lines of a text are unique |
| `ConfGrammar.EveryTextMeansItsItems` | unreliablefs/unreliablefs/conf.c:97-241 | For every text: the calls are those that the items of its lines stand for, and the answer is the number of the first problem (a line that is nothing, or a call that the handler refuses), or 0 |
| `ConfGrammar.PrintThenParse` | unreliablefs/unreliablefs/unreliablefs.conf.5:10-23 | Round trip: printing any items that can follow each other (headings, pairs, continuations, comments and problems, with any white space) and parsing the text gives exactly their calls, in order, and the number of the first problem |
| `ConfGrammar.ContinuationsRepeatTheName` | unreliablefs/unreliablefs/conf.c:173-179 | Behind a pair every continuation, over blank lines and comments, makes exactly one more call with the section and the name of the pair, cut to 49 characters; a heading ends that |
| `ConfGrammar.BomMeansNothing` | unreliablefs/unreliablefs/conf.c:159-165 | A byte order mark in front of the first line changes nothing |
| `ErrorInjection.ErrinjTypeByName` | unreliablefs/unreliablefs/unreliablefs_errinj.c:248-258 | The index of the name, or -1 |
| `ErrorInjection.MentionedIsASet` | unreliablefs/unreliablefs/unreliablefs_errinj.c:306-324 | The mentioned types are the known types of the calls, each once |
| `ErrorInjection.ConfigIsAMap` | unreliablefs/unreliablefs/unreliablefs_errinj.c:295-344 | After any calls the list holds one entry per mentioned type, in order of first mention, and every option is the last value given for it |
| `ErrorInjection.EveryConfigIsItsMap` | unreliablefs/unreliablefs/unreliablefs_errinj.c:260-276 | For every text: the list is the map that the items of its lines stand for, and the answer is the first line that is nothing or gives a known type an unknown option |
| `ErrorInjection.LastLineWins` | unreliablefs/unreliablefs/unreliablefs_errinj.c:325-340 | The last line, a pair or a continuation, sets its option whatever the lines before it say: a continuation overrides the pair it belongs to |
| `ErrorInjection.NumberIsRead` | unreliablefs/unreliablefs/unreliablefs_errinj.c:334-337 | White space, a sign, zeros, a number printed in base ten, and anything that starts with no digit: the option is that number, exactly below 2 to the 32 and modulo that above; a minus sign gives the negative modulo 2 to the 32 |
| `ErrorInjection.NoNumberIsZero` | unreliablefs/unreliablefs/unreliablefs_errinj.c:334-337 | Text without a number is 0 |
| `ErrorInjection.PrintedNumberIsStored` | unreliablefs/unreliablefs/unreliablefs_errinj.c:260-337 | End to end: a configuration whose last line is a printed probability or duration below 2 to the 32 is read back with just that number |
| `ErrorInjection.AnswerByNames` | unreliablefs/unreliablefs/unreliablefs_errinj.c:295-344 | -1 exactly for an unknown type; otherwise 0 exactly for an option that is none of the four, and 1; the parser takes only 0 for a failure |
| `ErrorInjection.PrintedConfigIsReadBack` | unreliablefs/unreliablefs/unreliablefs_errinj.c:260-276 | Writing a configuration out and reading it back gives one entry for each type its items mention, with the last value of each option |
| `ErrorInjection.ErrorList.ConfOptionHandler` | unreliablefs/unreliablefs/unreliablefs_errinj.c:295-344 | The search and update in place, with the answers -1, 0 and 1; an unknown option still leaves an entry |
| `ErrorInjection.ErrorList.ConfigDelete` | unreliablefs/unreliablefs/unreliablefs_errinj.c:278-293 | Empties the list |
| `ErrorInjection.ConfigInit` | unreliablefs/unreliablefs/unreliablefs_errinj.c:260-276 | The whole of reading a configuration file: nothing for one that does not open, an empty list for a missing one, otherwise the map of the text, for any text (`EveryConfigIsItsMap` says which) |
| `ShadowFile.AllPicksFitExactlyWhenRoomy` | unreliablefs/unreliablefs/tests/fsx.c:873-902 | Every operation that can be drawn stays inside the buffers and the file if and only if style is 0, the mode is lite, or the aligned maxoplen is at most maxfilelen |
| `ShadowFile.ChosenByNumber` | unreliablefs/unreliablefs/tests/fsx.c:842-889 | Which operation a test picks, by the number drawn: 0 reads, 1 writes, 2 reads through a mapping, or reads if there are none, 3 truncates (in a lite run it is the mapped write), and 4 writes through a mapping |
| `ShadowFile.ChosenPlace` | unreliablefs/unreliablefs/tests/fsx.c:873-902 | Where it is and how long: an offset below the bound or the end of the file, aligned down, and the length drawn unless it would pass the bound from the offset drawn |
| `ShadowFile.ByteIsWrittenBySomeDraw` | unreliablefs/unreliablefs/tests/fsx.c:879-889 | Coverage, exactly: some draw writes a byte if and only if it is below maxfilelen and less than maxoplen behind its write boundary |
| `ShadowFile.OneMoreTest` | unreliablefs/unreliablefs/tests/fsx.c:837-910 | What one more test of a run does to the file, by the numbers it draws: a write stamps exactly its range with the number of the test, a truncate keeps what is before its length, a read does nothing |
| `ShadowFile.TruncateIsPrefix` | unreliablefs/unreliablefs/tests/fsx.c:728-758 | A truncated file has the length asked for; its bytes are the old ones before the old end and zeros behind it |
| `ShadowFile.FirstFile` | unreliablefs/unreliablefs/tests/fsx.c:1195-1216 | A run starts with an empty file, or in lite mode with zeros up to the bound |
| `ShadowFile.StampInNumbers` | unreliablefs/unreliablefs/tests/fsx.c:589-598 | The stamp at even places is the test number modulo 256, at odd places the same plus the original byte, modulo 256 |
| `ShadowFile.PickFitsExactly` | unreliablefs/unreliablefs/tests/fsx.c:873-902 | One operation stays inside the buffers and the file, whatever the options, if and only if it is not a small truncate longer than the buffer |
| `ShadowFile.SizeStaysInBounds` | unreliablefs/unreliablefs/tests/fsx.c:873-902 | Without such a truncate the file never outgrows maxfilelen; in lite mode its size never changes, so the growth branch is unreachable |
| `ShadowFile.ByteFromItsLastWriter` | unreliablefs/unreliablefs/tests/fsx.c:589-598 | A byte holds the stamp of the last operation that wrote it, unless a later one cut it off |
| `ShadowFile.EvenByteNamesItsLastWriter` | unreliablefs/unreliablefs/tests/fsx.c:396-410 | An even byte is the number modulo 256 of the test that wrote it, on which the report about bad data relies |
| `ShadowFile.CutBytesStayZero` | unreliablefs/unreliablefs/tests/fsx.c:742-744 | Stale bytes past the end of the file never reappear |
| `Fsx.MappedStoreIsPwrite` | unreliablefs/unreliablefs/tests/fsx.c:700-714 | Growing the file and storing into the mapping equals a positional write |
| `Fsx.Exerciser.constructor` | unreliablefs/unreliablefs/tests/fsx.c:1195-1216 | The shadow file and the file under test start empty, or zeroed in lite mode |
| `Fsx.Exerciser.GenData` | unreliablefs/unreliablefs/tests/fsx.c:589-598 | Stamps exactly the given range |
| `Fsx.Exerciser.DoWrite` | unreliablefs/unreliablefs/tests/fsx.c:601-653 | The shadow file becomes the POSIX write of the stamped data at the aligned offset, and so does the file under test; growth fails exactly in lite mode |
| `Fsx.Exerciser.DoMapWrite` | unreliablefs/unreliablefs/tests/fsx.c:656-725 | The same through a mapping |
| `Fsx.Exerciser.DoTruncate` | unreliablefs/unreliablefs/tests/fsx.c:728-758 | The shadow file is cut or extended with zeros to the aligned size |
| `Fsx.Exerciser.DoRead` | unreliablefs/unreliablefs/tests/fsx.c:455-503 | A failure is reported exactly when a compared range is missing or different in the file under test |
| `Fsx.Exerciser.CheckBuffers` | unreliablefs/unreliablefs/tests/fsx.c:375-415 | Finds exactly a difference |
| `Fsx.Exerciser.WriteFileImage` | unreliablefs/unreliablefs/tests/fsx.c:761-784 | Brings the file under test up to date |
| `Fsx.Exerciser.CheckSize` | unreliablefs/unreliablefs/tests/fsx.c:418-436 | Finds exactly a wrong size |
| `Fsx.Exerciser.Test` | unreliablefs/unreliablefs/tests/fsx.c:837-910 | One test keeps shadow file, file under test and POSIX file equal and reports nothing |
| `Fsx.RunTests` | unreliablefs/unreliablefs/tests/fsx.c:1218-1219 | Refinement over whole runs, for all options and all numbers drawn, as long as no truncate longer than the buffer is drawn: the shadow file is the POSIX file, and no false alarm is raised |
| `OpLog.RingLog.DoLog4` | unreliablefs/unreliablefs/tests/fsx.c:189-203 | Appends one record to the history the ring stands for |
| `OpLog.RingLog.Log4` | unreliablefs/unreliablefs/tests/fsx.c:206-214 | Appends the record and its marks |
| `OpLog.RingLog.LogDump` | unreliablefs/unreliablefs/tests/fsx.c:217-311 | Visits exactly the last records, at most 1000, oldest first |
| `OpLog.LogThenDump` | unreliablefs/unreliablefs/tests/fsx.c:206-311 | The same for every sequence of logged operations |
| `OpLog.LogIsTheOperations` | unreliablefs/unreliablefs/tests/fsx.c:206-214 | Without the marks the log is exactly the operations, in order |
| `OpLog.RecordsShape` | unreliablefs/unreliablefs/tests/fsx.c:206-214 | An operation is logged first, then its close/open mark, then its invalidate mark, each exactly if asked for |
| `OpLog.TailIsTheEnd` | unreliablefs/unreliablefs/tests/fsx.c:217-231 | The dump shows the last 1000 records, or all of fewer |

## Left out

- gRPC, FUSE, OpenSSL, descriptors, permissions and thread creation. A store is a map from paths to bytes and time; hashing a path is an injective naming.
- `Rename`: the server's rename carries the old time along, so a path's time could go back.
- `unreliable_truncate` and opening the local copy with `O_TRUNC`: they change temp without marking it dirty, so "clean" would mean nothing. (What `O_TRUNC` does in a create at the server is modelled.)
- Liveness of PutFile, and a PutFile call whose header message never arrives.
- Overlapping operations of one client on one path, and collisions of the random temp-file names on the server: a put writes a fresh inode that no path names.
- `GetAttr` and the decision that follows are one event; the fetch that may follow is not.
- Server creates and unlinks are events of their own, not tied to the client that asked, and a client may write to a removed file (`WriteGone`) whether or not it has a descriptor for one. This only adds runs. A create is split into the look and the open of the server; its answer carries no bytes that the client uses.
- A crash of the server's machine, which may lose or tear files that were not yet on its disk. A server process that stops and starts again is modelled.
- ProtocolTheorems.CloseToOpen: opens that reuse their copy are not covered, because the code does not give them more than `BoundedStaleness` says.
- A failing `GetAttr` call; the client would then take the path for existing, with a time that was never set.
- When a C++ stream passes buffered bytes on is left open: `Receive` and `Land` may or may not move the time of the file. This allows more runs than one library does.
- Copying the cache to temp (flag 4), `syncFileToCache`, `syncFileToTemp`, `isCacheOutOfDate` and `unmarkFileDirty`: never reached here.
- Session.CacheHelper.CommitToCache: a copy that fails half-way is taken to leave the cache alone.
- WriteQueue.Queue.AddToQueue: the source stores pointers to the caller's buffer and path; the model stores the bytes, so later changes of the buffer by the caller are not captured. Negative offsets and the race between poller and callbacks are not modelled either.
- WriteQueue.Queue.ExecuteQueueHead: a `pwrite` that fails or writes less than it was given is not modelled.
- Other options of conf.h than the defaults, texts with NUL characters, and the behaviour of `fgets`, which reads the same lines.
- ErrorInjection.ConfigInit: the handler runs after the parse, on the calls in order, instead of during it. `atoi` is taken modulo 2 to the 32; its overflow is not modelled, nor is a failing `calloc`.
- 32-bit integers: modification times, fsx lengths and the count of log records are unbounded.
- Fsx.Exerciser.Test: the calls of `log4`, which OpLog models by itself, the checks of mapped pages past the end of the file, `doinvl`, `docloseopen` and `check_trunc_hack`, which do not change a POSIX file. The file under test is taken to be one.
- Fsx.RunTests: runs that draw a truncate longer than the buffer are not covered, because the source then writes past it.
- Fsx.Exerciser.DoMapWrite: the check of the mapped page past the end of the file.
- The numbers that `logdump` prints next to the records, and the option parsing of fsx. In lite mode on an empty file the source divides by zero; the model asks for a positive length.
- Random choice in `error_inject`, matching of regular expressions, errno tables, signals and sleeps.
- Directories, extended attributes and the other callbacks that only pass calls through, the Python test drivers and the build files.
