/** The code of one client and of the server, executed alone. The contracts are the `View`
    functions of module Runs, where each of them is shown to be a run of the protocol. */
module Session {
  import opened Bytes
  import opened Transfer
  import opened Protocol
  import opened Runs

  /** The handlers of the file server. */
  class FileServer {
    var dir: map<Path, nat>
    var files: seq<Inode>
    var locked: bool

    ghost predicate Valid() reads this {
      forall p :: p in dir ==> dir[p] < |files|
    }

    constructor ()
      ensures Valid() && dir == map[] && files == [] && !locked
    {
      dir, files, locked := map[], [], false;
    }

    /** `lstat`: the modification time, or ENOENT. */
    method GetAttr(path: Path) returns (mtime: Option<int>)
      requires Valid()
      ensures mtime == if path in dir then Some(files[dir[path]].mtime) else None
    {
      if path in dir {
        mtime := Some(files[dir[path]].mtime);
      } else {
        mtime := None;
      }
    }

    /** Streams an existing file; for a missing one it sends one empty message, after creating the
        file if it is asked to and `open` succeeds. The stream may break. */
    method Open(path: Path, isCreate: bool, opens: bool, breaks: Option<nat>, now: int)
      returns (messages: seq<Bytes>, ok: bool)
      requires Valid()
      modifies this
      ensures Valid() && locked == old(locked)
      ensures var b := if path in old(dir) then old(files)[old(dir)[path]].bytes else [];
              messages == Sent(b, breaks) && ok == !Broken(b, breaks)
      ensures path !in old(dir) && isCreate && opens ==>
                dir == old(dir)[path := |old(files)|] && files == old(files) + [Inode([], now)]
      ensures path in old(dir) || !(isCreate && opens) ==> dir == old(dir) && files == old(files)
    {
      var b: Bytes := [];
      if path in dir {
        b := files[dir[path]].bytes;
      } else if isCreate && opens {
        dir := dir[path := |files|];
        files := files + [Inode([], now)];
      }
      messages := SendFile(b, breaks);
      ok := !Broken(b, breaks);
    }

    /** Receives a file into a new inode and renames it into place. A failed rename returns with
        the lock held. */
    method PutFile(path: Path, messages: seq<Bytes>, renames: bool, now: int) returns (ok: bool, mtime: int)
      requires Valid() && !locked
      modifies this
      ensures Valid() && ok == renames && locked == !renames
      ensures files == old(files) + [Inode(Concat(messages), now)]
      ensures dir == if ok then old(dir)[path := |old(files)|] else old(dir)
      ensures ok ==> mtime == now
    {
      locked := true;
      var ino := |files|;
      files := files + [Inode([], now)];
      var i := 0;
      while i < |messages|
        invariant 0 <= i <= |messages|
        invariant files == old(files) + [Inode(Concat(messages[..i]), now)]
        invariant dir == old(dir) && locked && ino == |old(files)|
      {
        assert messages[..i + 1] == messages[..i] + [messages[i]];
        ConcatSnoc(messages[..i], messages[i]);
        files := files[ino := Inode(files[ino].bytes + messages[i], now)];
        i := i + 1;
      }
      assert messages[..i] == messages;
      if !renames {
        return false, 0;
      }
      dir := dir[path := ino];
      locked := false;
      return true, files[dir[path]].mtime;
    }

    method Unlink(path: Path) returns (ok: bool)
      requires Valid()
      modifies this
      ensures Valid() && files == old(files) && locked == old(locked)
      ensures dir == old(dir) - {path} && ok == (path in old(dir))
    {
      ok := path in dir;
      dir := dir - {path};
    }
  }

  /** The local stores of one client and its set of dirty paths. */
  class CacheHelper {
    var temp: map<Path, Inode>
    var cache: map<Path, Inode>
    var dirty: set<Path>

    /** `initCache`: what a client start leaves of the stores on disk. The dirty set is new. */
    constructor (onDiskTemp: map<Path, Inode>, onDiskCache: map<Path, Inode>)
      ensures temp == map[] && cache == onDiskCache && dirty == {}
    {
      temp, cache, dirty := onDiskTemp, onDiskCache, {};
      new;
      CleanTempDir();
    }

    /** Removes every file of the temp directory, one directory entry after the other. */
    method CleanTempDir()
      modifies this
      ensures temp == map[] && cache == old(cache) && dirty == old(dirty)
    {
      var entries := temp.Keys;
      while entries != {}
        invariant temp.Keys == entries && cache == old(cache) && dirty == old(dirty)
        decreases entries
      {
        var p :| p in entries;
        temp := temp - {p};
        entries := entries - {p};
      }
    }

    /** The writers take a C string: the data ends at its first zero byte. */
    method WriteFileToTemp(path: Path, data: Bytes, now: int)
      modifies this
      ensures temp == old(temp)[path := Inode(CutAtZero(data), now)]
      ensures cache == old(cache) && dirty == old(dirty)
    {
      var n := StrLen(data);
      temp := temp[path := Inode(data[..n], now)];
    }

    method WriteFileToCache(path: Path, data: Bytes, now: int)
      modifies this
      ensures cache == old(cache)[path := Inode(CutAtZero(data), now)]
      ensures temp == old(temp) && dirty == old(dirty)
    {
      var n := StrLen(data);
      cache := cache[path := Inode(data[..n], now)];
    }

    /** Copies temp to cache, gives both the server's time and clears the mark; with no temp file,
        or if the copying fails, it changes nothing. */
    method CommitToCache(path: Path, mtime: int, copies: bool) returns (ok: bool)
      modifies this
      ensures ok == (path in old(temp) && copies)
      ensures ok ==> var f := Inode(old(temp)[path].bytes, mtime);
                temp == old(temp)[path := f] && cache == old(cache)[path := f] && dirty == old(dirty) - {path}
      ensures !ok ==> temp == old(temp) && cache == old(cache) && dirty == old(dirty)
    {
      if path !in temp || !copies {
        return false;
      }
      cache := cache[path := temp[path]];
      temp := temp[path := temp[path].(mtime := mtime)];
      cache := cache[path := cache[path].(mtime := mtime)];
      dirty := dirty - {path};
      return true;
    }

    method DeleteFromTemp(path: Path)
      modifies this
      ensures temp == old(temp) - {path} && dirty == old(dirty) - {path} && cache == old(cache)
    {
      temp := temp - {path};
      dirty := dirty - {path};
    }

    method MarkFileDirty(path: Path)
      modifies this
      ensures dirty == old(dirty) + {path} && temp == old(temp) && cache == old(cache)
    {
      dirty := dirty + {path};
    }
  }

  /** What can go wrong in a flush: the header message, the stream, the server's rename, and the
      copy to the cache. */
  datatype Faults = Faults(connected: bool, breaks: Option<nat>, renames: bool, copies: bool)

  class AfsClient {
    const server: FileServer
    const helper: CacheHelper

    constructor (server: FileServer, helper: CacheHelper)
      ensures this.server == server && this.helper == helper
    {
      this.server, this.helper := server, helper;
    }

    ghost function Now(): View reads server, helper {
      View(server.dir, server.files, helper.temp, helper.cache, helper.dirty)
    }

    /** 1 fetch, 2 reuse temp, 3 create. 4 never happens. For a path that the server lacks and that
        must not be created, the decision rests on a time that was never set. */
    method GetOpenFlags(path: Path, isCreate: bool, unset: int) returns (flag: int)
      requires server.Valid()
      ensures flag == 3 <==> path !in server.dir && isCreate
      ensures var time := if path in server.dir then server.files[server.dir[path]].mtime else unset;
              flag == 2 <==> (path in server.dir || !isCreate) && path in helper.temp && time <= helper.temp[path].mtime
      ensures flag == 1 || flag == 2 || flag == 3
    {
      var attr := server.GetAttr(path);
      if attr.None? && isCreate {
        return 3;
      }
      var serverTime := if attr.Some? then attr.value else unset;
      var inCache := path in helper.cache;
      var inTemp := path in helper.temp;
      var outOfDate := true;
      if inTemp {
        outOfDate := serverTime > helper.temp[path].mtime;
      }
      if !inTemp && !inCache {
        return 1;
      }
      if !inTemp && inCache && !outOfDate {
        return 4;
      }
      if outOfDate {
        return 1;
      }
      return 2;
    }

    ghost function ServerBytes(path: Path): Bytes
      requires server.Valid()
      reads server
    {
      if path in server.dir then server.files[server.dir[path]].bytes else []
    }

    /** Joins the stream and hands it to both writers, unless the stream breaks. */
    method FetchAndSyncServerFile(path: Path, breaks: Option<nat>, now: int) returns (ok: bool)
      requires server.Valid()
      modifies server, helper
      ensures server.Valid() && server.locked == old(server.locked)
      ensures ok == !Broken(old(ServerBytes(path)), breaks)
      ensures Now() == if ok then AfterFetch(old(Now()), path, now) else old(Now())
    {
      ghost var b := ServerBytes(path);
      var messages, whole := server.Open(path, false, false, breaks, now);
      if messages == [] {
        return false;
      }
      var buf := ReceiveAll(messages);
      if !whole {
        return false;
      }
      ChunksFromJoin(b, 0);
      helper.WriteFileToCache(path, buf, now);
      helper.WriteFileToTemp(path, buf, now);
      return true;
    }

    /** Opens a path, whatever becomes of the create or the fetch. The local `open` gets the caller's
        flags, O_CREAT included, so it makes an empty file if there is none; the temp copy is removed
        again if the local `open` fails. */
    method Open(path: Path, isCreate: bool, creat: bool, created: bool, unset: int, breaks: Option<nat>,
                opens: bool, now: int)
      returns (ok: bool)
      requires server.Valid()
      modifies server, helper
      ensures server.Valid() && server.locked == old(server.locked)
      ensures var o := OpenCase(isCreate, creat, created, unset, !Broken(old(ServerBytes(path)), breaks));
              var v := AfterOpen(old(Now()), path, o, now);
              ok == (opens && path in v.temp) && Now() == if ok then v else WithoutTemp(v, path)
    {
      var flag := GetOpenFlags(path, isCreate || creat, unset);
      if flag == 1 {
        var _ := FetchAndSyncServerFile(path, breaks, now);
      } else if flag == 3 {
        helper.temp := helper.temp[path := Inode([], now)];
        helper.cache := helper.cache[path := Inode([], now)];
        helper.MarkFileDirty(path);
        var _, _ := server.Open(path, true, created, breaks, now);
      }
      if opens && creat && path !in helper.temp {
        helper.temp := helper.temp[path := Inode([], now)];
      }
      ok := opens && path in helper.temp;
      if !ok {
        helper.DeleteFromTemp(path);
      }
    }

    /** A write through an open descriptor, of which `written` bytes succeed (-1 for an error), with
        the mark that the FUSE callback sets in any case. The descriptor may belong to a temp file
        that has been removed since. */
    method Write(path: Path, data: Bytes, offset: nat, attached: bool, written: int, now: int) returns (r: int)
      requires attached ==> path in helper.temp
      requires -1 <= written <= |data|
      modifies helper
      ensures r == written && Now() == AfterWrite(old(Now()), path, data, offset, attached, written, now)
    {
      if attached && written > 0 {
        var f := helper.temp[path];
        helper.temp := helper.temp[path := Inode(Pwrite(f.bytes, data[..written], offset), now)];
      }
      r := written;
      helper.MarkFileDirty(path);
    }

    ghost predicate Flushes(path: Path, f: Faults)
      reads helper
    {
      path in helper.temp && path in helper.dirty && f.connected
    }

    /** Flush: -1 without a temp file, and 0 and no change at all for a clean path. For a dirty one:
        - if the header message cannot be sent, -1, and the local bytes are thrown away;
        - if the rename fails, -1, the path still dirty and the server's lock taken for good;
        - if the stream breaks, -1 and the path still dirty, but the server has published what
          arrived: some whole buffers of the file;
        - if the copy to the cache fails, 0 all the same, with the path still dirty;
        - and otherwise 0 and three-way agreement. */
    method Flush(path: Path, f: Faults, now: int) returns (r: int)
      requires server.Valid() && !server.locked
      modifies server, helper
      ensures server.Valid() && (server.locked <==> old(Flushes(path, f)) && !f.renames)
      ensures path !in old(helper.temp) ==> r == -1 && Now() == old(Now())
      ensures path in old(helper.temp) && path !in old(helper.dirty) ==> r == 0 && Now() == old(Now())
      ensures path in old(helper.temp) && path in old(helper.dirty) && !f.connected ==>
                r == -1 && Now() == WithoutTemp(old(Now()), path)
      ensures old(Flushes(path, f)) && !f.renames ==>
                r == -1 && Now() == AfterFailedRename(old(Now()), Sent(old(helper.temp)[path].bytes, f.breaks), now)
      ensures old(Flushes(path, f)) && f.renames && Broken(old(helper.temp)[path].bytes, f.breaks) ==>
                r == -1 && Now() == AfterBrokenFlush(old(Now()), path, Sent(old(helper.temp)[path].bytes, f.breaks), now)
      ensures old(Flushes(path, f)) && f.renames && !Broken(old(helper.temp)[path].bytes, f.breaks) && !f.copies ==>
                r == 0 && Now() == AfterBrokenFlush(old(Now()), path, Chunks(old(helper.temp)[path].bytes), now)
      ensures old(Flushes(path, f)) && f.renames && !Broken(old(helper.temp)[path].bytes, f.breaks) && f.copies ==>
                r == 0 && Now() == AfterFlush(old(Now()), path, now)
    {
      if path !in helper.temp {
        return -1;
      }
      if path !in helper.dirty {
        return 0;
      }
      if !f.connected {
        helper.DeleteFromTemp(path);
        return -1;
      }
      var b := helper.temp[path].bytes;
      var messages := SendFile(b, f.breaks);
      ChunksFromJoin(b, 0);
      var ok, mtime := server.PutFile(path, messages, f.renames, now);
      if !ok || Broken(b, f.breaks) {
        return -1;
      }
      var _ := helper.CommitToCache(path, mtime, f.copies);
      return 0;
    }

    method Unlink(path: Path) returns (r: int)
      requires server.Valid()
      modifies server, helper
      ensures server.Valid() && server.locked == old(server.locked)
      ensures r == if path in old(server.dir) then 0 else -1
      ensures Now() == AfterUnlink(old(Now()), path)
    {
      helper.DeleteFromTemp(path);
      var ok := server.Unlink(path);
      r := if ok then 0 else -1;
    }
  }
}
