/** The ring in which the file system exerciser keeps its last operations. */
module OpLog {

  const LOGSIZE: nat := 1000
  const OP_CLOSEOPEN := 4
  const OP_INVALIDATE := 8

  datatype LogEntry = LogEntry(operation: int, arg0: int, arg1: int, arg2: int)

  /** The last LOGSIZE records of a history, or all of them if there are fewer. */
  function Tail(history: seq<LogEntry>): seq<LogEntry> {
    if |history| <= LOGSIZE then history else history[|history| - LOGSIZE..]
  }

  /** The records one logged operation leaves, with the marks of a close/open or an invalidate. */
  function Records(e: LogEntry, closeopen: bool, invl: bool): seq<LogEntry> {
    [e] + (if closeopen then [LogEntry(OP_CLOSEOPEN, 0, 0, 0)] else [])
        + (if invl then [LogEntry(OP_INVALIDATE, 0, 0, 0)] else [])
  }

  /** Where record `k` of the history goes. */
  function Slot(k: nat): (r: nat)
    ensures r < LOGSIZE
  {
    k % LOGSIZE
  }

  lemma NextSlot(k: nat)
    ensures Slot(k + 1) == if Slot(k) + 1 == LOGSIZE then 0 else Slot(k) + 1
  {
    assert k == LOGSIZE * (k / LOGSIZE) + k % LOGSIZE;
  }

  class RingLog {
    const oplog: array<LogEntry>
    var logptr: nat
    var logcount: nat
    ghost var history: seq<LogEntry>

    /** Each of the last records of the history is in its slot. */
    ghost predicate Valid() reads this, oplog {
      && oplog.Length == LOGSIZE && logcount == |history| && logptr == Slot(logcount)
      && forall k :: 0 <= k < |history| && |history| - LOGSIZE <= k ==> oplog[Slot(k)] == history[k]
    }

    constructor ()
      ensures Valid() && history == [] && fresh(oplog)
    {
      oplog := new LogEntry[LOGSIZE](_ => LogEntry(0, 0, 0, 0));
      logptr, logcount, history := 0, 0, [];
    }

    method DoLog4(e: LogEntry)
      requires Valid()
      modifies this, oplog
      ensures Valid() && history == old(history) + [e]
    {
      NextSlot(logcount);
      oplog[logptr] := e;
      history := history + [e];
      logptr := logptr + 1;
      logcount := logcount + 1;
      if logptr >= LOGSIZE {
        logptr := 0;
      }
    }

    method Log4(e: LogEntry, closeopen: bool, invl: bool)
      requires Valid()
      modifies this, oplog
      ensures Valid() && history == old(history) + Records(e, closeopen, invl)
    {
      DoLog4(e);
      if closeopen {
        DoLog4(LogEntry(OP_CLOSEOPEN, 0, 0, 0));
      }
      if invl {
        DoLog4(LogEntry(OP_INVALIDATE, 0, 0, 0));
      }
    }

    /** Visits the ring from its oldest record to its newest. */
    method LogDump() returns (visited: seq<LogEntry>)
      requires Valid()
      ensures visited == Tail(history)
    {
      var i, count: nat;
      if logcount < LOGSIZE {
        i, count := 0, logcount;
      } else {
        i, count := logptr, LOGSIZE;
      }
      visited := [];
      ghost var at := |history| - count;
      ghost var first := at;
      while count > 0
        invariant first <= at && at + count == |history| && i == Slot(at)
        invariant visited == history[first..at]
      {
        NextSlot(at);
        visited := visited + [oplog[i]];
        at := at + 1;
        i := i + 1;
        if i == LOGSIZE {
          i := 0;
        }
        count := count - 1;
      }
    }
  }

  /** All logged operations of a run, each with its marks. */
  function AllRecords(ops: seq<(LogEntry, bool, bool)>): seq<LogEntry> {
    if ops == [] then []
    else
      var last := ops[|ops| - 1];
      AllRecords(ops[..|ops| - 1]) + Records(last.0, last.1, last.2)
  }

  predicate IsMark(e: LogEntry) {
    e == LogEntry(4, 0, 0, 0) || e == LogEntry(8, 0, 0, 0)
  }

  function WithoutMarks(history: seq<LogEntry>): seq<LogEntry> {
    if history == [] then []
    else
      var last := history[|history| - 1];
      WithoutMarks(history[..|history| - 1]) + if IsMark(last) then [] else [last]
  }

  function Operations(ops: seq<(LogEntry, bool, bool)>): seq<LogEntry> {
    if ops == [] then [] else Operations(ops[..|ops| - 1]) + [ops[|ops| - 1].0]
  }

  lemma WithoutMarksSnoc(history: seq<LogEntry>, e: LogEntry)
    ensures WithoutMarks(history + [e]) == WithoutMarks(history) + if IsMark(e) then [] else [e]
  {
    assert (history + [e])[..|history|] == history;
  }

  /** An operation is logged before its marks. */
  lemma RecordsAddOne(history: seq<LogEntry>, e: LogEntry, closeopen: bool, invl: bool)
    requires !IsMark(e)
    ensures WithoutMarks(history + Records(e, closeopen, invl)) == WithoutMarks(history) + [e]
  {
    var close, inv := LogEntry(4, 0, 0, 0), LogEntry(8, 0, 0, 0);
    WithoutMarksSnoc(history, e);
    WithoutMarksSnoc(history + [e], close);
    WithoutMarksSnoc(history + [e], inv);
    WithoutMarksSnoc(history + [e] + [close], inv);
    assert history + Records(e, closeopen, invl)
        == if closeopen then if invl then history + [e] + [close] + [inv] else history + [e] + [close]
           else if invl then history + [e] + [inv] else history + [e];
  }

  /** Without the marks the log is the operations in order; each has its close/open mark and then its
      invalidate mark behind it, exactly if they were asked for. */
  lemma {:induction false} LogIsTheOperations(ops: seq<(LogEntry, bool, bool)>)
    requires forall k :: 0 <= k < |ops| ==> !IsMark(ops[k].0)
    ensures WithoutMarks(AllRecords(ops)) == Operations(ops)
  {
    if ops != [] {
      var before, last := ops[..|ops| - 1], ops[|ops| - 1];
      assert forall k :: 0 <= k < |before| ==> before[k] == ops[k];
      LogIsTheOperations(before);
      RecordsAddOne(AllRecords(before), last.0, last.1, last.2);
    }
  }

  lemma RecordsShape(e: LogEntry, closeopen: bool, invl: bool)
    ensures var r := Records(e, closeopen, invl);
            && |r| == 1 + (if closeopen then 1 else 0) + (if invl then 1 else 0) && r[0] == e
            && (closeopen ==> r[1] == LogEntry(4, 0, 0, 0))
            && (invl ==> r[|r| - 1] == LogEntry(8, 0, 0, 0))
  {
  }

  /** The dump shows the last 1000 records, or all if there are fewer. */
  lemma TailIsTheEnd(history: seq<LogEntry>, k: nat)
    requires k < |Tail(history)|
    ensures |Tail(history)| == if |history| < 1000 then |history| else 1000
    ensures Tail(history)[|Tail(history)| - 1 - k] == history[|history| - 1 - k]
  {
  }

  /** After any sequence of logged operations the dump shows exactly the last records, oldest
      first. */
  method LogThenDump(ops: seq<(LogEntry, bool, bool)>) returns (visited: seq<LogEntry>)
    ensures visited == Tail(AllRecords(ops))
  {
    var log := new RingLog();
    var i := 0;
    while i < |ops|
      invariant 0 <= i <= |ops| && log.Valid() && fresh(log) && fresh(log.oplog)
      invariant log.history == AllRecords(ops[..i])
    {
      assert ops[..i + 1][..i] == ops[..i];
      log.Log4(ops[i].0, ops[i].1, ops[i].2);
      i := i + 1;
    }
    assert ops[..i] == ops;
    visited := log.LogDump();
  }
}
