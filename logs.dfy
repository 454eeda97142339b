/**
 * The console log buffer App keeps: entries of three kinds, and the
 * updater addLog hands to setLogs, which keeps a sliding window of at
 * most 50 entries, the oldest evicted first.
 */
module Logs {

  /** The `type` field of a LogEntry. */
  datatype LogType = Info | Render | Action

  /**
   * What the environment supplies for each entry and the model treats as
   * opaque: the random id and the local clock reading.
   */
  datatype Stamp = Stamp(id: string, timestamp: string)

  datatype LogEntry = LogEntry(id: string, timestamp: string, message: string, kind: LogType)

  function Entry(stamp: Stamp, message: string, kind: LogType): LogEntry {
    LogEntry(stamp.id, stamp.timestamp, message, kind)
  }

  /** "Keep last 50 logs". */
  const MaxLogs: nat := 50

  /** `s.slice(-k)` for k > 0: the last k elements, or all of s when it is shorter. */
  function LastN(s: seq<LogEntry>, k: nat): seq<LogEntry> {
    if |s| <= k then s else s[|s| - k..]
  }

  /**
   * The updater `prev => [...prev.slice(-49), entry]`: the new entry comes
   * last and the buffer never holds more than MaxLogs entries; AddLogIsWindow
   * states which old entries it keeps.
   */
  function AddLog(prev: seq<LogEntry>, entry: LogEntry): (next: seq<LogEntry>)
    ensures |next| == if |prev| < MaxLogs then |prev| + 1 else MaxLogs
    ensures next[|next| - 1] == entry
  {
    LastN(prev, MaxLogs - 1) + [entry]
  }

  /** The buffer after one addLog per entry, in order. */
  function AddAll(buf: seq<LogEntry>, entries: seq<LogEntry>): seq<LogEntry>
    decreases |entries|
  {
    if entries == [] then buf else AddLog(AddAll(buf, entries[..|entries| - 1]), entries[|entries| - 1])
  }

  /** Splitting x at j and appending y re-associates. */
  lemma SplitAppend(x: seq<LogEntry>, y: seq<LogEntry>, j: nat)
    requires j <= |x|
    ensures x + y == x[..j] + (x[j..] + y)
  {
    assert x == x[..j] + x[j..];
  }

  /** The last n elements of p + q, when q has at least n, are the last n of q. */
  lemma LastOfSuffix(p: seq<LogEntry>, q: seq<LogEntry>, n: nat)
    requires n <= |q|
    ensures LastN(p + q, n) == LastN(q, n)
  {
    if |q| == n {
      assert (p + q)[|p + q| - n..] == q;
    } else if p != [] {
      assert (p + q)[|p + q| - n..] == q[|q| - n..];
    } else {
      assert p + q == q;
    }
  }

  /** Cutting x down to its last k elements first does not change the last n of x + y, when k + |y| >= n. */
  lemma LastNOfLastN(x: seq<LogEntry>, y: seq<LogEntry>, k: nat, n: nat)
    requires n <= k + |y|
    ensures LastN(LastN(x, k) + y, n) == LastN(x + y, n)
  {
    if |x| > k {
      SplitAppend(x, y, |x| - k);
      LastOfSuffix(x[..|x| - k], x[|x| - k..] + y, n);
    }
  }

  /** One addLog is the last MaxLogs entries of the buffer followed by the new entry. */
  lemma AddLogIsWindow(buf: seq<LogEntry>, e: LogEntry)
    ensures AddLog(buf, e) == LastN(buf + [e], MaxLogs)
  {
    if |buf| >= MaxLogs {
      LastOfSuffix(buf[..|buf| - (MaxLogs - 1)], buf[|buf| - (MaxLogs - 1)..] + [e], MaxLogs);
      assert buf + [e] == buf[..|buf| - (MaxLogs - 1)] + (buf[|buf| - (MaxLogs - 1)..] + [e]);
    }
  }

  /**
   * From any buffer within the bound, appending entries one at a time
   * leaves exactly the last MaxLogs entries of the whole history, in
   * insertion order.
   */
  lemma {:induction false} AddAllIsWindow(buf: seq<LogEntry>, entries: seq<LogEntry>)
    requires |buf| <= MaxLogs
    ensures AddAll(buf, entries) == LastN(buf + entries, MaxLogs)
    decreases |entries|
  {
    if entries == [] {
      assert buf + entries == buf;
    } else {
      var pre, e := entries[..|entries| - 1], entries[|entries| - 1];
      AddAllIsWindow(buf, pre);
      AddLogIsWindow(AddAll(buf, pre), e);
      LastNOfLastN(buf + pre, [e], MaxLogs, MaxLogs);
      assert (buf + pre) + [e] == buf + entries;
    }
  }

  /**
   * Starting from an empty buffer, after n addLog calls the buffer holds
   * exactly the last min(n, 50) entries, in the order they were added.
   */
  lemma WindowFromEmpty(entries: seq<LogEntry>)
    ensures AddAll([], entries) == if |entries| <= MaxLogs then entries else entries[|entries| - MaxLogs..]
  {
    AddAllIsWindow([], entries);
    LastNOfEmptyPrefix(entries);
  }

  lemma LastNOfEmptyPrefix(entries: seq<LogEntry>)
    ensures LastN([] + entries, MaxLogs) == if |entries| <= MaxLogs then entries else entries[|entries| - MaxLogs..]
  {
    assert [] + entries == entries;
  }

  /** Once anything has been added, or when it started within the bound, the buffer holds at most MaxLogs entries. */
  lemma AddAllBounded(buf: seq<LogEntry>, entries: seq<LogEntry>)
    requires |buf| <= MaxLogs || entries != []
    ensures |AddAll(buf, entries)| <= MaxLogs
  {
  }

}
