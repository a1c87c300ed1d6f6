/** Crash and recovery: the manifest, then the logs it names, rebuild what was stored. */
module Recovery {
  import opened Wrappers
  import opened Entries
  import opened Versions
  import opened Engine
  import opened Installing

  // ----- Replaying one log -----

  /** `WriteLevel0Table` during recovery: always level 0; an empty memtable leaves no table but
      still uses up a number. */
  function WriteTable(mem: seq<Entry>, number: nat, sizeOf: seq<Entry> -> nat): (Level, nat) {
    if mem == [] then ([], number + 1) else ([TableFile(number, sizeOf(mem), mem)], number + 1)
  }

  /** `RecoverLogFile`: `full` decides when a memtable is written out. */
  function RecoverLog(log: seq<Batch>, mem: Option<seq<Entry>>, number: nat,
                      full: seq<Entry> -> bool, sizeOf: seq<Entry> -> nat): (Level, nat)
  {
    if log == [] then
      if mem.None? then ([], number) else WriteTable(mem.value, number, sizeOf)
    else
      var m := InsertEntries(ImmSeq(mem), BatchEntries(log[0]));
      if full(m) then
        var (ts, n) := WriteTable(m, number, sizeOf);
        var (us, k) := RecoverLog(log[1..], None, n, full, sizeOf);
        (ts + us, k)
      else
        RecoverLog(log[1..], Some(m), number, full, sizeOf)
  }

  /** Tables in replay order: higher number, later writes. */
  ghost predicate Replayed(ts: Level, from: nat, next: nat) {
    && from <= next
    && (forall i | 0 <= i < |ts| :: from <= ts[i].number < next && Sorted(ts[i].entries))
    && (forall i, j | 0 <= i < j < |ts| :: ts[i].number < ts[j].number && Later(ts[i], ts[j]))
  }

  ghost predicate Later(t: Table, u: Table) {
    forall d, e | d in t.entries && e in u.entries :: d.stamp < e.stamp
  }

  ghost predicate StampsBefore(A: set<Entry>, B: set<Entry>) {
    forall d, e | d in A && e in B :: d.stamp < e.stamp
  }

  lemma {:induction false} LogEntriesFront(log: seq<Batch>)
    requires log != []
    ensures LogEntries(log) == BatchEntries(log[0]) + LogEntries(log[1..])
  {
    if |log| > 1 {
      var n := |log| - 1;
      LogEntriesFront(log[..n]);
      assert log[..n][1..] == log[1..][..n - 1];
    } else {
      assert log[..0] == [];
    }
  }

  lemma FillMemtable(mem: seq<Entry>, b: seq<Entry>, rest: seq<Entry>)
    requires Sorted(mem) && Ascending(b + rest) && StampsBefore(Set(mem), Set(b + rest))
    ensures var m := InsertEntries(mem, b); Sorted(m) && Set(m) == Set(mem) + Set(b)
    ensures Ascending(rest) && StampsBefore(Set(InsertEntries(mem, b)), Set(rest))
    ensures Set(b + rest) == Set(b) + Set(rest)
  {
    SplitAscending(b, rest);
    assert Set(b + rest) == Set(b) + Set(rest);
    forall d, e | d in mem && e in b ensures d.stamp != e.stamp {
      assert d in Set(mem) && e in Set(b + rest);
    }
    InsertEntriesSorted(mem, b);
    assert Set(InsertEntries(mem, b)) == Set(mem) + Set(b);
  }

  lemma {:induction false} RecoverLogOk(log: seq<Batch>, mem: Option<seq<Entry>>, number: nat,
                                        full: seq<Entry> -> bool, sizeOf: seq<Entry> -> nat)
    requires Sorted(ImmSeq(mem)) && Ascending(LogEntries(log))
    requires StampsBefore(Set(ImmSeq(mem)), Set(LogEntries(log)))
    ensures var (ts, n) := RecoverLog(log, mem, number, full, sizeOf);
            Replayed(ts, number, n) && LevelSet(ts) == Set(ImmSeq(mem)) + Set(LogEntries(log))
  {
    if log == [] {
      if mem.Some? { WriteTableOk(mem.value, number, sizeOf); }
    } else {
      hide Sorted, Ascending, Replayed, StampsBefore, InsertEntries, Set, LevelSet, WriteTable, BatchEntries;
      LogEntriesFront(log);
      var b, rest := BatchEntries(log[0]), LogEntries(log[1..]);
      FillMemtable(ImmSeq(mem), b, rest);
      var m := InsertEntries(ImmSeq(mem), b);
      if full(m) {
        NothingBefore(rest);
        var (_, n) := WriteTable(m, number, sizeOf);
        RecoverLogOk(log[1..], None, n, full, sizeOf);
        AfterWrite(log[1..], m, number, full, sizeOf);
      } else {
        RecoverLogOk(log[1..], Some(m), number, full, sizeOf);
      }
    }
  }

  // ----- Where replay writes its tables -----

  /** The memtable these batches make. */
  function MemOf(log: seq<Batch>): seq<Entry> {
    InsertEntries([], LogEntries(log))
  }

  lemma {:induction false} InsertTwice(xs: seq<Entry>, a: seq<Entry>, b: seq<Entry>)
    ensures InsertEntries(InsertEntries(xs, a), b) == InsertEntries(xs, a + b)
  {
    if b == [] {
      assert a + b == a;
    } else {
      var n := |b| - 1;
      InsertTwice(xs, a, b[..n]);
      assert (a + b)[..|a + b| - 1] == a + b[..n];
    }
  }

  lemma MemMore(log: seq<Batch>, b: Batch)
    ensures MemOf(log + [b]) == InsertEntries(MemOf(log), BatchEntries(b))
  {
    assert (log + [b])[..|log|] == log;
    InsertTwice([], LogEntries(log), BatchEntries(b));
  }

  /** No batch but the last, if any, made the memtable full. */
  ghost predicate FillingUp(part: seq<Batch>, full: seq<Entry> -> bool) {
    forall n | 0 < n < |part| :: !full(MemOf(part[..n]))
  }

  /** A part ends with the first batch that makes the memtable full, the last one with the log. */
  ghost predicate RightParts(parts: seq<seq<Batch>>, full: seq<Entry> -> bool) {
    forall i | 0 <= i < |parts| ::
      parts[i] != [] && FillingUp(parts[i], full) && (i + 1 < |parts| ==> full(MemOf(parts[i])))
  }

  ghost function JoinedParts(parts: seq<seq<Batch>>): seq<Batch> {
    if parts == [] then [] else parts[0] + JoinedParts(parts[1..])
  }

  /** Every part becomes a table with the next number; an empty memtable only uses the number up. */
  ghost function TablesOf(parts: seq<seq<Batch>>, number: nat, sizeOf: seq<Entry> -> nat): Level {
    if parts == [] then []
    else
      var m := MemOf(parts[0]);
      (if m == [] then [] else [TableFile(number, sizeOf(m), m)]) + TablesOf(parts[1..], number + 1, sizeOf)
  }

  /** Replaying a log behind the batches already in the memtable. */
  lemma {:induction false} ReplayCuts(mem: seq<Batch>, log: seq<Batch>, number: nat, full: seq<Entry> -> bool,
                                      sizeOf: seq<Entry> -> nat) returns (parts: seq<seq<Batch>>)
    requires FillingUp(mem, full) && (mem != [] ==> !full(MemOf(mem)))
    ensures JoinedParts(parts) == mem + log && RightParts(parts, full)
    ensures RecoverLog(log, if mem == [] then None else Some(MemOf(mem)), number, full, sizeOf)
         == (TablesOf(parts, number, sizeOf), number + |parts|)
    decreases |log|
  {
    hide MemOf, FillingUp, RightParts, TablesOf, JoinedParts, InsertEntries, BatchEntries, WriteTable,
         RecoverLog;
    var was := if mem == [] then None else Some(MemOf(mem));
    ReplayOne(log, was, number, full, sizeOf);
    NoParts(full, number, sizeOf);
    if log == [] {
      assert mem + log == mem;
      parts := [];
      if mem != [] {
        parts := [mem];
        PartInFront(mem, [], full, number, sizeOf);
        assert [mem] + [] == [mem] && mem + [] == mem;
      }
    } else {
      var part := mem + [log[0]];
      OneBatchMore(mem, log[0], full);
      if full(MemOf(part)) {
        NoBatches(full);
        var rest := ReplayCuts([], log[1..], number + 1, full, sizeOf);
        parts := [part] + rest;
        PartInFront(part, rest, full, number, sizeOf);
        assert part + log[1..] == mem + log && [] + log[1..] == log[1..];
      } else {
        parts := ReplayCuts(part, log[1..], number, full, sizeOf);
        assert part + log[1..] == mem + log;
      }
    }
  }

  lemma ReplayOne(log: seq<Batch>, mem: Option<seq<Entry>>, number: nat, full: seq<Entry> -> bool,
                  sizeOf: seq<Entry> -> nat)
    ensures log == [] ==> RecoverLog(log, mem, number, full, sizeOf) ==
                          if mem.None? then ([], number) else WriteTable(mem.value, number, sizeOf)
    ensures log != [] ==>
              var m := InsertEntries(ImmSeq(mem), BatchEntries(log[0]));
              var (ts, n) := WriteTable(m, number, sizeOf);
              RecoverLog(log, mem, number, full, sizeOf) ==
              if full(m) then
                var (us, k) := RecoverLog(log[1..], None, n, full, sizeOf); (ts + us, k)
              else RecoverLog(log[1..], Some(m), number, full, sizeOf)
  {
    hide InsertEntries, WriteTable;
  }

  lemma NoParts(full: seq<Entry> -> bool, number: nat, sizeOf: seq<Entry> -> nat)
    ensures JoinedParts([]) == [] && RightParts([], full) && TablesOf([], number, sizeOf) == []
  {
  }

  lemma PartInFront(part: seq<Batch>, rest: seq<seq<Batch>>, full: seq<Entry> -> bool, number: nat,
                    sizeOf: seq<Entry> -> nat)
    requires part != [] && FillingUp(part, full) && RightParts(rest, full) && (rest != [] ==> full(MemOf(part)))
    ensures JoinedParts([part] + rest) == part + JoinedParts(rest) && RightParts([part] + rest, full)
    ensures var (ts, n) := WriteTable(MemOf(part), number, sizeOf);
            n == number + 1 && TablesOf([part] + rest, number, sizeOf) == ts + TablesOf(rest, n, sizeOf)
            && (rest == [] ==> TablesOf([part] + rest, number, sizeOf) == ts)
  {
    hide MemOf, FillingUp;
    assert ([part] + rest)[1..] == rest;
  }

  lemma OneBatchMore(mem: seq<Batch>, b: Batch, full: seq<Entry> -> bool)
    requires FillingUp(mem, full) && (mem != [] ==> !full(MemOf(mem)))
    ensures FillingUp(mem + [b], full)
    ensures MemOf(mem + [b]) == InsertEntries(ImmSeq(if mem == [] then None else Some(MemOf(mem))), BatchEntries(b))
  {
    MemMore(mem, b);
    forall n | 0 < n < |mem + [b]| ensures !full(MemOf((mem + [b])[..n])) {
      assert (mem + [b])[..n] == if n < |mem| then mem[..n] else mem;
    }
  }

  lemma NoBatches(full: seq<Entry> -> bool)
    ensures FillingUp([], full)
  {
  }

  /** Replay of one log: a memtable is written out exactly when a batch has made it full, and at the end. */
  lemma TablesWhenFull(log: seq<Batch>, number: nat, full: seq<Entry> -> bool, sizeOf: seq<Entry> -> nat)
    returns (parts: seq<seq<Batch>>)
    ensures JoinedParts(parts) == log && RightParts(parts, full)
    ensures RecoverLog(log, None, number, full, sizeOf) == (TablesOf(parts, number, sizeOf), number + |parts|)
  {
    hide RightParts, TablesOf;
    NoBatches(full);
    parts := ReplayCuts([], log, number, full, sizeOf);
    assert [] + log == log;
  }

  /** A full memtable is written out and replay goes on with an empty one. */
  lemma AfterWrite(log: seq<Batch>, m: seq<Entry>, number: nat, full: seq<Entry> -> bool, sizeOf: seq<Entry> -> nat)
    requires Sorted(m) && StampsBefore(Set(m), Set(LogEntries(log)))
    requires var (_, n) := WriteTable(m, number, sizeOf);
             var (us, k) := RecoverLog(log, None, n, full, sizeOf);
             Replayed(us, n, k) && LevelSet(us) == Set(ImmSeq(None)) + Set(LogEntries(log))
    ensures var (ts, n) := WriteTable(m, number, sizeOf);
            var (us, k) := RecoverLog(log, None, n, full, sizeOf);
            Replayed(ts + us, number, k) && LevelSet(ts + us) == Set(m) + Set(LogEntries(log))
  {
    hide Sorted, Replayed, StampsBefore, LevelSet, WriteTable, RecoverLog, LogEntries;
    NothingBefore(LogEntries(log));
    var (ts, n) := WriteTable(m, number, sizeOf);
    WriteTableOk(m, number, sizeOf);
    var (us, k) := RecoverLog(log, None, n, full, sizeOf);
    assert LevelSet(us) == Set(LogEntries(log));
    ReplayedConcat(ts, us, number, n, k);
  }

  lemma NothingBefore(xs: seq<Entry>)
    ensures Sorted(ImmSeq(None)) && Set(ImmSeq(None)) == {} && StampsBefore({}, Set(xs))
  {
  }

  lemma WriteTableOk(mem: seq<Entry>, number: nat, sizeOf: seq<Entry> -> nat)
    requires Sorted(mem)
    ensures var (ts, n) := WriteTable(mem, number, sizeOf); Replayed(ts, number, n) && LevelSet(ts) == Set(mem)
  {
  }

  lemma SplitAscending(a: seq<Entry>, b: seq<Entry>)
    requires Ascending(a + b)
    ensures Ascending(a) && Ascending(b) && StampsBefore(Set(a), Set(b))
  {
    var c := a + b;
    forall i, j | 0 <= i < j < |a| ensures a[i].stamp < a[j].stamp {
      assert c[i] == a[i] && c[j] == a[j];
    }
    forall i, j | 0 <= i < j < |b| ensures b[i].stamp < b[j].stamp {
      assert c[|a| + i] == b[i] && c[|a| + j] == b[j];
    }
    forall d, e | d in Set(a) && e in Set(b) ensures d.stamp < e.stamp {
      var i :| 0 <= i < |a| && a[i] == d;
      var j :| 0 <= j < |b| && b[j] == e;
      assert c[i] == d && c[|a| + j] == e;
    }
  }

  lemma ReplayedConcat(ts: Level, us: Level, from: nat, mid: nat, next: nat)
    requires Replayed(ts, from, mid) && Replayed(us, mid, next)
    requires StampsBefore(LevelSet(ts), LevelSet(us))
    ensures Replayed(ts + us, from, next) && LevelSet(ts + us) == LevelSet(ts) + LevelSet(us)
  {
    var r := ts + us;
    forall i, j | 0 <= i < j < |r| ensures r[i].number < r[j].number && Later(r[i], r[j]) {
      if i < |ts| <= j {
        assert r[i] in ts && r[j] in us;
      }
    }
  }

  // ----- Replaying all logs in number order -----

  /** Exactly the logs numbered `from` and up, in ascending order. */
  ghost predicate IsLogList(order: seq<nat>, logs: map<nat, seq<Batch>>, from: nat) {
    && (forall n :: n in order <==> n in logs && from <= n)
    && (forall i, j | 0 <= i < j < |order| :: order[i] < order[j])
  }

  function RecoverLogs(order: seq<nat>, logs: map<nat, seq<Batch>>, number: nat,
                       full: seq<Entry> -> bool, sizeOf: seq<Entry> -> nat): (Level, nat)
    requires forall n | n in order :: n in logs
  {
    if order == [] then ([], number)
    else
      var (ts, n) := RecoverLog(logs[order[0]], None, number, full, sizeOf);
      var (us, k) := RecoverLogs(order[1..], logs, Max(n, order[0] + 1), full, sizeOf);
      (ts + us, k)
  }

  lemma FreshLog(log: seq<Batch>, number: nat, full: seq<Entry> -> bool, sizeOf: seq<Entry> -> nat)
    requires Ascending(LogEntries(log))
    ensures var (ts, n) := RecoverLog(log, None, number, full, sizeOf);
            Replayed(ts, number, n) && LevelSet(ts) == Set(LogEntries(log))
  {
    hide Ascending, Sorted, Replayed, LevelSet, RecoverLog;
    NothingBefore(LogEntries(log));
    RecoverLogOk(log, None, number, full, sizeOf);
  }

  lemma OneLog(n: nat, logs: map<nat, seq<Batch>>, number: nat, full: seq<Entry> -> bool, sizeOf: seq<Entry> -> nat)
    requires n in logs && Ascending(LogEntries(logs[n]))
    ensures var (ts, k) := RecoverLogs([n], logs, number, full, sizeOf);
            Replayed(ts, number, k) && n < k && LevelSet(ts) == Set(LogEntries(logs[n]))
  {
    hide Ascending, Set, LevelSet, RecoverLog, LogEntries;
    FreshLog(logs[n], number, full, sizeOf);
    var (ts, m) := RecoverLog(logs[n], None, number, full, sizeOf);
    assert [n][1..] == [];
    assert RecoverLogs([n], logs, number, full, sizeOf) == (ts + [], Max(m, n + 1));
    assert ts + [] == ts;
  }

  lemma TwoLogs(a: nat, b: nat, logs: map<nat, seq<Batch>>, number: nat, full: seq<Entry> -> bool,
                sizeOf: seq<Entry> -> nat)
    requires a in logs && b in logs && Ascending(LogEntries(logs[a])) && Ascending(LogEntries(logs[b]))
    requires StampsBefore(Set(LogEntries(logs[a])), Set(LogEntries(logs[b])))
    ensures var (ts, k) := RecoverLogs([a, b], logs, number, full, sizeOf);
            Replayed(ts, number, k) && a < k && b < k &&
            LevelSet(ts) == Set(LogEntries(logs[a])) + Set(LogEntries(logs[b]))
  {
    hide Ascending, Set, LevelSet, RecoverLog, LogEntries, StampsBefore;
    FreshLog(logs[a], number, full, sizeOf);
    var (ts, m) := RecoverLog(logs[a], None, number, full, sizeOf);
    var n := Max(m, a + 1);
    OneLog(b, logs, n, full, sizeOf);
    var (us, k) := RecoverLogs([b], logs, n, full, sizeOf);
    assert [a, b][1..] == [b];
    assert RecoverLogs([a, b], logs, number, full, sizeOf) == (ts + us, k);
    ReplayedConcat(ts, us, number, n, k);
  }

  /** What the logs give back: both memtables, as level-0 tables in age order. */
  lemma LogsRebuildMemtables(db: Db, order: seq<nat>, number: nat, full: seq<Entry> -> bool, sizeOf: seq<Entry> -> nat)
    requires Logged(db.mem, db.imm, db.inflight, db.logs, db.logNumber, db.memLog) && db.inflight.None?
    requires IsLogList(order, db.logs, db.logNumber)
    ensures var (ts, k) := RecoverLogs(order, db.logs, number, full, sizeOf);
            Replayed(ts, number, k) && db.memLog < k && LevelSet(ts) == Set(db.mem) + Set(ImmSeq(db.imm))
  {
    LogOrder(db, order);
    if db.imm.None? {
      OneLog(db.memLog, db.logs, number, full, sizeOf);
      assert Set(ImmSeq(db.imm)) == {};
    } else {
      forall d, e | d in Set(LogEntries(db.logs[db.logNumber])) && e in Set(LogEntries(db.logs[db.memLog]))
        ensures d.stamp < e.stamp
      {
      }
      TwoLogs(db.logNumber, db.memLog, db.logs, number, full, sizeOf);
    }
  }

  lemma LogOrder(db: Db, order: seq<nat>)
    requires Logged(db.mem, db.imm, db.inflight, db.logs, db.logNumber, db.memLog)
    requires IsLogList(order, db.logs, db.logNumber)
    ensures order == if db.imm.None? then [db.memLog] else [db.logNumber, db.memLog]
  {
    assert db.memLog in order;
    forall i | 0 <= i < |order| ensures order[i] == db.logNumber || order[i] == db.memLog {
      assert order[i] in order;
    }
    if db.imm.None? {
      Spread(order, |order| - 1);
    } else {
      assert db.logNumber in order;
      var i :| 0 <= i < |order| && order[i] == db.logNumber;
      var j :| 0 <= j < |order| && order[j] == db.memLog;
      assert i == 0 && j == 1 && |order| == 2 by { TwoValues(order, db.logNumber, db.memLog, i, j); }
    }
  }

  lemma {:induction false} Spread(order: seq<nat>, i: nat)
    requires forall i, j | 0 <= i < j < |order| :: order[i] < order[j]
    requires i < |order|
    ensures order[i] >= order[0] + i
  {
    if i > 0 { Spread(order, i - 1); }
  }

  lemma TwoValues(order: seq<nat>, a: nat, b: nat, i: nat, j: nat)
    requires forall i, j | 0 <= i < j < |order| :: order[i] < order[j]
    requires forall i | 0 <= i < |order| :: order[i] == a || order[i] == b
    requires a < b && i < |order| && j < |order| && order[i] == a && order[j] == b
    ensures i == 0 && j == 1 && |order| == 2
  {
    var last := |order| - 1;
    assert order[0] == a && order[last] == b;
    assert order[1] == b;
  }
}
