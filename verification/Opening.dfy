/** Opening a database after a crash, step by step. */
module Opening {
  import opened Wrappers
  import opened Entries
  import opened Versions
  import opened Edits
  import opened Engine
  import opened CompactionSteps
  import opened Installing
  import opened Steps
  import opened Recovery
  import opened Reopening
  import opened Manifest
  import opened ManifestRuns
  import opened DbImpl

  /** Tables written so far, in front of what is still to come. */
  ghost function Behind(ts: Level, rest: (Level, nat)): (Level, nat) {
    (ts + rest.0, rest.1)
  }

  lemma BehindTwice(a: Level, b: Level, rest: (Level, nat))
    ensures Behind(a, Behind(b, rest)) == Behind(a + b, rest)
    ensures Behind([], rest) == rest
  {
    assert a + (b + rest.0) == a + b + rest.0;
    assert [] + rest.0 == rest.0;
  }

  /** `DBImpl::RecoverLogFile`: the records go into a memtable that is written out whenever it is
      full, and once more at the end. */
  method RecoverLogFile(log: seq<Batch>, number: nat, full: seq<Entry> -> bool, sizeOf: seq<Entry> -> nat)
    returns (ts: Level, next: nat, maxSequence: nat)
    ensures (ts, next) == RecoverLog(log, None, number, full, sizeOf) && maxSequence == MaxInLog(log)
  {
    hide InsertEntries, BatchEntries, WriteTable, LastOf;
    var mem: Option<seq<Entry>> := None;
    ts, next, maxSequence := [], number, 0;
    assert log[0..] == log;
    BehindTwice([], [], RecoverLog(log, None, number, full, sizeOf));
    for i := 0 to |log|
      invariant RecoverLog(log, None, number, full, sizeOf)
             == Behind(ts, RecoverLog(log[i..], mem, next, full, sizeOf))
      invariant maxSequence == MaxInLog(log[..i])
    {
      var b := log[i];
      assert log[i..][0] == b && log[i..][1..] == log[i + 1..];
      assert log[..i + 1][..i] == log[..i];
      var m := InsertInto(ImmSeq(mem), BatchEntries(b));
      maxSequence := Max(maxSequence, LastOf(b));
      if full(m) {
        var (us, n) := WriteTable(m, next, sizeOf);
        BehindTwice(ts, us, RecoverLog(log[i + 1..], None, n, full, sizeOf));
        ts, next, mem := ts + us, n, None;
      } else {
        mem := Some(m);
      }
    }
    assert log[|log|..] == [] && log[..|log|] == log;
    if mem.Some? {
      var (us, n) := WriteTable(mem.value, next, sizeOf);
      ts, next := ts + us, n;
    } else {
      assert ts + [] == ts;
    }
  }

  /** The loop of `DBImpl::Recover` over the logs, oldest first; numbers of logs are used up too. */
  method RecoverLogFiles(order: seq<nat>, logs: map<nat, seq<Batch>>, number: nat,
                         full: seq<Entry> -> bool, sizeOf: seq<Entry> -> nat)
    returns (ts: Level, next: nat, maxSequence: nat)
    requires forall n | n in order :: n in logs
    ensures (ts, next) == RecoverLogs(order, logs, number, full, sizeOf) && maxSequence == MaxInLogs(order, logs)
  {
    hide RecoverLog, MaxInLog;
    ts, next, maxSequence := [], number, 0;
    assert order[0..] == order;
    BehindTwice([], [], RecoverLogs(order, logs, number, full, sizeOf));
    for i := 0 to |order|
      invariant RecoverLogs(order, logs, number, full, sizeOf)
             == Behind(ts, RecoverLogs(order[i..], logs, next, full, sizeOf))
      invariant MaxInLogs(order, logs) == Max(maxSequence, MaxInLogs(order[i..], logs))
    {
      assert order[i..][0] == order[i] && order[i..][1..] == order[i + 1..] && order[i] in order;
      var us, n, m := RecoverLogFile(logs[order[i]], next, full, sizeOf);
      next := Max(n, order[i] + 1);
      BehindTwice(ts, us, RecoverLogs(order[i + 1..], logs, next, full, sizeOf));
      ts, maxSequence := ts + us, Max(maxSequence, m);
    }
    assert order[|order|..] == [] && ts + [] == ts;
  }

  ghost predicate Rising(order: seq<nat>) {
    forall i, j | 0 <= i < j < |order| :: order[i] < order[j]
  }

  /** One step of sorting the list of logs. */
  method InsertNumber(order: seq<nat>, n: nat) returns (r: seq<nat>)
    requires Rising(order) && n !in order
    ensures Rising(r) && forall m :: m in r <==> m in order || m == n
  {
    var i := 0;
    while i < |order| && order[i] < n
      invariant 0 <= i <= |order| && forall j | 0 <= j < i :: order[j] < n
    {
      i := i + 1;
    }
    r := order[..i] + [n] + order[i..];
    Inserted(order, n, i);
  }

  lemma Inserted(order: seq<nat>, n: nat, i: nat)
    requires Rising(order) && n !in order && i <= |order|
    requires (forall j | 0 <= j < i :: order[j] < n) && (i < |order| ==> order[i] >= n)
    ensures var r := order[..i] + [n] + order[i..]; Rising(r) && forall m :: m in r <==> m in order || m == n
  {
    var r := order[..i] + [n] + order[i..];
    forall j | i <= j < |order| ensures n < order[j] {
      assert order[i] in order && order[i] <= order[j];
    }
    forall p, q | 0 <= p < q < |r| ensures r[p] < r[q] {
      var a, b := if p <= i then p else p - 1, if q <= i then q else q - 1;
      assert p != i ==> r[p] == order[a];
      assert q != i ==> r[q] == order[b];
    }
    assert order == order[..i] + order[i..];
  }

  /** The logs to replay, oldest first: those from the manifest's log number on, and the previous log
      that an older version of the code may have recorded. */
  method LogsToRecover(names: seq<nat>, minLog: nat, prevLog: nat) returns (order: seq<nat>)
    requires forall i, j | 0 <= i < j < |names| :: names[i] != names[j]
    ensures Rising(order) && forall n :: n in order <==> n in names && (minLog <= n || n == prevLog)
  {
    order := [];
    for i := 0 to |names|
      invariant Rising(order) && forall n :: n in order <==> n in names[..i] && (minLog <= n || n == prevLog)
    {
      assert names[..i + 1] == names[..i] + [names[i]] && names[i] !in names[..i];
      if minLog <= names[i] || names[i] == prevLog {
        order := InsertNumber(order, names[i]);
      }
    }
    assert names[..|names|] == names;
  }

  /** `DB::Open`: one builder over the manifest, the logs, and a new manifest that starts with a snapshot
      of the version. */
  method Open(disk: Disk, order: seq<nat>, full: seq<Entry> -> bool, sizeOf: seq<Entry> -> nat)
    returns (r: Option<Db>)
    requires forall n | n in order :: n in disk.logs
    requires LevelsInRange(disk.manifest)
    ensures AllFresh(disk.manifest) ==> r == Reopen(disk, order, full, sizeOf)
  {
    hide Replay, RecoverLogs, MaxInLogs, Apply, SnapshotEdit, Numbers, At, FreshAdds;
    var base := RecoverVersion(disk.manifest);
    if disk.manifest == [] || !(VersionNumbers(base) <= disk.tables) {
      return None;
    }
    var m := disk.manifest[|disk.manifest| - 1];
    var ts, newLog, maxSequence := RecoverLogFiles(order, disk.logs, m.nextFile + 1, full, sizeOf);
    var last := Max(m.lastSequence, maxSequence);
    var edit := Edit({}, At(0, ts), newLog, newLog + 1, last);
    r := Some(Db([], None, None, Apply(base, edit), [], last, [], None, {}, newLog, newLog, newLog + 1,
                 disk.logs[newLog := []], disk.tables + Numbers(ts), [SnapshotEdit(base), edit]));
  }

  /** What a crash leaves opens as a database with the same contents, history and sequence number; `names`
      are the numbers of the log files, in any order. */
  method OpenDatabase(disk: Disk, names: seq<nat>, full: seq<Entry> -> bool, sizeOf: seq<Entry> -> nat,
                      ghost before: Db, ghost history: set<Entry>, ghost floor: nat)
    returns (d: Database)
    requires Inv(before, history, floor) && DbNumbered(before) && before.inflight.None? && disk == DiskOf(before)
    requires forall n :: n in names <==> n in disk.logs
    requires 0 !in names && forall i, j | 0 <= i < j < |names| :: names[i] != names[j]
    ensures fresh(d) && d.Valid() && d.history == history && d.floor == floor
    ensures d.last == before.last && Stored(d.View()) == Stored(before)
  {
    hide Inv, Reopen, Stored, AllFresh, LevelsInRange, FreshAdds;
    ManifestThere(before, history, floor);
    var order := LogsToRecover(names, disk.manifest[|disk.manifest| - 1].logNumber, 0);
    NumberedFresh(before);
    ReopenKeeps(before, order, full, sizeOf, history, floor);
    var r := Open(disk, order, full, sizeOf);
    d := new Database(r.value, history, floor);
  }

  lemma ManifestThere(db: Db, history: set<Entry>, floor: nat)
    requires Inv(db, history, floor)
    ensures db.manifest != [] && db.manifest[|db.manifest| - 1].logNumber == db.logNumber
  {
    hide Layers, Truthful, Logged, LastSaved, BatchesWithin, OnDisk, JobLive, BordersSafe, Replay;
  }

  lemma NumberedFresh(db: Db)
    requires DbNumbered(db)
    ensures AllFresh(db.manifest) && LevelsInRange(db.manifest)
  {
    hide AllFresh, LevelsInRange;
  }
}
