/** Opening a database after a crash gives back everything that was logged. */
module Reopening {
  import opened Wrappers
  import opened Entries
  import opened Versions
  import opened Edits
  import opened Engine
  import opened Steps
  import opened CompactionSteps
  import opened Installing
  import opened Moving
  import opened Recovery

  /** All that survives a crash. */
  datatype Disk = Disk(logs: map<nat, seq<Batch>>, tables: set<nat>, manifest: seq<Edit>)

  function DiskOf(db: Db): Disk {
    Disk(db.logs, db.tables, db.manifest)
  }

  // ----- The snapshot record a new manifest starts with -----

  function AllFiles(levels: seq<Level>, n: nat): seq<(nat, Table)>
    requires n <= |levels|
  {
    if n == 0 then [] else AllFiles(levels, n - 1) + At(n - 1, levels[n - 1])
  }

  function SnapshotEdit(levels: seq<Level>): Edit {
    Edit({}, AllFiles(levels, |levels|), 0, 0, 0)
  }

  lemma {:induction false} AddedAtConcat(a: seq<(nat, Table)>, b: seq<(nat, Table)>, l: nat)
    ensures AddedAt(a + b, l) == AddedAt(a, l) + AddedAt(b, l)
  {
    if b == [] {
      assert a + b == a;
    } else {
      var n := |b| - 1;
      AddedAtConcat(a, b[..n], l);
      assert (a + b)[..|a + b| - 1] == a + b[..n];
    }
  }

  lemma {:induction false} AddedAtAll(levels: seq<Level>, n: nat, l: nat)
    requires n <= |levels|
    ensures AddedAt(AllFiles(levels, n), l) == if l < n then levels[l] else []
  {
    if n > 0 {
      hide AddedAt, At, AllFiles;
      AllFilesStep(levels, n);
      AddedAtAll(levels, n - 1, l);
      AddedAtMore(AllFiles(levels, n - 1), n - 1, levels[n - 1], l);
      JoinedWith(AddedAt(AllFiles(levels, n - 1), l), if l == n - 1 then levels[n - 1] else [],
                 if l < n then levels[l] else []);
    }
  }

  lemma AllFilesStep(levels: seq<Level>, n: nat)
    requires 0 < n <= |levels|
    ensures AllFiles(levels, n) == AllFiles(levels, n - 1) + At(n - 1, levels[n - 1])
  {
  }

  lemma JoinedWith(a: Level, b: Level, files: Level)
    requires (a == [] && b == files) || (a == files && b == [])
    ensures a + b == files
  {
  }

  lemma AddedAtMore(a: seq<(nat, Table)>, level: nat, files: Level, l: nat)
    ensures AddedAt(a + At(level, files), l) == AddedAt(a, l) + if l == level then files else []
  {
    hide AddedAt;
    AddedAtConcat(a, At(level, files), l);
    AddedAtOne(At(level, files), level, files);
  }

  /** Replaying the snapshot record rebuilds the version it was taken from. */
  lemma SnapshotReplays(levels: seq<Level>)
    requires |levels| == NUM_LEVELS && OrderedLevels(levels)
    ensures Apply(EmptyVersion(), SnapshotEdit(levels)) == levels
  {
    hide AllFiles, OrderedLevel, ApplyAt;
    forall l | 0 <= l < NUM_LEVELS ensures ApplyAt(EmptyVersion()[l], SnapshotEdit(levels), l) == levels[l] {
      SnapshotAt(levels, l);
    }
  }

  lemma SnapshotAt(levels: seq<Level>, l: nat)
    requires l < |levels| && OrderedLevel(levels[l])
    ensures ApplyAt([], SnapshotEdit(levels), l) == levels[l]
  {
    hide AllFiles, OrderedLevel;
    AddedAtAll(levels, |levels|, l);
    RebuildOrdered(levels[l]);
  }

  // ----- The recovered sequence number -----

  /** The last sequence number a batch uses. */
  function LastOf(b: Batch): nat {
    if b.first + |b.ops| == 0 then 0 else b.first + |b.ops| - 1
  }

  function MaxInLog(log: seq<Batch>): nat {
    if log == [] then 0 else Max(MaxInLog(log[..|log| - 1]), LastOf(log[|log| - 1]))
  }

  function MaxInLogs(order: seq<nat>, logs: map<nat, seq<Batch>>): nat
    requires forall n | n in order :: n in logs
  {
    if order == [] then 0 else Max(MaxInLog(logs[order[0]]), MaxInLogs(order[1..], logs))
  }

  lemma {:induction false} MaxInLogBounds(log: seq<Batch>, last: nat)
    requires forall b | b in log :: b.first + |b.ops| <= last + 1
    ensures MaxInLog(log) <= last
    ensures forall e | e in LogEntries(log) :: e.stamp <= MaxInLog(log)
  {
    if log != [] {
      var n := |log| - 1;
      MaxInLogBounds(log[..n], last);
      BatchStamps(log[n]);
      assert log[n] in log;
    }
  }

  lemma {:induction false} MaxInLogsBounds(order: seq<nat>, logs: map<nat, seq<Batch>>, last: nat)
    requires forall n | n in order :: n in logs
    requires forall n, b | n in order && b in logs[n] :: b.first + |b.ops| <= last + 1
    ensures MaxInLogs(order, logs) <= last
    ensures forall n, e | n in order && e in LogEntries(logs[n]) :: e.stamp <= MaxInLogs(order, logs)
  {
    if order != [] {
      assert order[0] in order;
      MaxInLogBounds(logs[order[0]], last);
      MaxInLogsBounds(order[1..], logs, last);
      forall n, e | n in order && e in LogEntries(logs[n]) ensures e.stamp <= MaxInLogs(order, logs) {
        assert n == order[0] || n in order[1..];
      }
    }
  }

  // ----- Opening -----

  predicate TablesPresent(disk: Disk) {
    VersionNumbers(Replay(disk.manifest)) <= disk.tables
  }

  /** `DB::Open` on an existing database; nothing when the manifest is empty or names a table that
      is gone. */
  ghost function Reopen(disk: Disk, order: seq<nat>, full: seq<Entry> -> bool, sizeOf: seq<Entry> -> nat): Option<Db>
    requires forall n | n in order :: n in disk.logs
  {
    if disk.manifest == [] || !TablesPresent(disk) then None
    else
      var m := disk.manifest[|disk.manifest| - 1];
      var base := Replay(disk.manifest);
      var (ts, newLog) := RecoverLogs(order, disk.logs, m.nextFile + 1, full, sizeOf);
      var last := Max(m.lastSequence, MaxInLogs(order, disk.logs));
      var edit := Edit({}, At(0, ts), newLog, newLog + 1, last);
      Some(Db([], None, None, Apply(base, edit), [], last, [], None, {}, newLog, newLog, newLog + 1,
              disk.logs[newLog := []], disk.tables + Numbers(ts), [SnapshotEdit(base), edit]))
  }

  lemma ApplyAddAll(levels: seq<Level>, e: Edit, ts: Level)
    requires |levels| == NUM_LEVELS && e.deleted == {} && e.added == At(0, ts)
    ensures Apply(levels, e) == levels[0 := InsertAll(levels[0], ts)]
  {
    AddedAtOne(e.added, 0, ts);
    forall l | 0 <= l < NUM_LEVELS
      ensures ApplyAt(levels[l], e, l) == if l == 0 then InsertAll(levels[l], ts) else levels[l]
    {
      RemoveNothing(levels[l], DeletedAt(e, l));
    }
  }

  lemma AddReplayedValid(levels: seq<Level>, ts: Level, from: nat, next: nat)
    requires ValidVersion(levels) && Replayed(ts, from, next) && NumbersBelow(levels, from)
    requires Newer(LevelSet(ts), VersionSet(levels))
    ensures ValidVersion(levels[0 := InsertAll(levels[0], ts)])
  {
    hide Newer, Later, Sorted, Disjoint;
    var files := InsertAll(levels[0], ts);
    var r := levels[0 := files];
    assert DistinctNumbers(ts);
    InsertAllDistinct(levels[0], ts);
    InsertAllSet(levels[0], ts);
    assert TablesSorted(files);
    forall j | 0 < j < NUM_LEVELS ensures Newer(LevelSet(files), LevelSet(levels[j])) {
      LevelInVersion(levels, j);
      assert Newer(LevelSet(levels[0]), LevelSet(levels[j]));
      NewerSubset(LevelSet(ts), VersionSet(levels), LevelSet(ts), LevelSet(levels[j]));
      NewerUnion(LevelSet(levels[0]), LevelSet(ts), LevelSet(levels[j]));
    }
    forall a: Table, b: Table | a in files && b in files && a.number > b.number
      ensures Newer(Set(a.entries), Set(b.entries))
    {
      ReplayedAge(levels, ts, from, next, a, b);
    }
    assert AgeOrdered(r);
  }

  lemma ReplayedAge(levels: seq<Level>, ts: Level, from: nat, next: nat, a: Table, b: Table)
    requires ValidVersion(levels) && Replayed(ts, from, next) && NumbersBelow(levels, from)
    requires Newer(LevelSet(ts), VersionSet(levels))
    requires a in levels[0] || a in ts
    requires b in levels[0] || b in ts
    requires a.number > b.number
    ensures Newer(Set(a.entries), Set(b.entries))
  {
    hide Sorted, Disjoint;
    if a in ts {
      if b in ts {
        var i :| 0 <= i < |ts| && ts[i] == a;
        var j :| 0 <= j < |ts| && ts[j] == b;
        assert Later(b, a);
      } else {
        LevelInVersion(levels, 0);
        assert Set(b.entries) <= LevelSet(levels[0]) && Set(a.entries) <= LevelSet(ts);
        NewerSubset(LevelSet(ts), VersionSet(levels), Set(a.entries), Set(b.entries));
      }
    }
  }

  lemma VersionSetAddAll(levels: seq<Level>, ts: Level)
    requires |levels| == NUM_LEVELS
    ensures VersionSet(levels[0 := InsertAll(levels[0], ts)]) == VersionSet(levels) + LevelSet(ts)
  {
    var r := levels[0 := InsertAll(levels[0], ts)];
    InsertAllSet(levels[0], ts);
    forall e ensures e in VersionSet(r) <==> e in VersionSet(levels) || e in LevelSet(ts) {
      VersionMember(r, e);
      VersionMember(levels, e);
      if l :| 0 <= l < |levels| && e in LevelSet(levels[l]) {
        assert e in LevelSet(r[l]);
      }
      if e in LevelSet(ts) {
        assert e in LevelSet(r[0]);
      }
    }
  }

  lemma AddReplayedNumbers(levels: seq<Level>, ts: Level, from: nat, next: nat)
    requires |levels| == NUM_LEVELS && NumbersUnique(levels) && NumbersBelow(levels, from) && OrderedLevels(levels)
    requires Replayed(ts, from, next)
    ensures NumbersUnique(levels[0 := InsertAll(levels[0], ts)])
    ensures NumbersBelow(levels[0 := InsertAll(levels[0], ts)], next)
    ensures OrderedLevels(levels[0 := InsertAll(levels[0], ts)])
  {
    hide Later, Sorted, NumbersUnique;
    forall t | t in ts ensures from <= t.number < next {
      var i :| 0 <= i < |ts| && ts[i] == t;
    }
    InsertAllOrdered(levels[0], ts);
    var levels' := levels[0 := InsertAll(levels[0], ts)];
    assert AddsAt(levels, levels', 0, ts);
    ReplayedNumbers(levels, levels', ts, from, next);
  }

  lemma ReplayedNumbers(levels: seq<Level>, levels': seq<Level>, ts: Level, from: nat, next: nat)
    requires AddsAt(levels, levels', 0, ts) && NumbersUnique(levels) && NumbersBelow(levels, from)
    requires Replayed(ts, from, next)
    ensures NumbersUnique(levels') && NumbersBelow(levels', next)
  {
    hide Later, Sorted;
    forall t | t in ts ensures from <= t.number < next {
      var i :| 0 <= i < |ts| && ts[i] == t;
    }
    forall t, u | t in ts && u in ts && t.number == u.number ensures t == u {
      var i :| 0 <= i < |ts| && ts[i] == t;
      var j :| 0 <= j < |ts| && ts[j] == u;
    }
  }

  lemma RecoveredLast(db: Db, order: seq<nat>, saved: nat)
    requires Logged(db.mem, db.imm, db.inflight, db.logs, db.logNumber, db.memLog) && db.inflight.None?
    requires LastSaved(db.mem, db.imm, db.inflight, db.last, saved)
    requires BatchesWithin(Settled(db.logs, db.memLog, db.inflight), db.logNumber, db.last + 1)
    requires IsLogList(order, db.logs, db.logNumber)
    ensures Max(saved, MaxInLogs(order, db.logs)) == db.last
  {
    MaxInLogsBounds(order, db.logs, db.last);
    if saved < db.last {
      var e :| e in Set(db.mem) + Set(ImmSeq(db.imm)) && e.stamp == db.last;
      if e in Set(db.mem) {
        assert e in Set(LogEntries(db.logs[db.memLog]));
        assert db.memLog in order;
      } else {
        assert e in Set(LogEntries(db.logs[db.logNumber]));
        assert db.logNumber in order;
      }
    }
  }

  /** The state `Reopen` arrives at. */
  ghost predicate ReopenedFrom(db: Db, ts: Level, newLog: nat, edit: Edit, db': Db) {
    && |db.levels| == NUM_LEVELS
    && edit == Edit({}, At(0, ts), newLog, newLog + 1, db.last)
    && db' == Db([], None, None, Apply(db.levels, edit), [], db.last, [], None, {}, newLog, newLog, newLog + 1,
                 db.logs[newLog := []], db.tables + Numbers(ts), [SnapshotEdit(db.levels), edit])
  }

  lemma ReopenIs(db: Db, order: seq<nat>, full: seq<Entry> -> bool, sizeOf: seq<Entry> -> nat) returns (edit: Edit)
    requires db.manifest != [] && TablesPresent(DiskOf(db)) && Replay(db.manifest) == db.levels
    requires forall n | n in order :: n in db.logs
    requires Max(db.manifest[|db.manifest| - 1].lastSequence, MaxInLogs(order, db.logs)) == db.last
    ensures var (ts, newLog) := RecoverLogs(order, db.logs, db.manifest[|db.manifest| - 1].nextFile + 1, full, sizeOf);
            var r := Reopen(DiskOf(db), order, full, sizeOf);
            r.Some? && ReopenedFrom(db, ts, newLog, edit, r.value)
  {
    hide TablesPresent, Apply, Replay, RecoverLogs, MaxInLogs, Max, SnapshotEdit, Numbers;
    var (ts, newLog) := RecoverLogs(order, db.logs, db.manifest[|db.manifest| - 1].nextFile + 1, full, sizeOf);
    edit := Edit({}, At(0, ts), newLog, newLog + 1, db.last);
  }

  /** What opening after a crash arrives at, from the tables the logs were written out to. */
  lemma ReopenShape(db: Db, order: seq<nat>, full: seq<Entry> -> bool, sizeOf: seq<Entry> -> nat,
                    history: set<Entry>, floor: nat) returns (ts: Level, saved: nat, newLog: nat, edit: Edit)
    requires Inv(db, history, floor) && db.inflight.None?
    requires IsLogList(order, db.logs, db.logNumber)
    ensures forall n | n in order :: n in db.logs
    ensures var r := Reopen(DiskOf(db), order, full, sizeOf); r.Some? && ReopenedFrom(db, ts, newLog, edit, r.value)
    ensures db.manifest != [] && saved == db.manifest[|db.manifest| - 1].nextFile
    ensures Replayed(ts, saved + 1, newLog) && db.memLog < newLog && LevelSet(ts) == Set(db.mem) + Set(ImmSeq(db.imm))
  {
    hide Truthful, Layers, NumbersUnique, NumbersBelow, OrderedLevels, Logged, LastSaved, BatchesWithin, JobLive,
         IsLogList, OnDisk, Replayed, RecoverLogs, Replay, MaxInLogs, Max, Reopen, TablesPresent;
    var m := db.manifest[|db.manifest| - 1];
    saved := m.nextFile;
    PresentAfterCrash(db);
    LogsRebuildMemtables(db, order, m.nextFile + 1, full, sizeOf);
    RecoveredLast(db, order, m.lastSequence);
    LogsListed(order, db.logs, db.logNumber);
    edit := ReopenIs(db, order, full, sizeOf);
    var (us, n) := RecoverLogs(order, db.logs, m.nextFile + 1, full, sizeOf);
    ts, newLog := us, n;
  }

  /** Recovery rebuilds the same contents and the same last sequence number. */
  lemma ReopenKeeps(db: Db, order: seq<nat>, full: seq<Entry> -> bool, sizeOf: seq<Entry> -> nat,
                    history: set<Entry>, floor: nat)
    requires Inv(db, history, floor) && db.inflight.None?
    requires IsLogList(order, db.logs, db.logNumber)
    ensures forall n | n in order :: n in db.logs
    ensures var r := Reopen(DiskOf(db), order, full, sizeOf);
            r.Some? && Inv(r.value, history, floor) && r.value.last == db.last && Stored(r.value) == Stored(db)
  {
    hide Inv, IsLogList, Replayed, Reopen, ReopenedFrom, Stored, LevelSet, Set;
    var ts, saved, newLog, edit := ReopenShape(db, order, full, sizeOf, history, floor);
    Reopened(db, ts, saved, newLog, edit, Reopen(DiskOf(db), order, full, sizeOf).value, history, floor);
  }

  lemma ForgetSnapshots(stored: set<Entry>, history: set<Entry>, floor: nat, last: nat, snapshots: seq<nat>)
    requires Truthful(stored, history, floor, last, snapshots)
    ensures Truthful(stored, history, floor, last, [])
  {
  }

  lemma SavedParts(levels: seq<Level>, manifest: seq<Edit>, logNumber: nat, nextFile: nat)
    requires Saved(levels, manifest, logNumber, nextFile)
    ensures NumbersUnique(levels) && OrderedLevels(levels)
    ensures manifest != [] && NumbersBelow(levels, manifest[|manifest| - 1].nextFile)
  {
  }

  lemma Reopened(db: Db, ts: Level, saved: nat, newLog: nat, edit: Edit, db': Db, history: set<Entry>, floor: nat)
    requires Inv(db, history, floor) && saved == db.manifest[|db.manifest| - 1].nextFile
    requires Replayed(ts, saved + 1, newLog) && db.memLog < newLog
    requires LevelSet(ts) == Set(db.mem) + Set(ImmSeq(db.imm))
    requires ReopenedFrom(db, ts, newLog, edit, db')
    ensures Inv(db', history, floor) && db'.last == db.last && Stored(db') == Stored(db)
  {
    hide Layers, Logged, LastSaved, BatchesWithin, JobLive, OnDisk, Replayed, Saved, Truthful, Stored, ReopenedFrom,
         Settled;
    ReopenContents(db, ts, saved, newLog, edit, db', history, floor);
    ReopenRest(db, ts, newLog, edit, db', history, floor);
  }

  lemma ReopenRest(db: Db, ts: Level, newLog: nat, edit: Edit, db': Db, history: set<Entry>, floor: nat)
    requires Inv(db, history, floor) && db.memLog < newLog && ReopenedFrom(db, ts, newLog, edit, db')
    requires db'.levels == db.levels[0 := InsertAll(db.levels[0], ts)]
    ensures DbOnDisk(db') && DbJobLive(db') && db'.last == db.last && db'.manifest != []
    ensures Logged(db'.mem, db'.imm, db'.inflight, db'.logs, db'.logNumber, db'.memLog)
    ensures BatchesWithin(Settled(db'.logs, db'.memLog, db'.inflight), db'.logNumber, db'.last + 1)
    ensures LastSaved(db'.mem, db'.imm, db'.inflight, db'.last, db'.manifest[|db'.manifest| - 1].lastSequence)
    ensures Truthful(Stored(db), history, floor, db'.last, db'.snapshots)
  {
    hide Layers, Logged, LastSaved, BatchesWithin, JobLive, OnDisk, Saved, Truthful, Stored, Apply, SnapshotEdit,
         Numbers;
    ReopenDisk(db, ts, newLog, db');
    ForgetSnapshots(Stored(db), history, floor, db.last, db.snapshots);
    assert db'.manifest[|db'.manifest| - 1] == edit;
  }

  lemma ReopenContents(db: Db, ts: Level, saved: nat, newLog: nat, edit: Edit, db': Db, history: set<Entry>, floor: nat)
    requires Inv(db, history, floor) && saved == db.manifest[|db.manifest| - 1].nextFile
    requires Replayed(ts, saved + 1, newLog) && LevelSet(ts) == Set(db.mem) + Set(ImmSeq(db.imm))
    requires ReopenedFrom(db, ts, newLog, edit, db')
    ensures db'.levels == db.levels[0 := InsertAll(db.levels[0], ts)]
    ensures Layers(db'.mem, db'.imm, db'.levels) && Stored(db') == Stored(db)
    ensures Saved(db'.levels, db'.manifest, db'.logNumber, db'.nextFile)
  {
    hide Layers, Logged, LastSaved, BatchesWithin, JobLive, OnDisk, Replayed, Saved, Truthful, Stored, Apply,
         SnapshotEdit, NumbersUnique, NumbersBelow, OrderedLevels, Numbers;
    SavedParts(db.levels, db.manifest, db.logNumber, db.nextFile);
    ApplyAddAll(db.levels, edit, ts);
    ReopenVersion(db, ts, saved, newLog, db');
    ReopenSaved(db.levels, edit, db');
  }

  lemma ReopenSaved(base: seq<Level>, edit: Edit, db': Db)
    requires |base| == NUM_LEVELS && OrderedLevels(base) && db'.levels == Apply(base, edit)
    requires |db'.levels| == NUM_LEVELS
    requires db'.manifest == [SnapshotEdit(base), edit] && db'.nextFile == edit.nextFile == edit.logNumber + 1
    requires db'.logNumber == edit.logNumber
    requires NumbersUnique(db'.levels) && NumbersBelow(db'.levels, edit.logNumber) && OrderedLevels(db'.levels)
    ensures Saved(db'.levels, db'.manifest, db'.logNumber, db'.nextFile)
  {
    hide NumbersUnique, OrderedLevels, Apply, SnapshotEdit;
    SnapshotReplays(base);
    ReplayTwo(SnapshotEdit(base), edit);
  }

  lemma LogsListed(order: seq<nat>, logs: map<nat, seq<Batch>>, from: nat)
    requires IsLogList(order, logs, from)
    ensures forall n | n in order :: n in logs
  {
  }

  lemma PresentAfterCrash(db: Db)
    requires DbOnDisk(db) && Replay(db.manifest) == db.levels
    ensures TablesPresent(DiskOf(db))
  {
  }

  lemma ReplayTwo(a: Edit, b: Edit)
    ensures Replay([a, b]) == Apply(Apply(EmptyVersion(), a), b)
  {
    assert [a, b][..1] == [a];
    assert [a][..0] == [];
    assert Replay([a]) == Apply(Replay([]), a);
  }

  lemma ReopenVersion(db: Db, ts: Level, saved: nat, next: nat, db': Db)
    requires Layers(db.mem, db.imm, db.levels) && Replayed(ts, saved + 1, next) && |db.levels| == NUM_LEVELS
    requires NumbersUnique(db.levels) && NumbersBelow(db.levels, saved) && OrderedLevels(db.levels)
    requires LevelSet(ts) == Set(db.mem) + Set(ImmSeq(db.imm))
    requires db'.mem == [] && db'.imm == None && db'.levels == db.levels[0 := InsertAll(db.levels[0], ts)]
    ensures Layers(db'.mem, db'.imm, db'.levels) && Stored(db') == Stored(db)
    ensures NumbersUnique(db'.levels) && NumbersBelow(db'.levels, next) && OrderedLevels(db'.levels)
  {
    hide ValidVersion, NumbersUnique, OrderedLevels, Replayed, NumbersBelow;
    NewerUnion(Set(db.mem), Set(ImmSeq(db.imm)), VersionSet(db.levels));
    NumbersBelowGrows(db.levels, saved, saved + 1);
    AddReplayedValid(db.levels, ts, saved + 1, next);
    VersionSetAddAll(db.levels, ts);
    AddReplayedNumbers(db.levels, ts, saved + 1, next);
    assert Set(db'.mem) == {} && Set(ImmSeq(db'.imm)) == {};
  }

  lemma ReopenDisk(db: Db, ts: Level, newLog: nat, db': Db)
    requires DbOnDisk(db) && |db.levels| == NUM_LEVELS && newLog > db.memLog
    requires Logged(db.mem, db.imm, db.inflight, db.logs, db.logNumber, db.memLog)
    requires db'.levels == db.levels[0 := InsertAll(db.levels[0], ts)]
    requires db' == Db([], None, None, db'.levels, [], db.last, [], None, {}, newLog, newLog, newLog + 1,
                       db.logs[newLog := []], db.tables + Numbers(ts), db'.manifest)
    ensures DbOnDisk(db') && DbJobLive(db')
    ensures Logged(db'.mem, db'.imm, db'.inflight, db'.logs, db'.logNumber, db'.memLog)
    ensures BatchesWithin(Settled(db'.logs, db'.memLog, db'.inflight), db'.logNumber, db'.last + 1)
    ensures LastSaved(db'.mem, db'.imm, db'.inflight, db'.last, db'.last)
  {
    assert LogEntries([]) == [];
    assert Set(LogEntries([])) == {};
    assert Set(db'.mem) == {};
  }

  // ----- A crash at any moment -----

  /** The write in flight did not reach the log. */
  predicate CanDrop(db: Db) {
    db.inflight.Some? && db.memLog in db.logs && db.logs[db.memLog] != []
  }

  function DropWrite(db: Db): Db
    requires CanDrop(db)
  {
    var log := db.logs[db.memLog];
    db.(inflight := None, logs := db.logs[db.memLog := log[..|log| - 1]])
  }

  lemma DropWriteKeeps(db: Db, history: set<Entry>, floor: nat)
    requires Inv(db, history, floor) && db.inflight.Some?
    ensures CanDrop(db)
    ensures Inv(DropWrite(db), history, floor)
  {
    hide Truthful, Layers, Saved, JobLive, BatchesWithin, Ascending, LogEntries, BatchEntries, VersionSet;
    var db' := DropWrite(db);
    assert Stored(db') == Stored(db);
    assert SeqsAtMost(Stored(db), db.last) by { StoredBelow(Stored(db), history, floor, db.last, db.snapshots); }
    DropLogged(db.mem, db.imm, db.inflight.value, db.logs, db.logNumber, db.memLog, db.last);
  }

  lemma DropLogged(mem: seq<Entry>, imm: Option<seq<Entry>>, b: Batch, logs: map<nat, seq<Batch>>,
                   logNumber: nat, memLog: nat, last: nat)
    requires Logged(mem, imm, Some(b), logs, logNumber, memLog)
    requires b.first == last + 1 && SeqsAtMost(Set(mem), last)
    ensures Logged(mem, imm, None, logs[memLog := logs[memLog][..|logs[memLog]| - 1]], logNumber, memLog)
  {
    hide BatchEntries;
    var log := logs[memLog];
    var old', new' := LogEntries(log[..|log| - 1]), BatchEntries(b);
    assert LogEntries(log) == old' + new';
    DropBatch(mem, b, old', last);
    assert forall e | e in old' :: e in LogEntries(log);
  }

  lemma DropBatch(mem: seq<Entry>, b: Batch, old': seq<Entry>, last: nat)
    requires Ascending(old' + BatchEntries(b)) && Set(old' + BatchEntries(b)) == Set(mem) + BatchSet(Some(b))
    requires b.first == last + 1 && SeqsAtMost(Set(mem), last)
    ensures Ascending(old') && Set(old') == Set(mem) + BatchSet(None)
  {
    hide Ascending, BatchEntries;
    var new' := BatchEntries(b);
    SplitAscending(old', new');
    BatchStamps(b);
    assert Set(old' + new') == Set(old') + Set(new');
    forall e | e in Set(old') ensures e in Set(mem) {
      assert e in Set(mem) + BatchSet(Some(b));
    }
    forall e | e in Set(mem) ensures e in Set(old') {
      assert e in Set(old') + Set(new');
    }
  }
}
