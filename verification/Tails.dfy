/** What more every run keeps, for the case that the ends of the logs are lost: the memtables hold the
    latest writes, the manifest's sequence number covers what has been flushed, and the tables by
    themselves answer reads as the flushed writes do. */
module Tails {
  import opened Wrappers
  import opened Entries
  import opened Versions
  import opened Compactions
  import opened Edits
  import opened Engine
  import opened Steps
  import opened CompactionSteps
  import opened Installing
  import opened Moving
  import opened Recovery
  import opened Reopening
  import opened Runs

  ghost function SavedLast(db: Db): nat
    requires db.manifest != []
  {
    db.manifest[|db.manifest| - 1].lastSequence
  }

  /** All writes that have left the memtables. */
  ghost function Flushed(w: World): set<Entry> {
    w.history - Set(w.db.mem) - Set(ImmSeq(w.db.imm))
  }

  ghost predicate Tailed(w: World) {
    && StampsBefore(Flushed(w), Set(ImmSeq(w.db.imm)))
    && StampsBefore(Flushed(w) + Set(ImmSeq(w.db.imm)), Set(w.db.mem))
    && w.db.manifest != [] && SeqsAtMost(Flushed(w), SavedLast(w.db))
  }

  lemma ApplyTailed(w: World)
    requires Good(w) && Tailed(w) && CanApplyWrite(w.db)
    ensures Tailed(Step(w, DoApplyWrite)) && Flushed(Step(w, DoApplyWrite)) == Flushed(w)
  {
    hide Layers, Saved, Logged, BatchesWithin, OnDisk, JobLive, BordersSafe, SameReads, BatchEntries, InsertEntries,
         VersionSet;
    var b := w.db.inflight.value;
    BatchStamps(b);
    var w' := Step(w, DoApplyWrite);
    assert Set(w'.db.mem) == Set(w.db.mem) + Set(BatchEntries(b));
    forall e | e in Set(BatchEntries(b)) ensures e !in w.history && e.stamp > w.db.last {}
    assert Flushed(w') == Flushed(w);
    forall d | d in Flushed(w) + Set(ImmSeq(w.db.imm)) ensures d.stamp <= w.db.last {
      assert d in w.history;
    }
  }

  lemma SwitchTailed(w: World)
    requires Good(w) && Tailed(w) && CanSwitch(w.db)
    ensures Tailed(Step(w, DoSwitch)) && Flushed(Step(w, DoSwitch)) == Flushed(w)
  {
    hide Inv;
    assert Set(ImmSeq(None)) == {};
    assert Flushed(Step(w, DoSwitch)) == Flushed(w);
    assert Flushed(w) + Set(ImmSeq(w.db.imm)) == Flushed(w);
  }

  lemma FlushTailed(w: World, w': World)
    requires Good(w) && w'.history == w.history && Tailed(w) && w'.db.mem == w.db.mem && w'.db.imm.None?
    requires w'.db.manifest != [] && SavedLast(w'.db) == w.db.last && w.db.imm.Some?
    ensures Tailed(w') && Flushed(w') == Flushed(w) + Set(ImmSeq(w.db.imm))
  {
    hide Layers, Saved, Logged, BatchesWithin, OnDisk, JobLive, BordersSafe, SameReads, VersionSet;
    var I := Set(ImmSeq(w.db.imm));
    ApartStamps(I, Set(w.db.mem));
    assert Flushed(w') == Flushed(w) + I;
  }

  lemma ApartStamps(A: set<Entry>, B: set<Entry>)
    requires StampsBefore(A, B)
    ensures A !! B
  {
  }

  /** A new manifest record covers all writes. */
  lemma CoveredTailed(w: World, w': World)
    requires Good(w) && w'.history == w.history && Tailed(w) && w'.db.mem == w.db.mem && w'.db.imm == w.db.imm
    requires w'.db.manifest != [] && SavedLast(w'.db) == w.db.last
    ensures Tailed(w')
  {
    hide Layers, Saved, Logged, BatchesWithin, OnDisk, JobLive, BordersSafe, SameReads;
  }

  lemma CrashTailed(w: World, survives: bool, order: seq<nat>, full: seq<Entry> -> bool, sizeOf: seq<Entry> -> nat)
    requires Good(w) && CanCrash(w.db, order)
    ensures var w' := Crash(w, survives, order, full, sizeOf);
            && Tailed(w') && w'.db.mem == [] && w'.db.imm.None? && w'.floor == w.floor
            && Truthful(Stored(w'.db), w'.history, w'.floor, w'.db.last, w'.db.snapshots)
  {
    hide Good, TablesPresent, Replay, RecoverLogs, MaxInLogs, Apply, SnapshotEdit, Numbers, AtCrash, Layers, Logged,
         BatchesWithin, OnDisk, JobLive, BordersSafe, SameReads, Stored;
    CrashKeeps(w, survives, order, full, sizeOf);
    AtCrashKeeps(w, survives);
    AtCrashFloor(w, survives);
    var w' := Crash(w, survives, order, full, sizeOf);
    assert w'.db.manifest[1].lastSequence == w'.db.last;
  }

  lemma AtCrashFloor(w: World, survives: bool)
    requires w.db.inflight.Some? ==> CanDrop(w.db)
    ensures AtCrash(w, survives).floor == w.floor
  {
  }

  lemma StepTailed(w: World, a: Action)
    requires Good(w) && Enabled(w, a) && Tailed(w)
    ensures Tailed(Step(w, a))
  {
    hide Good, Tailed, CanFlush, CanBegin, CanInstall, CanMove, CanCrash, Crash, Apply, InsertEntries, Live,
         BatchEntries, InstallEdit;
    match a
    case DoApplyWrite => ApplyTailed(w);
    case DoSwitch => SwitchTailed(w);
    case DoFlush(level, bytes) => FlushSizes(w.db, level); FlushTailed(w, Step(w, a));
    case DoInstall(outputs) => InstallSaves(w.db, outputs); CoveredTailed(w, Step(w, a));
    case DoMove(level, f) => MoveSaves(w.db, level, f); CoveredTailed(w, Step(w, a));
    case DoCrash(survives, order, full, sizeOf) => CrashTailed(w, survives, order, full, sizeOf);
    case _ => SameTailed(w, Step(w, a));
  }

  lemma InstallSaves(db: Db, outputs: Level)
    requires CanInstall(db, outputs)
    ensures InstallEdit(db, outputs).lastSequence == db.last
  {
    hide CanInstall;
  }

  lemma MoveSaves(db: Db, level: nat, f: Table)
    requires CanMove(db, level, f)
    ensures |db.levels| == NUM_LEVELS && MoveEdit(db, level, f).lastSequence == db.last
  {
  }

  lemma SameTailed(w: World, w': World)
    requires Tailed(w) && w'.history == w.history && w'.db.mem == w.db.mem && w'.db.imm == w.db.imm
    requires w'.db.manifest == w.db.manifest
    ensures Tailed(w')
  {
  }

  // ----- The tables by themselves -----

  ghost predicate TablesTrue(w: World) {
    SameReads(VersionSet(w.db.levels), Flushed(w), w.floor)
  }

  lemma ReadsBehind(P: set<Entry>, A: set<Entry>, k: Key, s: nat, r: Option<Payload>)
    requires StampsBefore(A, P)
    ensures (exists p :: p in P && p.key == k && p.stamp <= s) ==> (Reads(P + A, k, s, r) <==> Reads(P, k, s, r))
    ensures !(exists p :: p in P && p.key == k && p.stamp <= s) ==> (Reads(P + A, k, s, r) <==> Reads(A, k, s, r))
  {
    if p :| p in P && p.key == k && p.stamp <= s {
      assert forall e :: Newest(P + A, k, s, e) <==> Newest(P, k, s, e);
      assert !Absent(P, k, s) && !Absent(P + A, k, s);
    } else {
      assert forall e :: Newest(P + A, k, s, e) <==> Newest(A, k, s, e);
      assert Absent(A, k, s) <==> Absent(P + A, k, s);
    }
  }

  /** The same later writes on both sides change nothing. */
  lemma ReadsOver(T: set<Entry>, E: set<Entry>, P: set<Entry>, floor: nat)
    requires SameReads(T, E, floor) && StampsBefore(E, P) && T <= E
    ensures SameReads(P + T, E + P, floor)
  {
    hide Reads;
    assert StampsBefore(T, P);
    assert E + P == P + E;
    forall k, s: nat, r: Option<Payload> | floor <= s ensures Reads(P + T, k, s, r) <==> Reads(E + P, k, s, r) {
      ReadsBehind(P, T, k, s, r);
      ReadsBehind(P, E, k, s, r);
    }
  }

  /** What the tables hold was flushed. */
  lemma TablesFlushed(w: World)
    requires Good(w)
    ensures VersionSet(w.db.levels) <= Flushed(w) && UniqueSeqs(w.history)
  {
    hide Saved, Logged, LastSaved, BatchesWithin, OnDisk, JobLive, BordersSafe, ValidVersion, Sorted, SameReads,
         VersionSet;
  }

  /** No deletion the compaction drops uncovers a value among the tables it started from, whatever the
      memtables hold. */
  ghost predicate Clean(job: Job) {
    job.level + 1 < |job.version| && NothingUncovered(job, VersionSet(job.version))
  }

  lemma CleanIsEnough(job: Job, S: set<Entry>)
    requires Clean(job) && VersionSet(job.version) <= S
    ensures NothingUncovered(job, S)
  {
    forall e, d ensures !Uncovers(job, S, e, d) {
      assert !Uncovers(job, VersionSet(job.version), e, d);
    }
  }

  lemma GrownSet(version: seq<Level>, levels: seq<Level>)
    requires Grown(version, levels)
    ensures VersionSet(version) <= VersionSet(levels)
  {
    hide Newer;
    forall e | e in VersionSet(version) ensures e in VersionSet(levels) {
      VersionMember(version, e);
      VersionMember(levels, e);
      var l :| 0 <= l < |version| && e in LevelSet(version[l]);
      assert e in LevelSet(levels[l]);
    }
  }

  lemma ReadsChain(A: set<Entry>, A': set<Entry>, B: set<Entry>, floor: nat, smallest: nat)
    requires SameReads(A, B, floor) && SameReads(A, A', smallest)
    ensures SameReads(A', B, Max(floor, smallest))
  {
  }

  /** What an install needs, but for the memtable. */
  lemma InstallFacts(db: Db, history: set<Entry>, floor: nat, outputs: Level)
    requires Inv(db, history, floor) && CanInstall(db, outputs)
    ensures db.job.Some? && |db.levels| == NUM_LEVELS && Ready(db, outputs) && Layers([], None, db.levels)
    ensures Grown(db.job.value.version, db.levels) && VersionSet(db.levels) <= history && UniqueSeqs(history)
  {
    hide Flat, JobKept, Clear, Logged, LastSaved, BatchesWithin, OnDisk, ValidVersion, JobChosen, Grown, SameReads,
         NothingUncovered, SplitFree, Newer, Replay, Sorted, NumbersUnique;
    NewerNothing(Set(ImmSeq(None)));
    NewerNothing(VersionSet(db.levels));
  }

  lemma NewerNothing(S: set<Entry>)
    ensures Sorted([]) && Newer(Set([]), S)
  {
  }

  lemma InstallTabled(db: Db, history: set<Entry>, floor: nat, outputs: Level, E: set<Entry>)
    requires Inv(db, history, floor) && CanInstall(db, outputs) && db.job.Some? && Clean(db.job.value)
    requires SameReads(VersionSet(db.levels), E, floor)
    ensures SameReads(VersionSet(Install(db, outputs).levels), E, Max(floor, db.job.value.smallest))
  {
    hide Inv, CanInstall, Ready, Layers, Clean, SameReads, UniqueSeqs, Grown, NothingUncovered, Install;
    InstallFacts(db, history, floor, outputs);
    var db0 := db.(mem := [], imm := None);
    SameReady(db, outputs);
    OnlyTables(db0);
    GrownSet(db.job.value.version, db.levels);
    CleanIsEnough(db.job.value, Stored(db0));
    InstallReads(db0, outputs, history);
    SameInstall(db, outputs);
    OnlyTables(Install(db0, outputs));
    ReadsChain(VersionSet(db.levels), VersionSet(Install(db, outputs).levels), E, floor, db.job.value.smallest);
  }

  lemma OnlyTables(db: Db)
    requires db.mem == [] && db.imm.None?
    ensures Stored(db) == VersionSet(db.levels)
  {
    hide VersionSet;
    assert Set(ImmSeq(None)) == {};
  }

  lemma SameReady(db: Db, outputs: Level)
    requires Ready(db, outputs)
    ensures Ready(db.(mem := [], imm := None), outputs)
  {
    hide ValidVersion, NumbersUnique, JobChosen, Grown, SplitFree, Flat, JobKept, Clear;
  }

  lemma SameInstall(db: Db, outputs: Level)
    requires db.job.Some? && CanInstall(db, outputs)
    ensures CanInstall(db.(mem := [], imm := None), outputs)
    ensures Install(db.(mem := [], imm := None), outputs) == Install(db, outputs).(mem := [], imm := None)
  {
    hide Apply, Flat, JobKept, Clear;
    assert InstallEdit(db.(mem := [], imm := None), outputs) == InstallEdit(db, outputs);
  }

  lemma FlushTabled(db: Db, level: nat, bytes: nat)
    requires CanFlush(db, level) && db.imm.Some? && |db.levels| == NUM_LEVELS
    ensures VersionSet(Flush(db, level, bytes).levels) == VersionSet(db.levels) + Set(ImmSeq(db.imm))
  {
    hide CanFlush, Apply, FlushLevelOk, InsertTable, VersionSet;
    CanFlushThere(db, level);
    var edit := FlushEdit(db, level, bytes);
    if db.imm.value == [] {
      ApplyNothing(db.levels, edit);
      assert Set(ImmSeq(db.imm)) == {};
    } else {
      var t: Table := TableFile(db.nextFile, bytes, db.imm.value);
      ApplyAdd(db.levels, edit, level, t);
      VersionSetAdd(db.levels, level, t);
    }
  }

  lemma FlushTablesTrue(w: World, level: nat, bytes: nat)
    requires Good(w) && Tailed(w) && TablesTrue(w) && CanFlush(w.db, level) && w.db.imm.Some?
    requires |w.db.levels| == NUM_LEVELS
    ensures TablesTrue(w.(db := Flush(w.db, level, bytes)))
  {
    hide Good, CanFlush, SameReads, Apply, VersionSet, StampsBefore;
    FlushTabled(w.db, level, bytes);
    var w' := w.(db := Flush(w.db, level, bytes));
    FlushTailed(w, w');
    TablesFlushed(w);
    var I := Set(ImmSeq(w.db.imm));
    ReadsOver(VersionSet(w.db.levels), Flushed(w), I, w.floor);
    assert I + VersionSet(w.db.levels) == VersionSet(w'.db.levels);
  }

  lemma MoveTabled(db: Db, history: set<Entry>, floor: nat, level: nat, f: Table)
    requires Inv(db, history, floor) && CanMove(db, level, f) && |db.levels| == NUM_LEVELS
    ensures VersionSet(Move(db, level, f).levels) == VersionSet(db.levels)
  {
    hide Inv, CanMove, Apply, ValidVersion, NumbersUnique, NumbersBelow, OrderedLevels, OnDisk, MoveEdit, Rest,
         InsertTable;
    MoveReady(db, history, floor, level, f);
    MoveLevels(db, level, f);
    MoveParts(db, level, f, Move(db, level, f).levels);
  }

  lemma MoveReady(db: Db, history: set<Entry>, floor: nat, level: nat, f: Table)
    requires Inv(db, history, floor) && CanMove(db, level, f)
    ensures |db.levels| == NUM_LEVELS && level + 1 < NUM_LEVELS && ValidVersion(db.levels) && DbOnDisk(db)
    ensures NumbersUnique(db.levels) && NumbersBelow(db.levels, db.nextFile) && OrderedLevels(db.levels)
  {
    hide Truthful, Logged, BatchesWithin, OnDisk, NumbersUnique, OrderedLevels, Newer, Sorted, Replay, SplitFree;
  }

  lemma CrashTablesTrue(w: World, survives: bool, order: seq<nat>, full: seq<Entry> -> bool, sizeOf: seq<Entry> -> nat)
    requires Good(w) && CanCrash(w.db, order)
    ensures TablesTrue(Crash(w, survives, order, full, sizeOf))
  {
    hide Good, Crash, SameReads, Tailed;
    CrashTailed(w, survives, order, full, sizeOf);
    var w' := Crash(w, survives, order, full, sizeOf);
    OnlyTables(w'.db);
    assert Flushed(w') == w'.history;
  }

  lemma StepTablesTrue(w: World, a: Action)
    requires Good(w) && Enabled(w, a) && Tailed(w) && TablesTrue(w) && (w.db.job.Some? ==> Clean(w.db.job.value))
    ensures TablesTrue(Step(w, a))
  {
    hide Inv, Tailed, SameReads, Clean, CanFlush, CanBegin, CanInstall, CanMove, CanCrash, Crash, Apply,
         InsertEntries, Live, BatchEntries, InstallEdit, Flush, MoveEdit, VersionSet;
    match a
    case DoApplyWrite => ApplyTailed(w);
    case DoSwitch => SwitchTailed(w);
    case DoFlush(level, bytes) =>
      FlushSizes(w.db, level);
      FlushTablesTrue(w, level, bytes);
    case DoInstall(outputs) =>
      InstallHasJob(w.db, outputs);
      InstallTabled(w.db, w.history, w.floor, outputs, Flushed(w));
    case DoMove(level, f) =>
      MoveReady(w.db, w.history, w.floor, level, f);
      MoveTabled(w.db, w.history, w.floor, level, f);
    case DoCrash(survives, order, full, sizeOf) => CrashTablesTrue(w, survives, order, full, sizeOf);
    case _ => assert Flushed(Step(w, a)) == Flushed(w);
  }

  lemma FlushSizes(db: Db, level: nat)
    requires CanFlush(db, level)
    ensures db.imm.Some? && |db.levels| == NUM_LEVELS
  {
  }

  lemma InstallHasJob(db: Db, outputs: Level)
    requires CanInstall(db, outputs)
    ensures db.job.Some?
  {
  }

  lemma NewTailed(full: seq<Entry> -> bool, sizeOf: seq<Entry> -> nat)
    ensures Tailed(NewDatabase(full, sizeOf)) && TablesTrue(NewDatabase(full, sizeOf))
  {
    hide Layers, Saved, Logged, BatchesWithin, OnDisk, JobLive, BordersSafe, SameReads, Apply, Replay, RecoverLogs,
         SnapshotEdit;
    NewDatabaseGood(full, sizeOf);
    var w := NewDatabase(full, sizeOf);
    assert w.db.mem == [] && w.db.imm.None?;
    OnlyTables(w.db);
    assert Flushed(w) == w.history;
  }

  /** Over every run of a new database. */
  lemma {:induction false} RunTailed(full: seq<Entry> -> bool, sizeOf: seq<Entry> -> nat, ws: seq<World>, n: nat)
    requires Chain(ws) && ws[0] == NewDatabase(full, sizeOf) && n < |ws|
    ensures Tailed(ws[n])
    ensures (forall i | 0 <= i < n && ws[i].db.job.Some? :: Clean(ws[i].db.job.value)) ==> TablesTrue(ws[n])
  {
    hide Good, Enabled, Step, Tailed, TablesTrue, Clean, NewDatabase;
    NewTailed(full, sizeOf);
    if n > 0 {
      RunTailed(full, sizeOf, ws, n - 1);
      EveryRunIsGood(full, sizeOf, ws, n - 1);
      assert Follows(ws[n - 1], ws[n]);
      var a :| Enabled(ws[n - 1], a) && ws[n] == Step(ws[n - 1], a);
      StepTailed(ws[n - 1], a);
      if forall i | 0 <= i < n && ws[i].db.job.Some? :: Clean(ws[i].db.job.value) {
        StepTablesTrue(ws[n - 1], a);
      }
    }
  }
}
