/** Collecting garbage: at any point of any run, what `DeleteObsoleteFiles` leaves on disk is what someone
    can still open, and no more. */
module Garbage {
  import opened Wrappers
  import opened Entries
  import opened Versions
  import opened Edits
  import opened Engine
  import opened Steps
  import opened CompactionSteps
  import opened Moving
  import opened Recovery
  import opened Reopening
  import opened Runs

  /** Only the running compaction protects tables that belong to no version. */
  ghost predicate OnlyItsOutputs(db: Db) {
    forall n :: n in db.pending <==> db.job.Some? && n in db.job.value.numbers
  }

  lemma StepOutputs(w: World, a: Action)
    requires Good(w) && Enabled(w, a) && OnlyItsOutputs(w.db)
    ensures OnlyItsOutputs(Step(w, a).db)
  {
    hide Inv, Reopen, CanFlush, CanBegin, CanInstall, CanMove, Stored, IsLogList, AtCrash, Apply;
    if a.DoBegin? { NoJobYet(w.db, a.level, a.in0, a.in1); }
    if a.DoCrash? { CrashOutputs(w, a.survives, a.order, a.full, a.sizeOf); }
  }

  lemma NoJobYet(db: Db, level: nat, in0: Level, in1: Level)
    requires CanBegin(db, level, in0, in1)
    ensures db.job.None?
  {
  }

  lemma CrashOutputs(w: World, survives: bool, order: seq<nat>, full: seq<Entry> -> bool, sizeOf: seq<Entry> -> nat)
    requires Good(w) && CanCrash(w.db, order)
    ensures OnlyItsOutputs(Crash(w, survives, order, full, sizeOf).db)
  {
    hide Inv, Stored, IsLogList, AtCrash, RecoverLogs, Replay, MaxInLogs, Apply, TablesPresent;
    CrashKeeps(w, survives, order, full, sizeOf);
  }

  lemma {:induction false} RunOutputs(full: seq<Entry> -> bool, sizeOf: seq<Entry> -> nat, ws: seq<World>, n: nat)
    requires Chain(ws) && ws[0] == NewDatabase(full, sizeOf) && n < |ws|
    ensures OnlyItsOutputs(ws[n].db)
  {
    hide Good, Enabled, Step;
    if n == 0 {
      NewOutputs(full, sizeOf);
    } else {
      RunOutputs(full, sizeOf, ws, n - 1);
      EveryRunIsGood(full, sizeOf, ws, n - 1);
      assert Follows(ws[n - 1], ws[n]);
      var a :| Enabled(ws[n - 1], a) && ws[n] == Step(ws[n - 1], a);
      StepOutputs(ws[n - 1], a);
    }
  }

  lemma NewOutputs(full: seq<Entry> -> bool, sizeOf: seq<Entry> -> nat)
    ensures OnlyItsOutputs(NewDatabase(full, sizeOf).db)
  {
    hide RecoverLogs, Replay, MaxInLogs, Apply, TablesPresent;
  }

  /** The logs that are left are the memtable's and, while one is being written out, that of the other. */
  lemma LogsLeft(db: Db, history: set<Entry>, floor: nat, n: nat)
    requires Inv(db, history, floor)
    ensures n in DeleteObsolete(db).logs <==> n == db.memLog || (db.imm.Some? && n == db.logNumber)
  {
    hide Layers, LastSaved, Saved, Truthful, JobLive, OnDisk, Live, Ascending;
  }

  /** In any state of any run of a new database, exactly these files are left after a collection: the logs of the
      memtables, the tables of the current version, of versions that iterators hold and of the version a
      compaction reads, and its outputs.  At rest, with no iterator, these are the tables of the version. */
  lemma NothingElseIsLeft(full: seq<Entry> -> bool, sizeOf: seq<Entry> -> nat, ws: seq<World>, i: nat, n: nat)
    requires Chain(ws) && ws[0] == NewDatabase(full, sizeOf) && i < |ws|
    ensures var db := ws[i].db;
            var db' := DeleteObsolete(db);
            && (n in db'.logs <==> n == db.memLog || (db.imm.Some? && n == db.logNumber))
            && (n in db'.tables <==>
                || Names(db.levels, n) || (exists v :: v in db.pinned && Names(v, n))
                || (db.job.Some? && (Names(db.job.value.version, n) || n in db.job.value.numbers)))
            && (db.job.None? && db.pinned == [] ==> (n in db'.tables <==> Names(db.levels, n)))
  {
    hide DeleteObsolete, Names, Inv, Chain, NewDatabase;
    EveryRunIsGood(full, sizeOf, ws, i);
    RunOutputs(full, sizeOf, ws, i);
    var w := ws[i];
    LogsLeft(w.db, w.history, w.floor, n);
    DeleteObsoleteIs(w.db, n);
    if InUse(w.db, n) { AllOnDisk(w.db, w.history, w.floor, n); }
  }

  lemma AllOnDisk(db: Db, history: set<Entry>, floor: nat, n: nat)
    requires Inv(db, history, floor) && InUse(db, n)
    ensures n in db.tables
  {
    hide Layers, Logged, LastSaved, Saved, Truthful, JobLive;
  }
}
