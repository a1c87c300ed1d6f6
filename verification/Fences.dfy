/** Flushes during a compaction: when a memtable written out meanwhile can end up between the
    compaction's outputs, and why that never happens to a compaction that was picked automatically. */
module Fences {
  import opened Wrappers
  import opened Entries
  import opened Versions
  import opened Selection
  import opened Compactions
  import opened Edits
  import opened Engine
  import opened Steps
  import opened CompactionSteps
  import opened Moving
  import opened Recovery
  import opened Reopening
  import opened Runs

  /** The table lies on one side of all the others. */
  ghost predicate Aside(t: Table, files: Level) {
    || (forall u | u in files :: Largest(t).key < Smallest(u).key)
    || (forall u | u in files :: Largest(u).key < Smallest(t).key)
  }

  lemma SpannedMeets(t: Table, k: Key, lo: Key, hi: Key)
    requires Spans(t, k) && lo <= k <= hi
    ensures Meets(t, Some(lo), Some(hi))
  {
  }

  /** A table that meets none of a gapless list's tables lies on one side of them. */
  lemma GaplessFences(files: Level, t: Table)
    requires Gapless(files) && TablesSorted(files) && Sorted(t.entries)
    requires forall u | u in files :: !Meets(u, Some(Smallest(t).key), Some(Largest(t).key))
    ensures Aside(t, files)
  {
    EntryInRange(t, Smallest(t));
    if !Aside(t, files) {
      var u :| u in files && !(Largest(t).key < Smallest(u).key);
      var v :| v in files && !(Largest(v).key < Smallest(t).key);
      EntryInRange(u, Smallest(u));
      EntryInRange(v, Smallest(v));
      var k := Smallest(t).key;
      assert Between(u, v, k);
      assert Held(files, k);
      var h :| h in files && Spans(h, k);
      SpannedMeets(h, k, k, Largest(t).key);
    }
  }

  /** No flushed table can get between the outputs: the inputs leave no gap, or the outputs go deeper
      than any memtable is put. */
  ghost predicate Walled(job: Job) {
    Gapless(job.in0 + job.in1) || job.level + 1 > MAX_MEM_COMPACT_LEVEL
  }

  /** Tables that reached the output level since the compaction began lie beside its inputs. */
  ghost predicate Fenced(job: Option<Job>, levels: seq<Level>) {
    job.Some? && Walled(job.value)
    && |levels| == |job.value.version| == NUM_LEVELS && job.value.level + 1 < NUM_LEVELS ==>
      forall t | t in levels[job.value.level + 1] && t !in job.value.version[job.value.level + 1] ::
        Aside(t, job.value.in0 + job.value.in1)
  }

  lemma InputsMissed(job: Job, levels: seq<Level>, t: Table, level: nat)
    requires JobChosen(job) && Grown(job.version, levels) && job.level + 1 == level && level < |levels|
    requires FlushLevelOk(levels, t.entries, level)
    ensures forall u | u in job.in0 + job.in1 :: !Meets(u, Some(Smallest(t).key), Some(Largest(t).key))
  {
    hide JobChosen, Grown, SplitFree;
    InputsStillThere(job, levels);
  }

  lemma InputsSorted(job: Job)
    requires JobChosen(job)
    ensures TablesSorted(job.in0 + job.in1)
  {
    hide SplitFree, AgeOrdered;
    assert ValidInputs(job.version, job.level, job.in0, job.in1);
    forall t | t in job.in0 + job.in1 ensures Sorted(t.entries) {
      if t in job.in0 {
        InputSorted(job.version, job.level, t);
      } else {
        InputSorted(job.version, job.level + 1, t);
      }
    }
  }

  lemma FlushFenced(job: Option<Job>, levels: seq<Level>, level: nat, t: Table)
    requires job.Some? ==> JobChosen(job.value) && Grown(job.value.version, levels)
    requires Fenced(job, levels) && FlushLevelOk(levels, t.entries, level) && Sorted(t.entries)
    ensures Fenced(job, levels[level := InsertTable(levels[level], t)])
  {
    hide JobChosen, Grown, InsertTable, Sorted, Gapless, Aside;
    if job.Some? && job.value.level + 1 == level && Walled(job.value) {
      InputsMissed(job.value, levels, t, level);
      InputsSorted(job.value);
      GaplessFences(job.value.in0 + job.value.in1, t);
    }
  }

  lemma FlushStepFenced(db: Db, level: nat, bytes: nat, history: set<Entry>, floor: nat)
    requires Inv(db, history, floor) && CanFlush(db, level) && Fenced(db.job, db.levels)
    ensures Fenced(Flush(db, level, bytes).job, Flush(db, level, bytes).levels)
  {
    hide CanFlush, Fenced, JobChosen, Grown, Logged, LastSaved, BatchesWithin, Truthful, Saved, OnDisk, Apply, Stored;
    CanFlushThere(db, level);
    var edit := FlushEdit(db, level, bytes);
    if db.imm.value == [] {
      ApplyNothing(db.levels, edit);
    } else {
      var t: Table := TableFile(db.nextFile, bytes, db.imm.value);
      ApplyAdd(db.levels, edit, level, t);
      FlushFenced(db.job, db.levels, level, t);
    }
  }

  lemma BeginFenced(db: Db, level: nat, in0: Level, in1: Level)
    ensures Fenced(Begin(db, level, in0, in1).job, Begin(db, level, in0, in1).levels)
  {
  }

  lemma NoJobFenced(levels: seq<Level>)
    ensures Fenced(None, levels)
  {
  }

  lemma OpenFenced(job: Job, numbers: seq<nat>, levels: seq<Level>)
    requires Fenced(Some(job), levels)
    ensures Fenced(Some(job.(numbers := numbers)), levels)
  {
  }

  lemma CrashStops(w: World, survives: bool, order: seq<nat>, full: seq<Entry> -> bool, sizeOf: seq<Entry> -> nat)
    requires Good(w) && CanCrash(w.db, order)
    ensures Crash(w, survives, order, full, sizeOf).db.job.None?
  {
    hide Good, Inv, TablesPresent, Replay, RecoverLogs, MaxInLogs, Apply, SnapshotEdit, Numbers, Stored, AtCrash;
    CrashKeeps(w, survives, order, full, sizeOf);
  }

  lemma StepFenced(w: World, a: Action)
    requires Good(w) && Enabled(w, a) && Fenced(w.db.job, w.db.levels)
    ensures Fenced(Step(w, a).db.job, Step(w, a).db.levels)
  {
    hide Inv, Fenced, CanFlush, CanBegin, CanInstall, CanMove, CanCrash, Crash, Flush, Apply, InsertEntries, Live;
    var w' := Step(w, a);
    match a
    case DoFlush(level, bytes) => FlushStepFenced(w.db, level, bytes, w.history, w.floor);
    case DoBegin(level, in0, in1) => BeginFenced(w.db, level, in0, in1);
    case DoOpenOutput => OpenFenced(w.db.job.value, w'.db.job.value.numbers, w.db.levels);
    case DoInstall(outputs) => NoJobFenced(w'.db.levels);
    case DoAbandon => NoJobFenced(w'.db.levels);
    case DoMove(level, f) => MoveHasNoJob(w.db, level, f);
    case DoCrash(survives, order, full, sizeOf) =>
      CrashStops(w, survives, order, full, sizeOf);
      NoJobFenced(w'.db.levels);
    case _ =>
  }

  lemma MoveHasNoJob(db: Db, level: nat, f: Table)
    requires CanMove(db, level, f)
    ensures Fenced(Move(db, level, f).job, Move(db, level, f).levels)
  {
    NoJobFenced(Move(db, level, f).levels);
  }

  lemma {:induction false} RunFenced(ws: seq<World>, n: nat)
    requires IsRun(ws) && n < |ws| && ws[0].db.job.None?
    ensures Fenced(ws[n].db.job, ws[n].db.levels)
  {
    hide Good, Enabled, Step, Fenced;
    if n == 0 {
      NoJobFenced(ws[0].db.levels);
    } else {
      RunFenced(ws, n - 1);
      RunKeeps(ws, n - 1);
      assert Follows(ws[n - 1], ws[n]);
      var a :| Enabled(ws[n - 1], a) && ws[n] == Step(ws[n - 1], a);
      StepFenced(ws[n - 1], a);
    }
  }

  // ----- Outputs stay clear of it -----

  lemma OutputBetween(job: Job, outputs: Level, o: Table, e: Entry)
    requires JobChosen(job) && Flat(outputs) == JobKept(job) && o in outputs && e in o.entries
    ensures exists u :: u in job.in0 + job.in1 && Smallest(u).key <= e.key <= Largest(u).key
  {
    hide JobChosen, Kept, MergeAll, Sorted;
    FlatMember(outputs, e);
    JobInputSorted(job);
    var xs := JobInput(job);
    KeptFrom(xs, |xs|, job.smallest, job.version, job.level);
    assert xs[..|xs|] == xs;
    assert e in InputSet(job);
    InputsSorted(job);
    var u :| u in job.in0 + job.in1 && e in u.entries;
    EntryInRange(u, e);
  }

  lemma AsideIsClear(job: Job, outputs: Level, o: Table, t: Table)
    requires JobChosen(job) && Flat(outputs) == JobKept(job) && o in outputs && Aside(t, job.in0 + job.in1)
    ensures Clear(o, t)
  {
    hide JobChosen, JobKept, Flat;
    OutputBetween(job, outputs, o, Smallest(o));
    OutputBetween(job, outputs, o, Largest(o));
    var u :| u in job.in0 + job.in1 && Smallest(u).key <= Smallest(o).key <= Largest(u).key;
    var v :| v in job.in0 + job.in1 && Smallest(v).key <= Largest(o).key <= Largest(v).key;
  }

  lemma FencedInstalls(db: Db, outputs: Level, history: set<Entry>, floor: nat)
    requires Inv(db, history, floor) && db.job.Some? && Fenced(db.job, db.levels)
    requires Walled(db.job.value)
    requires Flat(outputs) == JobKept(db.job.value) && |outputs| == |db.job.value.numbers|
    requires forall i | 0 <= i < |outputs| :: outputs[i].number == db.job.value.numbers[i]
    ensures CanInstall(db, outputs)
  {
    hide Flat, JobKept, JobChosen, Gapless, Clear, Layers, Logged, LastSaved, BatchesWithin, Truthful, Saved, OnDisk,
         Aside;
    var job, levels := db.job.value, db.levels;
    ChosenSizes(job);
    forall o, t | o in outputs && t in levels[job.level + 1] && t !in job.version[job.level + 1] ensures Clear(o, t) {
      AsideIsClear(job, outputs, o, t);
    }
  }

  /** Over any run: the results of a compaction whose inputs have no gap, or whose outputs go below the
      deepest level of a flush, can always be installed, whatever was flushed while it was running. */
  lemma WalledAlwaysInstalls(ws: seq<World>, n: nat, outputs: Level)
    requires IsRun(ws) && n < |ws| && ws[0].db.job.None? && ws[n].db.job.Some?
    requires Walled(ws[n].db.job.value)
    requires Flat(outputs) == JobKept(ws[n].db.job.value) && |outputs| == |ws[n].db.job.value.numbers|
    requires forall i | 0 <= i < |outputs| :: outputs[i].number == ws[n].db.job.value.numbers[i]
    ensures CanInstall(ws[n].db, outputs)
  {
    hide Flat, JobKept, IsRun, Gapless, Inv, Fenced;
    RunFenced(ws, n);
    RunKeeps(ws, n);
    FencedInstalls(ws[n].db, outputs, ws[n].history, ws[n].floor);
  }

  lemma ChosenSizes(job: Job)
    requires JobChosen(job)
    ensures job.level + 1 < NUM_LEVELS && |job.version| == NUM_LEVELS
  {
  }
}
