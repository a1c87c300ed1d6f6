/** The manifests of running databases: no file number is ever added twice to one level, so one
    builder over the manifest always finds the current version. */
module ManifestRuns {
  import opened Wrappers
  import opened Entries
  import opened Versions
  import opened Compactions
  import opened Edits
  import opened Engine
  import opened Steps
  import opened CompactionSteps
  import opened Installing
  import opened Moving
  import opened Recovery
  import opened Reopening
  import opened Runs
  import opened Manifest

  /** Numbers ever added to a level. */
  ghost function Added(manifest: seq<Edit>, l: nat): set<nat> {
    if manifest == [] then {}
    else Added(manifest[..|manifest| - 1], l) + Numbers(AddedAt(manifest[|manifest| - 1].added, l))
  }

  lemma {:induction false} FedNumbers(manifest: seq<Edit>, l: nat)
    ensures forall t | t in FedAll(manifest, l).added :: t.number in Added(manifest, l)
  {
    if manifest != [] {
      hide InsertAll, AddedAt;
      FedNumbers(manifest[..|manifest| - 1], l);
    }
  }

  lemma FreshMore(manifest: seq<Edit>, e: Edit, l: nat)
    requires FreshAdds([], manifest, l) && DistinctNumbers(AddedAt(e.added, l))
    requires forall t | t in AddedAt(e.added, l) :: t.number !in Added(manifest, l)
    ensures FreshAdds([], manifest + [e], l)
    ensures Added(manifest + [e], l) == Added(manifest, l) + Numbers(AddedAt(e.added, l))
  {
    hide AddedAt, DistinctNumbers, FedAll;
    assert (manifest + [e])[..|manifest|] == manifest;
    FedNumbers(manifest, l);
  }

  // ----- What is kept -----

  ghost predicate AllFresh(manifest: seq<Edit>) {
    forall l | 0 <= l < NUM_LEVELS :: FreshAdds([], manifest, l)
  }

  ghost predicate LevelsInRange(manifest: seq<Edit>) {
    forall e, i | e in manifest && 0 <= i < |e.added| :: e.added[i].0 < NUM_LEVELS
  }

  ghost predicate AddedBelow(manifest: seq<Edit>, bound: nat) {
    forall l: nat, n | n in Added(manifest, l) :: n < bound
  }

  ghost predicate Unused(numbers: seq<nat>, manifest: seq<Edit>) {
    forall l: nat, n | n in Added(manifest, l) :: n !in numbers
  }

  /** A table has never been at a deeper level than it is now. */
  ghost predicate NeverDeeper(levels: seq<Level>, manifest: seq<Edit>) {
    forall l: nat, m: nat, t | l < m && l < |levels| && t in levels[l] :: t.number !in Added(manifest, m)
  }

  ghost predicate Numbered(levels: seq<Level>, manifest: seq<Edit>, numbers: seq<nat>, nextFile: nat) {
    && AllFresh(manifest) && LevelsInRange(manifest) && AddedBelow(manifest, nextFile)
    && Unused(numbers, manifest) && NeverDeeper(levels, manifest)
  }

  ghost function Outputs(job: Option<Job>): seq<nat> {
    if job.Some? then job.value.numbers else []
  }

  ghost predicate DbNumbered(db: Db) {
    Numbered(db.levels, db.manifest, Outputs(db.job), db.nextFile)
  }

  /** An edit that adds tables to one level only. */
  ghost predicate AddsOnly(e: Edit, level: nat, ts: Level) {
    && level < NUM_LEVELS && |e.added| == |ts|
    && forall i | 0 <= i < |ts| :: e.added[i] == (level, ts[i])
  }

  lemma AddsOnlyAt(e: Edit, level: nat, ts: Level, l: nat)
    requires AddsOnly(e, level, ts)
    ensures AddedAt(e.added, l) == if l == level then ts else []
  {
    if l == level { AddedAtOne(e.added, level, ts); } else { AddedNowhere(e.added, level, l); }
  }

  lemma {:induction false} AddedNowhere(added: seq<(nat, Table)>, level: nat, l: nat)
    requires l != level && forall i | 0 <= i < |added| :: added[i].0 == level
    ensures AddedAt(added, l) == []
  {
    if added != [] { AddedNowhere(added[..|added| - 1], level, l); }
  }

  lemma AddedAfter(manifest: seq<Edit>, e: Edit, level: nat, ts: Level, l: nat)
    requires AddsOnly(e, level, ts)
    ensures Added(manifest + [e], l) == Added(manifest, l) + if l == level then Numbers(ts) else {}
  {
    AddsOnlyAt(e, level, ts, l);
    assert (manifest + [e])[..|manifest|] == manifest;
    assert Numbers([]) == {};
  }

  /** Tables with numbers that are new to their level and to those below. */
  ghost predicate NewHere(ts: Level, level: nat, manifest: seq<Edit>, bound: nat) {
    && DistinctNumbers(ts)
    && (forall t | t in ts :: t.number < bound)
    && (forall t, m: nat | t in ts && level <= m :: t.number !in Added(manifest, m))
  }

  lemma FreshAfter(manifest: seq<Edit>, e: Edit, level: nat, ts: Level, bound: nat)
    requires AllFresh(manifest) && LevelsInRange(manifest) && AddsOnly(e, level, ts)
             && NewHere(ts, level, manifest, bound)
    ensures AllFresh(manifest + [e]) && LevelsInRange(manifest + [e])
  {
    hide FreshAdds, AddedAt;
    forall l | 0 <= l < NUM_LEVELS ensures FreshAdds([], manifest + [e], l) {
      AddsOnlyAt(e, level, ts, l);
      FreshMore(manifest, e, l);
    }
  }

  lemma BelowAfter(manifest: seq<Edit>, e: Edit, level: nat, ts: Level, bound: nat, bound': nat, numbers: seq<nat>)
    requires AddsOnly(e, level, ts) && NewHere(ts, level, manifest, bound') && bound <= bound'
    requires AddedBelow(manifest, bound) && Unused(numbers, manifest) && forall t | t in ts :: t.number !in numbers
    ensures AddedBelow(manifest + [e], bound') && Unused(numbers, manifest + [e])
  {
    hide AddsOnly, Added;
    var after := manifest + [e];
    forall l: nat, n | n in Added(after, l) ensures n < bound' {
      AddedAfter(manifest, e, level, ts, l);
    }
    forall l: nat, n | n in Added(after, l) ensures n !in numbers {
      AddedAfter(manifest, e, level, ts, l);
    }
  }

  lemma DeeperAfter(manifest: seq<Edit>, e: Edit, level: nat, ts: Level, bound: nat, levels: seq<Level>,
                    levels': seq<Level>)
    requires AddsOnly(e, level, ts) && NewHere(ts, level, manifest, bound) && NeverDeeper(levels, manifest)
    requires |levels| == |levels'| && AddsAt(levels, levels', level, ts)
    requires forall l: nat, t | l < level && l < |levels'| && t in levels'[l] :: t.number !in Numbers(ts)
    ensures NeverDeeper(levels', manifest + [e])
  {
    hide AddsOnly, Added;
    forall l: nat, m: nat, t | l < m && l < |levels'| && t in levels'[l] ensures t.number !in Added(manifest + [e], m) {
      AddedAfter(manifest, e, level, ts, m);
      assert t in levels[l] || (l == level && t in ts);
    }
  }

  lemma AppliedAddsAt(levels: seq<Level>, e: Edit, level: nat, ts: Level)
    requires AddsOnly(e, level, ts) && |levels| == NUM_LEVELS
    ensures AddsAt(levels, Apply(levels, e), level, ts)
    ensures forall t | t in ts :: t in Apply(levels, e)[level]
  {
    forall l | 0 <= l < NUM_LEVELS ensures AddedAt(e.added, l) == if l == level then ts else [] {
      AddsOnlyAt(e, level, ts, l);
    }
  }

  /** A logged edit that adds new numbers keeps everything, whichever step logs it. */
  lemma EditNumbered(db: Db, db': Db, e: Edit, level: nat, ts: Level)
    requires DbNumbered(db) && AddsOnly(e, level, ts) && DistinctNumbers(ts) && |db.levels| == NUM_LEVELS
    requires db'.levels == Apply(db.levels, e) && db'.manifest == db.manifest + [e] && db.nextFile <= db'.nextFile
    requires NumbersUnique(db'.levels) && NumbersBelow(db'.levels, db'.nextFile)
    requires forall t, m: nat | t in ts && level <= m :: t.number !in Added(db.manifest, m)
    requires forall n | n in Outputs(db'.job) :: n in Outputs(db.job)
    requires forall t | t in ts :: t.number !in Outputs(db'.job)
    ensures DbNumbered(db')
  {
    hide AllFresh, LevelsInRange, AddedBelow, NeverDeeper, AddsOnly, Apply;
    AppliedAddsAt(db.levels, e, level, ts);
    assert NewHere(ts, level, db.manifest, db'.nextFile);
    FreshAfter(db.manifest, e, level, ts, db'.nextFile);
    forall l: nat, t | l < level && l < |db'.levels| && t in db'.levels[l] ensures t.number !in Numbers(ts) {
      OtherNumbers(db'.levels, level, ts, l, t);
    }
    BelowAfter(db.manifest, e, level, ts, db.nextFile, db'.nextFile, Outputs(db'.job));
    DeeperAfter(db.manifest, e, level, ts, db'.nextFile, db.levels, db'.levels);
  }

  lemma OtherNumbers(levels: seq<Level>, level: nat, ts: Level, l: nat, t: Table)
    requires NumbersUnique(levels) && l < level < |levels| && t in levels[l]
    requires forall u | u in ts :: u in levels[level]
    ensures t.number !in Numbers(ts)
  {
  }

  // ----- Every step keeps it -----

  lemma Facts(db: Db, history: set<Entry>, floor: nat)
    requires Inv(db, history, floor)
    ensures |db.levels| == NUM_LEVELS && NumbersUnique(db.levels) && NumbersBelow(db.levels, db.nextFile)
    ensures OrderedLevels(db.levels) && Replay(db.manifest) == db.levels
    ensures forall n | n in db.pending :: n < db.nextFile
    ensures db.job.Some? ==> OutputNumbers(db.job.value.numbers, db.pending)
  {
    hide Layers, Truthful, Logged, LastSaved, BatchesWithin, Replay, NumbersUnique, OrderedLevels, JobChosen, Grown,
         OutputNumbers;
    FlushReadyLevels(db.mem, db.imm, db.levels);
  }

  lemma FlushReadyLevels(mem: seq<Entry>, imm: Option<seq<Entry>>, levels: seq<Level>)
    requires Layers(mem, imm, levels)
    ensures |levels| == NUM_LEVELS
  {
  }

  lemma FlushNumbered(db: Db, level: nat, bytes: nat, history: set<Entry>, floor: nat)
    requires Inv(db, history, floor) && CanFlush(db, level) && DbNumbered(db)
    ensures DbNumbered(Flush(db, level, bytes))
  {
    hide Inv, DbNumbered, Apply, NumbersUnique, NumbersBelow, OrderedLevels, Replay;
    var db' := Flush(db, level, bytes);
    FlushKeeps(db, level, bytes, history, floor);
    Facts(db, history, floor);
    Facts(db', history, floor);
    var ts: Level := if db.imm.value == [] then [] else [TableFile(db.nextFile, bytes, db.imm.value)];
    BelowIsUnused(db, db.nextFile);
    EditNumbered(db, db', FlushEdit(db, level, bytes), level, ts);
  }

  lemma BelowIsUnused(db: Db, n: nat)
    requires DbNumbered(db) && db.nextFile <= n
    ensures forall m: nat :: n !in Added(db.manifest, m)
  {
  }

  lemma InstallNumbered(db: Db, outputs: Level, history: set<Entry>, floor: nat)
    requires Inv(db, history, floor) && CanInstall(db, outputs) && DbNumbered(db)
    ensures DbNumbered(Install(db, outputs))
  {
    hide Inv, DbNumbered, Apply, NumbersUnique, NumbersBelow, OrderedLevels, Replay, Flat, JobKept;
    var db' := Install(db, outputs);
    InstallKeeps(db, outputs, history, floor);
    Facts(db, history, floor);
    Facts(db', history, Max(floor, db.job.value.smallest));
    OutputsUnused(db, outputs);
    EditNumbered(db, db', InstallEdit(db, outputs), db.job.value.level + 1, outputs);
  }

  lemma OutputsUnused(db: Db, outputs: Level)
    requires DbNumbered(db) && db.job.Some? && |outputs| == |db.job.value.numbers|
    requires OutputNumbers(db.job.value.numbers, db.pending)
    requires forall i | 0 <= i < |outputs| :: outputs[i].number == db.job.value.numbers[i]
    ensures DistinctNumbers(outputs)
    ensures forall t, m: nat | t in outputs :: t.number !in Added(db.manifest, m)
  {
    forall t, m: nat | t in outputs ensures t.number !in Added(db.manifest, m) {
      var i :| 0 <= i < |outputs| && outputs[i] == t;
      assert db.job.value.numbers[i] in Outputs(db.job);
    }
  }

  lemma MoveNumbered(db: Db, level: nat, f: Table, history: set<Entry>, floor: nat)
    requires Inv(db, history, floor) && CanMove(db, level, f) && DbNumbered(db)
    ensures DbNumbered(Move(db, level, f))
  {
    hide Inv, DbNumbered, Apply, NumbersUnique, NumbersBelow, OrderedLevels, Replay;
    var db' := Move(db, level, f);
    MoveKeeps(db, level, f, history, floor);
    Facts(db, history, floor);
    Facts(db', history, floor);
    MovedIsNew(db, level, f);
    EditNumbered(db, db', MoveEdit(db, level, f), level + 1, [f]);
  }

  lemma MovedIsNew(db: Db, level: nat, f: Table)
    requires DbNumbered(db) && level < |db.levels| && f in db.levels[level]
    ensures forall m: nat | level + 1 <= m :: f.number !in Added(db.manifest, m)
  {
  }

  // ----- Reopening starts a new manifest -----

  lemma OrderedIsDistinct(files: Level, levels: seq<Level>, l: nat)
    requires NumbersUnique(levels) && l < |levels| && files == levels[l] && OrderedLevel(files)
    ensures DistinctNumbers(files)
  {
    forall i, j | 0 <= i < j < |files| ensures files[i].number != files[j].number {
      assert files[i] in levels[l] && files[j] in levels[l];
      assert BySmallest(files[i], files[j]);
    }
  }

  lemma SnapshotAdded(base: seq<Level>, l: nat)
    requires |base| == NUM_LEVELS
    ensures AddedAt(SnapshotEdit(base).added, l) == if l < NUM_LEVELS then base[l] else []
    ensures Added([SnapshotEdit(base)], l) == Numbers(AddedAt(SnapshotEdit(base).added, l))
  {
    hide AllFiles, AddedAt;
    AddedAtAll(base, |base|, l);
    var s := [SnapshotEdit(base)];
    assert s[..0] == [] && Added(s[..0], l) == {};
  }

  lemma {:induction false} SnapshotInRange(levels: seq<Level>, n: nat)
    requires n <= |levels| <= NUM_LEVELS
    ensures forall i | 0 <= i < |AllFiles(levels, n)| :: AllFiles(levels, n)[i].0 < NUM_LEVELS
  {
    if n > 0 { SnapshotInRange(levels, n - 1); }
  }

  lemma SnapshotFresh(base: seq<Level>)
    requires |base| == NUM_LEVELS && NumbersUnique(base) && OrderedLevels(base)
    ensures AllFresh([SnapshotEdit(base)]) && LevelsInRange([SnapshotEdit(base)])
  {
    hide AllFiles, OrderedLevel, FreshAdds, AddedAt, SnapshotEdit, NumbersUnique;
    var e := SnapshotEdit(base);
    forall l | 0 <= l < NUM_LEVELS ensures FreshAdds([], [e], l) {
      SnapshotAdded(base, l);
      OrderedIsDistinct(base[l], base, l);
      NothingYet(l);
      FreshMore([], e, l);
      assert [] + [e] == [e];
    }
    SnapshotRange(base);
  }

  lemma SnapshotRange(base: seq<Level>)
    requires |base| == NUM_LEVELS
    ensures LevelsInRange([SnapshotEdit(base)])
  {
    SnapshotInRange(base, |base|);
  }

  lemma NothingYet(l: nat)
    ensures FreshAdds([], [], l) && Added([], l) == {}
  {
  }

  lemma SnapshotNumbered(base: seq<Level>, bound: nat)
    requires |base| == NUM_LEVELS && NumbersUnique(base) && NumbersBelow(base, bound) && OrderedLevels(base)
    ensures Numbered(base, [SnapshotEdit(base)], [], bound)
  {
    hide AllFiles, OrderedLevel, FreshAdds, AddedAt, SnapshotEdit, Added;
    SnapshotFresh(base);
    var s := [SnapshotEdit(base)];
    forall l: nat, n | n in Added(s, l) ensures n < bound {
      SnapshotAdded(base, l);
      assert l < NUM_LEVELS;
    }
    forall l: nat, m: nat, t | l < m && l < |base| && t in base[l] ensures t.number !in Added(s, m) {
      SnapshotAdded(base, m);
    }
  }

  lemma ReopenedNumbered(db: Db, ts: Level, from: nat, newLog: nat, edit: Edit, db': Db)
    requires |db.levels| == NUM_LEVELS && NumbersUnique(db.levels) && NumbersBelow(db.levels, from)
             && OrderedLevels(db.levels)
    requires ReopenedFrom(db, ts, newLog, edit, db') && Replayed(ts, from, newLog)
    requires NumbersUnique(db'.levels) && NumbersBelow(db'.levels, db'.nextFile)
    ensures DbNumbered(db')
  {
    hide OrderedLevels, NumbersUnique, Apply, Numbered, SnapshotEdit, At, Numbers;
    SnapshotNumbered(db.levels, from);
    var mid := db.(manifest := [SnapshotEdit(db.levels)], job := None, nextFile := from);
    ReplayedIsNew(ts, from, newLog, mid);
    assert [SnapshotEdit(db.levels), edit] == mid.manifest + [edit];
    AddsAtZero(edit, ts);
    EditNumbered(mid, db', edit, 0, ts);
  }

  lemma AddsAtZero(edit: Edit, ts: Level)
    requires edit.added == At(0, ts)
    ensures AddsOnly(edit, 0, ts)
  {
  }

  lemma ReplayedIsNew(ts: Level, from: nat, newLog: nat, mid: Db)
    requires Replayed(ts, from, newLog) && DbNumbered(mid) && mid.nextFile == from
    ensures DistinctNumbers(ts) && from <= newLog
    ensures forall t, m: nat | t in ts :: t.number !in Added(mid.manifest, m)
  {
    forall t, m: nat | t in ts ensures t.number !in Added(mid.manifest, m) {
      var i :| 0 <= i < |ts| && ts[i] == t;
    }
  }

  lemma ReopenNumbered(db: Db, order: seq<nat>, full: seq<Entry> -> bool, sizeOf: seq<Entry> -> nat,
                       history: set<Entry>, floor: nat)
    requires Inv(db, history, floor) && db.inflight.None? && IsLogList(order, db.logs, db.logNumber)
    ensures Reopen(DiskOf(db), order, full, sizeOf).Some? && DbNumbered(Reopen(DiskOf(db), order, full, sizeOf).value)
  {
    hide Inv, IsLogList, NumbersUnique, NumbersBelow, OrderedLevels, Replayed, Reopen, ReopenedFrom, DbNumbered, Replay,
         Stored, LevelSet, Set;
    var ts, saved, newLog, edit := ReopenShape(db, order, full, sizeOf, history, floor);
    ReopenKeeps(db, order, full, sizeOf, history, floor);
    var db' := Reopen(DiskOf(db), order, full, sizeOf).value;
    Facts(db, history, floor);
    Facts(db', history, floor);
    SavedBelow(db, history, floor);
    NumbersBelowGrows(db.levels, saved, saved + 1);
    ReopenedNumbered(db, ts, saved + 1, newLog, edit, db');
  }

  lemma SavedBelow(db: Db, history: set<Entry>, floor: nat)
    requires Inv(db, history, floor)
    ensures db.manifest != [] && NumbersBelow(db.levels, db.manifest[|db.manifest| - 1].nextFile)
  {
    hide Layers, Truthful, Logged, LastSaved, BatchesWithin, Replay, NumbersUnique, OrderedLevels, JobLive, OnDisk;
  }

  // ----- Runs -----

  lemma QuietNumbered(db: Db, db': Db)
    requires DbNumbered(db) && db'.levels == db.levels && db'.manifest == db.manifest && db.nextFile <= db'.nextFile
    requires forall n | n in Outputs(db'.job) :: n in Outputs(db.job) || n >= db.nextFile
    ensures DbNumbered(db')
  {
    hide AllFresh, LevelsInRange, NeverDeeper;
  }

  lemma StepNumbered(w: World, a: Action)
    requires Good(w) && Enabled(w, a) && DbNumbered(w.db)
    ensures DbNumbered(Step(w, a).db)
  {
    hide Inv, DbNumbered, CanFlush, CanBegin, CanInstall, CanMove, CanCrash, Crash, Flush, Install, Move,
         InsertEntries, Live;
    match a
    case DoFlush(level, bytes) => FlushNumbered(w.db, level, bytes, w.history, w.floor);
    case DoInstall(outputs) => InstallNumbered(w.db, outputs, w.history, w.floor);
    case DoMove(level, f) => MoveNumbered(w.db, level, f, w.history, w.floor);
    case DoCrash(survives, order, full, sizeOf) => CrashNumbered(w, survives, order, full, sizeOf);
    case _ => QuietNumbered(w.db, Step(w, a).db);
  }

  lemma CrashNumbered(w: World, survives: bool, order: seq<nat>, full: seq<Entry> -> bool, sizeOf: seq<Entry> -> nat)
    requires Good(w) && CanCrash(w.db, order)
    ensures DbNumbered(Crash(w, survives, order, full, sizeOf).db)
  {
    hide Inv, Reopen, Stored, AtCrash, DbNumbered;
    AtCrashKeeps(w, survives);
    var c := AtCrash(w, survives);
    assert forall n :: n in w.db.logs <==> n in c.db.logs;
    assert IsLogList(order, c.db.logs, c.db.logNumber);
    ReopenNumbered(c.db, order, full, sizeOf, c.history, c.floor);
  }

  lemma {:induction false} RunNumbered(ws: seq<World>, n: nat)
    requires IsRun(ws) && n < |ws| && DbNumbered(ws[0].db)
    ensures DbNumbered(ws[n].db)
  {
    hide Good, Enabled, Step, DbNumbered;
    if n > 0 {
      RunNumbered(ws, n - 1);
      RunKeeps(ws, n - 1);
      assert Follows(ws[n - 1], ws[n]);
      var a :| Enabled(ws[n - 1], a) && ws[n] == Step(ws[n - 1], a);
      StepNumbered(ws[n - 1], a);
    }
  }

  lemma NewNumbered(full: seq<Entry> -> bool, sizeOf: seq<Entry> -> nat)
    ensures DbNumbered(NewDatabase(full, sizeOf).db)
  {
    var first := Edit({}, [], 0, 2, 0);
    var empty, edit := EmptyVersion(), Edit({}, At(0, []), 3, 4, 0);
    assert [first][..0] == [];
    ApplyNothing(empty, first);
    assert Replay([first]) == empty;
    assert VersionNumbers(empty) == {};
    ApplyNothing(empty, edit);
    var db := Db([], None, None, empty, [], 0, [], None, {}, 3, 3, 4, map[3 := []], {}, [SnapshotEdit(empty), edit]);
    NewDatabaseIs(full, sizeOf, db);
    EmptyNumbered(empty, edit, db);
  }

  lemma EmptyNumbered(empty: seq<Level>, edit: Edit, db: Db)
    requires NoTables(empty) && edit == Edit({}, At(0, []), 3, 4, 0) && Apply(empty, edit) == empty
    requires db == Db([], None, None, empty, [], 0, [], None, {}, 3, 3, 4, map[3 := []], {},
                      [SnapshotEdit(empty), edit])
    ensures DbNumbered(db)
  {
    hide NumbersUnique, NumbersBelow, OrderedLevels, Apply, SnapshotEdit, DbNumbered, ValidVersion;
    EmptyLayers(empty);
    EmptyBelow(empty);
    var disk := Db([], None, None, empty, [], 0, [], None, {}, 0, 0, 2, map[], {}, []);
    assert {} + Numbers([]) == {};
    ReopenedNumbered(disk, [], 3, 3, edit, db);
  }

  lemma EmptyBelow(empty: seq<Level>)
    requires NoTables(empty)
    ensures NumbersBelow(empty, 3)
  {
  }

  /** At any point of any run from a new database on, `VersionSet::Recover` over the manifest finds the
      current version. */
  method RecoverAnywhere(manifest: seq<Edit>, ghost ws: seq<World>, ghost n: nat,
                         ghost full: seq<Entry> -> bool, ghost sizeOf: seq<Entry> -> nat) returns (v: seq<Level>)
    requires Chain(ws) && ws[0] == NewDatabase(full, sizeOf) && n < |ws| && manifest == ws[n].db.manifest
    ensures v == ws[n].db.levels
  {
    hide Chain, Inv, FreshAdds, Replay, NewDatabase;
    NewDatabaseGood(full, sizeOf);
    NewNumbered(full, sizeOf);
    RunNumbered(ws, n);
    RunKeeps(ws, n);
    Facts(ws[n].db, ws[n].history, ws[n].floor);
    v := RecoverVersion(manifest);
  }
}
