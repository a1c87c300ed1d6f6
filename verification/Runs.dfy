/** Every run of the store: any interleaving of its steps, crashes included. */
module Runs {
  import opened Wrappers
  import opened Entries
  import opened Versions
  import opened Edits
  import opened Engine
  import opened Steps
  import opened CompactionSteps
  import opened Installing
  import opened Moving
  import opened Recovery
  import opened Reopening

  /** The store together with what the readers were promised: all writes applied so far, and the
      oldest sequence number still answered faithfully. */
  datatype World = World(db: Db, history: set<Entry>, floor: nat)

  datatype Action =
    | DoLogWrite(ops: seq<Op>)
    | DoApplyWrite
    | DoSwitch
    | DoFlush(level: nat, bytes: nat)
    | DoBegin(level: nat, in0: Level, in1: Level)
    | DoOpenOutput
    | DoInstall(outputs: Level)
    | DoAbandon
    | DoMove(level: nat, table: Table)
    | DoSnapshot
    | DoRelease(i: nat)
    | DoPin
    | DoUnpin(i: nat)
    | DoDeleteObsolete
    | DoCrash(survives: bool, order: seq<nat>, full: seq<Entry> -> bool, sizeOf: seq<Entry> -> nat)

  ghost predicate Good(w: World) {
    Inv(w.db, w.history, w.floor)
  }

  ghost predicate Enabled(w: World, a: Action) {
    match a
    case DoLogWrite(ops) => CanLogWrite(w.db, ops)
    case DoApplyWrite => CanApplyWrite(w.db)
    case DoSwitch => CanSwitch(w.db)
    case DoFlush(level, _) => CanFlush(w.db, level)
    case DoBegin(level, in0, in1) => CanBegin(w.db, level, in0, in1)
    case DoOpenOutput => w.db.job.Some?
    case DoInstall(outputs) => CanInstall(w.db, outputs)
    case DoAbandon => w.db.job.Some?
    case DoMove(level, f) => CanMove(w.db, level, f)
    case DoSnapshot => true
    case DoRelease(i) => CanRelease(w.db, i)
    case DoPin => true
    case DoUnpin(i) => CanUnpin(w.db, i)
    case DoDeleteObsolete => true
    case DoCrash(_, order, _, _) => CanCrash(w.db, order)
  }

  ghost predicate CanCrash(db: Db, order: seq<nat>) {
    IsLogList(order, db.logs, db.logNumber) && (db.inflight.Some? ==> CanDrop(db))
  }

  /** The moment of a crash: a write in flight has reached the log or it has not. */
  ghost function AtCrash(w: World, survives: bool): World
    requires w.db.inflight.Some? ==> CanDrop(w.db)
  {
    if w.db.inflight.None? then w
    else if survives then World(ApplyWrite(w.db), w.history + BatchSet(w.db.inflight), w.floor)
    else w.(db := DropWrite(w.db))
  }

  lemma AtCrashKeeps(w: World, survives: bool)
    requires Good(w)
    ensures w.db.inflight.Some? ==> CanDrop(w.db)
    ensures Good(AtCrash(w, survives)) && AtCrash(w, survives).db.inflight.None?
    ensures survives ==> DiskOf(AtCrash(w, survives).db) == DiskOf(w.db)
    ensures AtCrash(w, survives).db.logNumber == w.db.logNumber
    ensures AtCrash(w, survives).db.logs.Keys == w.db.logs.Keys
  {
    hide Inv;
    if w.db.inflight.Some? {
      DropWriteKeeps(w.db, w.history, w.floor);
      if survives {
        ApplyWriteKeeps(w.db, w.history, w.floor);
      }
    }
  }

  /** Crash, then open the database again. */
  ghost function Crash(w: World, survives: bool, order: seq<nat>,
                       full: seq<Entry> -> bool, sizeOf: seq<Entry> -> nat): World
    requires CanCrash(w.db, order)
  {
    var c := AtCrash(w, survives);
    match Reopen(DiskOf(c.db), order, full, sizeOf)
    case Some(db) => c.(db := db)
    case None => c
  }

  ghost function Step(w: World, a: Action): World
    requires Enabled(w, a)
  {
    match a
    case DoLogWrite(ops) => w.(db := LogWrite(w.db, ops))
    case DoApplyWrite => World(ApplyWrite(w.db), w.history + BatchSet(w.db.inflight), w.floor)
    case DoSwitch => w.(db := Switch(w.db))
    case DoFlush(level, bytes) => w.(db := Flush(w.db, level, bytes))
    case DoBegin(level, in0, in1) => w.(db := Begin(w.db, level, in0, in1))
    case DoOpenOutput => w.(db := OpenOutput(w.db))
    case DoInstall(outputs) => World(Install(w.db, outputs), w.history, Max(w.floor, w.db.job.value.smallest))
    case DoAbandon => w.(db := Abandon(w.db))
    case DoMove(level, f) => w.(db := Move(w.db, level, f))
    case DoSnapshot => w.(db := TakeSnapshot(w.db))
    case DoRelease(i) => w.(db := Release(w.db, i))
    case DoPin => w.(db := Pin(w.db))
    case DoUnpin(i) => w.(db := Unpin(w.db, i))
    case DoDeleteObsolete => w.(db := DeleteObsolete(w.db))
    case DoCrash(survives, order, full, sizeOf) => Crash(w, survives, order, full, sizeOf)
  }

  /** A crash loses nothing that reached the log, and opening the database succeeds. */
  lemma CrashKeeps(w: World, survives: bool, order: seq<nat>, full: seq<Entry> -> bool, sizeOf: seq<Entry> -> nat)
    requires Good(w) && CanCrash(w.db, order)
    ensures var c := AtCrash(w, survives);
            var r := Reopen(DiskOf(c.db), order, full, sizeOf);
            r.Some? && Inv(r.value, c.history, c.floor) && r.value.last == c.db.last && Stored(r.value) == Stored(c.db)
  {
    hide Inv, Reopen, Stored, AtCrash;
    AtCrashKeeps(w, survives);
    var c := AtCrash(w, survives);
    assert forall n :: n in w.db.logs <==> n in c.db.logs;
    assert IsLogList(order, c.db.logs, c.db.logNumber);
    ReopenKeeps(c.db, order, full, sizeOf, c.history, c.floor);
  }

  lemma StepKeeps(w: World, a: Action)
    requires Good(w) && Enabled(w, a)
    ensures Good(Step(w, a))
  {
    hide Inv, Reopen, CanFlush, CanBegin, CanInstall, CanMove, Stored, IsLogList, AtCrash;
    match a
    case DoLogWrite(ops) => LogWriteKeeps(w.db, ops, w.history, w.floor);
    case DoApplyWrite => ApplyWriteKeeps(w.db, w.history, w.floor);
    case DoSwitch => SwitchKeeps(w.db, w.history, w.floor);
    case DoFlush(level, bytes) => FlushKeeps(w.db, level, bytes, w.history, w.floor);
    case DoBegin(level, in0, in1) => BeginKeeps(w.db, level, in0, in1, w.history, w.floor);
    case DoOpenOutput => OpenOutputKeeps(w.db, w.history, w.floor);
    case DoInstall(outputs) => InstallKeeps(w.db, outputs, w.history, w.floor);
    case DoAbandon => AbandonKeeps(w.db, w.history, w.floor);
    case DoMove(level, f) => MoveKeeps(w.db, level, f, w.history, w.floor);
    case DoSnapshot => TakeSnapshotKeeps(w.db, w.history, w.floor);
    case DoRelease(i) => ReleaseKeeps(w.db, i, w.history, w.floor);
    case DoPin => PinKeeps(w.db, w.history, w.floor);
    case DoUnpin(i) => UnpinKeeps(w.db, i, w.history, w.floor);
    case DoDeleteObsolete => DeleteObsoleteKeeps(w.db, w.history, w.floor);
    case DoCrash(survives, order, full, sizeOf) => CrashKeeps(w, survives, order, full, sizeOf);
  }

  ghost predicate Follows(w: World, w': World) {
    exists a :: Enabled(w, a) && w' == Step(w, a)
  }

  /** Each world follows from the one before by an enabled step. */
  ghost predicate Chain(ws: seq<World>) {
    ws != [] && forall i | 0 < i < |ws| :: Follows(ws[i - 1], ws[i])
  }

  ghost predicate IsRun(ws: seq<World>) {
    Chain(ws) && Good(ws[0])
  }

  lemma {:induction false} RunKeeps(ws: seq<World>, n: nat)
    requires IsRun(ws) && n < |ws|
    ensures Good(ws[n])
  {
    hide Good, Enabled, Step;
    if n > 0 {
      RunKeeps(ws, n - 1);
      assert Follows(ws[n - 1], ws[n]);
      var a :| Enabled(ws[n - 1], a) && ws[n] == Step(ws[n - 1], a);
      StepKeeps(ws[n - 1], a);
    }
  }

  // ----- What a reader sees -----

  ghost predicate Readable(db: Db, s: nat) {
    s in db.snapshots || s == db.last
  }

  lemma GoodReads(w: World, k: Key, s: nat, r: Option<Payload>)
    requires Good(w) && Readable(w.db, s)
    ensures Reads(Stored(w.db), k, s, r) <==> Reads(w.history, k, s, r)
  {
  }

  /** Writes made by one step carry sequence numbers above all earlier ones. */
  lemma StepExtendsHistory(w: World, a: Action)
    requires Good(w) && Enabled(w, a)
    ensures w.history <= Step(w, a).history && SeqsAbove(Step(w, a).history - w.history, w.db.last)
    ensures w.db.last <= Step(w, a).db.last
  {
    hide Reopen, CanFlush, CanBegin, CanInstall, CanMove, Stored, IsLogList, Layers, Truthful, Saved, Logged, OnDisk,
         JobLive;
    if w.db.inflight.Some? {
      BatchStamps(w.db.inflight.value);
    }
    if a.DoCrash? {
      CrashKeeps(w, a.survives, a.order, a.full, a.sizeOf);
    }
  }

  lemma {:induction false} RunExtendsHistory(ws: seq<World>, i: nat, j: nat)
    requires IsRun(ws) && i <= j < |ws|
    ensures ws[i].history <= ws[j].history && SeqsAbove(ws[j].history - ws[i].history, ws[i].db.last)
    ensures ws[i].db.last <= ws[j].db.last
    decreases j
  {
    hide Good, Enabled, Step;
    if i < j {
      RunExtendsHistory(ws, i, j - 1);
      RunKeeps(ws, j - 1);
      assert Follows(ws[j - 1], ws[j]);
      var a :| Enabled(ws[j - 1], a) && ws[j] == Step(ws[j - 1], a);
      StepExtendsHistory(ws[j - 1], a);
    }
  }

  lemma LaterWritesInvisible(A: set<Entry>, B: set<Entry>, last: nat, k: Key, s: nat, r: Option<Payload>)
    requires A <= B && SeqsAbove(B - A, last) && s <= last
    ensures Reads(A, k, s, r) <==> Reads(B, k, s, r)
  {
    assert forall e :: Newest(A, k, s, e) <==> Newest(B, k, s, e);
    assert Absent(A, k, s) <==> Absent(B, k, s);
  }

  /** A snapshot and a pinned version end when they are given up, or with the process; nothing else ends them. */
  lemma OnlyReleaseEnds(w: World, a: Action)
    requires Enabled(w, a) && Good(w)
    ensures var w' := Step(w, a);
            match a
            case DoSnapshot => w'.db.snapshots == w.db.snapshots + [w.db.last] && w'.db.pinned == w.db.pinned
            case DoRelease(i) => RemovedAt(w.db.snapshots, i, w'.db.snapshots) && w'.db.pinned == w.db.pinned
            case DoPin => w'.db.pinned == w.db.pinned + [w.db.levels] && w'.db.snapshots == w.db.snapshots
            case DoUnpin(i) => RemovedAt(w.db.pinned, i, w'.db.pinned) && w'.db.snapshots == w.db.snapshots
            case DoCrash(_, _, _, _) => w'.db.snapshots == [] && w'.db.pinned == []
            case _ => w'.db.snapshots == w.db.snapshots && w'.db.pinned == w.db.pinned
  {
    hide Inv, Reopen, CanFlush, CanBegin, CanInstall, CanMove, Stored, IsLogList, AtCrash, Apply;
    if a.DoRelease? { ReleaseRemoves(w.db, a.i); }
    if a.DoUnpin? { ReleaseRemoves(w.db, a.i); }
    if a.DoCrash? { CrashEnds(w, a.survives, a.order, a.full, a.sizeOf); }
  }

  lemma CrashEnds(w: World, survives: bool, order: seq<nat>, full: seq<Entry> -> bool, sizeOf: seq<Entry> -> nat)
    requires Good(w) && CanCrash(w.db, order)
    ensures var db := Crash(w, survives, order, full, sizeOf).db; db.snapshots == [] && db.pinned == []
  {
    hide Inv, Stored, IsLogList, AtCrash, RecoverLogs, Replay, MaxInLogs, Apply, TablesPresent;
    CrashKeeps(w, survives, order, full, sizeOf);
  }

  /** The main theorem: over any run, whatever is flushed, merged, moved, dropped or written in
      between, a snapshot keeps returning what it returned when it was live before. */
  lemma SnapshotNeverChanges(ws: seq<World>, i: nat, j: nat, s: nat, k: Key, r: Option<Payload>)
    requires IsRun(ws) && i <= j < |ws|
    requires Readable(ws[i].db, s) && Readable(ws[j].db, s)
    ensures Reads(Stored(ws[i].db), k, s, r) <==> Reads(Stored(ws[j].db), k, s, r)
  {
    hide Reads, Enabled, Step, Stored, Layers, Saved, Logged, OnDisk, JobLive, SameReads;
    RunKeeps(ws, i);
    RunKeeps(ws, j);
    RunExtendsHistory(ws, i, j);
    GoodReads(ws[i], k, s, r);
    GoodReads(ws[j], k, s, r);
    LaterWritesInvisible(ws[i].history, ws[j].history, ws[i].db.last, k, s, r);
  }

  // ----- A new database -----

  ghost function NewDisk(): Disk {
    Disk(map[], {}, [Edit({}, [], 0, 2, 0)])
  }

  /** `NewDB` followed by `DB::Open`. */
  ghost function NewDatabase(full: seq<Entry> -> bool, sizeOf: seq<Entry> -> nat): World {
    match Reopen(NewDisk(), [], full, sizeOf)
    case Some(db) => World(db, {}, 0)
    case None => World(Db([], None, None, [], [], 0, [], None, {}, 0, 0, 0, map[], {}, []), {}, 0)
  }

  lemma NewDatabaseGood(full: seq<Entry> -> bool, sizeOf: seq<Entry> -> nat)
    ensures Reopen(NewDisk(), [], full, sizeOf).Some? && Good(NewDatabase(full, sizeOf))
  {
    var first := Edit({}, [], 0, 2, 0);
    var empty := EmptyVersion();
    assert [first][..0] == [];
    ApplyNothing(empty, first);
    assert Replay([first]) == empty;
    assert VersionNumbers(empty) == {};
    var edit := Edit({}, At(0, []), 3, 4, 0);
    ApplyNothing(empty, edit);
    var db := Db([], None, None, empty, [], 0, [], None, {}, 3, 3, 4, map[3 := []], {}, [SnapshotEdit(empty), edit]);
    NewDatabaseIs(full, sizeOf, db);
    EmptyInv(db, empty, edit);
  }

  lemma NewDatabaseIs(full: seq<Entry> -> bool, sizeOf: seq<Entry> -> nat, db: Db)
    requires Replay(NewDisk().manifest) == EmptyVersion() && VersionNumbers(EmptyVersion()) == {}
    requires Apply(EmptyVersion(), Edit({}, At(0, []), 3, 4, 0)) == EmptyVersion()
    requires db == Db([], None, None, EmptyVersion(), [], 0, [], None, {}, 3, 3, 4, map[3 := []], {},
                      [SnapshotEdit(EmptyVersion()), Edit({}, At(0, []), 3, 4, 0)])
    ensures Reopen(NewDisk(), [], full, sizeOf) == Some(db)
  {
    hide Apply, Replay, SnapshotEdit, EmptyVersion, VersionNumbers;
    assert {} + Numbers([]) == {};
  }

  ghost predicate NoTables(levels: seq<Level>) {
    |levels| == NUM_LEVELS && forall l | 0 <= l < NUM_LEVELS :: levels[l] == []
  }

  lemma EmptyLayers(empty: seq<Level>)
    requires NoTables(empty)
    ensures VersionSet(empty) == {} && ValidVersion(empty)
    ensures NumbersUnique(empty) && NumbersBelow(empty, 4) && OrderedLevels(empty)
  {
    EmptyVersionValid(empty);
    hide ValidVersion;
    forall e ensures e !in VersionSet(empty) {
      VersionMember(empty, e);
    }
  }

  lemma EmptyVersionValid(empty: seq<Level>)
    requires NoTables(empty)
    ensures ValidVersion(empty)
  {
    hide LevelSet, Sorted;
    assert LevelSet([]) == {} by { NothingThere(); }
  }

  lemma NothingThere()
    ensures LevelSet([]) == {}
  {
  }

  lemma EmptyInv(db: Db, empty: seq<Level>, edit: Edit)
    requires NoTables(empty) && edit == Edit({}, At(0, []), 3, 4, 0) && Apply(empty, edit) == empty
    requires db == Db([], None, None, empty, [], 0, [], None, {}, 3, 3, 4, map[3 := []], {},
                      [SnapshotEdit(empty), edit])
    ensures Inv(db, {}, 0)
  {
    hide ValidVersion, NumbersUnique, OrderedLevels, NumbersBelow, Apply, SnapshotEdit;
    EmptyLayers(empty);
    EmptyTruth();
    assert Stored(db) == {};
    assert LogEntries([]) == [];
    SnapshotReplays(empty);
    ReplayTwo(SnapshotEdit(empty), edit);
  }

  lemma EmptyTruth()
    ensures Set([]) == {} && Truthful({}, {}, 0, 0, [])
  {
  }

  /** From a new database on, every run keeps the invariant at every point. */
  lemma EveryRunIsGood(full: seq<Entry> -> bool, sizeOf: seq<Entry> -> nat, ws: seq<World>, n: nat)
    requires Chain(ws) && ws[0] == NewDatabase(full, sizeOf) && n < |ws|
    ensures Good(ws[n])
  {
    hide Good, Enabled, Step, NewDatabase;
    NewDatabaseGood(full, sizeOf);
    RunKeeps(ws, n);
  }

  /** In every state of every run of a new database, each live snapshot and the latest state read as the
      full history of writes does. */
  lemma ReadsAreTrue(full: seq<Entry> -> bool, sizeOf: seq<Entry> -> nat, ws: seq<World>, n: nat, k: Key, s: nat,
                     r: Option<Payload>)
    requires Chain(ws) && ws[0] == NewDatabase(full, sizeOf) && n < |ws| && Readable(ws[n].db, s)
    ensures Reads(Stored(ws[n].db), k, s, r) <==> Reads(ws[n].history, k, s, r)
  {
    hide Good, Chain, NewDatabase, Reads, Stored, Readable;
    EveryRunIsGood(full, sizeOf, ws, n);
    GoodReads(ws[n], k, s, r);
  }
}
