/** The database object: its methods, their effect on the stored state, and what a caller of
    `Write`, `Get` and `GetSnapshot` is promised. */
module DbImpl {
  import opened Wrappers
  import opened Entries
  import opened Versions
  import opened Selection
  import opened Compactions
  import opened Edits
  import opened Engine
  import opened Steps
  import opened CompactionSteps
  import opened Installing
  import opened Moving
  import opened Fences

  // ----- Opening several outputs at once -----

  function OpenOutputs(db: Db, n: nat): (r: Db)
    requires db.job.Some?
    ensures r.job.Some?
  {
    if n == 0 then db else OpenOutput(OpenOutputs(db, n - 1))
  }

  lemma {:induction false} OpenOutputsFields(db: Db, n: nat)
    requires db.job.Some? && db.job.value.numbers == []
    ensures var r := OpenOutputs(db, n);
            && r.levels == db.levels && r.last == db.last && r.nextFile == db.nextFile + n
            && r.job.value == db.job.value.(numbers := r.job.value.numbers)
            && |r.job.value.numbers| == n
            && forall i | 0 <= i < n :: r.job.value.numbers[i] == db.nextFile + i
  {
    if n > 0 {
      OpenOutputsFields(db, n - 1);
    }
  }

  // ----- What the invariant gives each operation -----

  lemma WriteReady(db: Db, ops: seq<Op>, history: set<Entry>, floor: nat)
    requires Inv(db, history, floor) && db.inflight.None? && db.last + |ops| + 1 < MAX_SEQUENCE
    ensures CanLogWrite(db, ops)
  {
  }

  lemma WriteKeeps(db: Db, ops: seq<Op>, history: set<Entry>, floor: nat)
    requires Inv(db, history, floor) && CanLogWrite(db, ops)
    ensures Inv(ApplyWrite(LogWrite(db, ops)), history + Set(BatchEntries(BatchRecord(db.last + 1, ops))), floor)
  {
    hide Inv;
    LogWriteKeeps(db, ops, history, floor);
    ApplyWriteKeeps(LogWrite(db, ops), history, floor);
  }

  lemma FlushReady(db: Db, history: set<Entry>, floor: nat)
    requires Inv(db, history, floor) && db.imm.Some?
    ensures ValidVersion(db.levels) && |db.levels| == NUM_LEVELS
    ensures db.imm.value != [] ==> db.imm.value[0].key <= db.imm.value[|db.imm.value| - 1].key
  {
    if |db.imm.value| > 1 {
      assert Before(db.imm.value[0], db.imm.value[|db.imm.value| - 1]);
    }
  }

  lemma StartReady(db: Db, history: set<Entry>, floor: nat)
    requires Inv(db, history, floor)
    ensures ValidVersion(db.levels) && |db.levels| == NUM_LEVELS
  {
  }

  lemma FinishReady(db: Db, history: set<Entry>, floor: nat)
    requires Inv(db, history, floor) && db.job.Some?
    ensures JobChosen(db.job.value) && ValidVersion(db.job.value.version) && db.job.value.level + 1 < NUM_LEVELS
    ensures |db.levels| == |db.job.value.version| == NUM_LEVELS
    ensures db.job.value.smallest <= db.last < MAX_SEQUENCE
  {
  }

  lemma WriteResult(db: Db, ops: seq<Op>)
    requires CanLogWrite(db, ops)
    ensures var b: Batch := BatchRecord(db.last + 1, ops);
            ApplyWrite(LogWrite(db, ops)) ==
            Db(InsertEntries(db.mem, BatchEntries(b)), db.imm, db.inflight, db.levels, db.snapshots, db.last + |ops|,
               db.pinned, db.job, db.pending, db.logNumber, db.memLog, db.nextFile,
               db.logs[db.memLog := db.logs[db.memLog] + [b]], db.tables, db.manifest)
  {
  }

  lemma FlushResult(db: Db, level: nat, bytes: nat)
    requires CanFlush(db, level)
    ensures |db.levels| == NUM_LEVELS
    ensures var edit := FlushEdit(db, level, bytes);
            Flush(db, level, bytes) ==
            Db(db.mem, None, db.inflight, Apply(db.levels, edit), db.snapshots, db.last,
               db.pinned, db.job, db.pending, db.memLog, db.memLog, db.nextFile + 1, db.logs,
               if db.imm.value == [] then db.tables else db.tables + {db.nextFile}, db.manifest + [edit])
  {
  }

  lemma MoveResult(db: Db, level: nat, f: Table)
    requires CanMove(db, level, f)
    ensures |db.levels| == NUM_LEVELS
    ensures var edit := MoveEdit(db, level, f);
            Move(db, level, f) == db.(levels := Apply(db.levels, edit), manifest := db.manifest + [edit])
  {
  }

  lemma MoveChanges(db: Db, level: nat, f: Table, history: set<Entry>, floor: nat)
    requires Inv(db, history, floor) && CanMove(db, level, f)
    ensures |Move(db, level, f).levels| == NUM_LEVELS
    ensures forall l, t | 0 <= l < NUM_LEVELS ::
              t in Move(db, level, f).levels[l] <==> (t in db.levels[l] && t != f) || (l == level + 1 && t == f)
  {
    assert f in db.levels[level] && NumbersUnique(db.levels) by { hide NumbersUnique, Truthful, Layers, Logged, JobLive; }
    hide Inv, CanMove, Move;
    MoveResult(db, level, f);
    forall l, t | 0 <= l < NUM_LEVELS
      ensures t in Move(db, level, f).levels[l] <==> (t in db.levels[l] && t != f) || (l == level + 1 && t == f)
    {
      MoveIs(db, level, f, l, t);
    }
  }

  lemma InputsThere(db: Db, history: set<Entry>, floor: nat)
    requires Inv(db, history, floor) && db.job.Some?
    ensures |db.levels| == NUM_LEVELS && db.job.value.level + 1 < NUM_LEVELS && NumbersUnique(db.levels)
    ensures forall u | u in db.job.value.in0 :: u in db.levels[db.job.value.level]
    ensures forall u | u in db.job.value.in1 :: u in db.levels[db.job.value.level + 1]
  {
    hide NumbersUnique, Truthful, Layers, Logged, ValidVersion;
  }

  function Inputs(job: Job): Level {
    job.in0 + job.in1
  }

  /** The inputs of the job left their levels, the outputs arrived at the lower one, and nothing else moved. */
  ghost predicate Exchanged(before: seq<Level>, level: nat, inputs: Level, outputs: Level, after: seq<Level>) {
    && |before| == |after| == NUM_LEVELS
    && forall l, t | 0 <= l < NUM_LEVELS ::
         t in after[l] <==> (t in before[l] && t !in inputs) || (l == level + 1 && t in outputs)
  }

  lemma InstallChanges(db: Db, outputs: Level, history: set<Entry>, floor: nat)
    requires Inv(db, history, floor) && CanInstall(db, outputs)
    ensures db.job.Some? && |db.levels| == NUM_LEVELS
    ensures Exchanged(db.levels, db.job.value.level, Inputs(db.job.value), outputs,
                      Apply(db.levels, InstallEdit(db, outputs)))
  {
    hide Inv, CanInstall, NumbersUnique, InstallEdit, Apply;
    InstallReady(db, outputs);
    InputsThere(db, history, floor);
    var after := Apply(db.levels, InstallEdit(db, outputs));
    forall l, t | 0 <= l < NUM_LEVELS
      ensures t in after[l] <==>
              (t in db.levels[l] && t !in db.job.value.in0 + db.job.value.in1) ||
              (l == db.job.value.level + 1 && t in outputs)
    {
      InstallIs(db, outputs, l, t);
    }
  }

  lemma InstallReady(db: Db, outputs: Level)
    requires CanInstall(db, outputs)
    ensures db.job.Some? && |db.levels| == NUM_LEVELS && db.job.value.level + 1 < NUM_LEVELS
  {
  }

  lemma InstallResult(db: Db, outputs: Level)
    requires CanInstall(db, outputs)
    ensures var edit := InstallEdit(db, outputs);
            Install(db, outputs) ==
            Db(db.mem, db.imm, db.inflight, Apply(db.levels, edit), db.snapshots, db.last,
               db.pinned, None, db.pending - (set n | n in db.job.value.numbers),
               db.logNumber, db.memLog, db.nextFile, db.logs, db.tables, db.manifest + [edit])
  {
  }

  lemma InstallLast(db: Db, outputs: Level)
    requires CanInstall(db, outputs)
    ensures Install(db, outputs).last == db.last
  {
  }

  lemma StillRunning(db: Db)
    requires db.job.Some?
    ensures OpenOutput(db).job.Some?
  {
  }

  /** The least sequence number a snapshot or a new read can ask for. */
  ghost predicate IsOldest(s: nat, snapshots: seq<nat>, last: nat) {
    (s == last || s in snapshots) && s <= last && forall r | r in snapshots :: s <= r
  }

  lemma OldestIs(db: Db, history: set<Entry>, floor: nat)
    requires Inv(db, history, floor)
    ensures IsOldest(OldestReadable(db), db.snapshots, db.last)
  {
    if db.snapshots != [] {
      assert db.snapshots[0] in db.snapshots;
      forall r | r in db.snapshots ensures db.snapshots[0] <= r {
        var i :| 0 <= i < |db.snapshots| && db.snapshots[i] == r;
      }
    }
  }

  /** No flush can get between the outputs of the running compaction, and whatever was flushed to
      their level since it started lies beside its inputs. */
  ghost predicate Shielded(job: Option<Job>, levels: seq<Level>) {
    job.Some? && Walled(job.value) && Fenced(job, levels)
  }

  lemma OutputsReady(db: Db, mid: Db, outputs: Level, history: set<Entry>, floor: nat)
    requires db.job.Some? && mid.job.Some? && Shielded(db.job, db.levels) && Inv(mid, history, floor)
    requires mid.levels == db.levels && mid.job.value == db.job.value.(numbers := mid.job.value.numbers)
    requires |db.job.value.version| == NUM_LEVELS && db.job.value.level + 1 < NUM_LEVELS
    requires Flat(outputs) == JobKept(db.job.value) && |outputs| == |mid.job.value.numbers|
    requires forall i | 0 <= i < |outputs| :: outputs[i].number == mid.job.value.numbers[i]
    ensures CanInstall(mid, outputs)
  {
    hide Inv, JobKept, Flat, CanInstall, Fenced, Gapless;
    SameKept(db.job.value, mid.job.value);
    OpenFenced(db.job.value, mid.job.value.numbers, db.levels);
    FencedInstalls(mid, outputs, history, floor);
  }

  /** The outputs are cut where the rules say so, and nowhere else. */
  ghost predicate JobCut(job: Job, limit: nat, grown: seq<Entry> -> nat, outputs: Level, ends: seq<nat>) {
    exists grandparents | AreGrandparents(job, grandparents) ::
      RightlyCut(KeptUpTo(JobInput(job), job.smallest, job.version, job.level), |JobInput(job)|,
                 Rules(limit, grown, grandparents, JobInput(job)), outputs, ends)
  }

  /** The tables two levels down that meet the range of the inputs. */
  ghost predicate AreGrandparents(job: Job, grandparents: Level) {
    if job.level + 2 < |job.version|
    then exists lo, hi :: IsRange(job.in0 + job.in1, lo, hi)
                       && grandparents == Overlapping(job.version[job.level + 2], Some(lo), Some(hi))
    else grandparents == []
  }

  /** The end of `SetupOtherInputs`. */
  method GrandparentsOf(job: Job) returns (grandparents: Level)
    requires JobChosen(job)
    ensures AreGrandparents(job, grandparents)
  {
    hide IsRange, Overlapping, AgeOrdered;
    grandparents := [];
    if job.level + 2 < |job.version| {
      var lo, hi := GetRange(job.in0 + job.in1);
      ghost var l, h;
      grandparents, l, h := GetOverlappingInputs(false, job.version[job.level + 2], Some(lo.key), Some(hi.key));
    }
  }

  lemma JobSizes(db: Db, history: set<Entry>, floor: nat)
    requires Inv(db, history, floor) && db.job.Some?
    ensures |db.job.value.version| == NUM_LEVELS && db.job.value.level + 1 < NUM_LEVELS
  {
  }

  lemma ReadReady(db: Db, snapshot: Option<nat>, history: set<Entry>, floor: nat)
    requires Inv(db, history, floor) && (snapshot.Some? ==> snapshot.value in db.snapshots)
    ensures floor <= (if snapshot.Some? then snapshot.value else db.last)
  {
  }

  class Database {
    var mem: seq<Entry>
    var imm: Option<seq<Entry>>
    var inflight: Option<Batch>
    var levels: seq<Level>
    var snapshots: seq<nat>
    var last: nat
    var pinned: seq<seq<Level>>
    var job: Option<Job>
    var pending: set<nat>
    var logNumber: nat
    var memLog: nat
    var nextFile: nat
    var logs: map<nat, seq<Batch>>
    var tables: set<nat>
    var manifest: seq<Edit>

    /** Every write applied so far, and the oldest sequence number still read faithfully. */
    ghost var history: set<Entry>
    ghost var floor: nat

    function View(): Db
      reads this
    {
      Db(mem, imm, inflight, levels, snapshots, last, pinned, job, pending,
         logNumber, memLog, nextFile, logs, tables, manifest)
    }

    ghost predicate Valid()
      reads this
    {
      Inv(View(), history, floor)
    }

    /** Adopt the state recovery arrived at. */
    constructor (db: Db, ghost history: set<Entry>, ghost floor: nat)
      requires Inv(db, history, floor)
      ensures Valid() && View() == db && this.history == history && this.floor == floor
    {
      hide Inv;
      mem, imm, inflight, levels := db.mem, db.imm, db.inflight, db.levels;
      snapshots, last, pinned, job, pending := db.snapshots, db.last, db.pinned, db.job, db.pending;
      logNumber, memLog, nextFile := db.logNumber, db.memLog, db.nextFile;
      logs, tables, manifest := db.logs, db.tables, db.manifest;
      this.history, this.floor := history, floor;
    }

    /** `DBImpl::Write`: the batch goes to the log, then to the memtable, then becomes visible. */
    method Write(ops: seq<Op>)
      requires Valid() && inflight.None? && last + |ops| + 1 < MAX_SEQUENCE
      modifies `logs, `mem, `last, `history
      ensures Valid() && floor == old(floor)
      ensures CanLogWrite(old(View()), ops) && View() == ApplyWrite(LogWrite(old(View()), ops))
      ensures last == old(last) + |ops|
      ensures history == old(history) + Set(BatchEntries(BatchRecord(old(last) + 1, ops)))
    {
      hide Inv, LogWrite, ApplyWrite, InsertEntries, BatchEntries;
      ghost var before := View();
      var b: Batch := BatchRecord(last + 1, ops);
      WriteReady(before, ops, history, floor);
      WriteKeeps(before, ops, history, floor);
      WriteResult(before, ops);
      logs := logs[memLog := logs[memLog] + [b]];
      var es := BatchEntries(b);
      mem := InsertInto(mem, es);
      last := last + |ops|;
      history := history + Set(es);
    }

    /** `DBImpl::Get`; without a snapshot the latest sequence number is read. */
    method Get(k: Key, snapshot: Option<nat>) returns (r: Option<Payload>)
      requires Valid() && (snapshot.Some? ==> snapshot.value in snapshots)
      ensures Reads(history, k, if snapshot.Some? then snapshot.value else last, r)
    {
      hide Inv;
      var s := if snapshot.Some? then snapshot.value else last;
      ReadReady(View(), snapshot, history, floor);
      r := Engine.Get(View(), k, s, history, floor);
    }

    method GetSnapshot() returns (s: nat)
      requires Valid()
      modifies `snapshots
      ensures Valid() && View() == TakeSnapshot(old(View()))
      ensures s == last && snapshots == old(snapshots) + [s]
    {
      hide Inv;
      TakeSnapshotKeeps(View(), history, floor);
      s := last;
      snapshots := snapshots + [last];
    }

    method ReleaseSnapshot(i: nat)
      requires Valid() && i < |snapshots|
      modifies `snapshots
      ensures Valid() && View() == Release(old(View()), i)
      ensures |snapshots| == |old(snapshots)| - 1
      ensures forall j | 0 <= j < |snapshots| :: snapshots[j] == old(snapshots)[if j < i then j else j + 1]
    {
      hide Inv;
      ReleaseKeeps(View(), i, history, floor);
      snapshots := snapshots[..i] + snapshots[i + 1..];
    }

    /** The end of `MakeRoomForWrite`. */
    method SwitchMemTable()
      requires Valid() && imm.None? && inflight.None?
      modifies this
      ensures Valid() && View() == Switch(old(View())) && history == old(history) && floor == old(floor)
      ensures mem == [] && imm == Some(old(mem)) && memLog == old(nextFile) < nextFile
      ensures logs == old(logs)[memLog := []] && levels == old(levels) && tables == old(tables)
    {
      hide Inv;
      SwitchKeeps(View(), history, floor);
      logs := logs[nextFile := []];
      imm, mem, memLog, nextFile := Some(mem), [], nextFile, nextFile + 1;
    }

    /** The level `WriteLevel0Table` puts the table at. */
    method FlushLevel() returns (level: nat)
      requires Valid() && imm.Some?
      ensures CanFlush(View(), level)
    {
      hide Inv, ValidVersion;
      FlushReady(View(), history, floor);
      level := 0;
      if imm.value != [] {
        level := PickLevelForMemTableOutput(levels, imm.value[0].key, imm.value[|imm.value| - 1].key);
      }
    }

    /** `DBImpl::CompactMemTable`. */
    method CompactMemTable(bytes: nat) returns (level: nat)
      requires Valid() && imm.Some?
      modifies this
      ensures Valid() && history == old(history) && floor == old(floor)
      ensures CanFlush(old(View()), level) && View() == Flush(old(View()), level, bytes)
      ensures imm == None && mem == old(mem) && logNumber == memLog && logs == old(logs) && |levels| == NUM_LEVELS
      ensures forall l, t | 0 <= l < |levels| ::
                t in levels[l] <==>
                t in old(levels)[l] ||
                (l == level && old(imm).value != [] && t == TableFile(old(nextFile), bytes, old(imm).value))
      ensures old(Shielded(job, levels)) ==> Shielded(job, levels)
    {
      hide Inv, CanFlush, FlushEdit, Apply, Flush, Gapless, Fenced;
      level := FlushLevel();
      ghost var before := View();
      FlushKeeps(before, level, bytes, history, floor);
      FlushResult(before, level, bytes);
      forall l, t | 0 <= l < NUM_LEVELS
        ensures t in Flush(before, level, bytes).levels[l] <==>
                t in before.levels[l] ||
                (l == level && before.imm.value != [] && t == TableFile(before.nextFile, bytes, before.imm.value))
      {
        FlushIs(before, level, bytes, l, t);
      }
      if Shielded(job, levels) { FlushStepFenced(before, level, bytes, history, floor); }
      InstallFlush(level, bytes);
    }

    /** `LogAndApply` for a flushed memtable. */
    method InstallFlush(level: nat, bytes: nat)
      requires CanFlush(View(), level)
      modifies `tables, `levels, `imm, `manifest, `logNumber, `nextFile
      ensures View() == Flush(old(View()), level, bytes)
    {
      hide FlushEdit, Apply, Flush, CanFlush, FlushLevelOk;
      CanFlushThere(View(), level);
      FlushResult(View(), level, bytes);
      var edit := FlushEdit(View(), level, bytes);
      tables := if imm.value == [] then tables else tables + {nextFile};
      levels := Apply(levels, edit);
      imm, manifest, logNumber, nextFile := None, manifest + [edit], memLog, nextFile + 1;
    }

    /** `PickCompaction` for table `f`.  Nothing here looks at the borders of the choice; see
        module `Borders` for the cases where that matters. */
    method StartCompaction(level: nat, f: Table) returns (in0: Level, in1: Level)
      requires Valid() && job.None? && level + 1 < NUM_LEVELS && |levels| == NUM_LEVELS && f in levels[level]
      modifies `job
      ensures ValidInputs(levels, level, in0, in1) && f in in0 && PickedFor(levels, level, f, in0, in1)
      ensures View() == Begin(old(View()), level, in0, in1) && Shielded(job, levels)
      ensures IsOldest(job.value.smallest, snapshots, last)
      ensures CanBegin(old(View()), level, in0, in1) ==> Valid()
      ensures (level > 0 ==> SplitFree(levels[level], in0)) && NothingUncovered(job.value, Stored(View())) <==>
              CanBegin(old(View()), level, in0, in1)
    {
      hide Inv, ValidVersion, ValidInputs, Gapless, Fenced, SplitFree, NothingUncovered, Stored, PickedFor;
      StartReady(View(), history, floor);
      OldestIs(View(), history, floor);
      in0, in1 := PickInputs(levels, level, f);
      if CanBegin(View(), level, in0, in1) {
        BeginKeeps(View(), level, in0, in1, history, floor);
      }
      BeginFenced(View(), level, in0, in1);
      SameStored(View(), Begin(View(), level, in0, in1));
      job := Some(Job(level, in0, in1, OldestReadable(View()), levels, []));
    }

    /** The trivial move of `BackgroundCompaction`. */
    method MoveTable(level: nat, f: Table)
      requires Valid() && CanMove(View(), level, f)
      modifies `levels, `manifest
      ensures Valid() && View() == Move(old(View()), level, f) && |old(levels)| == |levels| == NUM_LEVELS
      ensures forall l, t | 0 <= l < |levels| ::
                t in levels[l] <==> (t in old(levels)[l] && t != f) || (l == level + 1 && t == f)
    {
      hide Inv, Apply, Move;
      MoveKeeps(View(), level, f, history, floor);
      MoveChanges(View(), level, f, history, floor);
      MoveResult(View(), level, f);
      var edit := MoveEdit(View(), level, f);
      levels, manifest := Apply(levels, edit), manifest + [edit];
    }

    /** `DBImpl::DeleteObsoleteFiles`. */
    method DeleteObsoleteFiles()
      requires Valid()
      modifies `tables, `logs
      ensures Valid() && View() == DeleteObsolete(old(View()))
      ensures forall n :: n in logs <==> n in old(logs) && n >= logNumber
      ensures forall n | n in logs :: logs[n] == old(logs)[n]
      ensures forall n :: n in tables <==> n in old(tables) && InUse(old(View()), n)
    {
      hide Inv, Live, InUse;
      DeleteObsoleteKeeps(View(), history, floor);
      forall n ensures InUse(View(), n) <==> n in Live(View()) { InUseIsLive(View(), n); }
      var live := Live(View());
      logs := map n | n in logs && n >= logNumber :: logs[n];
      tables := tables * live;
    }

    /** `OpenCompactionOutputFile`: the new number is pending until the outputs are installed. */
    method OpenOutputFile()
      requires Valid() && job.Some?
      modifies `pending, `tables, `nextFile, `job
      ensures Valid() && View() == OpenOutput(old(View())) && history == old(history) && floor == old(floor)
    {
      hide Inv;
      OpenOutputKeeps(View(), history, floor);
      var n := nextFile;
      pending, tables, nextFile := pending + {n}, tables + {n}, n + 1;
      job := Some(job.value.(numbers := job.value.numbers + [n]));
    }

    /** `InstallCompactionResults`. */
    method InstallResults(outputs: Level)
      requires Valid() && CanInstall(View(), outputs)
      modifies `floor, `pending, `levels, `manifest, `job
      ensures Valid() && View() == Install(old(View()), outputs) && history == old(history)
      ensures floor == Max(old(floor), old(job.value.smallest))
      ensures Exchanged(old(levels), old(job.value.level), Inputs(old(job.value)), outputs, levels)
    {
      hide Inv, CanInstall, Apply, InstallEdit, Install, Exchanged;
      ghost var before := View();
      InstallReady(before, outputs);
      InstallKeeps(before, outputs, history, floor);
      InstallChanges(before, outputs, history, floor);
      InstallResult(before, outputs);
      var edit := InstallEdit(View(), outputs);
      floor := Max(floor, job.value.smallest);
      pending := pending - set n | n in job.value.numbers;
      levels := Apply(levels, edit);
      manifest, job := manifest + [edit], None;
    }

    /** The merge of `DoCompactionWork` for the running job. */
    method MergeInputs(limit: nat, grown: seq<Entry> -> nat, sizeOf: seq<Entry> -> nat)
      returns (outputs: Level, ghost ends: seq<nat>)
      requires Valid() && job.Some?
      ensures Flat(outputs) == JobKept(job.value) && JobCut(job.value, limit, grown, outputs, ends)
      ensures forall i | 0 <= i < |outputs| ::
                outputs[i].number == nextFile + i && outputs[i].bytes == sizeOf(outputs[i].entries)
    {
      hide Inv, ValidVersion, JobChosen;
      FinishReady(View(), history, floor);
      var j := job.value;
      var grandparents := GrandparentsOf(j);
      var c := new Compaction(j.level, j.version, grandparents);
      var input := JobInput(j);
      JobInputSorted(j);
      outputs, ends := DoCompactionWork(c, input, j.smallest, nextFile, limit, grown, sizeOf);
    }

    /** `DoCompactionWork` from start to end, whatever was flushed meanwhile. */
    method FinishCompaction(limit: nat, grown: seq<Entry> -> nat, sizeOf: seq<Entry> -> nat)
      returns (outputs: Level, ghost ends: seq<nat>)
      requires Valid() && job.Some? && job.value.numbers == [] && Shielded(job, levels)
      modifies this
      ensures Valid() && history == old(history) && last == old(last)
      ensures CanInstall(OpenOutputs(old(View()), |outputs|), outputs)
      ensures View() == Install(OpenOutputs(old(View()), |outputs|), outputs)
      ensures JobCut(old(job.value), limit, grown, outputs, ends)
      ensures Exchanged(old(levels), old(job.value.level), Inputs(old(job.value)), outputs, levels)
      ensures forall i | 0 <= i < |outputs| :: outputs[i].bytes == sizeOf(outputs[i].entries)
    {
      hide Inv, CanInstall, Install, OpenOutput, Shielded, JobKept, Flat, JobCut, Exchanged;
      outputs, ends := MergeInputs(limit, grown, sizeOf);
      ghost var before := View();
      for i := 0 to |outputs|
        invariant Valid() && history == old(history) && floor == old(floor)
        invariant View() == OpenOutputs(before, i) && job.Some?
      {
        StillRunning(View());
        OpenOutputFile();
      }
      OpenOutputsFields(before, |outputs|);
      JobSizes(before, history, floor);
      OutputsReady(before, View(), outputs, history, floor);
      InstallLast(View(), outputs);
      InstallResults(outputs);
    }
  }

  /** `WriteBatchInternal::InsertInto`. */
  method InsertInto(mem: seq<Entry>, es: seq<Entry>) returns (m: seq<Entry>)
    ensures m == InsertEntries(mem, es)
  {
    m := mem;
    for i := 0 to |es|
      invariant m == InsertEntries(mem, es[..i])
    {
      assert es[..i + 1][..i] == es[..i];
      m := InsertEntry(m, es[i]);
    }
    assert es[..|es|] == es;
  }
}
