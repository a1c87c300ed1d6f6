/** Writes, memtable switch, flush, snapshots and file garbage collection keep the invariant. */
module Steps {
  import opened Wrappers
  import opened Entries
  import opened Versions
  import opened Selection
  import opened Edits
  import opened Engine

  /** A step that touches only job, pending outputs, pinned versions and files on disk. */
  lemma InvFrame(db: Db, db': Db, history: set<Entry>, floor: nat)
    requires Inv(db, history, floor) && db.nextFile <= db'.nextFile
    requires db' == db.(job := db'.job, pending := db'.pending, pinned := db'.pinned,
                        tables := db'.tables, nextFile := db'.nextFile)
    requires DbOnDisk(db') && DbJobLive(db')
    ensures Inv(db', history, floor)
  {
    assert Stored(db') == Stored(db);
  }

  // ----- Writes: first to the log, then to the memtable -----

  predicate CanLogWrite(db: Db, ops: seq<Op>) {
    db.inflight.None? && db.memLog in db.logs && db.last + |ops| + 1 < MAX_SEQUENCE
  }

  function LogWrite(db: Db, ops: seq<Op>): Db
    requires CanLogWrite(db, ops)
  {
    var b: Batch := BatchRecord(db.last + 1, ops);
    db.(inflight := Some(b), logs := db.logs[db.memLog := db.logs[db.memLog] + [b]])
  }

  predicate CanApplyWrite(db: Db) {
    db.inflight.Some?
  }

  function ApplyWrite(db: Db): Db
    requires CanApplyWrite(db)
  {
    var b := db.inflight.value;
    db.(inflight := None, mem := InsertEntries(db.mem, BatchEntries(b)), last := db.last + |b.ops|)
  }

  lemma BatchStamps(b: Batch)
    ensures Ascending(BatchEntries(b))
    ensures forall e | e in BatchEntries(b) :: b.first <= e.stamp < b.first + |b.ops|
    ensures UniqueSeqs(Set(BatchEntries(b)))
  {
  }

  lemma AscendingConcat(a: seq<Entry>, b: seq<Entry>)
    requires Ascending(a) && Ascending(b) && forall d, e | d in a && e in b :: d.stamp < e.stamp
    ensures Ascending(a + b)
  {
  }

  lemma LogWriteLogged(mem: seq<Entry>, imm: Option<seq<Entry>>, logs: map<nat, seq<Batch>>,
                       logNumber: nat, memLog: nat, b: Batch)
    requires Logged(mem, imm, None, logs, logNumber, memLog)
    requires b.first > 0 && SeqsAtMost(Set(mem), b.first - 1) && SeqsAtMost(Set(ImmSeq(imm)), b.first - 1)
    ensures Logged(mem, imm, Some(b), logs[memLog := logs[memLog] + [b]], logNumber, memLog)
  {
    var log := logs[memLog];
    BatchStamps(b);
    assert (log + [b])[..|log|] == log;
    var old', new' := LogEntries(log), BatchEntries(b);
    assert LogEntries(log + [b]) == old' + new';
    forall d, e | d in old' && e in new' ensures d.stamp < e.stamp {
      assert d in Set(old');
    }
    AscendingConcat(old', new');
    assert Set(old' + new') == Set(old') + Set(new');
    if imm.Some? {
      forall d, e | d in LogEntries(logs[logNumber]) && e in old' + new' ensures d.stamp < e.stamp {
        assert d in Set(LogEntries(logs[logNumber]));
      }
    }
  }

  lemma LogWriteKeeps(db: Db, ops: seq<Op>, history: set<Entry>, floor: nat)
    requires Inv(db, history, floor) && CanLogWrite(db, ops)
    ensures Inv(LogWrite(db, ops), history, floor)
  {
    hide Layers, SameReads, UniqueSeqs, Saved, JobLive;
    var db' := LogWrite(db, ops);
    assert Stored(db') == Stored(db);
    assert SeqsAtMost(Stored(db), db.last);
    LogWriteLogged(db.mem, db.imm, db.logs, db.logNumber, db.memLog, db'.inflight.value);
    assert db'.logs[db.memLog][..|db.logs[db.memLog]|] == db.logs[db.memLog];
    assert Settled(db'.logs, db'.memLog, db'.inflight) == db.logs;
  }

  lemma NewerUnion(A: set<Entry>, B: set<Entry>, C: set<Entry>)
    ensures Newer(A + B, C) <==> Newer(A, C) && Newer(B, C)
    ensures Newer(C, A + B) <==> Newer(C, A) && Newer(C, B)
  {
  }

  lemma StampsGiveNewer(N: set<Entry>, S: set<Entry>, last: nat)
    requires SeqsAbove(N, last) && SeqsAtMost(S, last)
    ensures Newer(N, S)
  {
  }

  lemma ApplyWriteLayers(mem: seq<Entry>, imm: Option<seq<Entry>>, levels: seq<Level>, es: seq<Entry>, last: nat)
    requires Layers(mem, imm, levels) && Ascending(es) && SeqsAbove(Set(es), last)
    requires SeqsAtMost(Set(mem) + Set(ImmSeq(imm)) + VersionSet(levels), last)
    ensures Layers(InsertEntries(mem, es), imm, levels)
    ensures Set(InsertEntries(mem, es)) == Set(mem) + Set(es)
  {
    forall d, e | d in mem && e in es ensures d.stamp != e.stamp {
      assert d in Set(mem) && e in Set(es);
    }
    InsertEntriesSorted(mem, es);
    assert Set(InsertEntries(mem, es)) == Set(mem) + Set(es);
    StampsGiveNewer(Set(es), Set(ImmSeq(imm)), last);
    StampsGiveNewer(Set(es), VersionSet(levels), last);
    NewerUnion(Set(mem), Set(es), Set(ImmSeq(imm)));
    NewerUnion(Set(mem), Set(es), VersionSet(levels));
  }

  lemma ApplyWriteTruth(stored: set<Entry>, history: set<Entry>, floor: nat, last: nat, snapshots: seq<nat>,
                        N: set<Entry>, last': nat)
    requires Truthful(stored, history, floor, last, snapshots)
    requires UniqueSeqs(N) && SeqsAbove(N, last) && SeqsAtMost(N, last') && last <= last' < MAX_SEQUENCE
    ensures Truthful(stored + N, history + N, floor, last', snapshots)
  {
    assert SeqsAtMost(stored, last);
    StampsGiveNewer(N, stored, last);
    StampsGiveNewer(N, history, last);
    SameReadsExtend(stored, history, N, floor);
  }

  lemma ApplyWriteLast(mem: seq<Entry>, imm: Option<seq<Entry>>, last: nat, saved: nat, b: Batch)
    requires LastSaved(mem, imm, Some(b), last, saved)
    ensures LastSaved(InsertEntries(mem, BatchEntries(b)), imm, None, last + |b.ops|, saved)
  {
    var es := BatchEntries(b);
    var mem' := InsertEntries(mem, es);
    if b.ops != [] {
      var e := es[|es| - 1];
      assert e in mem' && e in Set(mem') && e.stamp == last + |b.ops|;
    } else if saved < last {
      var e :| e in Set(mem) + Set(ImmSeq(imm)) && e.stamp == last;
      assert e in Set(mem') + Set(ImmSeq(imm));
    }
  }

  lemma StoredBelow(stored: set<Entry>, history: set<Entry>, floor: nat, last: nat, snapshots: seq<nat>)
    requires Truthful(stored, history, floor, last, snapshots)
    ensures SeqsAtMost(stored, last)
  {
  }

  lemma ApplyWriteLogged(mem: seq<Entry>, imm: Option<seq<Entry>>, b: Batch, logs: map<nat, seq<Batch>>,
                         logNumber: nat, memLog: nat, mem': seq<Entry>)
    requires Logged(mem, imm, Some(b), logs, logNumber, memLog)
    requires Set(mem') == Set(mem) + Set(BatchEntries(b))
    ensures Logged(mem', imm, None, logs, logNumber, memLog)
    ensures memLog in logs && logs[memLog] != [] && logs[memLog][|logs[memLog]| - 1] == b
  {
    assert Set(mem') + BatchSet(None) == Set(mem) + BatchSet(Some(b));
  }

  lemma JobLiveLater(job: Option<Job>, levels: seq<Level>, last: nat, snapshots: seq<nat>, pending: set<nat>,
                     last': nat)
    requires JobLive(job, levels, last, snapshots, pending) && last <= last'
    ensures JobLive(job, levels, last', snapshots, pending)
  {
    hide Chosen, Grown;
  }

  lemma ApplyWriteReads(db: Db, db': Db, b: Batch, history: set<Entry>, floor: nat)
    requires Layers(db.mem, db.imm, db.levels) && b.first == db.last + 1
    requires Truthful(Stored(db), history, floor, db.last, db.snapshots)
    requires db'.mem == InsertEntries(db.mem, BatchEntries(b)) && db'.imm == db.imm && db'.levels == db.levels
    ensures Layers(db'.mem, db'.imm, db'.levels)
    ensures Set(db'.mem) == Set(db.mem) + Set(BatchEntries(b)) && Stored(db) <= Stored(db')
    ensures Truthful(Stored(db'), history + Set(BatchEntries(b)), floor, db.last + |b.ops|, db.snapshots)
  {
    hide Layers, Truthful, InsertEntries;
    var es := BatchEntries(b);
    BatchStamps(b);
    StoredBelow(Stored(db), history, floor, db.last, db.snapshots);
    ApplyWriteLayers(db.mem, db.imm, db.levels, es, db.last);
    assert Stored(db') == Stored(db) + Set(es);
    LastBelowMax(Stored(db), history, floor, db.last, db.snapshots);
    ApplyWriteTruth(Stored(db), history, floor, db.last, db.snapshots, Set(es), db.last + |b.ops|);
  }

  lemma LastBelowMax(stored: set<Entry>, history: set<Entry>, floor: nat, last: nat, snapshots: seq<nat>)
    requires Truthful(stored, history, floor, last, snapshots)
    ensures last < MAX_SEQUENCE
  {
  }

  lemma ApplyWriteKeeps(db: Db, history: set<Entry>, floor: nat)
    requires Inv(db, history, floor) && CanApplyWrite(db)
    ensures Inv(ApplyWrite(db), history + BatchSet(db.inflight), floor)
  {
    hide Layers, Truthful, NumbersUnique, NumbersBelow, OrderedLevels, Logged, BatchesWithin, OnDisk, JobLive,
         InsertEntries, Stored, BordersSafe;
    var b := db.inflight.value;
    var db' := ApplyWrite(db);
    ApplyWriteReads(db, db', b, history, floor);
    ApplyWriteLast(db.mem, db.imm, db.last, db.manifest[|db.manifest| - 1].lastSequence, b);
    ApplyWriteLogged(db.mem, db.imm, b, db.logs, db.logNumber, db.memLog, db'.mem);
    ApplyWriteWithin(db.logs, db.logNumber, db.memLog, db.last, b);
    JobLiveLater(db.job, db.levels, db.last, db.snapshots, db.pending, db'.last);
    if db.job.Some? { BordersStaySafe(db.job.value, Stored(db), Stored(db')); }
  }

  lemma ApplyWriteWithin(logs: map<nat, seq<Batch>>, logNumber: nat, memLog: nat, last: nat, b: Batch)
    requires memLog in logs && logs[memLog] != [] && logs[memLog][|logs[memLog]| - 1] == b && b.first == last + 1
    requires BatchesWithin(Settled(logs, memLog, Some(b)), logNumber, last + 1)
    ensures BatchesWithin(logs, logNumber, last + |b.ops| + 1)
  {
    var settled := Settled(logs, memLog, Some(b));
    forall n, c: Batch | n in logs && logNumber <= n && c in logs[n] ensures c.first + |c.ops| <= last + |b.ops| + 1 {
      assert c in settled[n] || (n == memLog && c == b);
    }
  }

  // ----- Memtable switch -----

  predicate CanSwitch(db: Db) {
    db.imm.None? && db.inflight.None?
  }

  /** The tail of `MakeRoomForWrite`: a new log and a new memtable. */
  function Switch(db: Db): Db
    requires CanSwitch(db)
  {
    db.(imm := Some(db.mem), mem := [], memLog := db.nextFile, nextFile := db.nextFile + 1,
        logs := db.logs[db.nextFile := []])
  }

  lemma SwitchKeeps(db: Db, history: set<Entry>, floor: nat)
    requires Inv(db, history, floor) && CanSwitch(db)
    ensures Inv(Switch(db), history, floor)
  {
    hide ValidVersion, Truthful, JobLive, NumbersUnique;
    var db' := Switch(db);
    assert db.memLog < db.nextFile;
    assert Set(db'.mem) == {} && Set(ImmSeq(db'.imm)) == Set(db.mem);
    assert Stored(db') == Stored(db);
    assert Set(LogEntries([])) == {};
    assert Logged(db'.mem, db'.imm, db'.inflight, db'.logs, db'.logNumber, db'.memLog);
  }

  // ----- Flush -----

  /** Nothing from the level up overlaps the memtable. */
  ghost predicate FlushLevelOk(levels: seq<Level>, imm: seq<Entry>, level: nat) {
    && |levels| == NUM_LEVELS && level <= MAX_MEM_COMPACT_LEVEL
    && (level > 0 && imm != [] ==> forall l, t | 0 <= l <= level && t in levels[l] ::
          !Meets(t, Some(imm[0].key), Some(imm[|imm| - 1].key)))
  }

  ghost predicate CanFlush(db: Db, level: nat) {
    db.imm.Some? && IsFlushLevel(db.levels, db.imm.value, level)
  }

  /** The level `DBImpl::WriteLevel0Table` picks. */
  ghost predicate IsFlushLevel(levels: seq<Level>, imm: seq<Entry>, level: nat) {
    && |levels| == NUM_LEVELS
    && if imm == [] then level == 0 else Picked(levels, imm[0].key, imm[|imm| - 1].key, level)
  }

  lemma FlushLevelFits(levels: seq<Level>, imm: seq<Entry>, level: nat)
    requires IsFlushLevel(levels, imm, level)
    ensures FlushLevelOk(levels, imm, level)
  {
    if imm != [] { PickedOnce(levels, imm[0].key, imm[|imm| - 1].key, level, level); }
  }

  lemma CanFlushThere(db: Db, level: nat)
    requires CanFlush(db, level)
    ensures db.imm.Some? && |db.levels| == NUM_LEVELS && level <= MAX_MEM_COMPACT_LEVEL
    ensures FlushLevelOk(db.levels, db.imm.value, level)
  {
    FlushLevelFits(db.levels, db.imm.value, level);
  }

  function FlushEdit(db: Db, level: nat, bytes: nat): Edit
    requires db.imm.Some?
  {
    Edit({}, if db.imm.value == [] then [] else [(level, TableFile(db.nextFile, bytes, db.imm.value))],
         db.memLog, db.nextFile + 1, db.last)
  }

  /** `DBImpl::CompactMemTable`: the immutable memtable becomes a table (none when it is empty),
      and earlier logs are no longer needed. */
  function Flush(db: Db, level: nat, bytes: nat): Db
    requires db.imm.Some? && |db.levels| == NUM_LEVELS
  {
    var edit := FlushEdit(db, level, bytes);
    db.(imm := None, levels := Apply(db.levels, edit), manifest := db.manifest + [edit],
        logNumber := db.memLog, nextFile := db.nextFile + 1,
        tables := if db.imm.value == [] then db.tables else db.tables + {db.nextFile})
  }

  /** A flush puts the memtable's table, if it has one, at the level chosen, and moves nothing else. */
  lemma FlushIs(db: Db, level: nat, bytes: nat, l: nat, t: Table)
    requires db.imm.Some? && |db.levels| == NUM_LEVELS && l < NUM_LEVELS
    ensures t in Flush(db, level, bytes).levels[l] <==>
            t in db.levels[l] ||
            (l == level && db.imm.value != [] && t == TableFile(db.nextFile, bytes, db.imm.value))
  {
    ApplyIs(db.levels, FlushEdit(db, level, bytes), l, t);
  }

  lemma VersionMember(levels: seq<Level>, e: Entry)
    ensures e in VersionSet(levels) <==> exists l :: 0 <= l < |levels| && e in LevelSet(levels[l])
  {
    UpToMember(levels, |levels|, e);
  }

  lemma LevelInVersion(levels: seq<Level>, l: nat)
    requires l < |levels|
    ensures LevelSet(levels[l]) <= VersionSet(levels)
  {
    forall e | e in LevelSet(levels[l]) ensures e in VersionSet(levels) {
      VersionMember(levels, e);
    }
  }

  lemma ApplyAdd(levels: seq<Level>, e: Edit, level: nat, t: Table)
    requires |levels| == NUM_LEVELS && level < NUM_LEVELS
    requires e.deleted == {} && e.added == [(level, t)]
    ensures Apply(levels, e) == levels[level := InsertTable(levels[level], t)]
  {
    forall l | 0 <= l < NUM_LEVELS
      ensures ApplyAt(levels[l], e, l) == if l == level then InsertTable(levels[l], t) else levels[l]
    {
      assert e.added[..0] == [];
      assert AddedAt(e.added, l) == if l == level then [t] else [];
      RemoveNothing(levels[l], DeletedAt(e, l));
      assert [t][..0] == [];
      assert InsertAll(levels[l], []) == levels[l];
      assert InsertAll(levels[l], [t]) == InsertTable(levels[l], t);
    }
  }

  lemma ApplyNothing(levels: seq<Level>, e: Edit)
    requires |levels| == NUM_LEVELS && e.deleted == {} && e.added == []
    ensures Apply(levels, e) == levels
  {
    forall l | 0 <= l < NUM_LEVELS ensures ApplyAt(levels[l], e, l) == levels[l] {
      RemoveNothing(levels[l], DeletedAt(e, l));
    }
  }

  lemma InsertLevelSet(files: Level, t: Table)
    ensures LevelSet(InsertTable(files, t)) == LevelSet(files) + Set(t.entries)
  {
  }

  /** A table newer than the whole version, added where nothing above or beside it overlaps. */
  lemma AddTableValid(levels: seq<Level>, level: nat, t: Table)
    requires ValidVersion(levels) && Sorted(t.entries)
    requires Newer(Set(t.entries), VersionSet(levels)) && FlushLevelOk(levels, t.entries, level)
    requires forall u | u in levels[0] :: u.number < t.number
    ensures ValidVersion(levels[level := InsertTable(levels[level], t)])
  {
    var files := InsertTable(levels[level], t);
    var r := levels[level := files];
    if level == 0 {
      InsertDistinct(levels[0], t);
      assert TablesSorted(r[0]);
    } else {
      AddTableSorted(levels, level, t);
    }
    forall i, j | 0 <= i < j < NUM_LEVELS ensures Newer(LevelSet(r[i]), LevelSet(r[j])) {
      AddTableAge(levels, level, t, i, j);
    }
    forall a: Table, b: Table | a in r[0] && b in r[0] && a.number > b.number
      ensures Newer(Set(a.entries), Set(b.entries))
    {
      if a == t {
        AddTableNewer(levels, 0, t, b);
      }
    }
    assert AgeOrdered(r);
  }

  lemma AddTableSorted(levels: seq<Level>, level: nat, t: Table)
    requires ValidVersion(levels) && Sorted(t.entries) && 0 < level < NUM_LEVELS
    requires FlushLevelOk(levels, t.entries, level)
    ensures SortedLevel(InsertTable(levels[level], t))
  {
    forall u | u in levels[level] ensures Clear(t, u) {
      TableOrdered(t);
      TableOrdered(u);
    }
    InsertSorted(levels[level], t);
  }

  lemma AddTableNewer(levels: seq<Level>, l: nat, t: Table, b: Table)
    requires l < |levels| && b in levels[l]
    requires Newer(Set(t.entries), VersionSet(levels))
    ensures Newer(Set(t.entries), Set(b.entries))
  {
    LevelInVersion(levels, l);
    assert forall e | e in Set(b.entries) :: e in LevelSet(levels[l]);
  }

  lemma AddTableAge(levels: seq<Level>, level: nat, t: Table, i: nat, j: nat)
    requires ValidVersion(levels) && Sorted(t.entries) && i < j < NUM_LEVELS
    requires Newer(Set(t.entries), VersionSet(levels)) && FlushLevelOk(levels, t.entries, level)
    ensures Newer(LevelSet(levels[level := InsertTable(levels[level], t)][i]),
                  LevelSet(levels[level := InsertTable(levels[level], t)][j]))
  {
    var A, B, T := LevelSet(levels[i]), LevelSet(levels[j]), Set(t.entries);
    assert Newer(A, B);
    InsertLevelSet(levels[level], t);
    if i == level {
      LevelInVersion(levels, j);
      NewerUnion(A, T, B);
    } else if j == level {
      forall u | u in levels[i] ensures Newer(Set(u.entries), T) {
        NoSharedKeys(u, t);
      }
      assert Newer(A, T);
      NewerUnion(B, T, A);
    }
  }

  lemma NoSharedKeys(u: Table, t: Table)
    requires Sorted(u.entries) && Sorted(t.entries)
    requires !Meets(u, Some(Smallest(t).key), Some(Largest(t).key))
    ensures forall d, e | d in u.entries && e in t.entries :: d.key != e.key
  {
    forall d, e | d in u.entries && e in t.entries ensures d.key != e.key {
      EntryInRange(u, d);
      EntryInRange(t, e);
    }
  }

  lemma VersionSetAdd(levels: seq<Level>, level: nat, t: Table)
    requires level < |levels|
    ensures VersionSet(levels[level := InsertTable(levels[level], t)]) == VersionSet(levels) + Set(t.entries)
  {
    var r := levels[level := InsertTable(levels[level], t)];
    InsertLevelSet(levels[level], t);
    forall e ensures e in VersionSet(r) <==> e in VersionSet(levels) || e in Set(t.entries) {
      VersionMember(r, e);
      VersionMember(levels, e);
      if l :| 0 <= l < |levels| && e in LevelSet(levels[l]) {
        assert e in LevelSet(r[l]);
      }
      if e in Set(t.entries) {
        assert e in LevelSet(r[level]);
      }
    }
  }

  lemma FlushKeeps(db: Db, level: nat, bytes: nat, history: set<Entry>, floor: nat)
    requires Inv(db, history, floor) && CanFlush(db, level)
    ensures Inv(Flush(db, level, bytes), history, floor)
  {
    hide CanFlush, Layers, Truthful, Saved, Logged, LastSaved, BatchesWithin, OnDisk, JobLive,
         NumbersUnique, OrderedLevels, NumbersBelow, Apply;
    CanFlushThere(db, level);
    var db' := Flush(db, level, bytes);
    FlushContents(db, level, bytes, db', history, floor);
    FlushRest(db, db', FlushEdit(db, level, bytes), history, floor);
  }

  lemma FlushContents(db: Db, level: nat, bytes: nat, db': Db, history: set<Entry>, floor: nat)
    requires Inv(db, history, floor) && CanFlush(db, level) && db' == Flush(db, level, bytes)
    ensures Layers(db'.mem, db'.imm, db'.levels)
    ensures Truthful(Stored(db'), history, floor, db'.last, db'.snapshots)
    ensures NumbersUnique(db'.levels) && NumbersBelow(db'.levels, db'.nextFile) && OrderedLevels(db'.levels)
    ensures DbOnDisk(db') && DbJobLive(db')
  {
    hide CanFlush, Layers, Truthful, Saved, Logged, LastSaved, BatchesWithin, OnDisk, JobLive,
         NumbersUnique, OrderedLevels, NumbersBelow, Apply;
    CanFlushThere(db, level);
    var edit := FlushEdit(db, level, bytes);
    if db.imm.value == [] {
      ApplyNothing(db.levels, edit);
      FlushNothing(db, db', history, floor);
    } else {
      var t: Table := TableFile(db.nextFile, bytes, db.imm.value);
      ApplyAdd(db.levels, edit, level, t);
      FlushTableKeeps(db, level, t, db', history, floor);
    }
  }

  /** The parts of the invariant a flush treats alike whether or not it writes a table. */
  lemma FlushRest(db: Db, db': Db, edit: Edit, history: set<Entry>, floor: nat)
    requires Inv(db, history, floor) && db.imm.Some?
    requires db' == db.(imm := None, levels := db'.levels, manifest := db.manifest + [edit],
                        logNumber := db.memLog, nextFile := db.nextFile + 1, tables := db'.tables)
    requires db'.levels == Apply(db.levels, edit)
    requires edit.logNumber == db.memLog && edit.nextFile == db.nextFile + 1 && edit.lastSequence == db.last
    requires NumbersUnique(db'.levels) && NumbersBelow(db'.levels, db'.nextFile) && OrderedLevels(db'.levels)
    ensures Logged(db'.mem, db'.imm, db'.inflight, db'.logs, db'.logNumber, db'.memLog)
    ensures Saved(db'.levels, db'.manifest, db'.logNumber, db'.nextFile)
    ensures BatchesWithin(Settled(db'.logs, db'.memLog, db'.inflight), db'.logNumber, db'.last + 1)
    ensures LastSaved(db'.mem, db'.imm, db'.inflight, db'.last, edit.lastSequence)
  {
    hide Layers, Truthful, NumbersUnique, JobLive, OrderedLevels, NumbersBelow, OnDisk, Apply;
    assert db'.manifest[..|db.manifest|] == db.manifest;
    FlushLogged(db.mem, db.imm, db.inflight, db.logs, db.logNumber, db.memLog);
  }

  lemma FlushNothing(db: Db, db': Db, history: set<Entry>, floor: nat)
    requires Inv(db, history, floor) && db.imm == Some([]) && db'.imm == None
    requires db' == db.(imm := None, manifest := db'.manifest, logNumber := db'.logNumber, nextFile := db.nextFile + 1)
    ensures Layers(db'.mem, db'.imm, db'.levels)
    ensures Truthful(Stored(db'), history, floor, db'.last, db'.snapshots)
    ensures NumbersUnique(db'.levels) && NumbersBelow(db'.levels, db'.nextFile) && OrderedLevels(db'.levels)
    ensures DbOnDisk(db') && DbJobLive(db')
  {
    assert Set(ImmSeq(db.imm)) == {} && Set(ImmSeq(db'.imm)) == {};
    assert Stored(db') == Stored(db);
  }

  lemma FlushLogged(mem: seq<Entry>, imm: Option<seq<Entry>>, inflight: Option<Batch>,
                    logs: map<nat, seq<Batch>>, logNumber: nat, memLog: nat)
    requires Logged(mem, imm, inflight, logs, logNumber, memLog)
    ensures Logged(mem, None, inflight, logs, memLog, memLog)
  {
  }

  lemma FlushTableKeeps(db: Db, level: nat, t: Table, db': Db, history: set<Entry>, floor: nat)
    requires Inv(db, history, floor) && CanFlush(db, level)
    requires t.entries == db.imm.value && t.number == db.nextFile
    requires db' == Flush(db, level, t.bytes)
    requires db'.levels == db.levels[level := InsertTable(db.levels[level], t)]
    ensures Layers(db'.mem, db'.imm, db'.levels)
    ensures Truthful(Stored(db'), history, floor, db'.last, db'.snapshots)
    ensures NumbersUnique(db'.levels) && NumbersBelow(db'.levels, db'.nextFile) && OrderedLevels(db'.levels)
    ensures DbOnDisk(db') && DbJobLive(db')
  {
    hide CanFlush, FlushLevelOk, ValidVersion, Truthful, NumbersUnique, JobChosen, Logged, LastSaved, InsertTable,
         BordersSafe;
    CanFlushThere(db, level);
    InsertOrdered(db.levels[level], t);
    FlushLayers(db, level, t);
    assert Set(ImmSeq(db'.imm)) == {};
    assert Stored(db') == Stored(db);
    FlushNumbers(db.levels, db.nextFile, level, t);
    FlushOnDisk(db, level, t, db');
    if db.job.Some? {
      FlushGrown(db.job.value.version, db.levels, level, t);
    }
  }

  lemma FlushLayers(db: Db, level: nat, t: Table)
    requires Layers(db.mem, db.imm, db.levels) && CanFlush(db, level) && t.entries == db.imm.value
    requires NumbersBelow(db.levels, t.number)
    ensures Layers(db.mem, None, db.levels[level := InsertTable(db.levels[level], t)])
    ensures Set(db.mem) + {} + VersionSet(db.levels[level := InsertTable(db.levels[level], t)]) == Stored(db)
  {
    hide CanFlush;
    CanFlushThere(db, level);
    AddTableValid(db.levels, level, t);
    VersionSetAdd(db.levels, level, t);
    NewerUnion(VersionSet(db.levels), Set(t.entries), Set(db.mem));
  }

  lemma FlushOnDisk(db: Db, level: nat, t: Table, db': Db)
    requires DbOnDisk(db) && |db.levels| == NUM_LEVELS && level < NUM_LEVELS && t.number == db.nextFile
    requires db' == db.(imm := db'.imm, levels := db'.levels, manifest := db'.manifest, logNumber := db'.logNumber,
                        nextFile := db.nextFile + 1, tables := db.tables + {db.nextFile})
    requires db'.levels == db.levels[level := InsertTable(db.levels[level], t)]
    ensures DbOnDisk(db')
  {
  }

  lemma FlushNumbers(levels: seq<Level>, nextFile: nat, level: nat, t: Table)
    requires level < |levels| && t.number == nextFile
    requires NumbersUnique(levels) && NumbersBelow(levels, nextFile)
    ensures NumbersUnique(levels[level := InsertTable(levels[level], t)])
    ensures NumbersBelow(levels[level := InsertTable(levels[level], t)], nextFile + 1)
  {
  }

  lemma FlushGrown(version: seq<Level>, levels: seq<Level>, level: nat, t: Table)
    requires Grown(version, levels) && level < NUM_LEVELS
    requires Newer(Set(t.entries), VersionSet(levels))
    ensures Grown(version, levels[level := InsertTable(levels[level], t)])
  {
    VersionGrows(version, levels);
    assert Newer(Set(t.entries), VersionSet(version));
  }

  lemma VersionGrows(v: seq<Level>, levels: seq<Level>)
    requires |v| == |levels| && forall l, t | 0 <= l < |v| && t in v[l] :: t in levels[l]
    ensures VersionSet(v) <= VersionSet(levels)
  {
    forall e | e in VersionSet(v) ensures e in VersionSet(levels) {
      VersionMember(v, e);
      var l :| 0 <= l < |v| && e in LevelSet(v[l]);
      assert e in LevelSet(levels[l]);
      VersionMember(levels, e);
    }
  }

  // ----- Snapshots, iterators, garbage -----

  function TakeSnapshot(db: Db): Db {
    db.(snapshots := db.snapshots + [db.last])
  }

  predicate CanRelease(db: Db, i: nat) {
    i < |db.snapshots|
  }

  function Release(db: Db, i: nat): Db
    requires CanRelease(db, i)
  {
    db.(snapshots := db.snapshots[..i] + db.snapshots[i + 1..])
  }

  /** Element `i` and no other leaves the list. */
  ghost predicate RemovedAt<T>(xs: seq<T>, i: nat, ys: seq<T>) {
    && i < |xs| && |ys| == |xs| - 1
    && forall j | 0 <= j < |ys| :: ys[j] == xs[if j < i then j else j + 1]
  }

  /** Exactly the snapshot, and the pinned version, that is given up goes; all others stay, in order. */
  lemma ReleaseRemoves(db: Db, i: nat)
    ensures CanRelease(db, i) ==>
              RemovedAt(db.snapshots, i, Release(db, i).snapshots) && Release(db, i).(snapshots := db.snapshots) == db
    ensures CanUnpin(db, i) ==>
              RemovedAt(db.pinned, i, Unpin(db, i).pinned) && Unpin(db, i).(pinned := db.pinned) == db
  {
  }

  /** A new iterator pins the current version. */
  function Pin(db: Db): Db {
    db.(pinned := db.pinned + [db.levels])
  }

  predicate CanUnpin(db: Db, i: nat) {
    i < |db.pinned|
  }

  function Unpin(db: Db, i: nat): Db
    requires CanUnpin(db, i)
  {
    db.(pinned := db.pinned[..i] + db.pinned[i + 1..])
  }

  lemma TakeSnapshotKeeps(db: Db, history: set<Entry>, floor: nat)
    requires Inv(db, history, floor)
    ensures Inv(TakeSnapshot(db), history, floor)
  {
    hide Layers, Logged, LastSaved, Saved, OnDisk, BatchesWithin, Truthful, JobChosen, Grown;
    var db' := TakeSnapshot(db);
    assert Stored(db') == Stored(db);
    SnapshotTruth(Stored(db), history, floor, db.last, db.snapshots);
    assert forall s | s in db'.snapshots :: s in db.snapshots || s == db.last;
  }

  lemma SnapshotTruth(stored: set<Entry>, history: set<Entry>, floor: nat, last: nat, snapshots: seq<nat>)
    requires Truthful(stored, history, floor, last, snapshots)
    ensures Truthful(stored, history, floor, last, snapshots + [last])
  {
    forall i | 0 <= i < |snapshots| ensures snapshots[i] <= last {
      assert snapshots[i] in snapshots;
    }
  }

  lemma ReleaseKeeps(db: Db, i: nat, history: set<Entry>, floor: nat)
    requires Inv(db, history, floor) && CanRelease(db, i)
    ensures Inv(Release(db, i), history, floor)
  {
    hide Layers, Logged, LastSaved, Saved, OnDisk, BatchesWithin, SameReads, UniqueSeqs, JobChosen, Grown;
    var db' := Release(db, i);
    assert Stored(db') == Stored(db);
    forall s | s in db'.snapshots ensures s in db.snapshots {
    }
  }

  lemma PinKeeps(db: Db, history: set<Entry>, floor: nat)
    requires Inv(db, history, floor)
    ensures Inv(Pin(db), history, floor)
  {
    hide Layers, Logged, LastSaved, Saved, BatchesWithin, Truthful, JobLive;
    var db' := Pin(db);
    assert Stored(db') == Stored(db);
    forall v | v in db'.pinned ensures VersionOnDisk(v, db'.tables) {
      assert v in db.pinned || v == db.levels;
    }
  }

  lemma UnpinKeeps(db: Db, i: nat, history: set<Entry>, floor: nat)
    requires Inv(db, history, floor) && CanUnpin(db, i)
    ensures Inv(Unpin(db, i), history, floor)
  {
    hide Layers, Logged, LastSaved, Saved, BatchesWithin, Truthful, JobLive;
    var db' := Unpin(db, i);
    assert Stored(db') == Stored(db);
    forall v | v in db'.pinned ensures v in db.pinned {
    }
  }

  /** A table of the version has this number. */
  ghost predicate Names(version: seq<Level>, n: nat) {
    exists l, t :: 0 <= l < |version| && t in version[l] && t.number == n
  }

  /** Someone may still open the table: it is being written, or belongs to the current version, to one that
      an iterator holds, or to the one a compaction reads. */
  ghost predicate InUse(db: Db, n: nat) {
    || n in db.pending || Names(db.levels, n) || (exists v :: v in db.pinned && Names(v, n))
    || (db.job.Some? && Names(db.job.value.version, n))
  }

  lemma NamesNumbers(version: seq<Level>, n: nat)
    ensures Names(version, n) <==> n in VersionNumbers(version)
  {
  }

  lemma InUseIsLive(db: Db, n: nat)
    ensures InUse(db, n) <==> n in Live(db)
  {
    hide VersionNumbers, Names;
    NamesNumbers(db.levels, n);
    forall v ensures Names(v, n) <==> n in VersionNumbers(v) { NamesNumbers(v, n); }
  }

  /** Of the files, exactly the tables in use and the logs from the log number on stay. */
  lemma DeleteObsoleteIs(db: Db, n: nat)
    ensures var db' := DeleteObsolete(db);
            && (n in db'.tables <==> n in db.tables && InUse(db, n))
            && (n in db'.logs <==> n in db.logs && n >= db.logNumber)
            && (n in db'.logs ==> db'.logs[n] == db.logs[n])
            && db'.(tables := db.tables, logs := db.logs) == db
  {
    hide Live, InUse;
    InUseIsLive(db, n);
  }

  function VersionNumbers(levels: seq<Level>): set<nat> {
    set l, t | 0 <= l < |levels| && t in levels[l] :: t.number
  }

  /** `pending_outputs_` and the tables of every version still referenced. */
  function Live(db: Db): set<nat> {
    db.pending + VersionNumbers(db.levels)
    + (set v, n | v in db.pinned && n in VersionNumbers(v) :: n)
    + (if db.job.Some? then VersionNumbers(db.job.value.version) else {})
  }

  /** `DBImpl::DeleteObsoleteFiles`. */
  function DeleteObsolete(db: Db): Db {
    db.(tables := db.tables * Live(db),
        logs := map n | n in db.logs && n >= db.logNumber :: db.logs[n])
  }

  lemma DeleteObsoleteKeeps(db: Db, history: set<Entry>, floor: nat)
    requires Inv(db, history, floor)
    ensures Inv(DeleteObsolete(db), history, floor)
  {
    hide Layers, LastSaved, Saved, Truthful, JobLive, OnDisk;
    var db' := DeleteObsolete(db);
    assert Stored(db') == Stored(db);
    assert Logged(db'.mem, db'.imm, db'.inflight, db'.logs, db'.logNumber, db'.memLog);
    DeleteWithin(db.logs, db.logNumber, db.memLog, db.inflight, db.last + 1, db'.logs);
    DeleteObsoleteOnDisk(db);
  }

  lemma DeleteWithin(logs: map<nat, seq<Batch>>, logNumber: nat, memLog: nat, inflight: Option<Batch>, bound: nat,
                     logs': map<nat, seq<Batch>>)
    requires BatchesWithin(Settled(logs, memLog, inflight), logNumber, bound)
    requires logs' == map n | n in logs && n >= logNumber :: logs[n]
    ensures BatchesWithin(Settled(logs', memLog, inflight), logNumber, bound)
  {
    var S, S' := Settled(logs, memLog, inflight), Settled(logs', memLog, inflight);
    forall n | n in S' && logNumber <= n ensures n in S && S[n] == S'[n] {
    }
  }

  lemma DeleteObsoleteOnDisk(db: Db)
    requires DbOnDisk(db)
    ensures DbOnDisk(DeleteObsolete(db))
  {
    var db' := DeleteObsolete(db);
    var live := Live(db);
    KeepVersion(db.levels, db.tables, live);
    forall v | v in db.pinned ensures VersionOnDisk(v, db'.tables) {
      assert VersionNumbers(v) <= live;
      KeepVersion(v, db.tables, live);
    }
    if db.job.Some? {
      KeepVersion(db.job.value.version, db.tables, live);
    }
  }

  lemma KeepVersion(v: seq<Level>, tables: set<nat>, live: set<nat>)
    requires VersionOnDisk(v, tables) && VersionNumbers(v) <= live
    ensures VersionOnDisk(v, tables * live)
  {
    forall l, t: Table | 0 <= l < |v| && t in v[l] ensures t.number in tables * live {
      assert t.number in VersionNumbers(v);
    }
  }
}
