/** Flushes during a compaction, exactly: over every continuation, when can a memtable's table end up
    between the compaction's outputs at their level. */
module Gaps {
  import opened Wrappers
  import opened Entries
  import opened Versions
  import opened Selection
  import opened Compactions
  import opened Edits
  import opened Engine
  import opened Steps
  import opened CompactionSteps
  import opened Moving
  import opened Runs
  import opened RunSteps
  import opened Sinking
  import opened Borders
  import opened Fences

  /** What `CanInstall` asks for, but for the numbers the output files got. */
  ghost predicate Unobstructed(db: Db, outputs: Level) {
    && db.job.Some? && |db.levels| == NUM_LEVELS && db.job.value.level + 1 < NUM_LEVELS
    && |db.job.value.version| == NUM_LEVELS && Flat(outputs) == JobKept(db.job.value)
    && (forall o, t | o in outputs && t in db.levels[db.job.value.level + 1] &&
                      t !in db.job.value.version[db.job.value.level + 1] :: Clear(o, t))
  }

  lemma InstallsIffUnobstructed(db: Db, outputs: Level)
    requires db.job.Some?
    ensures CanInstall(db, outputs) <==> Unobstructed(db, outputs) && NumbersIn(outputs) == db.job.value.numbers
  {
    hide Flat, JobKept, Clear;
  }

  predicate Covers(xs: seq<Entry>, k: Key) {
    xs != [] && xs[0].key <= k <= xs[|xs| - 1].key
  }

  /** The memtable will be put at level `m` or deeper. */
  ghost predicate MemSinks(levels: seq<Level>, xs: seq<Entry>, m: nat)
    requires |levels| == NUM_LEVELS
  {
    xs != [] && Sinks(levels, xs[0].key, xs[|xs| - 1].key, m)
  }

  /** The memtable, with the write in flight once it is applied. */
  function Coming(db: Db): seq<Entry> {
    if db.inflight.Some? then InsertEntries(db.mem, BatchEntries(db.inflight.value)) else db.mem
  }

  predicate Touches(xs: seq<Entry>, lo: Key, hi: Key) {
    xs != [] && xs[0].key <= hi && lo <= xs[|xs| - 1].key
  }

  /** The range will still sink to level `m` when the waiting memtable has been written out: that goes
      elsewhere, or deeper. */
  ghost predicate StillSinks(db: Db, lo: Key, hi: Key, m: nat)
    requires |db.levels| == NUM_LEVELS
  {
    && Sinks(db.levels, lo, hi, m)
    && (Touches(ImmSeq(db.imm), lo, hi) ==> MemSinks(db.levels, ImmSeq(db.imm), m + 1))
  }

  ghost predicate ComingSinks(db: Db, m: nat)
    requires |db.levels| == NUM_LEVELS
  {
    Coming(db) != [] && StillSinks(db, Coming(db)[0].key, Coming(db)[|Coming(db)| - 1].key, m)
  }

  /** The waiting memtable covers the key and goes to level `m` itself. */
  ghost predicate Lands(db: Db, m: nat, k: Key)
    requires |db.levels| == NUM_LEVELS
  {
    && Covers(ImmSeq(db.imm), k) && MemSinks(db.levels, ImmSeq(db.imm), m)
    && !MemSinks(db.levels, ImmSeq(db.imm), m + 1)
  }

  /** The key cannot get to level `m` any more: something blocks it, or a memtable that covers it will be
      put above that level and then block it. */
  ghost predicate Shut(db: Db, m: nat, k: Key)
    requires |db.levels| == NUM_LEVELS
  {
    && !Lands(db, m, k)
    && (!StillSinks(db, k, k, m) || (Covers(Coming(db), k) && !ComingSinks(db, m)))
  }

  predicate Encloses(o: Table, k: Key) {
    Smallest(o).key < k < Largest(o).key
  }

  /** A key of `U` lies inside an output table and can still get to the output level. */
  ghost predicate Endangered(db: Db, outputs: Level, U: iset<Key>)
    requires db.job.Some? && |db.levels| == NUM_LEVELS
  {
    exists k, o :: k in U && o in outputs && Encloses(o, k) && !Shut(db, db.job.value.level + 1, k)
  }

  /** All keys ever written are in `U`. */
  ghost predicate Within(w: World, U: iset<Key>) {
    forall e | e in w.history + BatchSet(w.db.inflight) :: e.key in U
  }

  /** What the invariant says about memtables and the running compaction. */
  lemma GoodFacts(w: World)
    requires Good(w)
    ensures |w.db.levels| == NUM_LEVELS && Sorted(w.db.mem) && Sorted(ImmSeq(w.db.imm))
    ensures Set(w.db.mem) <= w.history && Set(ImmSeq(w.db.imm)) <= w.history
    ensures w.db.memLog in w.db.logs && NumbersBelow(w.db.levels, w.db.nextFile)
    ensures w.db.job.Some? ==> JobChosen(w.db.job.value) && Grown(w.db.job.value.version, w.db.levels)
  {
    hide OnDisk, LastSaved, BatchesWithin, JobChosen, Grown, Newer, Sorted, SameReads, UniqueSeqs, SeqsAtMost;
  }

  lemma SortedEnds(xs: seq<Entry>, e: Entry)
    requires Sorted(xs) && e in xs
    ensures xs[0].key <= e.key <= xs[|xs| - 1].key
  {
    var i :| 0 <= i < |xs| && xs[i] == e;
    assert i > 0 ==> Before(xs[0], xs[i]);
    assert i < |xs| - 1 ==> Before(xs[i], xs[|xs| - 1]);
  }

  // ----- Outputs end where inputs are -----

  lemma EndMissed(job: Job, levels: seq<Level>, outputs: Level, o: Table, e: Entry, lo: Key, hi: Key)
    requires JobChosen(job) && Grown(job.version, levels) && Flat(outputs) == JobKept(job)
    requires o in outputs && e in o.entries && |levels| == NUM_LEVELS && Sinks(levels, lo, hi, job.level + 1)
    ensures e.key < lo || hi < e.key
  {
    hide JobChosen, Grown, Flat, JobKept, Sinks;
    OutputBetween(job, outputs, o, e);
    var u :| u in job.in0 + job.in1 && Smallest(u).key <= e.key <= Largest(u).key;
    InputsStillThere(job, levels);
    if u in job.in0 {
      SinksPast(levels, lo, hi, job.level + 1, job.level, u);
    } else {
      SinksPast(levels, lo, hi, job.level + 1, job.level + 1, u);
    }
  }

  /** A table that gets to the output level and is not clear of an output lies inside it. */
  lemma NotClearIsInside(job: Job, levels: seq<Level>, outputs: Level, o: Table, t: Table)
    requires JobChosen(job) && Grown(job.version, levels) && Flat(outputs) == JobKept(job) && o in outputs
    requires |levels| == NUM_LEVELS && Sinks(levels, Smallest(t).key, Largest(t).key, job.level + 1)
    requires Smallest(t).key <= Largest(t).key && !Clear(o, t)
    ensures Encloses(o, Smallest(t).key)
  {
    hide JobChosen, Grown, Flat, JobKept, Sinks;
    EndMissed(job, levels, outputs, o, Smallest(o), Smallest(t).key, Largest(t).key);
    EndMissed(job, levels, outputs, o, Largest(o), Smallest(t).key, Largest(t).key);
  }

  // ----- One step -----

  /** The levels after a flush. */
  lemma Flushed(db: Db, level: nat, bytes: nat)
    requires db.imm.Some? && |db.levels| == NUM_LEVELS && level < NUM_LEVELS
    ensures var db' := Flush(db, level, bytes);
            && db'.imm.None? && db'.mem == db.mem && db'.job == db.job && db'.inflight == db.inflight
            && db'.last == db.last && db'.logs == db.logs && db'.memLog == db.memLog
            && db'.levels == if db.imm.value == [] then db.levels
                             else db.levels[level := InsertTable(db.levels[level], FlushedTable(db, bytes))]
  {
    hide Apply;
    var edit := FlushEdit(db, level, bytes);
    if db.imm.value == [] {
      ApplyNothing(db.levels, edit);
    } else {
      ApplyAdd(db.levels, edit, level, FlushedTable(db, bytes));
    }
  }

  function FlushedTable(db: Db, bytes: nat): Table
    requires db.imm.Some? && db.imm.value != []
  {
    TableFile(db.nextFile, bytes, db.imm.value)
  }

  /** What sinks after the flush was going to. */
  lemma SinksAfterFlush(db: Db, level: nat, t: Table, lo: Key, hi: Key, m: nat)
    requires |db.levels| == NUM_LEVELS && db.imm.Some? && db.imm.value == t.entries && level < NUM_LEVELS
    requires Picked(db.levels, Smallest(t).key, Largest(t).key, level)
    ensures Sinks(db.levels[level := InsertTable(db.levels[level], t)], lo, hi, m) ==> StillSinks(db, lo, hi, m)
  {
    hide Sinks, Picked, InsertTable;
    var levels' := db.levels[level := InsertTable(db.levels[level], t)];
    if Sinks(levels', lo, hi, m) {
      SinksBefore(db.levels, level, t, lo, hi, m);
      SinksIff(db.levels, Smallest(t).key, Largest(t).key, level, m + 1);
      assert t in levels'[level];
      if level <= m { SinksPast(levels', lo, hi, m, level, t); }
    }
  }

  lemma FlushKeepsShut(w: World, level: nat, bytes: nat, m: nat, k: Key)
    requires Good(w) && CanFlush(w.db, level) && |w.db.levels| == NUM_LEVELS && Shut(w.db, m, k) && 0 < m
    ensures |Flush(w.db, level, bytes).levels| == NUM_LEVELS && Shut(Flush(w.db, level, bytes), m, k)
  {
    hide Good, Flush, Sinks, Picked, InsertTable, FlushLevelOk, InsertEntries, BatchEntries;
    var db := w.db;
    CanFlushThere(db, level);
    Flushed(db, level, bytes);
    if db.imm.value != [] {
      var t, xs := FlushedTable(db, bytes), Coming(db);
      SinksAfterFlush(db, level, t, k, k, m);
      if xs != [] { SinksAfterFlush(db, level, t, xs[0].key, xs[|xs| - 1].key, m); }
    }
  }

  /** What gets to the output level is clear of the outputs, unless they are in danger. */
  lemma NotClearIsDanger(w: World, o: Table, t: Table, outputs: Level, U: iset<Key>)
    requires Good(w) && w.db.job.Some? && w.db.imm.Some? && w.db.imm.value == t.entries && Within(w, U)
    requires Unobstructed(w.db, outputs) && o in outputs
    requires Sinks(w.db.levels, Smallest(t).key, Largest(t).key, w.db.job.value.level + 1)
    requires !Sinks(w.db.levels, Smallest(t).key, Largest(t).key, w.db.job.value.level + 2)
    ensures Clear(o, t) || Endangered(w.db, outputs, U)
  {
    hide Good, Sinks, Flat, JobKept, Sorted, JobChosen, Grown, StillSinks, ComingSinks, Coming;
    var db, k := w.db, Smallest(t).key;
    GoodFacts(w);
    SortedEnds(t.entries, Smallest(t));
    if !Clear(o, t) {
      NotClearIsInside(db.job.value, db.levels, outputs, o, t);
      assert Smallest(t) in Set(ImmSeq(db.imm));
      assert Lands(db, db.job.value.level + 1, k);
    }
  }

  lemma FlushKeepsClear(w: World, level: nat, bytes: nat, outputs: Level, U: iset<Key>)
    requires Good(w) && CanFlush(w.db, level) && Within(w, U)
    requires Unobstructed(w.db, outputs) && !Endangered(w.db, outputs, U)
    ensures Unobstructed(Flush(w.db, level, bytes), outputs)
  {
    hide Good, Flush, Sinks, Picked, InsertTable, FlushLevelOk, Flat, JobKept, Clear, Endangered;
    var db := w.db;
    CanFlushThere(db, level);
    Flushed(db, level, bytes);
    if db.imm.value != [] && level == db.job.value.level + 1 {
      var t, xs := FlushedTable(db, bytes), db.imm.value;
      SinksIff(db.levels, xs[0].key, xs[|xs| - 1].key, level, level);
      SinksIff(db.levels, xs[0].key, xs[|xs| - 1].key, level, level + 1);
      forall o | o in outputs ensures Clear(o, t) {
        NotClearIsDanger(w, o, t, outputs, U);
      }
    }
  }

  /** A memtable that grows only covers more, and sinks less. */
  lemma GrowKeepsShut(db: Db, db': Db, m: nat, k: Key)
    requires |db.levels| == NUM_LEVELS && db'.levels == db.levels && db'.imm == db.imm && Shut(db, m, k)
    requires Sorted(Coming(db')) && forall e | e in Coming(db) :: e in Coming(db')
    ensures Shut(db', m, k)
  {
    hide Sinks, Sorted, Coming;
    var xs, ys := Coming(db), Coming(db');
    if xs != [] {
      SortedEnds(ys, xs[0]);
      SortedEnds(ys, xs[|xs| - 1]);
      if ComingSinks(db', m) {
        SinksNarrow(db.levels, ys[0].key, ys[|ys| - 1].key, xs[0].key, xs[|xs| - 1].key, m);
      }
    }
  }

  /** Once applied, the write in flight is in the memtable; before it was logged, it was not. */
  lemma ComingSorted(w: World)
    requires Good(w)
    ensures Sorted(Coming(w.db))
  {
    hide Good, InsertEntries, BatchEntries, Sorted;
    if CanApplyWrite(w.db) {
      StepKeeps(w, DoApplyWrite);
      GoodFacts(Step(w, DoApplyWrite));
    } else {
      GoodFacts(w);
    }
  }

  lemma LogKeepsShut(w: World, ops: seq<Op>, m: nat, k: Key)
    requires Good(w) && CanLogWrite(w.db, ops) && |w.db.levels| == NUM_LEVELS && Shut(w.db, m, k)
    ensures Shut(LogWrite(w.db, ops), m, k)
  {
    hide Good, Shut, Sorted, InsertEntries, BatchEntries;
    var w' := Step(w, DoLogWrite(ops));
    StepKeeps(w, DoLogWrite(ops));
    ComingSorted(w');
    GrowKeepsShut(w.db, w'.db, m, k);
  }

  /** Other steps leave tables and memtables alone while a compaction runs, or end it. */
  lemma BusyStep(w: World, a: Action)
    requires Good(w) && Enabled(w, a) && w.db.job.Some?
    requires !a.DoLogWrite? && !a.DoApplyWrite? && !a.DoSwitch? && !a.DoFlush?
    ensures var db, db' := w.db, Step(w, a).db;
            || db'.job.None?
            || (db'.levels == db.levels && db'.mem == db.mem && db'.imm == db.imm && db'.inflight == db.inflight)
  {
    hide Good, Install, Move, CanInstall, CanCrash, Crash, Live, CanRelease, CanUnpin;
    match a
    case DoCrash(survives, order, full, sizeOf) => CrashStops(w, survives, order, full, sizeOf);
    case DoInstall(outputs) => InstallStops(w.db, outputs);
    case _ =>
  }

  lemma InstallStops(db: Db, outputs: Level)
    requires CanInstall(db, outputs)
    ensures Install(db, outputs).job.None?
  {
    hide CanInstall, Apply, InstallEdit;
  }

  lemma StepKeepsShut(w: World, a: Action, m: nat, k: Key)
    requires Good(w) && Enabled(w, a) && |w.db.levels| == NUM_LEVELS && Shut(w.db, m, k) && 0 < m && w.db.job.Some?
    ensures Step(w, a).db.job.None? || (|Step(w, a).db.levels| == NUM_LEVELS && Shut(Step(w, a).db, m, k))
  {
    hide Good, Flush, Shut, CanFlush, CanBegin, CanInstall, CanMove, CanCrash, Crash, InsertEntries, Live;
    match a
    case DoLogWrite(ops) => LogKeepsShut(w, ops, m, k);
    case DoApplyWrite => SameShut(w.db, Step(w, a).db, m, k);
    case DoSwitch => SwitchKeepsShut(w.db, m, k);
    case DoFlush(level, bytes) => FlushKeepsShut(w, level, bytes, m, k);
    case _ =>
      BusyStep(w, a);
      SameShut(w.db, Step(w, a).db, m, k);
  }

  lemma SwitchKeepsShut(db: Db, m: nat, k: Key)
    requires CanSwitch(db) && |db.levels| == NUM_LEVELS && Shut(db, m, k)
    ensures Shut(Switch(db), m, k)
  {
    hide Sinks;
    if Covers(db.mem, k) {
      var lo, hi := db.mem[0].key, db.mem[|db.mem| - 1].key;
      SinksLess(db.levels, lo, hi, m);
      if Sinks(db.levels, lo, hi, m) { SinksNarrow(db.levels, lo, hi, k, k, m); }
    }
  }

  lemma SinksLess(levels: seq<Level>, lo: Key, hi: Key, m: nat)
    requires |levels| == NUM_LEVELS
    ensures Sinks(levels, lo, hi, m + 1) ==> Sinks(levels, lo, hi, m)
  {
    hide Blocked;
  }

  lemma SameShut(db: Db, db': Db, m: nat, k: Key)
    requires |db.levels| == NUM_LEVELS && Shut(db, m, k)
    requires db'.job.None? || (db'.levels == db.levels && Coming(db') == Coming(db) && db'.imm == db.imm)
    ensures db'.job.None? || (|db'.levels| == NUM_LEVELS && Shut(db', m, k))
  {
    hide Sinks, Coming;
  }

  predicate SameJob(a: Option<Job>, b: Option<Job>) {
    a.Some? && b.Some? && b.value == a.value.(numbers := b.value.numbers)
  }

  lemma StepKeepsClear(w: World, a: Action, outputs: Level, U: iset<Key>)
    requires Good(w) && Enabled(w, a) && Within(w, U) && SameJob(w.db.job, Step(w, a).db.job)
    requires Unobstructed(w.db, outputs) && !Endangered(w.db, outputs, U)
    ensures Unobstructed(Step(w, a).db, outputs)
  {
    hide Good, Flush, CanFlush, CanBegin, CanInstall, CanMove, CanCrash, Crash, InsertEntries, Live, Endangered, Flat,
         JobKept, Clear;
    var w' := Step(w, a);
    SameKept(w.db.job.value, w'.db.job.value);
    match a
    case DoFlush(level, bytes) => FlushKeepsClear(w, level, bytes, outputs, U);
    case DoLogWrite(ops) =>
    case DoApplyWrite =>
    case DoSwitch =>
    case _ => BusyStep(w, a);
  }

  lemma StepKeepsSafe(w: World, a: Action, outputs: Level, U: iset<Key>)
    requires Good(w) && Enabled(w, a) && Within(w, U) && SameJob(w.db.job, Step(w, a).db.job)
    requires Unobstructed(w.db, outputs) && !Endangered(w.db, outputs, U)
    ensures Unobstructed(Step(w, a).db, outputs) && !Endangered(Step(w, a).db, outputs, U)
  {
    hide Good, Enabled, Step, Shut, Unobstructed, Encloses;
    StepKeepsClear(w, a, outputs, U);
    var db' := Step(w, a).db;
    UnobstructedSizes(w.db, outputs);
    UnobstructedSizes(db', outputs);
    forall k, o | k in U && o in outputs && Encloses(o, k) ensures Shut(db', db'.job.value.level + 1, k) {
      assert Shut(w.db, w.db.job.value.level + 1, k);
      StepKeepsShut(w, a, w.db.job.value.level + 1, k);
    }
  }

  lemma UnobstructedSizes(db: Db, outputs: Level)
    requires Unobstructed(db, outputs)
    ensures db.job.Some? && |db.levels| == NUM_LEVELS
  {
  }

  // ----- Every continuation -----

  /** `ws` goes on from `w` while the same compaction runs, and all keys written are in `U`. */
  ghost predicate Continues(ws: seq<World>, w: World, U: iset<Key>) {
    && Chain(ws) && ws[0] == w
    && (forall i | 0 <= i < |ws| :: SameJob(w.db.job, ws[i].db.job) && Within(ws[i], U))
  }

  ghost predicate Reaches(w: World, x: World, U: iset<Key>) {
    exists ws :: Continues(ws, w, U) && ws[|ws| - 1] == x
  }

  lemma {:induction false} ContinuesSafe(ws: seq<World>, w: World, outputs: Level, U: iset<Key>, n: nat)
    requires Good(w) && Continues(ws, w, U) && n < |ws|
    requires Unobstructed(w.db, outputs) && !Endangered(w.db, outputs, U)
    ensures Unobstructed(ws[n].db, outputs) && !Endangered(ws[n].db, outputs, U)
  {
    hide Good, Enabled, Step, Unobstructed, Endangered, Within;
    if n > 0 {
      ContinuesSafe(ws, w, outputs, U, n - 1);
      assert SameJob(w.db.job, ws[n - 1].db.job) && SameJob(w.db.job, ws[n].db.job);
      RunKeeps(ws, n - 1);
      assert Follows(ws[n - 1], ws[n]);
      var a :| Enabled(ws[n - 1], a) && ws[n] == Step(ws[n - 1], a);
      StepKeepsSafe(ws[n - 1], a, outputs, U);
    }
  }

  lemma ReachedSafe(w: World, x: World, outputs: Level, U: iset<Key>)
    requires Good(w) && Reaches(w, x, U) && Unobstructed(w.db, outputs) && !Endangered(w.db, outputs, U)
    ensures Unobstructed(x.db, outputs)
  {
    hide Good, Unobstructed, Endangered, Within, Enabled, Step;
    var ws :| Continues(ws, w, U) && ws[|ws| - 1] == x;
    ContinuesSafe(ws, w, outputs, U, |ws| - 1);
  }

  // ----- A continuation that gets in between -----

  lemma ReachesItself(w: World, U: iset<Key>)
    requires w.db.job.Some? && Within(w, U)
    ensures Reaches(w, w, U)
  {
    hide Within;
    OneChain(w);
    assert Continues([w], w, U);
  }

  lemma ReachesNext(w: World, x: World, U: iset<Key>, a: Action)
    requires Reaches(w, x, U) && Enabled(x, a) && SameJob(w.db.job, Step(x, a).db.job) && Within(Step(x, a), U)
    ensures Reaches(w, Step(x, a), U)
  {
    hide Enabled, Step, Within;
    var ws :| Continues(ws, w, U) && ws[|ws| - 1] == x;
    var r := ws + [Step(x, a)];
    forall i | 0 < i < |r| ensures Follows(r[i - 1], r[i]) {
      if i < |ws| { assert Follows(ws[i - 1], ws[i]); }
    }
    assert Continues(r, w, U);
  }

  lemma ReachedFacts(w: World, x: World, U: iset<Key>)
    requires Good(w) && Reaches(w, x, U)
    ensures Good(x) && SameJob(w.db.job, x.db.job) && Within(x, U)
  {
    hide Good, Within, Enabled, Step;
    var ws :| Continues(ws, w, U) && ws[|ws| - 1] == x;
    RunKeeps(ws, |ws| - 1);
  }

  /** No write in flight, no memtable waiting to be flushed. */
  predicate Quiet(db: Db) {
    db.imm.None? && db.inflight.None?
  }

  /** The memtable was switched and flushed. */
  ghost predicate FlushedOut(db: Db, db': Db, level: nat, t: Table, bytes: nat) {
    && |db.levels| == NUM_LEVELS && level <= MAX_MEM_COMPACT_LEVEL && db.mem != []
    && t.entries == db.mem && t.bytes == bytes && t.number > db.nextFile
    && Picked(db.levels, db.mem[0].key, db.mem[|db.mem| - 1].key, level)
    && db'.levels == db.levels[level := InsertTable(db.levels[level], t)]
    && Quiet(db') && db'.mem == [] && db'.last == db.last && db'.job == db.job
  }

  lemma SwitchNext(w: World, x: World, U: iset<Key>)
    requires Good(w) && Reaches(w, x, U) && Quiet(x.db)
    ensures Reaches(w, x.(db := Switch(x.db)), U)
  {
    hide Good, Reaches;
    ReachedFacts(w, x, U);
    ReachesNext(w, x, U, DoSwitch);
  }

  lemma FlushNext(w: World, x: World, U: iset<Key>, level: nat, bytes: nat)
    requires Good(w) && Reaches(w, x, U) && CanFlush(x.db, level) && |x.db.levels| == NUM_LEVELS
    ensures Reaches(w, x.(db := Flush(x.db, level, bytes)), U)
  {
    hide Good, Reaches, CanFlush, Flush, FlushLevelOk;
    ReachedFacts(w, x, U);
    CanFlushThere(x.db, level);
    Flushed(x.db, level, bytes);
    ReachesNext(w, x, U, DoFlush(level, bytes));
  }

  lemma FlushOut(w: World, x: World, U: iset<Key>, bytes: nat) returns (y: World, level: nat, t: Table)
    requires Good(w) && Reaches(w, x, U) && Quiet(x.db) && x.db.mem != []
    ensures Reaches(w, y, U) && FlushedOut(x.db, y.db, level, t, bytes)
  {
    hide Good, Picked, Flush, InsertTable, Reaches;
    ReachedFacts(w, x, U);
    GoodFacts(x);
    var lo, hi := x.db.mem[0].key, x.db.mem[|x.db.mem| - 1].key;
    level := PickedExists(x.db.levels, lo, hi);
    PickedLevel(x.db.levels, lo, hi, level);
    var mid := x.(db := Switch(x.db));
    SwitchNext(w, x, U);
    Flushed(mid.db, level, bytes);
    t := FlushedTable(mid.db, bytes);
    y := mid.(db := Flush(mid.db, level, bytes));
    FlushNext(w, mid, U, level, bytes);
  }

  lemma PickedLevel(levels: seq<Level>, lo: Key, hi: Key, level: nat)
    requires |levels| == NUM_LEVELS && Picked(levels, lo, hi, level)
    ensures level <= MAX_MEM_COMPACT_LEVEL
  {
  }

  /** One key was written. */
  ghost predicate WroteOne(db: Db, db': Db, k: Key) {
    && db.last + 1 < MAX_SEQUENCE && db'.mem == [Entry(k, db.last + 1, Value, [])] && Quiet(db')
    && db'.levels == db.levels && db'.last == db.last + 1 && db'.job == db.job
  }

  lemma LogNext(w: World, x: World, U: iset<Key>, k: Key)
    requires Good(w) && Reaches(w, x, U) && CanLogWrite(x.db, [Put(k, [])]) && k in U
    ensures Reaches(w, x.(db := LogWrite(x.db, [Put(k, [])])), U)
  {
    hide Good, Reaches, InsertEntries;
    ReachedFacts(w, x, U);
    hide BatchEntries;
    PutInserted(x.db.last + 1, k, []);
    ReachesNext(w, x, U, DoLogWrite([Put(k, [])]));
  }

  lemma ApplyNext(w: World, x: World, U: iset<Key>)
    requires Good(w) && Reaches(w, x, U) && CanApplyWrite(x.db)
    ensures Reaches(w, World(ApplyWrite(x.db), x.history + BatchSet(x.db.inflight), x.floor), U)
  {
    hide Good, Reaches, InsertEntries, BatchEntries;
    ReachedFacts(w, x, U);
    ReachesNext(w, x, U, DoApplyWrite);
  }

  lemma WriteOne(w: World, x: World, U: iset<Key>, k: Key) returns (y: World)
    requires Good(w) && Reaches(w, x, U) && Quiet(x.db) && x.db.mem == [] && k in U
    requires x.db.last + 2 < MAX_SEQUENCE
    ensures Reaches(w, y, U) && WroteOne(x.db, y.db, k)
  {
    hide Good, InsertEntries, Reaches, BatchEntries, BatchSet, SameJob, Within;
    ReachedFacts(w, x, U);
    LogReady(x);
    LogNext(w, x, U, k);
    var mid := x.(db := LogWrite(x.db, [Put(k, [])]));
    ApplyNext(w, mid, U);
    PutInserted(x.db.last + 1, k, []);
    y := World(ApplyWrite(mid.db), mid.history + BatchSet(mid.db.inflight), mid.floor);
  }

  lemma LogReady(w: World)
    requires Good(w)
    ensures w.db.memLog in w.db.logs
  {
    hide Good;
    GoodFacts(w);
  }

  /** A table at the output level that covers a key inside an output is in the way. */
  lemma InTheWay(db: Db, outputs: Level, o: Table, t: Table, k: Key)
    requires Unobstructed(db, outputs) && o in outputs && Encloses(o, k) && Covers(t.entries, k)
    requires t in db.levels[db.job.value.level + 1]
    ensures t in db.job.value.version[db.job.value.level + 1]
  {
    assert !Clear(o, t);
  }

  lemma NotInVersion(w: World, t: Table, l: nat)
    requires Good(w) && w.db.job.Some? && l < NUM_LEVELS && t.number >= w.db.nextFile
    ensures |w.db.job.value.version| == NUM_LEVELS && t !in w.db.job.value.version[l]
  {
    hide Good, JobChosen, Sorted, Newer;
    GoodFacts(w);
  }

  /** The key is as free as before, and no memtable waits. */
  ghost predicate StillFree(db: Db, db': Db, m: nat, k: Key) {
    && |db.levels| == |db'.levels| == NUM_LEVELS && Quiet(db') && db'.mem == [] && db'.last == db.last
    && !Shut(db', m, k)
    && (Covers(db.mem, k) ==> !Held(db.levels[2], k) && Held(db'.levels[2], k))
  }

  /** Flushing the memtable: it gets in the way, or the key is as free as before. */
  lemma Round(w: World, x: World, outputs: Level, U: iset<Key>, o: Table, k: Key, bytes: nat) returns (y: World)
    requires Good(w) && Reaches(w, x, U) && Quiet(x.db) && x.db.mem != []
    requires w.db.job.Some? && o in outputs && Encloses(o, k) && bytes <= MAX_GRANDPARENT_OVERLAP_BYTES
    requires |x.db.levels| == NUM_LEVELS && !Shut(x.db, w.db.job.value.level + 1, k)
    ensures Reaches(w, y, U) && y.db.job == x.db.job
    ensures Unobstructed(y.db, outputs) ==> StillFree(x.db, y.db, w.db.job.value.level + 1, k)
  {
    hide Good, Reaches, Picked, InsertTable, Sinks, Unobstructed, Encloses;
    var db, m := x.db, w.db.job.value.level + 1;
    ReachedFacts(w, x, U);
    var level, t;
    y, level, t := FlushOut(w, x, U, bytes);
    ReachedFacts(w, y, U);
    if Unobstructed(y.db, outputs) {
      SinksIff(db.levels, db.mem[0].key, db.mem[|db.mem| - 1].key, level, m);
      if Covers(db.mem, k) {
        Landed(x, y, outputs, o, t, k, level);
        GoneDeeper(db.levels, db.mem, level, t, m, k);
      } else {
        SinksAfter(db.levels, level, t, k, k, m);
      }
    }
  }

  /** A table put at the output level would have been in the way. */
  lemma Landed(w: World, w': World, outputs: Level, o: Table, t: Table, k: Key, level: nat)
    requires Good(w) && Unobstructed(w'.db, outputs) && SameJob(w.db.job, w'.db.job) && t.number >= w.db.nextFile
    requires o in outputs && Encloses(o, k) && Covers(t.entries, k) && level < NUM_LEVELS && t in w'.db.levels[level]
    ensures level != w.db.job.value.level + 1
  {
    hide Good, Encloses;
    if level == w.db.job.value.level + 1 {
      InTheWay(w'.db, outputs, o, t, k);
      NotInVersion(w, t, level);
    }
  }

  lemma GoneDeeper(levels: seq<Level>, xs: seq<Entry>, level: nat, t: Table, m: nat, k: Key)
    requires |levels| == NUM_LEVELS && 0 < m < level <= MAX_MEM_COMPACT_LEVEL && t.entries == xs && Covers(xs, k)
    requires Picked(levels, xs[0].key, xs[|xs| - 1].key, level) && Sinks(levels, k, k, m)
    requires t.bytes <= MAX_GRANDPARENT_OVERLAP_BYTES
    ensures Sinks(levels[level := InsertTable(levels[level], t)], k, k, m)
    ensures level == 2 && !Held(levels[2], k) && Held(levels[level := InsertTable(levels[level], t)][2], k)
  {
    hide Picked, Sinks, InsertTable;
    var lo, hi := xs[0].key, xs[|xs| - 1].key;
    SinksIff(levels, lo, hi, level, level);
    SinksNarrow(levels, lo, hi, k, k, level);
    SinksAfter(levels, level, t, k, k, m);
    forall u | u in levels[2] ensures !Spans(u, k) {
      SinksPast(levels, k, k, level, 2, u);
    }
    assert t in InsertTable(levels[2], t) && Spans(t, k);
  }

  /** The key is written and flushed. */
  lemma WriteRound(w: World, x: World, outputs: Level, U: iset<Key>, o: Table, k: Key, bytes: nat) returns (y: World)
    requires Good(w) && Reaches(w, x, U) && Quiet(x.db) && x.db.mem == [] && x.db.last + 2 < MAX_SEQUENCE
    requires w.db.job.Some? && k in U && o in outputs && Encloses(o, k) && bytes <= MAX_GRANDPARENT_OVERLAP_BYTES
    requires |x.db.levels| == NUM_LEVELS && !Shut(x.db, w.db.job.value.level + 1, k)
    ensures Reaches(w, y, U) && y.db.job == x.db.job
    ensures Unobstructed(y.db, outputs) ==>
              && |y.db.levels| == NUM_LEVELS && !Shut(y.db, w.db.job.value.level + 1, k) && Quiet(y.db)
              && y.db.mem == [] && y.db.last == x.db.last + 1
              && !Held(x.db.levels[2], k) && Held(y.db.levels[2], k)
  {
    hide Good, Reaches, Sinks, Unobstructed, Encloses;
    var mid := WriteOne(w, x, U, k);
    y := Round(w, mid, outputs, U, o, k, bytes);
  }

  /** A free key inside an output, and nothing waiting: two writes of it are enough, whatever the size of the
      tables they make, up to the limit below. */
  lemma QuietDanger(w: World, x: World, outputs: Level, U: iset<Key>, o: Table, k: Key, bytes: nat) returns (y: World)
    requires Good(w) && w.db.job.Some? && Reaches(w, x, U) && Quiet(x.db) && x.db.last + 3 < MAX_SEQUENCE
    requires k in U && o in outputs && Encloses(o, k) && bytes <= MAX_GRANDPARENT_OVERLAP_BYTES
    requires |x.db.levels| == NUM_LEVELS && !Shut(x.db, w.db.job.value.level + 1, k)
    ensures Reaches(w, y, U) && y.db.job == x.db.job && !Unobstructed(y.db, outputs)
  {
    hide Good, Reaches, Sinks, Unobstructed, Encloses, Within, Shut;
    y := x;
    if x.db.mem != [] { y := Round(w, x, outputs, U, o, k, bytes); }
    if Unobstructed(y.db, outputs) {
      y := WriteRound(w, y, outputs, U, o, k, bytes);
      if Unobstructed(y.db, outputs) {
        y := WriteRound(w, y, outputs, U, o, k, bytes);
      }
    }
  }

  /** What was going to sink does, when the waiting memtable's table is small. */
  lemma SinksAfterEmpty(db: Db, level: nat, t: Table, lo: Key, hi: Key, m: nat)
    requires |db.levels| == NUM_LEVELS && db.imm.Some? && db.imm.value == t.entries && level < NUM_LEVELS
    requires Picked(db.levels, Smallest(t).key, Largest(t).key, level) && t.bytes == 0 && StillSinks(db, lo, hi, m)
    ensures Sinks(db.levels[level := InsertTable(db.levels[level], t)], lo, hi, m)
  {
    hide Sinks, Picked, InsertTable;
    SinksIff(db.levels, Smallest(t).key, Largest(t).key, level, m + 1);
    SinksAfter(db.levels, level, t, lo, hi, m);
  }

  /** The waiting memtable is written out: it gets in the way, or the key is as free as before. */
  lemma WaitingOut(w: World, x: World, outputs: Level, U: iset<Key>, o: Table, k: Key) returns (y: World)
    requires Good(w) && Reaches(w, x, U) && x.db.imm.Some? && x.db.inflight.None?
    requires w.db.job.Some? && o in outputs && Encloses(o, k)
    requires |x.db.levels| == NUM_LEVELS && !Shut(x.db, w.db.job.value.level + 1, k)
    ensures Reaches(w, y, U) && y.db.job == x.db.job
    ensures Unobstructed(y.db, outputs) ==>
              && Quiet(y.db) && y.db.last == x.db.last
              && |y.db.levels| == NUM_LEVELS && !Shut(y.db, w.db.job.value.level + 1, k)
  {
    hide Good, Reaches, Picked, InsertTable, Sinks, Unobstructed, Encloses, Flush;
    var db, m := x.db, w.db.job.value.level + 1;
    ReachedFacts(w, x, U);
    var xs, level := db.imm.value, 0;
    if xs != [] {
      level := PickedExists(db.levels, xs[0].key, xs[|xs| - 1].key);
      PickedLevel(db.levels, xs[0].key, xs[|xs| - 1].key, level);
    }
    FlushNext(w, x, U, level, 0);
    Flushed(db, level, 0);
    y := x.(db := Flush(db, level, 0));
    if xs != [] && Unobstructed(y.db, outputs) {
      WaitingFree(x, y, outputs, o, k, level);
    }
  }

  lemma WaitingFree(x: World, y: World, outputs: Level, o: Table, k: Key, level: nat)
    requires Good(x) && x.db.imm.Some? && x.db.imm.value != [] && x.db.inflight.None? && level < NUM_LEVELS
    requires |x.db.levels| == NUM_LEVELS && SameJob(x.db.job, y.db.job) && y.db.imm.None? && y.db.inflight.None?
    requires Picked(x.db.levels, x.db.imm.value[0].key, x.db.imm.value[|x.db.imm.value| - 1].key, level)
    requires y.db.levels == x.db.levels[level := InsertTable(x.db.levels[level], FlushedTable(x.db, 0))]
    requires y.db.mem == x.db.mem && Unobstructed(y.db, outputs) && o in outputs && Encloses(o, k)
    requires !Shut(x.db, x.db.job.value.level + 1, k)
    ensures !Shut(y.db, x.db.job.value.level + 1, k)
  {
    hide Good, Picked, InsertTable, Sinks, Unobstructed, Encloses;
    var db, m, t, ms := x.db, x.db.job.value.level + 1, FlushedTable(x.db, 0), x.db.mem;
    if Covers(t.entries, k) { Landed(x, y, outputs, o, t, k, level); }
    SinksIff(db.levels, Smallest(t).key, Largest(t).key, level, m);
    SinksIff(db.levels, Smallest(t).key, Largest(t).key, level, m + 1);
    SinksAfterEmpty(db, level, t, k, k, m);
    if Covers(ms, k) { SinksAfterEmpty(db, level, t, ms[0].key, ms[|ms| - 1].key, m); }
  }

  /** How many sequence numbers the write in flight will take. */
  function Flying(db: Db): nat {
    if db.inflight.Some? then |db.inflight.value.ops| else 0
  }

  /** A free key inside an output: when what waits has been written out, two writes of it are enough, whatever
      the size of the tables they make, up to the limit below. */
  lemma DangerReached(w: World, outputs: Level, U: iset<Key>, o: Table, k: Key, bytes: nat) returns (y: World)
    requires Good(w) && w.db.job.Some? && Within(w, U) && w.db.last + Flying(w.db) + 3 < MAX_SEQUENCE
    requires k in U && o in outputs && Encloses(o, k) && bytes <= MAX_GRANDPARENT_OVERLAP_BYTES
    requires |w.db.levels| == NUM_LEVELS && !Shut(w.db, w.db.job.value.level + 1, k)
    ensures Reaches(w, y, U) && y.db.job == w.db.job && !Unobstructed(y.db, outputs)
  {
    hide Good, Reaches, Sinks, Unobstructed, Encloses, Within, Shut, InsertEntries, BatchEntries;
    ReachesItself(w, U);
    y := w;
    if w.db.inflight.Some? {
      ApplyNext(w, w, U);
      y := World(ApplyWrite(w.db), w.history + BatchSet(w.db.inflight), w.floor);
      AppliedFree(w.db, w.db.job.value.level + 1, k);
    }
    if y.db.imm.Some? { y := WaitingOut(w, y, outputs, U, o, k); }
    if Unobstructed(y.db, outputs) { y := QuietDanger(w, y, outputs, U, o, k, bytes); }
  }

  lemma AppliedFree(db: Db, m: nat, k: Key)
    requires CanApplyWrite(db) && |db.levels| == NUM_LEVELS
    ensures Shut(ApplyWrite(db), m, k) <==> Shut(db, m, k)
  {
    hide Sinks, InsertEntries, BatchEntries;
  }

  /** However the store goes on while a compaction runs, its outputs can be installed, exactly when
      nothing is between them now and no key inside one of them can still get to their level. */
  lemma InstallableIff(w: World, outputs: Level, U: iset<Key>)
    requires Good(w) && w.db.job.Some? && Within(w, U) && w.db.last + Flying(w.db) + 3 < MAX_SEQUENCE
    ensures |w.db.levels| == NUM_LEVELS
    ensures (forall x | Reaches(w, x, U) :: Unobstructed(x.db, outputs))
       <==> Unobstructed(w.db, outputs) && !Endangered(w.db, outputs, U)
  {
    hide Good, Reaches, Unobstructed, Encloses, Within, Shut;
    GoodFacts(w);
    ReachesItself(w, U);
    if Unobstructed(w.db, outputs) && !Endangered(w.db, outputs, U) {
      forall x | Reaches(w, x, U) ensures Unobstructed(x.db, outputs) {
        ReachedSafe(w, x, outputs, U);
      }
    } else if Endangered(w.db, outputs, U) {
      var k, o :| k in U && o in outputs && Encloses(o, k) && !Shut(w.db, w.db.job.value.level + 1, k);
      var y := DangerReached(w, outputs, U, o, k, 1);
    }
  }

  /** Outputs installed all the same: their level is not sorted any more. */
  lemma ObstructedOverlaps(w: World, outputs: Level)
    requires Good(w) && w.db.job.Some? && Flat(outputs) == JobKept(w.db.job.value)
    requires NumbersIn(outputs) == w.db.job.value.numbers && !Unobstructed(w.db, outputs)
    ensures var r := Install(w.db, outputs).levels;
            |r| == NUM_LEVELS && w.db.job.value.level + 1 < NUM_LEVELS && !SortedLevel(r[w.db.job.value.level + 1])
  {
    hide Good, Flat, JobKept, Clear, JobChosen, Grown, Sorted, Newer, SortedLevel, Install, Rest, InsertAll,
         NumbersUnique, NumbersBelow;
    GoodFacts(w);
    NumberFacts(w);
    var job, levels := w.db.job.value, w.db.levels;
    ChosenSizes(job);
    var o, t :| o in outputs && t in levels[job.level + 1] && t !in job.version[job.level + 1] && !Clear(o, t);
    InstalledLevel(w.db, outputs);
    NewStays(job, levels, t);
    assert o.number in NumbersIn(outputs);
    StillOverlaps(Rest(levels[job.level + 1], job.in1), outputs, o, t);
  }

  lemma InstalledLevel(db: Db, outputs: Level)
    requires db.job.Some? && |db.levels| == NUM_LEVELS && db.job.value.level + 1 < NUM_LEVELS
    ensures var l := db.job.value.level + 1;
            |Install(db, outputs).levels| == NUM_LEVELS
            && Install(db, outputs).levels[l] == InsertAll(Rest(db.levels[l], db.job.value.in1), outputs)
  {
    hide Apply, InstallEdit, Rest, InsertAll;
    InstallLevels(db, outputs);
  }

  lemma StillOverlaps(files: Level, outputs: Level, o: Table, t: Table)
    requires t in files && o in outputs && o != t && !Clear(o, t)
    ensures !SortedLevel(InsertAll(files, outputs))
  {
    hide Clear, SortedLevel;
    var r := InsertAll(files, outputs);
    if SortedLevel(r) { OneSide(r, o, t); }
  }

  lemma NewStays(job: Job, levels: seq<Level>, t: Table)
    requires JobChosen(job) && Grown(job.version, levels) && NumbersUnique(levels)
    requires job.level + 1 < |levels| && |job.version| == NUM_LEVELS
    requires t in levels[job.level + 1] && t !in job.version[job.level + 1]
    ensures t in Rest(levels[job.level + 1], job.in1)
  {
    hide Grown, NumbersUnique, ValidVersion, ValidInputs, Rest;
    InputsFromVersion(job.version, job.level, job.in0, job.in1);
    InputsStillThere(job, levels);
    RestMember(levels, job.level + 1, job.in1, t);
  }

  lemma NumberFacts(w: World)
    requires Good(w)
    ensures NumbersUnique(w.db.levels)
    ensures forall l, t | w.db.job.Some? && 0 <= l < |w.db.levels| && t in w.db.levels[l] ::
              t.number !in w.db.job.value.numbers
  {
    hide Layers, Truthful, Logged, LastSaved, BatchesWithin, JobChosen, NumbersUnique, Grown;
  }

  lemma OneSide(files: Level, t: Table, u: Table)
    requires SortedLevel(files) && t in files && u in files && t != u
    ensures Clear(t, u)
  {
    var i :| 0 <= i < |files| && files[i] == t;
    var j :| 0 <= j < |files| && files[j] == u;
  }

  // ----- No gap, no danger -----

  /** Every key of `U` between two of the tables is spanned by one of them. */
  ghost predicate GaplessIn(files: Level, U: iset<Key>) {
    forall t, u, k | t in files && u in files && k in U && Between(t, u, k) :: Held(files, k)
  }

  lemma GaplessIsSafe(w: World, outputs: Level, U: iset<Key>)
    requires Good(w) && Unobstructed(w.db, outputs)
    requires GaplessIn(w.db.job.value.in0 + w.db.job.value.in1, U)
    ensures !Endangered(w.db, outputs, U)
  {
    hide Good, Flat, JobKept, JobChosen, Grown, Sinks, Sorted;
    GoodFacts(w);
    var job := w.db.job.value;
    forall k, o | k in U && o in outputs && Encloses(o, k) ensures Shut(w.db, job.level + 1, k) {
      InsideIsHeld(job, outputs, o, k, U);
      HeldIsShut(job, w.db.levels, k);
      BlockedIsShut(w.db, job.level + 1, k);
    }
  }

  lemma InsideIsHeld(job: Job, outputs: Level, o: Table, k: Key, U: iset<Key>)
    requires JobChosen(job) && Flat(outputs) == JobKept(job) && o in outputs && Encloses(o, k) && k in U
    requires GaplessIn(job.in0 + job.in1, U)
    ensures Held(job.in0 + job.in1, k)
  {
    hide JobChosen, Flat, JobKept;
    OutputBetween(job, outputs, o, Smallest(o));
    OutputBetween(job, outputs, o, Largest(o));
    var t :| t in job.in0 + job.in1 && Smallest(t).key <= Smallest(o).key <= Largest(t).key;
    var u :| u in job.in0 + job.in1 && Smallest(u).key <= Largest(o).key <= Largest(u).key;
    assert Between(t, u, k);
  }

  lemma BlockedIsShut(db: Db, m: nat, k: Key)
    requires |db.levels| == NUM_LEVELS && !Sinks(db.levels, k, k, m)
    ensures Shut(db, m, k)
  {
    hide Sinks, Coming;
    var xs := ImmSeq(db.imm);
    if Covers(xs, k) && Sinks(db.levels, xs[0].key, xs[|xs| - 1].key, m) {
      SinksNarrow(db.levels, xs[0].key, xs[|xs| - 1].key, k, k, m);
    }
  }

  lemma HeldIsShut(job: Job, levels: seq<Level>, k: Key)
    requires JobChosen(job) && Grown(job.version, levels) && |levels| == NUM_LEVELS && Held(job.in0 + job.in1, k)
    ensures !Sinks(levels, k, k, job.level + 1)
  {
    hide JobChosen, Grown, Sinks;
    InputsStillThere(job, levels);
    var u :| u in job.in0 + job.in1 && Spans(u, k);
    if Sinks(levels, k, k, job.level + 1) {
      SinksPast(levels, k, k, job.level + 1, if u in job.in0 then job.level else job.level + 1, u);
    }
  }
}
