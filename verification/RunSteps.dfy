/** Building runs: the steps of the store, put together. */
module RunSteps {
  import opened Wrappers
  import opened Entries
  import opened Versions
  import opened Selection
  import opened Compactions
  import opened Sinking
  import opened Edits
  import opened Engine
  import opened Steps
  import opened CompactionSteps
  import opened Moving
  import Reopening
  import opened Runs

  ghost function Tip(ws: seq<World>): World
    requires ws != []
  {
    ws[|ws| - 1]
  }

  /** The next world of a run. */
  lemma Then(ws: seq<World>, a: Action) returns (r: seq<World>)
    requires ws != [] && Chain(ws) && Enabled(Tip(ws), a)
    ensures r != [] && Chain(r) && ws <= r && Tip(r) == Step(Tip(ws), a)
  {
    hide Enabled, Step;
    r := ws + [Step(Tip(ws), a)];
    forall i | 0 < i < |r| ensures Follows(r[i - 1], r[i]) {
      if i < |ws| { assert Follows(ws[i - 1], ws[i]); }
    }
  }

  /** Between steps: nothing in flight, no compaction running. */
  ghost predicate AtRest(db: Db, mem: seq<Entry>, levels: seq<Level>, snapshots: seq<nat>, last: nat) {
    && db.mem == mem && db.imm == None && db.inflight == None && db.job == None
    && db.levels == levels && db.snapshots == snapshots && db.last == last && db.memLog in db.logs
  }

  lemma WriteSteps(ws: seq<World>, ops: seq<Op>, mem: seq<Entry>, levels: seq<Level>, snapshots: seq<nat>, last: nat)
    returns (r: seq<World>)
    requires ws != [] && Chain(ws) && AtRest(Tip(ws).db, mem, levels, snapshots, last)
             && last + |ops| + 1 < MAX_SEQUENCE
    ensures r != [] && Chain(r) && ws <= r && last + 1 + |ops| <= MAX_SEQUENCE
    ensures AtRest(Tip(r).db, InsertEntries(mem, BatchEntries(BatchRecord(last + 1, ops))), levels, snapshots,
                   last + |ops|)
  {
    hide Chain, InsertEntries, BatchEntries;
    var a := Then(ws, DoLogWrite(ops));
    r := Then(a, DoApplyWrite);
  }

  lemma SnapshotSteps(ws: seq<World>, mem: seq<Entry>, levels: seq<Level>, snapshots: seq<nat>, last: nat)
    returns (r: seq<World>)
    requires ws != [] && Chain(ws) && AtRest(Tip(ws).db, mem, levels, snapshots, last)
    ensures r != [] && Chain(r) && ws <= r && AtRest(Tip(r).db, mem, levels, snapshots + [last], last)
  {
    hide Chain;
    r := Then(ws, DoSnapshot);
  }

  lemma ReleaseSteps(ws: seq<World>, mem: seq<Entry>, levels: seq<Level>, s: nat, last: nat) returns (r: seq<World>)
    requires ws != [] && Chain(ws) && AtRest(Tip(ws).db, mem, levels, [s], last)
    ensures r != [] && Chain(r) && ws <= r && AtRest(Tip(r).db, mem, levels, [], last)
  {
    hide Chain;
    r := Then(ws, DoRelease(0));
    assert [s][..0] + [s][1..] == [];
  }

  lemma FlushSteps(ws: seq<World>, level: nat, bytes: nat, mem: seq<Entry>, levels: seq<Level>, snapshots: seq<nat>,
                   last: nat) returns (r: seq<World>, t: Table)
    requires ws != [] && Chain(ws) && AtRest(Tip(ws).db, mem, levels, snapshots, last) && mem != []
    requires |levels| == NUM_LEVELS && level < NUM_LEVELS && IsFlushLevel(levels, mem, level)
    ensures r != [] && Chain(r) && ws <= r && t.entries == mem && t.bytes == bytes
    ensures AtRest(Tip(r).db, [], levels[level := InsertTable(levels[level], t)], snapshots, last)
  {
    hide Chain, IsFlushLevel, InsertTable, Apply;
    var a := Then(ws, DoSwitch);
    var db := Tip(a).db;
    t := TableFile(db.nextFile, bytes, mem);
    ApplyAdd(levels, FlushEdit(db, level, bytes), level, t);
    r := Then(a, DoFlush(level, bytes));
  }

  /** A compaction begins and opens one output. */
  lemma OpenOne(ws: seq<World>, level: nat, in0: Level, in1: Level) returns (r: seq<World>, n: nat)
    requires ws != [] && Chain(ws) && Tip(ws).db.job.None? && CanBegin(Tip(ws).db, level, in0, in1)
    ensures r != [] && Chain(r) && ws <= r
    ensures var db, db' := Tip(ws).db, Tip(r).db;
            && db'.job == Some(Job(level, in0, in1, OldestReadable(db), db.levels, [n]))
            && db'.levels == db.levels && db'.mem == db.mem && db'.imm == db.imm && db'.inflight == db.inflight
            && db'.last == db.last && db'.snapshots == db.snapshots && Tip(r).history == Tip(ws).history
            && Tip(r).floor == Tip(ws).floor && db'.memLog == db.memLog && db'.logs == db.logs
  {
    hide Chain, CanBegin;
    var mid := Then(ws, DoBegin(level, in0, in1));
    n := Tip(mid).db.nextFile;
    r := Then(mid, DoOpenOutput);
    assert Tip(r).db.job.value.numbers == [] + [n] == [n];
  }

  /** A compaction begins and opens two outputs. */
  lemma OpenTwo(ws: seq<World>, level: nat, in0: Level, in1: Level) returns (r: seq<World>)
    requires ws != [] && Chain(ws) && Tip(ws).db.job.None? && CanBegin(Tip(ws).db, level, in0, in1)
    ensures r != [] && Chain(r) && ws <= r
    ensures var db, db' := Tip(ws).db, Tip(r).db;
            && db'.job == Some(Begin(db, level, in0, in1).job.value.(numbers := [db.nextFile, db.nextFile + 1]))
            && db'.(job := db.job, nextFile := db.nextFile, pending := db.pending, tables := db.tables) == db
  {
    hide Chain, CanBegin;
    var n := Tip(ws).db.nextFile;
    var w1 := Then(ws, DoBegin(level, in0, in1));
    var w2 := Then(w1, DoOpenOutput);
    assert Tip(w2).db.job.value.numbers == [n];
    r := Then(w2, DoOpenOutput);
    assert Tip(r).db.job.value.numbers == [n] + [n + 1] == [n, n + 1];
  }

  /** The two outputs are installed. */
  lemma InstallTwo(ws: seq<World>, t: Table, u: Table) returns (r: seq<World>)
    requires ws != [] && Chain(ws) && Tip(ws).db.job.Some? && CanInstall(Tip(ws).db, [t, u])
    ensures r != [] && Chain(r) && ws <= r && Tip(r).db == Install(Tip(ws).db, [t, u])
  {
    hide Chain, CanInstall, Install;
    r := Then(ws, DoInstall([t, u]));
  }

  /** A compaction with two outputs, from start to end. */
  lemma CompactSteps(ws: seq<World>, level: nat, in0: Level, in1: Level, a: seq<Entry>, b: seq<Entry>, bytes: nat,
                     levels: seq<Level>, snapshots: seq<nat>, last: nat) returns (r: seq<World>, t: Table, u: Table)
    requires ws != [] && Chain(ws) && AtRest(Tip(ws).db, [], levels, snapshots, last) && a != [] && b != []
    requires CanBegin(Tip(ws).db, level, in0, in1)
    requires a + b == JobKept(Begin(Tip(ws).db, level, in0, in1).job.value)
    ensures |levels| == NUM_LEVELS && level + 1 < NUM_LEVELS
    ensures r != [] && Chain(r) && ws <= r && t.entries == a && u.entries == b && t.number != u.number
    ensures t.bytes == u.bytes == bytes
    ensures AtRest(Tip(r).db, [], levels[level := Rest(levels[level], in0)]
                                        [level + 1 := InsertAll(Rest(levels[level + 1], in1), [t, u])], snapshots, last)
  {
    hide Chain, CanBegin, JobKept, InsertAll, Rest, Apply, InstallEdit, Flat, Enabled, Step, CanInstall;
    BeginSizes(Tip(ws).db, level, in0, in1);
    var mid := OpenTwo(ws, level, in0, in1);
    var db := Tip(mid).db;
    var job := db.job.value;
    t, u := TableFile(job.numbers[0], bytes, a), TableFile(job.numbers[1], bytes, b);
    SameKept(Begin(Tip(ws).db, level, in0, in1).job.value, job);
    TwoInstall(db, t, u);
    InstallLevels(db, [t, u]);
    r := InstallTwo(mid, t, u);
  }

  lemma TwoInstall(db: Db, t: Table, u: Table)
    requires db.job.Some? && db.job.value.numbers == [t.number, u.number] && db.job.value.version == db.levels
    requires |db.levels| == NUM_LEVELS && db.job.value.level + 1 < NUM_LEVELS
    requires t.entries + u.entries == JobKept(db.job.value)
    ensures CanInstall(db, [t, u])
  {
    hide JobKept;
    TwoFlat(t, u);
  }

  lemma BeginSizes(db: Db, level: nat, in0: Level, in1: Level)
    requires CanBegin(db, level, in0, in1)
    ensures |db.levels| == NUM_LEVELS && level + 1 < NUM_LEVELS
  {
  }

  lemma TwoFlat(t: Table, u: Table)
    ensures Flat([t, u]) == t.entries + u.entries
  {
    assert [t, u][..1] == [t] && [t][..0] == [];
    assert Flat([t]) == Flat([]) + t.entries;
  }

  lemma OneInserted(xs: seq<Entry>, e: Entry)
    ensures InsertEntries(xs, [e]) == InsertEntry(xs, e)
  {
    assert [e][..0] == [];
    assert InsertEntries(xs, []) == xs;
  }

  lemma TwoInserted(xs: seq<Entry>, d: Entry, e: Entry)
    ensures InsertEntries(xs, [d, e]) == InsertEntry(InsertEntry(xs, d), e)
  {
    OneInserted(xs, d);
    assert [d, e][..1] == [d];
  }

  lemma PutInserted(n: Stamp, k: Key, v: Payload)
    requires n + 1 < MAX_SEQUENCE
    ensures BatchEntries(BatchRecord(n, [Put(k, v)])) == [Entry(k, n, Value, v)]
    ensures InsertEntries([], BatchEntries(BatchRecord(n, [Put(k, v)]))) == [Entry(k, n, Value, v)]
  {
    OneInserted([], Entry(k, n, Value, v));
  }

  /** A write to the empty memtable, flushed at once. */
  lemma PutFlush(ws: seq<World>, k: Key, v: Payload, level: nat, bytes: nat, levels: seq<Level>, last: nat)
    returns (r: seq<World>, t: Table)
    requires ws != [] && Chain(ws) && AtRest(Tip(ws).db, [], levels, [], last) && last + 2 < MAX_SEQUENCE
    requires |levels| == NUM_LEVELS && level < NUM_LEVELS
    requires IsFlushLevel(levels, [Entry(k, last + 1, Value, v)], level)
    ensures r != [] && Chain(r) && ws <= r && t.entries == [Entry(k, last + 1, Value, v)] && t.bytes == bytes
    ensures AtRest(Tip(r).db, [], levels[level := InsertTable(levels[level], t)], [], last + 1)
  {
    hide Chain, AtRest, IsFlushLevel, InsertTable, InsertEntries, BatchEntries;
    PutInserted(last + 1, k, v);
    var mid := WriteSteps(ws, [Put(k, v)], [], levels, [], last);
    r, t := FlushSteps(mid, level, bytes, [Entry(k, last + 1, Value, v)], levels, [], last + 1);
  }

  /** A trivial move. */
  lemma MoveSteps(ws: seq<World>, level: nat, f: Table, levels: seq<Level>, snapshots: seq<nat>, last: nat)
    returns (r: seq<World>)
    requires ws != [] && Chain(ws) && AtRest(Tip(ws).db, [], levels, snapshots, last)
    requires CanMove(Tip(ws).db, level, f)
    ensures |levels| == NUM_LEVELS && level + 1 < NUM_LEVELS && r != [] && Chain(r) && ws <= r
    ensures AtRest(Tip(r).db, [], levels[level := Rest(levels[level], [f])]
                                        [level + 1 := InsertTable(levels[level + 1], f)], snapshots, last)
  {
    hide Chain, CanMove, Rest, InsertTable, Apply, MoveEdit;
    MoveSizes(Tip(ws).db, level, f);
    MoveLevels(Tip(ws).db, level, f);
    r := Then(ws, DoMove(level, f));
  }

  lemma MoveSizes(db: Db, level: nat, f: Table)
    requires CanMove(db, level, f)
    ensures |db.levels| == NUM_LEVELS && level + 1 < NUM_LEVELS
  {
  }

  // ----- Where memtables go -----

  /** Nothing of the level meets the memtable's range. */
  predicate Misses(files: Level, xs: seq<Entry>)
    requires xs != []
  {
    forall t | t in files :: !Meets(t, Some(xs[0].key), Some(xs[|xs| - 1].key))
  }

  lemma FlushToTwo(levels: seq<Level>, xs: seq<Entry>)
    requires |levels| == NUM_LEVELS && xs != [] && levels[0] == [] && Misses(levels[1], xs) && Misses(levels[2], xs)
    requires MetBytes(levels[3], xs[0].key, xs[|xs| - 1].key) <= MAX_GRANDPARENT_OVERLAP_BYTES
    ensures IsFlushLevel(levels, xs, 2) && Sinks(levels, xs[0].key, xs[|xs| - 1].key, 2)
  {
    hide Blocked;
    var lo, hi := xs[0].key, xs[|xs| - 1].key;
    BlockedIs(levels, 0, lo, hi);
    BlockedIs(levels, 1, lo, hi);
    MetBytesNone(levels[2], lo, hi);
  }

  lemma FlushToOne(levels: seq<Level>, xs: seq<Entry>)
    requires |levels| == NUM_LEVELS && xs != [] && levels[0] == [] && Misses(levels[1], xs) && !Misses(levels[2], xs)
    requires MetBytes(levels[2], xs[0].key, xs[|xs| - 1].key) <= MAX_GRANDPARENT_OVERLAP_BYTES
    ensures IsFlushLevel(levels, xs, 1)
  {
    hide Blocked;
    var lo, hi := xs[0].key, xs[|xs| - 1].key;
    BlockedIs(levels, 0, lo, hi);
    BlockedIs(levels, 1, lo, hi);
  }

  lemma MetBytesOne(t: Table, lo: Key, hi: Key)
    ensures MetBytes([t], lo, hi) <= t.bytes && MetBytes([], lo, hi) == 0
  {
    assert [t][1..] == [];
  }

  lemma MetBytesTwo(t: Table, u: Table, lo: Key, hi: Key)
    ensures MetBytes([t, u], lo, hi) <= t.bytes + u.bytes
    ensures !Meets(u, Some(lo), Some(hi)) ==> MetBytes([t, u], lo, hi) <= t.bytes
    ensures !Meets(t, Some(lo), Some(hi)) ==> MetBytes([t, u], lo, hi) <= u.bytes
  {
    assert [t, u][1..] == [u];
    MetBytesOne(u, lo, hi);
  }

  lemma InsertSecond(t: Table, u: Table)
    requires Smallest(t).key < Smallest(u).key
    ensures InsertTable([t], u) == [t, u]
  {
    assert [t][1..] == [];
    assert InsertTable([t], u) == [t] + InsertTable([], u);
  }

  lemma NewIsAtRest(full: seq<Entry> -> bool, sizeOf: seq<Entry> -> nat)
    ensures AtRest(NewDatabase(full, sizeOf).db, [], EmptyVersion(), [], 0)
  {
    var first := Edit({}, [], 0, 2, 0);
    var empty, edit := EmptyVersion(), Edit({}, At(0, []), 3, 4, 0);
    assert [first][..0] == [];
    ApplyNothing(empty, first);
    assert Replay([first]) == empty;
    assert VersionNumbers(empty) == {};
    ApplyNothing(empty, edit);
    NewDatabaseIs(full, sizeOf, Db([], None, None, empty, [], 0, [], None, {}, 3, 3, 4, map[3 := []], {},
                                   [Reopening.SnapshotEdit(empty), edit]));
  }

  lemma OneChain(w: World)
    ensures Chain([w])
  {
  }

  lemma OneFlat(t: Table)
    ensures Flat([t]) == t.entries
  {
    assert [t][..0] == [];
    assert Flat([]) == [];
  }
}
