/** Runs of a new database that reach split borders, and what moves and compactions then do to reads. */
module SplitRuns {
  import opened Wrappers
  import opened Entries
  import opened Versions
  import opened Selection
  import opened Compactions
  import opened Sinking
  import opened Edits
  import opened Engine
  import opened Steps
  import opened CompactionSteps
  import opened Moving
  import opened Runs
  import opened RunSteps
  import opened Borders

  // ----- One table merged with one of the next level -----

  lemma PairInput(job: Job, q: Table, p: Table)
    requires job.level > 0 && job.in0 == [q] && job.in1 == [p]
    ensures JobInput(job) == Merge(q.entries, p.entries)
  {
    OneFlat(q);
    OneFlat(p);
    var runs := InputRuns(job);
    assert runs == [q.entries, p.entries];
    assert runs[1..] == [p.entries] && |[p.entries][1..]| == 0;
    assert MergeAll([p.entries]) == Merge(p.entries, MergeAll([p.entries][1..])) == p.entries;
  }

  /** The next level inputs of the first table are `[p]`. */
  ghost predicate Over(levels: seq<Level>, level: nat, q: Table, p: Table) {
    && |levels| == NUM_LEVELS && 0 < level && level + 1 < NUM_LEVELS && Smallest(q).key <= Largest(q).key
    && Overlapping(levels[level + 1], Some(Smallest(q).key), Some(Largest(q).key)) == [p]
  }

  lemma OneTableOverlaps(p: Table, lo: Key, hi: Key)
    ensures Overlapping([p], Some(lo), Some(hi)) == if Meets(p, Some(lo), Some(hi)) then [p] else []
  {
    assert [p][..0] == [];
    assert Overlapping([], Some(lo), Some(hi)) == [];
  }

  lemma TwoTablesOverlap(t: Table, u: Table, lo: Key, hi: Key)
    ensures Overlapping([t, u], Some(lo), Some(hi))
         == (if Meets(t, Some(lo), Some(hi)) then [t] else []) + (if Meets(u, Some(lo), Some(hi)) then [u] else [])
  {
    assert [t, u][..1] == [t];
    OneTableOverlaps(t, lo, hi);
  }

  lemma RangeOfOne(q: Table)
    ensures IsRange([q], Smallest(q).key, Largest(q).key)
  {
    assert q in [q];
  }

  lemma RangeOfTwo(q: Table, p: Table)
    ensures IsRange([q] + [p], if Smallest(q).key < Smallest(p).key then Smallest(q).key else Smallest(p).key,
                    if Largest(q).key > Largest(p).key then Largest(q).key else Largest(p).key)
  {
    var both := [q] + [p];
    assert q in both && p in both;
  }

  lemma PairValid(levels: seq<Level>, level: nat, q: Table, p: Table)
    requires Over(levels, level, q, p) && q in levels[level]
    ensures ValidInputs(levels, level, [q], [p]) && !IsTrivialMove(levels, level, [q], [p])
  {
    RangeOfOne(q);
    var i :| 0 <= i < |levels[level]| && levels[level][i] == q;
    assert IsSlice(levels[level], [q], i, i + 1);
  }

  /** Alone in its level, the table is compacted with `[p]` and nothing more. */
  lemma AloneSetUp(levels: seq<Level>, level: nat, q: Table, p: Table)
    requires Over(levels, level, q, p) && levels[level] == [q]
    ensures SetUp(levels, level, [q], [q], [p])
  {
    hide IsRange, TotalFileSize;
    RangeOfOne(q);
    RangeOfTwo(q, p);
    var lo := if Smallest(q).key < Smallest(p).key then Smallest(q).key else Smallest(p).key;
    var hi := if Largest(q).key > Largest(p).key then Largest(q).key else Largest(p).key;
    OneTableOverlaps(q, lo, hi);
    var grown := Overlapping(levels[level], Some(lo), Some(hi));
    assert ExpandedTo(levels, level, [q], [p], grown, [q], [p]);
    IsExpanded(levels, level, [q], [p], [q], [p], lo, hi, Some(lo), Some(hi));
  }

  lemma PairCanBegin(db: Db, q: Table, p: Table)
    requires db.job.None? && Over(db.levels, 1, q, p) && db.levels[1] == [q] && db.levels[2] == [p]
    ensures CanBegin(db, 1, [q], [p])
  {
    hide ValidInputs, Over;
    assert Over(db.levels, 1, q, p);
    PairValid(db.levels, 1, q, p);
    PairSizes(db.levels, 1, q, p);
    assert LeftOut(db.levels[2], [p]) == {};
  }

  lemma PairSizes(levels: seq<Level>, level: nat, q: Table, p: Table)
    requires Over(levels, level, q, p)
    ensures |levels| == NUM_LEVELS && 0 < level && level + 1 < NUM_LEVELS
  {
  }

  /** They are merged and cut in two. */
  lemma PairSteps(ws: seq<World>, q: Table, p: Table, a: seq<Entry>, b: seq<Entry>, bytes: nat, levels: seq<Level>,
                  snapshots: seq<nat>, last: nat) returns (r: seq<World>, t: Table, u: Table)
    requires ws != [] && Chain(ws) && AtRest(Tip(ws).db, [], levels, snapshots, last) && a != [] && b != []
    requires Over(levels, 1, q, p) && levels[1] == [q] && levels[2] == [p] && Before(a[0], b[0])
    requires a + b == JobKept(Begin(Tip(ws).db, 1, [q], [p]).job.value)
    ensures |levels| == NUM_LEVELS && SetUp(levels, 1, [q], [q], [p]) && !IsTrivialMove(levels, 1, [q], [p])
    ensures r != [] && Chain(r) && ws <= r && t.entries == a && u.entries == b && t.number != u.number
    ensures t.bytes == u.bytes == bytes && AtRest(Tip(r).db, [], levels[1 := []][2 := [t, u]], snapshots, last)
  {
    hide Chain, CanBegin, JobKept, Over, Rest, InsertAll, SetUp, ValidInputs;
    PairCanBegin(Tip(ws).db, q, p);
    PairValid(levels, 1, q, p);
    AloneSetUp(levels, 1, q, p);
    r, t, u := CompactSteps(ws, 1, [q], [p], a, b, bytes, levels, snapshots, last);
    TwoPlaced(q, t, u);
    TwoPlaced(p, t, u);
  }

  lemma TwoPlaced(f: Table, t: Table, u: Table)
    requires Before(Smallest(t), Smallest(u))
    ensures Rest([f], [f]) == [] && InsertAll([], [t, u]) == [t, u]
  {
    assert f in [f];
    assert [f][1..] == [];
    assert f.number in Numbers([f]);
    assert Remove([f], Numbers([f])) == [] + Remove([f][1..], Numbers([f]));
    assert [t, u][..1] == [t] && [t][..0] == [];
    assert InsertAll([], [t]) == InsertTable(InsertAll([], []), t) == [t];
    assert InsertAll([], [t, u]) == InsertTable([t], u);
    assert [t][1..] == [];
    assert InsertTable([t], u) == [t] + InsertTable([], u);
  }

  lemma {:induction false} KeepsAll(xs: seq<Entry>, n: nat, smallest: nat, levels: seq<Level>, level: nat)
    requires n <= |xs| && forall i | 0 <= i < n :: !Drops(xs, i, smallest, levels, level)
    ensures Kept(xs, n, smallest, levels, level) == xs[..n]
  {
    if n > 0 {
      hide Drops;
      KeepsAll(xs, n - 1, smallest, levels, level);
      assert xs[..n] == xs[..n - 1] + [xs[n - 1]];
    }
  }

  // ----- One key, split -----

  /** What a write of `j` and a deletion of `k` leave in the memtable. */
  function Pair(j: Key, k: Key, w: Payload, n: Stamp): seq<Entry>
    requires n + 1 < MAX_SEQUENCE
  {
    [Entry(j, n, Value, w), Entry(k, n + 1, Deletion, [])]
  }

  lemma PairInserted(j: Key, k: Key, w: Payload, n: Stamp)
    requires j < k && n + 3 < MAX_SEQUENCE
    ensures InsertEntries([], BatchEntries(BatchRecord(n, [Put(j, w), Delete(k)]))) == Pair(j, k, w, n)
  {
    var b, c := Entry(j, n, Value, w), Entry(k, n + 1, Deletion, []);
    assert BatchEntries(BatchRecord(n, [Put(j, w), Delete(k)])) == [b, c];
    TwoInserted([], b, c);
    assert [b][1..] == [];
  }

  /** A write of `k`, flushed to level 2; a snapshot; a batch that deletes `k` again, flushed to level 1. */
  lemma FlushedBoth(full: seq<Entry> -> bool, sizeOf: seq<Entry> -> nat, j: Key, k: Key, v: Payload, w: Payload,
                    bytes: nat) returns (ws: seq<World>, q: Table, p: Table)
    requires j < k && bytes <= MAX_GRANDPARENT_OVERLAP_BYTES
    ensures ws != [] && Chain(ws) && ws[0] == NewDatabase(full, sizeOf)
    ensures q.entries == Pair(j, k, w, 2) && p.entries == [Entry(k, 1, Value, v)]
    ensures AtRest(Tip(ws).db, [], EmptyVersion()[2 := [p]][1 := [q]], [1], 3)
  {
    hide Chain, NewDatabase, AtRest, IsFlushLevel, InsertEntries, BatchEntries, Sinks, Misses;
    NewIsAtRest(full, sizeOf);
    OneChain(NewDatabase(full, sizeOf));
    EmptyMisses([Entry(k, 1, Value, v)]);
    FlushToTwo(EmptyVersion(), [Entry(k, 1, Value, v)]);
    var w1, w2, w3;
    w1, p := PutFlush([NewDatabase(full, sizeOf)], k, v, 2, bytes, EmptyVersion(), 0);
    var levels := EmptyVersion()[2 := [p]];
    assert InsertTable([], p) == [p];
    var none: seq<nat> := [];
    w2 := SnapshotSteps(w1, [], levels, none, 1);
    assert none + [1] == [1];
    w3 := WriteSteps(w2, [Put(j, w), Delete(k)], [], levels, [1], 1);
    PairInserted(j, k, w, 2);
    EmptyMisses(Pair(j, k, w, 2));
    MetBytesOne(p, j, k);
    OneMet([p], p, Pair(j, k, w, 2));
    FlushToOne(levels, Pair(j, k, w, 2));
    ws, q := FlushSteps(w3, 1, bytes, Pair(j, k, w, 2), levels, [1], 3);
    assert InsertTable([], q) == [q];
  }

  lemma EmptyMisses(xs: seq<Entry>)
    requires xs != []
    ensures Misses([], xs) && MetBytes([], xs[0].key, xs[|xs| - 1].key) == 0
  {
  }

  lemma OneMet(files: Level, t: Table, xs: seq<Entry>)
    requires t in files && xs != [] && Meets(t, Some(xs[0].key), Some(xs[|xs| - 1].key))
    ensures !Misses(files, xs)
  {
  }

  lemma SplitKept(job: Job, q: Table, p: Table, j: Key, k: Key, v: Payload, w: Payload)
    requires j < k && q.entries == Pair(j, k, w, 2) && p.entries == [Entry(k, 1, Value, v)] && job.smallest == 1
    requires job.level == 1 && job.in0 == [q] && job.in1 == [p]
    ensures JobKept(job) == q.entries + p.entries
  {
    PairInput(job, q, p);
    var xs := q.entries + p.entries;
    var a, b, c := q.entries[0], q.entries[1], p.entries[0];
    assert q.entries[1..] == [b] && [b][1..] == [];
    assert Merge([b], [c]) == [b] + Merge([], [c]);
    assert Merge(q.entries, [c]) == [a] + Merge([b], [c]) == xs;
    forall i | 0 <= i < 3 ensures !Drops(xs, i, 1, job.version, 1) {
      assert i == 0 || i == 1 || i == 2;
    }
    KeepsAll(xs, 3, 1, job.version, 1);
  }

  /** A run from the new database to a level whose two tables share a user key: the deletion ends the
      first, the value it deletes starts the second.  World `n` is the one the compaction starts from,
      and its inputs are the ones the code sets up for the table of level 1. */
  lemma SplitIsReached(full: seq<Entry> -> bool, sizeOf: seq<Entry> -> nat, j: Key, k: Key, v: Payload, w: Payload,
                       bytes: nat) returns (ws: seq<World>, n: nat, q: Table, p: Table, t: Table, u: Table)
    requires j < k && bytes <= MAX_GRANDPARENT_OVERLAP_BYTES
    ensures ws != [] && Chain(ws) && ws[0] == NewDatabase(full, sizeOf) && n < |ws| && |ws[n].db.levels| == NUM_LEVELS
    ensures q in ws[n].db.levels[1] && SetUp(ws[n].db.levels, 1, [q], [q], [p])
    ensures !IsTrivialMove(ws[n].db.levels, 1, [q], [p])
    ensures t.number != u.number && t.bytes == u.bytes == bytes
    ensures t.entries == Pair(j, k, w, 2) && u.entries == [Entry(k, 1, Value, v)]
    ensures AtRest(Tip(ws).db, [], EmptyVersion()[2 := [t, u]], [1], 3)
  {
    hide Chain, NewDatabase, JobKept, SetUp, Over;
    var before;
    before, q, p := FlushedBoth(full, sizeOf, j, k, v, w, bytes);
    n := |before| - 1;
    var levels := EmptyVersion()[2 := [p]][1 := [q]];
    IsOver(levels, 1, q, p);
    SplitKept(Begin(Tip(before).db, 1, [q], [p]).job.value, q, p, j, k, v, w);
    ws, t, u := PairSteps(before, q, p, q.entries, p.entries, bytes, levels, [1], 3);
    assert ws[n] == before[n];
    AloneSetUp(levels, 1, q, p);
    assert levels[1 := []][2 := [t, u]] == EmptyVersion()[2 := [t, u]];
  }

  lemma IsOver(levels: seq<Level>, level: nat, q: Table, p: Table)
    requires |levels| == NUM_LEVELS && 0 < level && level + 1 < NUM_LEVELS && levels[level + 1] == [p]
    requires Smallest(q).key <= Largest(q).key && Meets(p, Some(Smallest(q).key), Some(Largest(q).key))
    ensures Over(levels, level, q, p)
  {
    OneTableOverlaps(p, Smallest(q).key, Largest(q).key);
  }

  // ----- The first table is moved -----

  lemma MoveSetUp(levels: seq<Level>, t: Table, u: Table)
    requires |levels| == NUM_LEVELS && levels[2] == [t, u] && levels[3] == [] && levels[4] == []
    ensures SetUp(levels, 2, [t], [t], []) && IsTrivialMove(levels, 2, [t], []) && ValidInputs(levels, 2, [t], [])
  {
    RangeOfOne(t);
    var none: Level := [];
    assert Overlapping(none, Some(Smallest(t).key), Some(Largest(t).key)) == [];
    assert IsSlice(levels[2], [t], 0, 1);
  }

  /** In a reachable state the code sets the first table up for a compaction with nothing at the next level
      and moves it: a lookup of the deleted key finds the deleted value again. */
  lemma MoveRevives(full: seq<Entry> -> bool, sizeOf: seq<Entry> -> nat, j: Key, k: Key, v: Payload, w: Payload,
                    bytes: nat) returns (ws: seq<World>, t: Table)
    requires j < k && bytes <= MAX_GRANDPARENT_OVERLAP_BYTES
    ensures ws != [] && Chain(ws) && ws[0] == NewDatabase(full, sizeOf)
    ensures var db := Tip(ws).db;
            && |db.levels| == NUM_LEVELS && |db.levels[2]| == 2 && t == db.levels[2][0]
            && SetUp(db.levels, 2, [t], [t], []) && IsTrivialMove(db.levels, 2, [t], [])
            && BorderShared(db.levels[2], 0, 1) && db.last == 3
            && LookedUp(LayersOf(db), k, 3, Some(Entry(k, 3, Deletion, [])))
            && LookedUp(LayersOf(Move(db, 2, t)), k, 3, Some(Entry(k, 1, Value, v)))
  {
    hide Chain, NewDatabase, Inv, SetUp, IsTrivialMove, Movable, LookedUp, LayersOf, Move, ValidInputs;
    var n, q, p, u;
    ws, n, q, p, t, u := SplitIsReached(full, sizeOf, j, k, v, w, bytes);
    var db := Tip(ws).db;
    EveryRunIsGood(full, sizeOf, ws, |ws| - 1);
    MoveSetUp(db.levels, t, u);
    InvMovable(db, Tip(ws).history, Tip(ws).floor, 2, t);
    SharedBorderIsStale(db, 2, 0);
  }

  // ----- A later compaction drops the deletion -----

  /** A table for `j` alone, above the split. */
  lemma FlushedAbove(full: seq<Entry> -> bool, sizeOf: seq<Entry> -> nat, j: Key, k: Key, v: Payload, w: Payload,
                     x: Payload, bytes: nat) returns (ws: seq<World>, f: Table, t: Table, u: Table)
    requires j < k && bytes <= MAX_GRANDPARENT_OVERLAP_BYTES
    ensures ws != [] && Chain(ws) && ws[0] == NewDatabase(full, sizeOf) && f.entries == [Entry(j, 4, Value, x)]
    ensures t.entries == Pair(j, k, w, 2) && u.entries == [Entry(k, 1, Value, v)]
    ensures AtRest(Tip(ws).db, [], EmptyVersion()[2 := [t, u]][1 := [f]], [], 4)
  {
    hide Chain, NewDatabase, AtRest, IsFlushLevel, Misses, SetUp, IsTrivialMove;
    var w1, n, q, p;
    w1, n, q, p, t, u := SplitIsReached(full, sizeOf, j, k, v, w, bytes);
    var levels, xs := EmptyVersion()[2 := [t, u]], [Entry(j, 4, Value, x)];
    var w2 := ReleaseSteps(w1, [], levels, 1, 3);
    EmptyMisses(xs);
    OneMet([t, u], t, xs);
    MetBytesTwo(t, u, j, j);
    FlushToOne(levels, xs);
    ws, f := PutFlush(w2, j, x, 1, bytes, levels, 3);
    assert InsertTable([], f) == [f];
  }

  lemma AboveIsOver(levels: seq<Level>, f: Table, t: Table, u: Table)
    requires |levels| == NUM_LEVELS && levels[1] == [f] && levels[2] == [t, u]
    requires Smallest(f).key == Largest(f).key == Smallest(t).key <= Largest(t).key
    requires Smallest(f).key < Smallest(u).key
    ensures Over(levels, 1, f, t)
  {
    TwoTablesOverlap(t, u, Smallest(f).key, Smallest(f).key);
  }

  /** With nothing kept readable below 4: the older `j` is shadowed, and the deletion of `k` has
      nothing below it at the levels the code looks at. */
  lemma AboveKept(job: Job, f: Table, t: Table, j: Key, k: Key, w: Payload, x: Payload)
    requires j < k && job.level == 1 && job.in0 == [f] && job.in1 == [t] && job.smallest >= 4
    requires f.entries == [Entry(j, 4, Value, x)] && t.entries == Pair(j, k, w, 2)
    requires |job.version| == NUM_LEVELS && forall l | 3 <= l < NUM_LEVELS :: job.version[l] == []
    ensures JobKept(job) == f.entries && IsBase(job.version, 1, k)
  {
    PairInput(job, f, t);
    assert f.entries[1..] == [];
    assert Merge(f.entries, t.entries) == [f.entries[0]] + t.entries;
    var xs, s, v := JobInput(job), job.smallest, job.version;
    assert !Drops(xs, 0, s, v, 1) && Drops(xs, 1, s, v, 1) && Drops(xs, 2, s, v, 1);
    assert Kept(xs, 1, s, v, 1) == Kept(xs, 0, s, v, 1) + [xs[0]];
    assert Kept(xs, 2, s, v, 1) == [xs[0]];
  }

  lemma AboveUncovers(job: Job, S: set<Entry>, f: Table, t: Table, u: Table, k: Key, v: Payload)
    requires job.level == 1 && |job.version| == NUM_LEVELS && job.version[2] == [t, u] && job.in0 == [f]
    requires job.in1 == [t] && t != u && job.smallest == 4 && IsBase(job.version, 1, k)
    requires |t.entries| == 2 && t.entries[1] == Entry(k, 3, Deletion, []) && u.entries == [Entry(k, 1, Value, v)]
    requires forall d | d in S && d.key == k :: d.stamp <= 3
    ensures Uncovers(job, S, Entry(k, 3, Deletion, []), Entry(k, 1, Value, v))
  {
    var e, d := Entry(k, 3, Deletion, []), Entry(k, 1, Value, v);
    assert t in job.in0 + job.in1 && e in t.entries;
    assert u in [t, u] && d in u.entries && u !in [t];
    assert d in LeftOut(job.version[2], job.in1);
    forall y | y in LeftOut(job.version[2], job.in1) ensures y == d {
      assert y in u.entries;
    }
  }

  lemma AboveStored(db: Db, f: Table, t: Table, u: Table, j: Key, k: Key)
    requires db.mem == [] && db.imm.None? && |db.levels| == NUM_LEVELS && db.levels[1] == [f] && db.levels[2] == [t, u]
    requires forall l | 0 <= l < NUM_LEVELS && l != 1 && l != 2 :: db.levels[l] == []
    requires forall e | e in f.entries :: e.key == j != k
    requires forall e | e in t.entries + u.entries :: e.stamp <= 3
    ensures forall d | d in Stored(db) && d.key == k :: d.stamp <= 3
  {
    forall d | d in Stored(db) && d.key == k ensures d.stamp <= 3 {
      UpToMember(db.levels, |db.levels|, d);
      var l :| 0 <= l < |db.levels| && d in LevelSet(db.levels[l]);
      assert l == 1 || l == 2;
    }
  }

  /** A compaction with the inputs the code itself sets up for the table of level 1, no snapshot left: the
      deletion is dropped, the value it deleted stays in the table next door, and readers find it again. */
  lemma DropRevives(full: seq<Entry> -> bool, sizeOf: seq<Entry> -> nat, j: Key, k: Key, v: Payload, w: Payload,
                    x: Payload, bytes: nat) returns (ws: seq<World>, f: Table, t: Table, outputs: Level, s: nat)
    requires j < k && bytes <= MAX_GRANDPARENT_OVERLAP_BYTES
    ensures ws != [] && Chain(ws) && ws[0] == NewDatabase(full, sizeOf)
    ensures var db := Tip(ws).db;
            && |db.levels| == NUM_LEVELS && db.levels[1] == [f] && SetUp(db.levels, 1, [f], [f], [t])
            && !IsTrivialMove(db.levels, 1, [f], [t])
            && db.snapshots == [] && db.last == 4 <= s && CompactsTo(db, 1, [f], [t], outputs)
            && LookedUp(LayersOf(db), k, s, Some(Entry(k, 3, Deletion, [])))
            && LookedUp(LayersOf(Install(Begun(db, 1, [f], [t], outputs), outputs)), k, s, Some(Entry(k, 1, Value, v)))
  {
    hide Chain, NewDatabase, Inv, LookedUp, LayersOf, Install, Sane, Uncovers, Stored, ValidInputs, JobKept, SetUp,
         Over;
    var u;
    ws, f, t, u := FlushedAbove(full, sizeOf, j, k, v, w, x, bytes);
    var db := Tip(ws).db;
    EveryRunIsGood(full, sizeOf, ws, |ws| - 1);
    AboveIsOver(db.levels, f, t, u);
    PairValid(db.levels, 1, f, t);
    AloneSetUp(db.levels, 1, f, t);
    outputs := [TableFile(0, bytes, f.entries)];
    var mid := Begun(db, 1, [f], [t], outputs);
    AboveKept(mid.job.value, f, t, j, k, w, x);
    OneFlat(outputs[0]);
    BegunIsSane(db, Tip(ws).history, Tip(ws).floor, 1, [f], [t], outputs);
    AboveStored(mid, f, t, u, j, k);
    AboveUncovers(mid.job.value, Stored(mid), f, t, u, k, v);
    s := NoticedAt(mid, outputs, Entry(k, 3, Deletion, []), Entry(k, 1, Value, v));
    SameLayers(db, mid);
  }

  // ----- The first table is merged with one below, without the second -----

  lemma AloneCanMove(db: Db, f: Table, level: nat)
    requires db.job.None? && |db.levels| == NUM_LEVELS && 0 < level && level + 1 < NUM_LEVELS
    requires db.levels[level] == [f] && Misses(db.levels[level + 1], f.entries)
    ensures CanMove(db, level, f)
  {
    RangeOfOne(f);
    assert IsSlice(db.levels[level], [f], 0, 1);
    NothingOverlaps(db.levels[level + 1], f.entries);
  }

  lemma {:induction false} NothingOverlaps(files: Level, xs: seq<Entry>)
    requires xs != [] && Misses(files, xs)
    ensures Overlapping(files, Some(xs[0].key), Some(xs[|xs| - 1].key)) == []
  {
    if files != [] {
      var init := files[..|files| - 1];
      assert forall t | t in init :: t in files;
      NothingOverlaps(init, xs);
    }
  }

  /** A write that goes to level 2 and is moved on to level 3. */
  lemma PutDeep(ws: seq<World>, k: Key, v: Payload, bytes: nat, files: Level, last: nat)
    returns (r: seq<World>, z: Table)
    requires ws != [] && Chain(ws) && AtRest(Tip(ws).db, [], EmptyVersion()[3 := files], [], last)
    requires last + 2 < MAX_SEQUENCE && Misses(files, [Entry(k, last + 1, Value, v)])
    ensures r != [] && Chain(r) && ws <= r && z.entries == [Entry(k, last + 1, Value, v)] && z.bytes == bytes
    ensures AtRest(Tip(r).db, [], EmptyVersion()[3 := InsertTable(files, z)], [], last + 1)
  {
    hide Chain, IsFlushLevel, CanMove, Rest, Misses, Sinks;
    var xs, levels := [Entry(k, last + 1, Value, v)], EmptyVersion()[3 := files];
    EmptyMisses(xs);
    MissedBytes(files, xs);
    FlushToTwo(levels, xs);
    var mid;
    mid, z := PutFlush(ws, k, v, 2, bytes, levels, last);
    var flushed := levels[2 := [z]];
    assert InsertTable([], z) == [z];
    AloneCanMove(Tip(mid).db, z, 2);
    r := MoveSteps(mid, 2, z, flushed, [], last + 1);
    NothingRests(z);
    assert flushed[2 := []][3 := InsertTable(files, z)] == EmptyVersion()[3 := InsertTable(files, z)];
  }

  lemma MissedBytes(files: Level, xs: seq<Entry>)
    requires xs != [] && Misses(files, xs)
    ensures MetBytes(files, xs[0].key, xs[|xs| - 1].key) == 0
  {
    MetBytesNone(files, xs[0].key, xs[|xs| - 1].key);
  }

  lemma NothingRests(f: Table)
    ensures Rest([f], [f]) == []
  {
    assert f in [f];
    assert [f][1..] == [];
    assert f.number in Numbers([f]);
    assert Remove([f], Numbers([f])) == [] + Remove([f][1..], Numbers([f]));
  }

  /** Two tables at level 3. */
  lemma DeepTwo(full: seq<Entry> -> bool, sizeOf: seq<Entry> -> nat, j: Key, m: Key, x: Payload, bytes: nat)
    returns (ws: seq<World>, y: Table, z: Table)
    requires j < m
    ensures ws != [] && Chain(ws) && ws[0] == NewDatabase(full, sizeOf) && y.bytes == z.bytes == bytes
    ensures y.entries == [Entry(j, 1, Value, x)] && z.entries == [Entry(m, 2, Value, x)]
    ensures AtRest(Tip(ws).db, [], EmptyVersion()[3 := [y, z]], [], 2)
  {
    hide Chain, NewDatabase, AtRest, Misses;
    NewIsAtRest(full, sizeOf);
    OneChain(NewDatabase(full, sizeOf));
    EmptyMisses([Entry(j, 1, Value, x)]);
    assert EmptyVersion()[3 := []] == EmptyVersion();
    var w1;
    w1, y := PutDeep([NewDatabase(full, sizeOf)], j, x, bytes, [], 0);
    assert InsertTable([], y) == [y];
    AsideMisses(y, [Entry(m, 2, Value, x)]);
    ws, z := PutDeep(w1, m, x, bytes, [y], 1);
    InsertSecond(y, z);
  }

  lemma AsideMisses(t: Table, xs: seq<Entry>)
    requires xs != [] && (Largest(t).key < xs[0].key || xs[|xs| - 1].key < Smallest(t).key)
    ensures Misses([t], xs)
  {
  }

  function Two(k: Key, m: Key, v: Payload, x: Payload): seq<Entry> {
    [Entry(k, 3, Value, v), Entry(m, 4, Value, x)]
  }

  lemma TwoWritten(k: Key, m: Key, v: Payload, x: Payload)
    requires k < m
    ensures InsertEntries([], BatchEntries(BatchRecord(3, [Put(k, v), Put(m, x)]))) == Two(k, m, v, x)
  {
    var b, c := Entry(k, 3, Value, v), Entry(m, 4, Value, x);
    assert BatchEntries(BatchRecord(3, [Put(k, v), Put(m, x)])) == [b, c];
    TwoInserted([], b, c);
    assert [b][1..] == [];
  }

  /** Above them, `k` and `m` at level 2, and at level 1 a later `j` and the deletion of `k`. */
  lemma FlushedOver(full: seq<Entry> -> bool, sizeOf: seq<Entry> -> nat, j: Key, k: Key, m: Key, v: Payload, w: Payload,
                    x: Payload, bytes: nat) returns (ws: seq<World>, q: Table, p: Table, y: Table, z: Table)
    requires j < k < m && bytes <= MAX_GRANDPARENT_OVERLAP_BYTES
    ensures ws != [] && Chain(ws) && ws[0] == NewDatabase(full, sizeOf) && y.bytes == z.bytes == bytes
    ensures y.entries == [Entry(j, 1, Value, x)] && z.entries == [Entry(m, 2, Value, x)]
    ensures q.entries == Pair(j, k, w, 5) && p.entries == Two(k, m, v, x)
    ensures AtRest(Tip(ws).db, [], EmptyVersion()[3 := [y, z]][2 := [p]][1 := [q]], [4], 6)
  {
    hide Chain, NewDatabase, AtRest, IsFlushLevel, InsertEntries, BatchEntries, Sinks, Misses;
    var w1, w2, w3, w4, w5;
    w1, y, z := DeepTwo(full, sizeOf, j, m, x, bytes);
    var deep := EmptyVersion()[3 := [y, z]];
    w2 := WriteSteps(w1, [Put(k, v), Put(m, x)], [], deep, [], 2);
    TwoWritten(k, m, v, x);
    EmptyMisses(Two(k, m, v, x));
    MetBytesTwo(y, z, k, m);
    FlushToTwo(deep, Two(k, m, v, x));
    w3, p := FlushSteps(w2, 2, bytes, Two(k, m, v, x), deep, [], 4);
    assert InsertTable([], p) == [p];
    var levels := deep[2 := [p]];
    var none: seq<nat> := [];
    w4 := SnapshotSteps(w3, [], levels, none, 4);
    assert none + [4] == [4];
    w5 := WriteSteps(w4, [Put(j, w), Delete(k)], [], levels, [4], 4);
    PairInserted(j, k, w, 5);
    EmptyMisses(Pair(j, k, w, 5));
    MetBytesOne(p, j, k);
    OneMet([p], p, Pair(j, k, w, 5));
    FlushToOne(levels, Pair(j, k, w, 5));
    ws, q := FlushSteps(w5, 1, bytes, Pair(j, k, w, 5), levels, [4], 6);
    assert InsertTable([], q) == [q];
  }

  lemma OverKept(job: Job, q: Table, p: Table, j: Key, k: Key, m: Key, v: Payload, w: Payload, x: Payload)
    requires j < k < m && q.entries == Pair(j, k, w, 5) && p.entries == Two(k, m, v, x) && job.smallest == 4
    requires job.level == 1 && job.in0 == [q] && job.in1 == [p]
    ensures JobKept(job) == q.entries + p.entries
  {
    PairInput(job, q, p);
    var xs := q.entries + p.entries;
    var a, b := q.entries[0], q.entries[1];
    assert q.entries[1..] == [b] && [b][1..] == [];
    assert Merge([b], p.entries) == [b] + Merge([], p.entries);
    assert Merge(q.entries, p.entries) == [a] + Merge([b], p.entries) == xs;
    forall i | 0 <= i < 4 ensures !Drops(xs, i, 4, job.version, 1) {
      assert i == 0 || i == 1 || i == 2 || i == 3;
    }
    KeepsAll(xs, 4, 4, job.version, 1);
  }

  lemma SplitOver(full: seq<Entry> -> bool, sizeOf: seq<Entry> -> nat, j: Key, k: Key, m: Key, v: Payload, w: Payload,
                  x: Payload, bytes: nat) returns (ws: seq<World>, t: Table, u: Table, y: Table, z: Table)
    requires j < k < m && bytes <= MAX_GRANDPARENT_OVERLAP_BYTES
    ensures ws != [] && Chain(ws) && ws[0] == NewDatabase(full, sizeOf) && t.number != u.number
    ensures y.entries == [Entry(j, 1, Value, x)] && z.entries == [Entry(m, 2, Value, x)]
    ensures t.entries == Pair(j, k, w, 5) && u.entries == Two(k, m, v, x)
    ensures AtRest(Tip(ws).db, [], EmptyVersion()[3 := [y, z]][2 := [t, u]], [4], 6)
  {
    hide Chain, NewDatabase, JobKept, Over;
    var before, q, p;
    before, q, p, y, z := FlushedOver(full, sizeOf, j, k, m, v, w, x, bytes);
    var deep := EmptyVersion()[3 := [y, z]];
    var levels := deep[2 := [p]][1 := [q]];
    IsOver(levels, 1, q, p);
    OverKept(Begin(Tip(before).db, 1, [q], [p]).job.value, q, p, j, k, m, v, w, x);
    ws, t, u := PairSteps(before, q, p, q.entries, p.entries, bytes, levels, [4], 6);
    assert levels[1 := []][2 := [t, u]] == deep[2 := [t, u]];
  }

  /** The code would take the second table in too, but that would add a table of the next level. */
  lemma MergeSetUp(levels: seq<Level>, t: Table, u: Table, y: Table, z: Table)
    requires |levels| == NUM_LEVELS && levels[2] == [t, u] && levels[3] == [y, z]
    requires Smallest(y).key == Largest(y).key == Smallest(t).key < Largest(t).key == Smallest(u).key < Largest(u).key
    requires Smallest(z).key == Largest(z).key == Largest(u).key
    ensures Over(levels, 2, t, y) && SetUp(levels, 2, [t], [t], [y])
  {
    hide IsRange, TotalFileSize, ExpandedTo;
    var lo, mid, hi := Smallest(t).key, Largest(t).key, Largest(u).key;
    RangeOfOne(t);
    TwoTablesOverlap(y, z, lo, mid);
    RangeOfTwo(t, y);
    TwoTablesOverlap(t, u, lo, mid);
    var grown := Overlapping(levels[2], Some(lo), Some(mid));
    assert grown == [t] + [u];
    RangeOfTwo(t, u);
    TwoTablesOverlap(y, z, lo, hi);
    if TotalFileSize([y]) + TotalFileSize(grown) < EXPANDED_COMPACTION_BYTE_SIZE_LIMIT {
      WhenMore(levels, 2, [t], [y], grown, lo, hi);
    } else {
      WhenNot(levels, 2, [t], [y], grown);
    }
    IsExpanded(levels, 2, [t], [y], [t], [y], lo, mid, Some(lo), Some(mid));
  }

  lemma MergeKept(job: Job, t: Table, y: Table, j: Key, k: Key, w: Payload, x: Payload)
    requires j < k && t.entries == Pair(j, k, w, 5) && y.entries == [Entry(j, 1, Value, x)] && job.smallest == 4
    requires job.level == 2 && job.in0 == [t] && job.in1 == [y]
    ensures JobKept(job) == [t.entries[0], y.entries[0], t.entries[1]]
  {
    PairInput(job, t, y);
    var a, b, c := t.entries[0], t.entries[1], y.entries[0];
    var xs := [a, c, b];
    assert t.entries[1..] == [b] && y.entries[1..] == [];
    assert Merge([b], []) == [b];
    assert Merge([b], [c]) == [c] + Merge([b], [c][1..]) == [c] + [b];
    assert Merge(t.entries, [c]) == [a] + Merge([b], [c]) == xs;
    forall i | 0 <= i < 3 ensures !Drops(xs, i, 4, job.version, 2) {
      assert i == 0 || i == 1 || i == 2;
    }
    KeepsAll(xs, 3, 4, job.version, 2);
  }

  /** A compaction with the inputs the code sets up for the first table, which it has to merge: readers from
      sequence number 6 on find the deleted value again. */
  lemma MergeRevives(full: seq<Entry> -> bool, sizeOf: seq<Entry> -> nat, j: Key, k: Key, m: Key, v: Payload,
                     w: Payload, x: Payload, bytes: nat) returns (ws: seq<World>, t: Table, y: Table, outputs: Level)
    requires j < k < m && bytes <= MAX_GRANDPARENT_OVERLAP_BYTES
    ensures ws != [] && Chain(ws) && ws[0] == NewDatabase(full, sizeOf)
    ensures var db := Tip(ws).db;
            && |db.levels| == NUM_LEVELS && t in db.levels[2] && SetUp(db.levels, 2, [t], [t], [y])
            && !IsTrivialMove(db.levels, 2, [t], [y]) && db.last == 6 && CompactsTo(db, 2, [t], [y], outputs)
            && LookedUp(LayersOf(db), k, 6, Some(Entry(k, 6, Deletion, [])))
            && LookedUp(LayersOf(Install(Begun(db, 2, [t], [y], outputs), outputs)), k, 6, Some(Entry(k, 3, Value, v)))
  {
    hide Chain, NewDatabase, Inv, LookedUp, LayersOf, Install, Sane, ValidInputs, JobKept, SetUp, Over;
    var u, z;
    ws, t, u, y, z := SplitOver(full, sizeOf, j, k, m, v, w, x, bytes);
    var db := Tip(ws).db;
    EveryRunIsGood(full, sizeOf, ws, |ws| - 1);
    MergeSetUp(db.levels, t, u, y, z);
    PairValid(db.levels, 2, t, y);
    outputs := [TableFile(0, bytes, [t.entries[0], y.entries[0], t.entries[1]])];
    var mid := Begun(db, 2, [t], [y], outputs);
    MergeKept(mid.job.value, t, y, j, k, w, x);
    OneFlat(outputs[0]);
    BegunIsSane(db, Tip(ws).history, Tip(ws).floor, 2, [t], [y], outputs);
    assert IsSlice(mid.job.value.version[2], [t], 0, 1);
    SharedBorderGoesStale(mid, outputs, 0, 1);
    SameLayers(db, mid);
  }
}
