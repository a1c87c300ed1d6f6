/** A run of a new database in which a flush gets between the outputs of a manual compaction, and the
    keys that are byte strings. */
module GapRuns {
  import opened Wrappers
  import opened Coding
  import opened KeyOrder
  import opened Entries
  import opened Versions
  import opened Selection
  import opened Compactions
  import opened Edits
  import opened Engine
  import opened Steps
  import opened CompactionSteps
  import opened Runs
  import opened RunSteps
  import opened Borders
  import opened Sinking
  import Fences
  import opened Gaps

  // ----- Two tables with a gap -----

  /** A table that holds one value. */
  predicate Alone(t: Table, k: Key, s: Stamp, v: Payload, bytes: nat) {
    t.entries == [Entry(k, s, Value, v)] && t.bytes == bytes
  }

  lemma ApartMisses(files: Level, k: Key, s: Stamp, v: Payload)
    requires forall t | t in files :: !Spans(t, k)
    ensures Misses(files, [Entry(k, s, Value, v)])
  {
  }

  lemma SpannedIsMet(files: Level, t: Table, k: Key, s: Stamp, v: Payload)
    requires t in files && Spans(t, k)
    ensures !Misses(files, [Entry(k, s, Value, v)])
  {
    assert Meets(t, Some(k), Some(k));
  }

  lemma NoBytes(k: Key)
    ensures MetBytes([], k, k) == 0
  {
  }

  /** Two keys, each written and flushed once. */
  lemma FlushedTwo(full: seq<Entry> -> bool, sizeOf: seq<Entry> -> nat, a: Key, c: Key, v: Payload, bytes: nat)
    returns (ws: seq<World>, t: Table, u: Table)
    requires a < c
    ensures ws != [] && Chain(ws) && ws[0] == NewDatabase(full, sizeOf)
    ensures Alone(t, a, 1, v, bytes) && Alone(u, c, 2, v, bytes)
    ensures AtRest(Tip(ws).db, [], EmptyVersion()[2 := [t, u]], [], 2)
  {
    hide Chain, NewDatabase, IsFlushLevel, AtRest, Sinks, Misses;
    NewIsAtRest(full, sizeOf);
    OneChain(NewDatabase(full, sizeOf));
    ApartMisses([], a, 1, v);
    ApartMisses([], c, 2, v);
    NoBytes(a);
    NoBytes(c);
    FlushToTwo(EmptyVersion(), [Entry(a, 1, Value, v)]);
    var w1;
    w1, t := PutFlush([NewDatabase(full, sizeOf)], a, v, 2, bytes, EmptyVersion(), 0);
    var levels := EmptyVersion()[2 := [t]];
    assert InsertTable([], t) == [t];
    ApartMisses([t], c, 2, v);
    FlushToTwo(levels, [Entry(c, 2, Value, v)]);
    ws, u := PutFlush(w1, c, v, 2, bytes, levels, 1);
    InsertSecond(t, u);
    assert levels[2 := [t, u]] == EmptyVersion()[2 := [t, u]];
  }

  /** And once more: the second time they stop one level higher. */
  lemma FlushedFour(full: seq<Entry> -> bool, sizeOf: seq<Entry> -> nat, a: Key, c: Key, v: Payload, bytes: nat)
    returns (ws: seq<World>, in0: Level, in1: Level)
    requires a < c && bytes <= MAX_GRANDPARENT_OVERLAP_BYTES
    ensures ws != [] && Chain(ws) && ws[0] == NewDatabase(full, sizeOf) && |in0| == |in1| == 2
    ensures Alone(in1[0], a, 1, v, bytes) && Alone(in1[1], c, 2, v, bytes)
    ensures Alone(in0[0], a, 3, v, bytes) && Alone(in0[1], c, 4, v, bytes)
    ensures AtRest(Tip(ws).db, [], EmptyVersion()[2 := in1][1 := in0], [], 4)
  {
    hide Chain, NewDatabase, IsFlushLevel, AtRest, Misses;
    var w1, t, u := FlushedTwo(full, sizeOf, a, c, v, bytes);
    in1 := [t, u];
    var levels := EmptyVersion()[2 := in1];
    ApartMisses([], a, 3, v);
    SpannedIsMet(in1, t, a, 3, v);
    MetBytesTwo(t, u, a, a);
    FlushToOne(levels, [Entry(a, 3, Value, v)]);
    var w2, x := PutFlush(w1, a, v, 1, bytes, levels, 2);
    assert InsertTable([], x) == [x];
    var levels' := levels[1 := [x]];
    ApartMisses([x], c, 4, v);
    SpannedIsMet(in1, u, c, 4, v);
    MetBytesTwo(t, u, c, c);
    FlushToOne(levels', [Entry(c, 4, Value, v)]);
    var y;
    ws, y := PutFlush(w2, c, v, 1, bytes, levels', 3);
    InsertSecond(x, y);
    in0 := [x, y];
    assert levels'[1 := in0] == levels[1 := in0];
  }

  // ----- Compacting both with one output -----

  ghost predicate Both(levels: seq<Level>, in0: Level, in1: Level, a: Key, c: Key, v: Payload, bytes: nat) {
    && a < c && |in0| == |in1| == 2 && levels == EmptyVersion()[2 := in1][1 := in0]
    && Alone(in1[0], a, 1, v, bytes) && Alone(in1[1], c, 2, v, bytes)
    && Alone(in0[0], a, 3, v, bytes) && Alone(in0[1], c, 4, v, bytes)
  }

  lemma BothValid(levels: seq<Level>, in0: Level, in1: Level, a: Key, c: Key, v: Payload, bytes: nat)
    requires Both(levels, in0, in1, a, c, v, bytes)
    ensures |levels| == NUM_LEVELS && levels[1] == in0 && levels[2] == in1 && ValidInputs(levels, 1, in0, in1)
  {
    assert IsSlice(levels[1], in0, 0, 2);
    assert in0[0] in in0 && in0[1] in in0;
    assert IsRange(in0, a, c);
    AllOverlap(in1, a, c);
  }

  lemma AllOverlap(files: Level, lo: Key, hi: Key)
    requires |files| == 2 && Meets(files[0], Some(lo), Some(hi)) && Meets(files[1], Some(lo), Some(hi))
    ensures Overlapping(files, Some(lo), Some(hi)) == files
  {
    var one := files[..1];
    assert one == [files[0]] && one[..0] == [];
    assert Overlapping(one, Some(lo), Some(hi)) == Overlapping([], Some(lo), Some(hi)) + [files[0]] == one;
    assert one + [files[1]] == files;
  }

  /** A manual compaction of the range takes both tables of level 1, as long as the first does not fill an
      output table by itself, and both below. */
  lemma BothSelected(levels: seq<Level>, in0: Level, in1: Level, a: Key, c: Key, v: Payload, bytes: nat)
    requires Both(levels, in0, in1, a, c, v, bytes) && bytes < TARGET_FILE_SIZE
    ensures |levels| == NUM_LEVELS && Manual(levels, 1, Some(a), Some(c), in0, in1)
  {
    hide IsRange, TotalFileSize, ExpandedTo, Expanded;
    BothRange(levels, in0, in1, a, c, v, bytes);
    AllOverlap(in0, a, c);
    AllOverlap(in1, a, c);
    WhenNot(levels, 1, in0, in1, in0);
    IsExpanded(levels, 1, in0, in1, in0, in1, a, c, Some(a), Some(c));
    assert SetUp(levels, 1, in0, in0, in1);
    BothLimited(in0);
  }

  lemma BothRange(levels: seq<Level>, in0: Level, in1: Level, a: Key, c: Key, v: Payload, bytes: nat)
    requires Both(levels, in0, in1, a, c, v, bytes)
    ensures IsRange(in0, a, c) && IsRange(in0 + in1, a, c)
  {
    assert in0[0] in in0 && in0[1] in in0;
    assert in0[0] in in0 + in1 && in0[1] in in0 + in1;
  }

  lemma BothLimited(files: Level)
    requires |files| == 2 && files[0].bytes < TARGET_FILE_SIZE
    ensures Limited(files, files)
  {
    assert files[..1] == [files[0]] && [files[0]][1..] == [];
    assert TotalFileSize(files[..1]) == files[0].bytes;
  }

  lemma NothingLeftOut(db: Db, in0: Level, in1: Level)
    requires |db.levels| == NUM_LEVELS && db.levels[1] == in0 && db.levels[2] == in1 && db.job.None?
    requires ValidInputs(db.levels, 1, in0, in1)
    ensures CanBegin(db, 1, in0, in1)
  {
    hide ValidInputs;
    assert LeftOut(in1, in1) == {};
  }

  lemma BothKept(job: Job, levels: seq<Level>, a: Key, c: Key, v: Payload, bytes: nat)
    requires Both(levels, job.in0, job.in1, a, c, v, bytes) && job.level == 1 && job.smallest == 4
    ensures JobKept(job) == [Entry(a, 3, Value, v), Entry(c, 4, Value, v)]
  {
    hide EmptyVersion;
    var p, q, x, y := Entry(a, 1, Value, v), Entry(c, 2, Value, v), Entry(a, 3, Value, v), Entry(c, 4, Value, v);
    assert job.in0 == [job.in0[0], job.in0[1]] && job.in1 == [job.in1[0], job.in1[1]];
    TwoFlat(job.in0[0], job.in0[1]);
    TwoFlat(job.in1[0], job.in1[1]);
    assert Flat(job.in0) == [x] + [y] == [x, y];
    assert Flat(job.in1) == [p] + [q] == [p, q];
    assert InputRuns(job) == [[x, y], [p, q]];
    FourMerged(p, q, x, y);
    FourKept(p, q, x, y, job.version);
  }

  lemma FourMerged(p: Entry, q: Entry, x: Entry, y: Entry)
    requires x.key == p.key < y.key == q.key && x.stamp > p.stamp && y.stamp > q.stamp
    ensures MergeAll([[x, y], [p, q]]) == [x, p, y, q]
  {
    var xs, ps := [x, y], [p, q];
    var runs, rest := [xs, ps], [ps];
    assert runs[1..] == rest && |rest[1..]| == 0;
    assert MergeAll(rest) == Merge(ps, MergeAll(rest[1..])) == ps;
    assert xs[1..] == [y] && ps[1..] == [q] && [y][1..] == [];
    assert Merge([y], [q]) == [y] + Merge([], [q]);
    assert Merge([y], ps) == [p] + Merge([y], [q]);
    assert Merge(xs, ps) == [x] + Merge([y], ps);
  }

  lemma FourKept(p: Entry, q: Entry, x: Entry, y: Entry, levels: seq<Level>)
    requires x.key == p.key < y.key == q.key && x.stamp <= 4 && y.stamp <= 4 && x.kind == y.kind == Value
    ensures Kept([x, p, y, q], 4, 4, levels, 1) == [x, y]
  {
    var xs := [x, p, y, q];
    assert !Drops(xs, 0, 4, levels, 1) && Drops(xs, 1, 4, levels, 1) && !Drops(xs, 2, 4, levels, 1);
    assert Drops(xs, 3, 4, levels, 1);
    assert Kept(xs, 1, 4, levels, 1) == Kept(xs, 0, 4, levels, 1) + [x];
    assert Kept(xs, 2, 4, levels, 1) == [x];
    assert Kept(xs, 3, 4, levels, 1) == [x] + [y];
  }

  lemma BothOpened(full: seq<Entry> -> bool, sizeOf: seq<Entry> -> nat, a: Key, c: Key, v: Payload, bytes: nat)
    returns (ws: seq<World>, in0: Level, in1: Level, n: nat)
    requires a < c && bytes <= MAX_GRANDPARENT_OVERLAP_BYTES
    ensures ws != [] && Chain(ws) && ws[0] == NewDatabase(full, sizeOf)
    ensures var db := Tip(ws).db;
            && Both(db.levels, in0, in1, a, c, v, bytes) && db.job == Some(Job(1, in0, in1, 4, db.levels, [n]))
            && Quiet(db) && db.mem == [] && db.last == 4
  {
    hide Chain, NewDatabase, CanBegin, ValidInputs;
    ws, in0, in1 := FlushedFour(full, sizeOf, a, c, v, bytes);
    var db := Tip(ws).db;
    BothValid(db.levels, in0, in1, a, c, v, bytes);
    NothingLeftOut(db, in0, in1);
    ws, n := OpenOne(ws, 1, in0, in1);
  }

  lemma MiddleIsFree(db: Db, in0: Level, in1: Level, a: Key, b: Key, c: Key, v: Payload, bytes: nat)
    requires Both(db.levels, in0, in1, a, c, v, bytes) && a < b < c && db.mem == [] && Quiet(db)
    ensures !Shut(db, 2, b)
  {
    hide IsFlushLevel, Sinks, Misses;
    forall t | t in db.levels[1] + db.levels[2] ensures !Spans(t, b) {
      assert t == in0[0] || t == in0[1] || t == in1[0] || t == in1[1];
    }
    ApartMisses(db.levels[1], b, 1, v);
    ApartMisses(db.levels[2], b, 1, v);
    NoBytes(b);
    FlushToTwo(db.levels, [Entry(b, 1, Value, v)]);
  }

  lemma OneOutput(w: World, outputs: Level)
    requires Good(w) && w.db.job.Some? && w.db.job.value.version == w.db.levels
    requires NumbersIn(outputs) == w.db.job.value.numbers && Flat(outputs) == JobKept(w.db.job.value)
    ensures CanInstall(w.db, outputs)
  {
    hide Good, Flat, JobKept, JobChosen, Grown, Sorted;
    GoodFacts(w);
    Fences.ChosenSizes(w.db.job.value);
  }

  /** The keys written so far, and one more. */
  ghost function Besides(w: World, b: Key): iset<Key> {
    (iset e: Entry | e in w.history :: e.key) + iset{b}
  }

  /** A manual compaction of two tables with a gap between them, as the code selects them, in a run of a
      new database: a key written into the gap meanwhile is flushed to the output level, and installing
      the one output table leaves that level with overlapping tables. */
  lemma ManualCompactionOverlaps(full: seq<Entry> -> bool, sizeOf: seq<Entry> -> nat, a: Key, b: Key, c: Key,
                                 v: Payload, bytes: nat)
    returns (ws: seq<World>, outputs: Level, x: World)
    requires a < b < c && bytes < TARGET_FILE_SIZE
    ensures ws != [] && Chain(ws) && ws[0] == NewDatabase(full, sizeOf) && CanInstall(Tip(ws).db, outputs)
    ensures var db := Tip(ws).db;
            && db.job.Some? && |db.levels| == NUM_LEVELS && db.job.value.version == db.levels
            && Manual(db.levels, 1, Some(a), Some(c), db.job.value.in0, db.job.value.in1)
    ensures Reaches(Tip(ws), x, Besides(Tip(ws), b)) && Good(x)
    ensures x.db.job == Tip(ws).db.job && x.db.job.Some? && x.db.job.value.level == 1 && !CanInstall(x.db, outputs)
    ensures |x.db.levels| == NUM_LEVELS && |Install(x.db, outputs).levels| == NUM_LEVELS
         && !SortedLevel(Install(x.db, outputs).levels[2])
  {
    hide Chain, NewDatabase, Good, CanInstall, Flat, JobKept, Install, SortedLevel, Shut, Reaches, Unobstructed, Sorted,
         JobChosen, Grown, Manual;
    var in0, in1, n;
    ws, in0, in1, n := BothOpened(full, sizeOf, a, c, v, bytes);
    var w := Tip(ws);
    EveryRunIsGood(full, sizeOf, ws, |ws| - 1);
    outputs := [TableFile(n, bytes, [Entry(a, 3, Value, v), Entry(c, 4, Value, v)])];
    OneFlat(outputs[0]);
    BothKept(w.db.job.value, w.db.levels, a, c, v, bytes);
    assert NumbersIn(outputs) == [n];
    OneOutput(w, outputs);
    BothSelected(w.db.levels, in0, in1, a, c, v, bytes);
    GoodFacts(w);
    MiddleIsFree(w.db, in0, in1, a, b, c, v, bytes);
    assert Encloses(outputs[0], b);
    x := DangerReached(w, outputs, Besides(w, b), outputs[0], b, bytes);
    ReachedFacts(w, x, Besides(w, b));
    GoodFacts(x);
    InstallsIffUnobstructed(x.db, outputs);
    ObstructedOverlaps(x, outputs);
  }

  // ----- Keys are byte strings -----

  lemma {:induction false} NothingBetweenStrings(s: seq<Byte>, r: seq<Byte>)
    ensures !(BytewiseLess(s, r) && BytewiseLess(r, s + [0]))
  {
    if s != [] && r != [] {
      assert (s + [0])[1..] == s[1..] + [0];
      NothingBetweenStrings(s[1..], r[1..]);
    }
  }

  /** A gap between a string and its immediate successor is none: no key of the store fits in, though
      there are reals between the two. */
  lemma AdjacentIsSafe(w: World, outputs: Level)
    requires w.db.job.Some? && |w.db.levels| == NUM_LEVELS
    requires forall o | o in outputs :: exists s: seq<Byte> ::
               Smallest(o).key == Embed(s) && Largest(o).key == Embed(s + [0])
    ensures !Endangered(w.db, outputs, ByteKeys())
  {
    hide Shut;
    forall k, o | k in ByteKeys() && o in outputs ensures !Encloses(o, k) {
      var s: seq<Byte> :| Smallest(o).key == Embed(s) && Largest(o).key == Embed(s + [0]);
      var r: seq<Byte> :| k == Embed(r);
      NothingBetweenStrings(s, r);
      EmbedMonotone(s, r);
      EmbedMonotone(r, s + [0]);
    }
  }
}
