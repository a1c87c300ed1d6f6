/** Iterating a database: the internal iterator merges every layer, and the user's cursor over it
    shows exactly what reads of the write history return. */
module Scans {
  import opened Wrappers
  import opened Entries
  import opened Versions
  import opened Compactions
  import opened Engine
  import opened CompactionSteps
  import opened TwoLevel
  import opened Children
  import opened Merger
  import DbIter

  /** The concatenating children for the levels from `l` down; empty levels get none. */
  function DeepRuns(levels: seq<Level>, l: nat): (r: seq<seq<Entry>>)
    requires l <= |levels|
    decreases |levels| - l
  {
    if l == |levels| then []
    else (if levels[l] == [] then [] else [Flat(levels[l])]) + DeepRuns(levels, l + 1)
  }

  /** The children of `NewInternalIterator`. */
  function IteratorRuns(db: Db): seq<seq<Entry>>
    requires |db.levels| == NUM_LEVELS
  {
    [db.mem] + (if db.imm.Some? then [db.imm.value] else []) + Contents(db.levels[0]) + DeepRuns(db.levels, 1)
  }

  // ----- The children as iterators -----

  /** `LevelFileNumIterator`: the largest key of every table, and its number. */
  function FileIndex(files: Level): seq<IndexEntry> {
    seq(|files|, i requires 0 <= i < |files| =>
      IndexEntry(Largest(files[i]).key, Largest(files[i]).stamp, files[i].number))
  }

  /** `GetFileIterator`: the entries of the table with this number. */
  function FileNamed(files: Level, n: nat): seq<Entry> {
    if files == [] then [] else if files[0].number == n then files[0].entries else FileNamed(files[1..], n)
  }

  /** `NewConcatenatingIterator`. */
  function LevelChild(files: Level): Child {
    Indexed(FileIndex(files), (n: nat) => FileNamed(files, n))
  }

  function DeepChildren(levels: seq<Level>, l: nat): (r: seq<Child>)
    requires l <= |levels|
    decreases |levels| - l
  {
    if l == |levels| then []
    else (if levels[l] == [] then [] else [LevelChild(levels[l])]) + DeepChildren(levels, l + 1)
  }

  function Lists(runs: seq<seq<Entry>>): seq<Child> {
    seq(|runs|, i requires 0 <= i < |runs| => Listed(runs[i]))
  }

  function IteratorChildren(db: Db): seq<Child>
    requires |db.levels| == NUM_LEVELS
  {
    var lists := [db.mem] + (if db.imm.Some? then [db.imm.value] else []) + Contents(db.levels[0]);
    Lists(lists) + DeepChildren(db.levels, 1)
  }

  lemma {:induction false} Named(files: Level, i: nat)
    requires DistinctNumbers(files) && i < |files|
    ensures FileNamed(files, files[i].number) == files[i].entries
  {
    if i > 0 { Named(files[1..], i - 1); }
  }

  lemma {:induction false} ConcatIsFlat(files: Level, n: nat)
    requires DistinctNumbers(files) && n <= |files|
    ensures Concat(LevelChild(files).index, LevelChild(files).load, n) == Flat(files[..n])
  {
    if n > 0 {
      ConcatIsFlat(files, n - 1);
      Named(files, n - 1);
      assert files[..n][..n - 1] == files[..n - 1];
    }
  }

  /** An entry of table `j` is at or before the largest of table `i` exactly when `j` does not come later. */
  lemma Separated(files: Level, i: nat, j: nat, p: nat)
    requires SortedLevel(files) && i < |files| && j < |files| && p < |files[j].entries|
    ensures AtOrBefore(files[j].entries[p], FileIndex(files)[i]) <==> j <= i
  {
    var e, t := files[j].entries[p], files[j];
    assert t in files;
    assert p > 0 ==> Before(Smallest(t), e);
    assert p < |t.entries| - 1 ==> Before(e, Largest(t));
    assert j < i ==> Before(Largest(files[j]), Smallest(files[i])) && files[i] in files;
    assert j < i && |files[i].entries| > 1 ==> Before(Smallest(files[i]), Largest(files[i]));
    assert i < j ==> Before(Largest(files[i]), Smallest(files[j]));
  }

  /** The two-level iterator over a level goes over the level's entries in order. */
  lemma LevelIsChild(files: Level)
    requires SortedLevel(files) && DistinctNumbers(files)
    ensures Usable(LevelChild(files)) && Under(LevelChild(files)) == Flat(files)
  {
    hide Sorted, Before;
    var c := LevelChild(files);
    ConcatIsFlat(files, |files|);
    assert files[..|files|] == files;
    FlatSorted(files);
    forall i, j, p | 0 <= i < |files| && 0 <= j < |files| && 0 <= p < |c.load(c.index[j].handle)|
      ensures AtOrBefore(c.load(c.index[j].handle)[p], c.index[i]) <==> j <= i
    {
      Named(files, j);
      Separated(files, i, j, p);
    }
  }

  lemma LevelDistinct(levels: seq<Level>, l: nat)
    requires NumbersUnique(levels) && l < |levels| && SortedLevel(levels[l])
    ensures DistinctNumbers(levels[l])
  {
    var files := levels[l];
    forall i, j | 0 <= i < j < |files| ensures files[i].number != files[j].number {
      assert files[i] in files && files[j] in files && Before(Largest(files[i]), Smallest(files[j]));
      assert |files[i].entries| > 1 ==> Before(Smallest(files[i]), Largest(files[i]));
    }
  }

  lemma UnderMore(a: seq<Child>, b: seq<Child>)
    ensures AllUnder(a + b) == AllUnder(a) + AllUnder(b)
    ensures AllUsable(a + b) <==> AllUsable(a) && AllUsable(b)
  {
    hide Usable, Under;
    assert forall c | c in a :: c in a + b;
    assert forall c | c in b :: c in a + b;
  }

  lemma ListsUnder(runs: seq<seq<Entry>>)
    requires forall run | run in runs :: Sorted(run)
    ensures AllUnder(Lists(runs)) == runs && AllUsable(Lists(runs))
  {
    hide Sorted;
    forall c | c in Lists(runs) ensures Usable(c) {
      var i :| 0 <= i < |runs| && c == Listed(runs[i]);
      assert runs[i] in runs;
    }
  }

  lemma {:induction false} DeepUnder(levels: seq<Level>, l: nat)
    requires |levels| == NUM_LEVELS && 1 <= l <= NUM_LEVELS && NumbersUnique(levels)
    requires forall i | 1 <= i < NUM_LEVELS :: SortedLevel(levels[i])
    ensures AllUnder(DeepChildren(levels, l)) == DeepRuns(levels, l) && AllUsable(DeepChildren(levels, l))
    decreases NUM_LEVELS - l
  {
    hide SortedLevel, NumbersUnique, Usable, Under, LevelChild, Flat;
    if l < NUM_LEVELS {
      DeepUnder(levels, l + 1);
      if levels[l] != [] {
        LevelDistinct(levels, l);
        LevelIsChild(levels[l]);
        UnderMore([LevelChild(levels[l])], DeepChildren(levels, l + 1));
      } else {
        UnderMore([], DeepChildren(levels, l + 1));
      }
    }
  }

  /** The iterators `NewInternalIterator` makes go over the runs. */
  lemma ChildrenUnder(db: Db)
    requires Layers(db.mem, db.imm, db.levels) && NumbersUnique(db.levels)
    ensures AllUnder(IteratorChildren(db)) == IteratorRuns(db) && AllUsable(IteratorChildren(db))
  {
    hide SortedLevel, NumbersUnique, AllUsable, AllUnder, DeepChildren, DeepRuns, Lists, Sorted, Newer;
    var runs := [db.mem] + (if db.imm.Some? then [db.imm.value] else []) + Contents(db.levels[0]);
    forall run | run in runs ensures Sorted(run) {
      if run in Contents(db.levels[0]) {
        var i :| 0 <= i < |db.levels[0]| && run == db.levels[0][i].entries;
        assert db.levels[0][i] in db.levels[0];
      }
    }
    ListsUnder(runs);
    DeepUnder(db.levels, 1);
    UnderMore(Lists(runs), DeepChildren(db.levels, 1));
  }

  /** Sorted runs, none sharing an internal key, holding exactly `S`. */
  ghost predicate Tidy(runs: seq<seq<Entry>>, S: set<Entry>) {
    && SortedRuns(runs)
    && (forall run, e | run in runs && e in run :: e in S)
    && (forall e | e in S :: InSome(runs, e))
  }

  lemma TidyEmpty()
    ensures Tidy([], {})
  {
  }

  /** A run that is newer than everything behind it. */
  lemma TidyPrepend(run: seq<Entry>, runs: seq<seq<Entry>>, S: set<Entry>)
    requires Sorted(run) && Tidy(runs, S) && Newer(Set(run), S)
    ensures Tidy([run] + runs, Set(run) + S)
  {
    hide Sorted;
    var all := [run] + runs;
    forall i, j | 0 <= i < j < |all| ensures Separate(all[i], all[j]) {
      if i == 0 {
        forall x, y | x in all[i] && y in all[j] ensures Before(x, y) || Before(y, x) {
          assert all[j] in runs && y in S && x in Set(run);
        }
      } else {
        assert Separate(runs[i - 1], runs[j - 1]);
      }
    }
    forall e | e in Set(run) + S ensures InSome(all, e) {
      if e in run {
        var i :| 0 <= i < |run| && run[i] == e;
        assert all[0][i] == e;
      } else {
        var d, i :| 0 <= d < |runs| && 0 <= i < |runs[d]| && runs[d][i] == e;
        assert all[d + 1][i] == e;
      }
    }
  }

  lemma {:induction false} DeepTidy(levels: seq<Level>, l: nat)
    requires ValidVersion(levels) && 1 <= l <= NUM_LEVELS
    ensures Tidy(DeepRuns(levels, l), From(levels, l))
    decreases NUM_LEVELS - l
  {
    hide Tidy, AgeOrdered, SortedLevel, Newer, Set, LevelSet;
    if l == NUM_LEVELS {
      TidyEmpty();
    } else {
      DeepTidy(levels, l + 1);
      if levels[l] == [] {
        NoTables();
        assert DeepRuns(levels, l) == DeepRuns(levels, l + 1);
        assert From(levels, l) == From(levels, l + 1);
      } else {
        FlatSorted(levels[l]);
        FlatSet(levels[l]);
        LevelNewer(levels, l);
        TidyPrepend(Flat(levels[l]), DeepRuns(levels, l + 1), From(levels, l + 1));
      }
    }
  }

  lemma NoTables()
    ensures LevelSet([]) == {}
  {
  }

  lemma LevelNewer(levels: seq<Level>, l: nat)
    requires |levels| == NUM_LEVELS && AgeOrdered(levels) && l < NUM_LEVELS
    ensures Newer(LevelSet(levels[l]), From(levels, l + 1))
  {
    hide LevelSet;
    forall d, e | d in LevelSet(levels[l]) && e in From(levels, l + 1) && d.key == e.key ensures d.stamp > e.stamp {
      FromMember(levels, l + 1, e);
      var i :| l + 1 <= i < |levels| && e in LevelSet(levels[i]);
      assert Newer(LevelSet(levels[l]), LevelSet(levels[i]));
    }
  }

  /** Level-0 tables in any order: for each pair one is newer throughout. */
  lemma {:induction false} ZeroTidy(files: Level, runs: seq<seq<Entry>>, S: set<Entry>)
    requires TablesSorted(files) && DistinctNumbers(files) && Tidy(runs, S) && Newer(LevelSet(files), S)
    requires forall t, u | t in files && u in files && t.number > u.number :: Newer(Set(t.entries), Set(u.entries))
    ensures Tidy(Contents(files) + runs, LevelSet(files) + S)
  {
    hide Tidy, Newer, Sorted, LevelSet;
    if files == [] {
      NoTables();
      assert Contents(files) + runs == runs;
      assert LevelSet(files) + S == S;
    } else {
      var t, rest := files[0], files[1..];
      FirstTable(files, S);
      ZeroTidy(rest, runs, S);
      assert Contents(files) + runs == [t.entries] + (Contents(rest) + runs);
      ApartTidy(t, rest, runs, S);
      assert Set(t.entries) + (LevelSet(rest) + S) == LevelSet(files) + S;
    }
  }

  lemma FirstTable(files: Level, S: set<Entry>)
    requires files != [] && TablesSorted(files) && DistinctNumbers(files) && Newer(LevelSet(files), S)
    requires forall t, u | t in files && u in files && t.number > u.number :: Newer(Set(t.entries), Set(u.entries))
    ensures var t, rest := files[0], files[1..];
            && LevelSet(files) == Set(t.entries) + LevelSet(rest)
            && Sorted(t.entries) && TablesSorted(rest) && DistinctNumbers(rest)
            && Newer(Set(t.entries), S) && Newer(LevelSet(rest), S)
            && (forall u | u in rest :: u in files)
            && (forall u | u in rest :: Newer(Set(t.entries), Set(u.entries)) || Newer(Set(u.entries), Set(t.entries)))
  {
    hide Newer, Sorted;
    var t, rest := files[0], files[1..];
    assert files == [t] + rest;
    assert LevelSet(files) == Set(t.entries) + LevelSet(rest);
    NewerSubset(LevelSet(files), S, Set(t.entries), S);
    NewerSubset(LevelSet(files), S, LevelSet(rest), S);
    forall u | u in rest ensures t.number > u.number || u.number > t.number {
      var i :| 0 <= i < |rest| && rest[i] == u;
      assert files[i + 1] == u;
    }
  }

  lemma ApartTidy(t: Table, rest: Level, runs: seq<seq<Entry>>, S: set<Entry>)
    requires Sorted(t.entries) && Tidy(Contents(rest) + runs, LevelSet(rest) + S) && Newer(Set(t.entries), S)
    requires forall u | u in rest :: Newer(Set(t.entries), Set(u.entries)) || Newer(Set(u.entries), Set(t.entries))
    ensures Tidy([t.entries] + (Contents(rest) + runs), Set(t.entries) + (LevelSet(rest) + S))
  {
    hide Sorted;
    var old', all := Contents(rest) + runs, [t.entries] + (Contents(rest) + runs);
    forall x, y | x in t.entries && y in LevelSet(rest) + S ensures Before(x, y) || Before(y, x) {
      if y in S {
        assert x in Set(t.entries);
      } else {
        var u :| u in rest && y in u.entries;
        NewerGivesSeparate(t.entries, u.entries);
      }
    }
    forall i, j | 0 <= i < j < |all| ensures Separate(all[i], all[j]) {
      if i == 0 {
        assert all[j] in old';
      } else {
        assert Separate(old'[i - 1], old'[j - 1]);
      }
    }
    forall e | e in Set(t.entries) + (LevelSet(rest) + S) ensures InSome(all, e) {
      if e in t.entries {
        var i :| 0 <= i < |t.entries| && t.entries[i] == e;
        assert all[0][i] == e;
      } else {
        var d, i :| 0 <= d < |old'| && 0 <= i < |old'[d]| && old'[d][i] == e;
        assert all[d + 1][i] == e;
      }
    }
  }

  /** The children of the internal iterator are sorted, never share an internal key, and hold
      exactly what is stored. */
  lemma RunsTidy(db: Db)
    requires Layers(db.mem, db.imm, db.levels)
    ensures Tidy(IteratorRuns(db), Stored(db))
  {
    hide Tidy, Newer, Sorted, TablesSorted, DistinctNumbers, SortedLevel, LevelSet;
    var levels := db.levels;
    VersionTidy(levels);
    var runs := Contents(levels[0]) + DeepRuns(levels, 1);
    var S := VersionSet(levels);
    if db.imm.Some? {
      TidyPrepend(db.imm.value, runs, S);
      assert Newer(Set(db.mem), Set(db.imm.value) + S) by { NewerBoth(Set(db.mem), Set(db.imm.value), S); }
      TidyPrepend(db.mem, [db.imm.value] + runs, Set(db.imm.value) + S);
      assert IteratorRuns(db) == [db.mem] + ([db.imm.value] + runs);
      assert Stored(db) == Set(db.mem) + (Set(db.imm.value) + S);
    } else {
      TidyPrepend(db.mem, runs, S);
      assert IteratorRuns(db) == [db.mem] + runs;
      assert Stored(db) == Set(db.mem) + S;
    }
  }

  lemma NewerBoth(A: set<Entry>, B: set<Entry>, C: set<Entry>)
    requires Newer(A, B) && Newer(A, C)
    ensures Newer(A, B + C)
  {
  }

  lemma VersionTidy(levels: seq<Level>)
    requires ValidVersion(levels)
    ensures Tidy(Contents(levels[0]) + DeepRuns(levels, 1), VersionSet(levels))
  {
    hide Tidy, Newer, TablesSorted, DistinctNumbers, SortedLevel, LevelSet;
    DeepTidy(levels, 1);
    LevelNewer(levels, 0);
    ZeroTidy(levels[0], DeepRuns(levels, 1), From(levels, 1));
    forall e ensures e in VersionSet(levels) <==> e in LevelSet(levels[0]) + From(levels, 1) {
      UpToMember(levels, |levels|, e);
      FromMember(levels, 0, e);
    }
    assert VersionSet(levels) == LevelSet(levels[0]) + From(levels, 1);
  }

  lemma TidyMerge(runs: seq<seq<Entry>>, S: set<Entry>)
    requires Tidy(runs, S)
    ensures Sorted(MergeAll(runs)) && Set(MergeAll(runs)) == S
  {
    hide Sorted, PairwiseSeparate;
    MergeAllSorted(runs);
    forall e ensures e in MergeAll(runs) <==> e in S {
      if e in S {
        var d, i :| 0 <= d < |runs| && 0 <= i < |runs[d]| && runs[d][i] == e;
        assert runs[d] in runs && e in runs[d];
      }
    }
  }

  /** A scan at a snapshot lists exactly the keys and values that reads of the write history at
      that snapshot return, in key order. */
  lemma ScanShowsHistory(db: Db, s: nat, history: set<Entry>, floor: nat, k: Key, v: Payload)
    requires Inv(db, history, floor) && floor <= s
    ensures var vis := DbIter.Visible(MergeAll(IteratorRuns(db)), s);
            && DbIter.Ordered(vis)
            && (Reads(history, k, s, Some(v)) <==> exists p :: 0 <= p < |vis| && vis[p].key == k && vis[p].value == v)
  {
    hide Layers, Saved, Logged, LastSaved, BatchesWithin, OnDisk, JobLive, Tidy, MergeAll, IteratorRuns,
         DbIter.Visible, DbIter.Ordered, Reads, UniqueSeqs, SeqsAtMost;
    LayersGiveVersion(db);
    RunsTidy(db);
    var runs := IteratorRuns(db);
    TidyMerge(runs, Stored(db));
    DbIter.VisibleOrdered(MergeAll(runs), s);
    DbIter.VisibleIsReads(MergeAll(runs), s, k, v);
    assert Reads(Stored(db), k, s, Some(v)) <==> Reads(history, k, s, Some(v));
  }

  /** The rows of a snapshot: what reads of the write history return there, in key order. */
  ghost predicate IsSnapshot(vis: seq<Entry>, history: set<Entry>, s: nat) {
    && DbIter.Ordered(vis)
    && (forall k, v :: Reads(history, k, s, Some(v)) <==>
          exists p :: 0 <= p < |vis| && vis[p].key == k && vis[p].value == v)
  }

  /** `DBImpl::NewIterator` and any moves of it: the user's iterator drives the merging iterator over all
      layers of the store, and shows what a cursor over the rows of the snapshot shows. */
  method Scan(db: Db, s: nat, moves: seq<DbIter.Move>, ghost history: set<Entry>, ghost floor: nat)
    returns (shown: seq<Option<(Key, Payload)>>, ghost vis: seq<Entry>)
    requires Inv(db, history, floor) && floor <= s
    ensures IsSnapshot(vis, history, s) && |shown| == |moves|
    ensures forall i | 0 <= i < |moves| :: shown[i] == DbIter.Shown(vis, DbIter.PosAfter(vis, moves[..i + 1]))
  {
    hide Inv, IteratorRuns, IteratorChildren, MergeAll, AllUsable, AllUnder, SortedRuns, IsSnapshot,
         DbIter.Visible, DbIter.PosAfter, DbIter.Shown;
    vis := SnapshotRows(db, s, history, floor);
    shown := DbIter.Run(IteratorChildren(db), s, moves);
  }

  lemma SnapshotRows(db: Db, s: nat, history: set<Entry>, floor: nat) returns (vis: seq<Entry>)
    requires Inv(db, history, floor) && floor <= s
    ensures |db.levels| == NUM_LEVELS && SortedRuns(IteratorRuns(db))
    ensures AllUnder(IteratorChildren(db)) == IteratorRuns(db) && AllUsable(IteratorChildren(db))
    ensures vis == DbIter.Visible(MergeAll(IteratorRuns(db)), s) && IsSnapshot(vis, history, s)
  {
    hide Saved, Logged, LastSaved, BatchesWithin, OnDisk, JobLive, MergeAll, IteratorRuns, BordersSafe,
         DbIter.Visible, DbIter.Ordered, Reads, Truthful, SortedRuns, Newer, ValidVersion, Sorted,
         IteratorChildren, AllUsable, AllUnder;
    LayersGiveVersion(db);
    SavedUnique(db);
    ChildrenUnder(db);
    RunsTidy(db);
    vis := DbIter.Visible(MergeAll(IteratorRuns(db)), s);
    forall k, v ensures DbIter.Ordered(vis)
                        && (Reads(history, k, s, Some(v)) <==>
                            exists p :: 0 <= p < |vis| && vis[p].key == k && vis[p].value == v) {
      ScanShowsHistory(db, s, history, floor, k, v);
    }
    ScanShowsHistory(db, s, history, floor, 0.0, []);
  }

  lemma LayersGiveVersion(db: Db)
    requires Layers(db.mem, db.imm, db.levels)
    ensures |db.levels| == NUM_LEVELS
  {
  }

  lemma SavedUnique(db: Db)
    requires Saved(db.levels, db.manifest, db.logNumber, db.nextFile)
    ensures NumbersUnique(db.levels)
  {
  }
}
