/** Compaction as two steps, with flushes allowed in between, and the trivial move. */
module CompactionSteps {
  import opened Wrappers
  import opened Entries
  import opened Versions
  import opened Selection
  import opened Compactions
  import opened Edits
  import opened Engine
  import opened Steps

  // ----- Starting a compaction -----

  function OldestReadable(db: Db): nat {
    if db.snapshots == [] then db.last else db.snapshots[0]
  }

  /** The last two conjuncts are what the code never checks; module `Borders` says exactly when a
      reader notices. */
  ghost predicate CanBegin(db: Db, level: nat, in0: Level, in1: Level) {
    && db.job.None? && |db.levels| == NUM_LEVELS && level + 1 < NUM_LEVELS
    && ValidInputs(db.levels, level, in0, in1)
    && (level > 0 ==> SplitFree(db.levels[level], in0))
    && NothingUncovered(Job(level, in0, in1, OldestReadable(db), db.levels, []), Stored(db))
  }

  function Begin(db: Db, level: nat, in0: Level, in1: Level): Db {
    db.(job := Some(Job(level, in0, in1, OldestReadable(db), db.levels, [])))
  }

  /** A choice closed under overlap leaves no version of an input key behind at level 0. */
  lemma LevelZeroSplitFree(levels: seq<Level>, in0: Level)
    requires ValidVersion(levels) && ValidFirstInputs(levels, 0, in0)
    ensures SplitFree(levels[0], in0)
  {
    forall t, u | t in in0 && u in levels[0] && u !in in0 ensures Newer(Set(u.entries), Set(t.entries)) {
      assert Apart(t, u);
      forall d, e | d in u.entries && e in t.entries ensures d.key != e.key {
        EntryInRange(u, d);
        EntryInRange(t, e);
      }
    }
  }

  lemma BeginKeeps(db: Db, level: nat, in0: Level, in1: Level, history: set<Entry>, floor: nat)
    requires Inv(db, history, floor) && CanBegin(db, level, in0, in1)
    ensures Inv(Begin(db, level, in0, in1), history, floor)
  {
    BeginJob(db, level, in0, in1);
    InvFrame(db, Begin(db, level, in0, in1), history, floor);
  }

  lemma BeginJob(db: Db, level: nat, in0: Level, in1: Level)
    requires CanBegin(db, level, in0, in1) && ValidVersion(db.levels) && NumbersUnique(db.levels)
    requires forall s | s in db.snapshots :: s <= db.last
    requires forall i, j | 0 <= i < j < |db.snapshots| :: db.snapshots[i] <= db.snapshots[j]
    ensures DbJobLive(Begin(db, level, in0, in1))
  {
    hide AgeOrdered, NumbersUnique, Sorted, Disjoint;
    if level == 0 {
      LevelZeroSplitFree(db.levels, in0);
    }
    assert db.snapshots != [] ==> db.snapshots[0] in db.snapshots;
  }

  /** `OpenCompactionOutputFile`: a fresh number, protected while the table is being written. */
  function OpenOutput(db: Db): Db
    requires db.job.Some?
  {
    var n := db.nextFile;
    db.(job := Some(db.job.value.(numbers := db.job.value.numbers + [n])),
        pending := db.pending + {n}, tables := db.tables + {n}, nextFile := n + 1)
  }

  lemma OpenOutputKeeps(db: Db, history: set<Entry>, floor: nat)
    requires Inv(db, history, floor) && db.job.Some?
    ensures Inv(OpenOutput(db), history, floor)
  {
    OpenOutputOnDisk(db);
    OpenOutputJob(db);
    InvFrame(db, OpenOutput(db), history, floor);
  }

  lemma OpenOutputOnDisk(db: Db)
    requires DbOnDisk(db) && db.job.Some? && NumbersBelow(db.levels, db.nextFile)
    ensures DbOnDisk(OpenOutput(db))
  {
  }

  lemma OpenOutputJob(db: Db)
    requires DbJobLive(db) && db.job.Some? && forall n | n in db.pending :: n < db.nextFile
    ensures DbJobLive(OpenOutput(db))
  {
    hide Chosen, Grown, BordersSafe, Stored;
    var ns := db.job.value.numbers;
    assert Stored(OpenOutput(db)) == Stored(db) by { SameStored(db, OpenOutput(db)); }
    BordersIgnoreNumbers(db.job.value, ns + [db.nextFile], Stored(db));
    forall i | 0 <= i < |ns| ensures ns[i] < db.nextFile {
      assert ns[i] in ns;
    }
  }

  lemma SameStored(db: Db, db': Db)
    requires db'.mem == db.mem && db'.imm == db.imm && db'.levels == db.levels
    ensures Stored(db') == Stored(db)
  {
  }

  /** A failed or interrupted compaction: its outputs are left to garbage collection. */
  function Abandon(db: Db): Db
    requires db.job.Some?
  {
    db.(job := None, pending := db.pending - (set n | n in db.job.value.numbers))
  }

  lemma AbandonKeeps(db: Db, history: set<Entry>, floor: nat)
    requires Inv(db, history, floor) && db.job.Some?
    ensures Inv(Abandon(db), history, floor)
  {
    InvFrame(db, Abandon(db), history, floor);
  }

  // ----- The merged input -----

  function Contents(files: Level): (r: seq<seq<Entry>>)
    ensures |r| == |files| && forall i | 0 <= i < |files| :: r[i] == files[i].entries
  {
    seq(|files|, i requires 0 <= i < |files| => files[i].entries)
  }

  /** The children `MakeInputIterator` merges. */
  function InputRuns(job: Job): seq<seq<Entry>> {
    (if job.level == 0 then Contents(job.in0) else [Flat(job.in0)]) + [Flat(job.in1)]
  }

  function JobInput(job: Job): seq<Entry> {
    MergeAll(InputRuns(job))
  }

  lemma SliceSorted(files: Level, part: Level, a: nat, b: nat)
    requires SortedLevel(files) && IsSlice(files, part, a, b)
    ensures SortedLevel(part)
  {
    forall i, j | 0 <= i < j < |part| ensures Before(Largest(part[i]), Smallest(part[j])) {
      assert part[i] == files[a + i] && part[j] == files[a + j];
    }
  }

  lemma InputsInLevels(job: Job)
    requires JobChosen(job)
    ensures LevelSet(job.in0) <= LevelSet(job.version[job.level])
    ensures LevelSet(job.in1) <= LevelSet(job.version[job.level + 1])
    ensures Newer(LevelSet(job.in0), LevelSet(job.in1))
    ensures SortedLevel(job.in1)
    ensures job.level > 0 ==> SortedLevel(job.in0)
  {
    var v := job.version;
    assert Newer(LevelSet(v[job.level]), LevelSet(v[job.level + 1]));
    var lo, hi :| IsRange(job.in0, lo, hi) && job.in1 == Overlapping(v[job.level + 1], Some(lo), Some(hi));
    var a, b := OverlappingIsSlice(v[job.level + 1], Some(lo), Some(hi));
    SliceSorted(v[job.level + 1], job.in1, a, b);
    if job.level > 0 {
      var c: nat, d: nat :| IsSlice(v[job.level], job.in0, c, d);
      SliceSorted(v[job.level], job.in0, c, d);
    }
  }

  lemma NewerGivesSeparate(a: seq<Entry>, b: seq<Entry>)
    requires Newer(Set(a), Set(b)) || Newer(Set(b), Set(a))
    ensures Separate(a, b)
  {
    forall x, y | x in a && y in b ensures Before(x, y) || Before(y, x) {
      assert x in Set(a) && y in Set(b);
    }
  }

  lemma FlatSet(files: Level)
    ensures Set(Flat(files)) == LevelSet(files)
  {
    forall e ensures e in Set(Flat(files)) <==> e in LevelSet(files) {
      FlatMember(files, e);
    }
  }

  lemma JobInputSorted(job: Job)
    requires JobChosen(job)
    ensures Sorted(JobInput(job)) && Set(JobInput(job)) == InputSet(job)
  {
    InputsInLevels(job);
    var runs := InputRuns(job);
    FlatSet(job.in0);
    FlatSet(job.in1);
    FlatSorted(job.in1);
    if job.level == 0 {
      ZeroRuns(job);
    } else {
      FlatSorted(job.in0);
      NewerGivesSeparate(Flat(job.in0), Flat(job.in1));
      assert runs == [Flat(job.in0), Flat(job.in1)];
      TwoRuns(Flat(job.in0), Flat(job.in1));
    }
  }

  lemma TwoRuns(a: seq<Entry>, b: seq<Entry>)
    requires Sorted(a) && Sorted(b) && Separate(a, b)
    ensures Sorted(MergeAll([a, b])) && Set(MergeAll([a, b])) == Set(a) + Set(b)
  {
    MergeAllSorted([a, b]);
    forall e ensures e in MergeAll([a, b]) <==> e in a || e in b {
      assert a in [a, b] && b in [a, b];
    }
  }

  lemma ZeroRuns(job: Job)
    requires JobChosen(job) && job.level == 0
    requires Newer(LevelSet(job.in0), LevelSet(job.in1)) && Sorted(Flat(job.in1))
    ensures Sorted(JobInput(job)) && Set(JobInput(job)) == InputSet(job)
  {
    var runs := InputRuns(job);
    var n := |job.in0|;
    forall run | run in runs ensures Sorted(run) {
      var i :| 0 <= i < |runs| && runs[i] == run;
      if i < n {
        assert job.in0[i] in job.version[0];
      }
    }
    forall i, j | 0 <= i < j < |runs| ensures Separate(runs[i], runs[j]) {
      ZeroRunsSeparate(job, i, j);
    }
    MergeAllSorted(runs);
    forall e ensures e in JobInput(job) <==> e in InputSet(job) {
      ZeroRunMember(job, e);
    }
  }

  lemma ZeroRunsSeparate(job: Job, i: nat, j: nat)
    requires JobChosen(job) && job.level == 0 && i < j <= |job.in0|
    requires Newer(LevelSet(job.in0), LevelSet(job.in1))
    ensures Separate(InputRuns(job)[i], InputRuns(job)[j])
  {
    var runs := InputRuns(job);
    var t := job.in0[i];
    assert t in job.in0 && t in job.version[0];
    if j < |job.in0| {
      var u := job.in0[j];
      assert u in job.in0 && u in job.version[0];
      assert t.number > u.number || u.number > t.number;
    } else {
      FlatSet(job.in1);
      assert Set(t.entries) <= LevelSet(job.in0);
      assert Newer(Set(runs[i]), Set(runs[j]));
    }
    NewerGivesSeparate(runs[i], runs[j]);
  }

  lemma ZeroRunMember(job: Job, e: Entry)
    requires job.level == 0
    ensures e in JobInput(job) <==> e in InputSet(job)
  {
    var runs := InputRuns(job);
    var n := |job.in0|;
    FlatMember(job.in1, e);
    if e in LevelSet(job.in0) {
      var t :| t in job.in0 && e in t.entries;
      var i :| 0 <= i < n && job.in0[i] == t;
      assert runs[i] in runs && e in runs[i];
    } else if e in LevelSet(job.in1) {
      assert runs[n] in runs && e in runs[n];
    } else if run :| run in runs && e in run {
      var i :| 0 <= i < |runs| && runs[i] == run;
      if i < n { assert job.in0[i] in job.in0; }
    }
  }

  // ----- Installing the outputs -----

  ghost function JobKept(job: Job): seq<Entry> {
    Kept(JobInput(job), |JobInput(job)|, job.smallest, job.version, job.level)
  }

  lemma SameKept(j: Job, job: Job)
    requires job == j.(numbers := job.numbers)
    ensures JobKept(job) == JobKept(j)
  {
    assert JobInput(job) == JobInput(j);
  }

  /** The last conjunct asks that tables flushed to the output level meanwhile stay clear of the outputs;
      modules `Fences` and `Gaps` say when that is so. */
  ghost predicate CanInstall(db: Db, outputs: Level) {
    && db.job.Some? && |db.levels| == NUM_LEVELS && db.job.value.level + 1 < NUM_LEVELS
    && Flat(outputs) == JobKept(db.job.value)
    && |outputs| == |db.job.value.numbers|
    && (forall i | 0 <= i < |outputs| :: outputs[i].number == db.job.value.numbers[i])
    && |db.job.value.version| == NUM_LEVELS
    && (forall o, t | o in outputs && t in db.levels[db.job.value.level + 1] &&
                      t !in db.job.value.version[db.job.value.level + 1] :: Clear(o, t))
  }

  function At(level: nat, files: Level): (r: seq<(nat, Table)>)
    ensures |r| == |files| && forall i | 0 <= i < |files| :: r[i] == (level, files[i])
  {
    if files == [] then [] else At(level, files[..|files| - 1]) + [(level, files[|files| - 1])]
  }

  function InstallEdit(db: Db, outputs: Level): Edit
    requires db.job.Some?
  {
    var job := db.job.value;
    Edit((set n | n in Numbers(job.in0) :: (job.level, n)) + (set n | n in Numbers(job.in1) :: (job.level + 1, n)),
         At(job.level + 1, outputs),
         db.logNumber, db.nextFile, db.last)
  }

  /** `InstallCompactionResults` and the cleanup after it. */
  function Install(db: Db, outputs: Level): Db
    requires db.job.Some? && |db.levels| == NUM_LEVELS
  {
    var edit := InstallEdit(db, outputs);
    db.(levels := Apply(db.levels, edit), manifest := db.manifest + [edit], job := None,
        pending := db.pending - (set n | n in db.job.value.numbers))
  }

  lemma AtIs(level: nat, files: Level, l: nat, t: Table)
    ensures (l, t) in At(level, files) <==> l == level && t in files
  {
    hide At;
    if l == level && t in files {
      var i :| 0 <= i < |files| && files[i] == t;
      assert At(level, files)[i] == (l, t);
    }
  }

  /** The inputs leave their levels, the outputs arrive at the lower one, and nothing else moves. */
  lemma InstallIs(db: Db, outputs: Level, l: nat, t: Table)
    requires db.job.Some? && |db.levels| == NUM_LEVELS && db.job.value.level + 1 < NUM_LEVELS && l < NUM_LEVELS
    requires NumbersUnique(db.levels)
    requires forall u | u in db.job.value.in0 :: u in db.levels[db.job.value.level]
    requires forall u | u in db.job.value.in1 :: u in db.levels[db.job.value.level + 1]
    ensures t in Apply(db.levels, InstallEdit(db, outputs))[l] <==>
            (t in db.levels[l] && t !in db.job.value.in0 + db.job.value.in1) ||
            (l == db.job.value.level + 1 && t in outputs)
  {
    hide Apply, At;
    var job, edit := db.job.value, InstallEdit(db, outputs);
    ApplyIs(db.levels, edit, l, t);
    assert (l, t) in edit.added <==> l == job.level + 1 && t in outputs by { AtIs(job.level + 1, outputs, l, t); }
    assert (l, t.number) in edit.deleted <==>
           (l == job.level && t.number in Numbers(job.in0)) || (l == job.level + 1 && t.number in Numbers(job.in1));
  }

  lemma {:induction false} AddedAtOne(added: seq<(nat, Table)>, level: nat, outputs: Level)
    requires |added| == |outputs| && forall i | 0 <= i < |outputs| :: added[i] == (level, outputs[i])
    ensures AddedAt(added, level) == outputs
    ensures forall l | l != level :: AddedAt(added, l) == []
  {
    if added != [] {
      var n := |added| - 1;
      AddedAtOne(added[..n], level, outputs[..n]);
      assert outputs == outputs[..n] + [outputs[n]];
    }
  }

  ghost function Rest(files: Level, part: Level): Level {
    Remove(files, Numbers(part))
  }

  /** The two levels an install touches. */
  lemma InstallLevels(db: Db, outputs: Level)
    requires db.job.Some? && |db.levels| == NUM_LEVELS && db.job.value.level + 1 < NUM_LEVELS
    ensures var L := db.job.value.level;
            Apply(db.levels, InstallEdit(db, outputs))
            == db.levels[L := Rest(db.levels[L], db.job.value.in0)]
                        [L + 1 := InsertAll(Rest(db.levels[L + 1], db.job.value.in1), outputs)]
  {
    hide ApplyAt, AddedAt, Rest, InsertAll, At;
    var job := db.job.value;
    var edit := InstallEdit(db, outputs);
    AddedAtOne(edit.added, job.level + 1, outputs);
    forall l | 0 <= l < NUM_LEVELS
      ensures l != job.level && l != job.level + 1 ==> ApplyAt(db.levels[l], edit, l) == db.levels[l]
      ensures l == job.level ==> ApplyAt(db.levels[l], edit, l) == Rest(db.levels[l], job.in0)
      ensures l == job.level + 1 ==>
                ApplyAt(db.levels[l], edit, l) == InsertAll(Rest(db.levels[l], job.in1), outputs)
    {
      InstallAt(db.levels[l], job, edit, outputs, l);
    }
  }

  lemma InstallAt(files: Level, job: Job, edit: Edit, outputs: Level, l: nat)
    requires edit.deleted == (set n | n in Numbers(job.in0) :: (job.level, n))
                           + (set n | n in Numbers(job.in1) :: (job.level + 1, n))
    requires AddedAt(edit.added, l) == if l == job.level + 1 then outputs else []
    ensures l != job.level && l != job.level + 1 ==> ApplyAt(files, edit, l) == files
    ensures l == job.level ==> ApplyAt(files, edit, l) == Rest(files, job.in0)
    ensures l == job.level + 1 ==> ApplyAt(files, edit, l) == InsertAll(Rest(files, job.in1), outputs)
  {
    DeletedAtLevel(job, edit, l);
    if l != job.level && l != job.level + 1 {
      RemoveNothing(files, DeletedAt(edit, l));
    }
  }

  lemma DeletedAtLevel(job: Job, edit: Edit, l: nat)
    requires edit.deleted == (set n | n in Numbers(job.in0) :: (job.level, n))
                           + (set n | n in Numbers(job.in1) :: (job.level + 1, n))
    ensures l == job.level ==> DeletedAt(edit, l) == Numbers(job.in0)
    ensures l == job.level + 1 ==> DeletedAt(edit, l) == Numbers(job.in1)
    ensures l != job.level && l != job.level + 1 ==> DeletedAt(edit, l) == {}
  {
    if l == job.level {
      forall n ensures n in DeletedAt(edit, l) <==> n in Numbers(job.in0) {
        if n in Numbers(job.in0) { assert (l, n) in edit.deleted; }
      }
    } else if l == job.level + 1 {
      forall n ensures n in DeletedAt(edit, l) <==> n in Numbers(job.in1) {
        if n in Numbers(job.in1) { assert (l, n) in edit.deleted; }
      }
    }
  }

  lemma RestMember(levels: seq<Level>, l: nat, part: Level, t: Table)
    requires NumbersUnique(levels) && l < |levels| && forall u | u in part :: u in levels[l]
    ensures t in Rest(levels[l], part) <==> t in levels[l] && t !in part
  {
    if t in levels[l] && t.number in Numbers(part) {
      var u :| u in part && u.number == t.number;
      assert u in levels[l];
    }
  }

  lemma InputsFromVersion(version: seq<Level>, level: nat, in0: Level, in1: Level)
    requires |version| == NUM_LEVELS && level + 1 < NUM_LEVELS && ValidInputs(version, level, in0, in1)
    ensures forall t | t in in0 :: t in version[level]
    ensures forall t | t in in1 :: t in version[level + 1]
  {
    var lo, hi :| IsRange(in0, lo, hi) && in1 == Overlapping(version[level + 1], Some(lo), Some(hi));
  }

  /** Both input lists of a running compaction are still part of the current levels. */
  lemma InputsStillThere(job: Job, levels: seq<Level>)
    requires JobChosen(job) && Grown(job.version, levels)
    ensures forall t | t in job.in0 :: t in levels[job.level]
    ensures forall t | t in job.in1 :: t in levels[job.level + 1]
  {
    hide ValidVersion, ValidInputs, NumbersUnique, Newer;
    InputsFromVersion(job.version, job.level, job.in0, job.in1);
  }

  lemma SplitFreeGrown(v: seq<Level>, levels: seq<Level>, l: nat, part: Level)
    requires Grown(v, levels) && l < NUM_LEVELS
    requires forall t | t in part :: t in v[l]
    requires SplitFree(v[l], part)
    ensures SplitFree(levels[l], part)
  {
    forall t, u | t in part && u in levels[l] && u !in part ensures Newer(Set(u.entries), Set(t.entries)) {
      if u !in v[l] {
        AddTableNewer(v, l, u, t);
      }
    }
  }

  /** Entries of the tables that stay. */
  lemma RestSets(levels: seq<Level>, l: nat, part: Level)
    requires NumbersUnique(levels) && l < |levels| && forall u | u in part :: u in levels[l]
    ensures LevelSet(levels[l]) == LevelSet(Rest(levels[l], part)) + LevelSet(part)
    ensures LevelSet(Rest(levels[l], part)) == LeftOut(levels[l], part)
    ensures SplitFree(levels[l], part) ==> Newer(LevelSet(Rest(levels[l], part)), LevelSet(part))
  {
    var rest := Rest(levels[l], part);
    forall t ensures t in rest <==> t in levels[l] && t !in part {
      RestMember(levels, l, part, t);
    }
    assert LevelSet(rest) == LeftOut(levels[l], part);
    if SplitFree(levels[l], part) { LeftOutNewer(levels[l], part); }
  }

  lemma LeftOutNewer(files: Level, part: Level)
    requires SplitFree(files, part)
    ensures Newer(LeftOut(files, part), LevelSet(part))
  {
    forall d, e | d in LeftOut(files, part) && e in LevelSet(part) && d.key == e.key ensures d.stamp > e.stamp {
      var u :| u in files && u !in part && d in u.entries;
      var t :| t in part && e in t.entries;
      assert Newer(Set(u.entries), Set(t.entries));
      assert d in Set(u.entries) && e in Set(t.entries);
    }
  }

  /** Different tables of a sorted level share no entry. */
  lemma LeftOutDisjoint(files: Level, part: Level)
    requires SortedLevel(files) && forall t | t in part :: t in files
    ensures LeftOut(files, part) !! LevelSet(part)
  {
    forall e | e in LeftOut(files, part) && e in LevelSet(part) ensures false {
      var u :| u in files && u !in part && e in u.entries;
      var t :| t in part && e in t.entries;
      NotInTwoTables(files, t, u, e);
    }
  }

  lemma NotInTwoTables(files: Level, t: Table, u: Table, e: Entry)
    requires SortedLevel(files) && t in files && u in files && e in t.entries && e in u.entries
    ensures t == u
  {
    var i :| 0 <= i < |files| && files[i] == t;
    var j :| 0 <= j < |files| && files[j] == u;
    EntryBetweenEnds(t, e);
    EntryBetweenEnds(u, e);
  }

  lemma NewerDisjoint(A: set<Entry>, B: set<Entry>)
    requires Newer(A, B)
    ensures A !! B
  {
  }

  /** What a compaction does to the two levels, as sets of entries. */
  ghost predicate Moves(levels: seq<Level>, levels': seq<Level>, L: nat,
                        I0: set<Entry>, I1: set<Entry>, K: set<Entry>)
  {
    && |levels| == |levels'| == NUM_LEVELS && L + 1 < NUM_LEVELS
    && (forall l | 0 <= l < NUM_LEVELS && l != L && l != L + 1 :: levels'[l] == levels[l])
    && LevelSet(levels[L]) == LevelSet(levels'[L]) + I0
    && LevelSet(levels'[L]) !! I0
    && K <= I0 + I1 && I1 <= LevelSet(levels[L + 1])
    && LevelSet(levels'[L + 1]) <= LevelSet(levels[L + 1]) + K
  }

  lemma NewerSubset(A: set<Entry>, B: set<Entry>, A': set<Entry>, B': set<Entry>)
    requires Newer(A, B) && A' <= A && B' <= B
    ensures Newer(A', B')
  {
  }
}
