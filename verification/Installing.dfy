/** Installing compaction results and moving a table down keep the invariant. */
module Installing {
  import opened Wrappers
  import opened Entries
  import opened Versions
  import opened Selection
  import opened Compactions
  import opened Edits
  import opened Engine
  import opened Steps
  import opened CompactionSteps

  // ----- Age order and contents, on sets of entries -----

  lemma MoveAge(levels: seq<Level>, levels': seq<Level>, L: nat,
                I0: set<Entry>, I1: set<Entry>, K: set<Entry>, i: nat, j: nat)
    requires Moves(levels, levels', L, I0, I1, K) && AgeOrdered(levels) && Newer(LevelSet(levels'[L]), I0)
    requires i < j < NUM_LEVELS
    ensures Newer(LevelSet(levels'[i]), LevelSet(levels'[j]))
  {
    hide LevelSet;
    var X, Y := LevelSet(levels[L]), LevelSet(levels[L + 1]);
    var A, B := LevelSet(levels'[i]), LevelSet(levels'[j]);
    assert Newer(LevelSet(levels[i]), LevelSet(levels[j]));
    if i == L && j == L + 1 {
      MoveAgeInside(X, Y, A, B, I0, I1, K);
    } else if j == L + 1 {
      assert Newer(A, X) && Newer(A, Y);
      NewerUnion(X, Y, A);
      NewerSubset(A, X + Y, A, B);
    } else if i == L + 1 {
      assert Newer(X, B) && Newer(Y, B);
      NewerUnion(X, Y, B);
      NewerSubset(X + Y, B, A, B);
    } else if i == L || j == L {
      NewerSubset(LevelSet(levels[i]), LevelSet(levels[j]), A, B);
    }
  }

  lemma MoveAgeInside(X: set<Entry>, Y: set<Entry>, A: set<Entry>, B: set<Entry>,
                      I0: set<Entry>, I1: set<Entry>, K: set<Entry>)
    requires Newer(X, Y) && X == A + I0 && Newer(A, I0)
    requires K <= I0 + I1 && I1 <= Y && B <= Y + K
    ensures Newer(A, B)
  {
    NewerSubset(X, Y, A, Y);
    NewerUnion(I0, Y, A);
    NewerSubset(A, I0 + Y, A, B);
  }

  lemma LevelsDisjoint(levels: seq<Level>, i: nat, j: nat, e: Entry)
    requires |levels| == NUM_LEVELS && AgeOrdered(levels) && i < NUM_LEVELS && j < NUM_LEVELS && i != j
    requires e in LevelSet(levels[i])
    ensures e !in LevelSet(levels[j])
  {
    assert if i < j then Newer(LevelSet(levels[i]), LevelSet(levels[j]))
                    else Newer(LevelSet(levels[j]), LevelSet(levels[i]));
  }

  ghost predicate MovesExactly(levels: seq<Level>, levels': seq<Level>, L: nat,
                               I0: set<Entry>, I1: set<Entry>, K: set<Entry>, R1: set<Entry>)
  {
    && Moves(levels, levels', L, I0, I1, K)
    && LevelSet(levels'[L + 1]) == R1 + K
    && LevelSet(levels[L + 1]) == R1 + I1
    && R1 !! I1
  }

  lemma MoveContents(levels: seq<Level>, levels': seq<Level>, L: nat,
                     I0: set<Entry>, I1: set<Entry>, K: set<Entry>, R1: set<Entry>)
    requires MovesExactly(levels, levels', L, I0, I1, K, R1) && AgeOrdered(levels)
    ensures VersionSet(levels') == VersionSet(levels) - ((I0 + I1) - K)
  {
    forall e ensures e in VersionSet(levels') <==> e in VersionSet(levels) && !(e in I0 + I1 && e !in K) {
      if e in VersionSet(levels') {
        MovedFrom(levels, levels', L, I0, I1, K, R1, e);
      } else if e in VersionSet(levels) && !(e in I0 + I1 && e !in K) {
        MovedTo(levels, levels', L, I0, I1, K, R1, e);
      }
    }
  }

  lemma MovedFrom(levels: seq<Level>, levels': seq<Level>, L: nat,
                  I0: set<Entry>, I1: set<Entry>, K: set<Entry>, R1: set<Entry>, e: Entry)
    requires MovesExactly(levels, levels', L, I0, I1, K, R1) && AgeOrdered(levels)
    requires e in VersionSet(levels')
    ensures e in VersionSet(levels) && !(e in I0 + I1 && e !in K)
  {
    VersionMember(levels', e);
    VersionMember(levels, e);
    var l :| 0 <= l < NUM_LEVELS && e in LevelSet(levels'[l]);
    if l == L + 1 && e in K {
      assert e in LevelSet(levels[L]) || e in LevelSet(levels[L + 1]);
    } else {
      assert e in LevelSet(levels[l]);
      if l != L { LevelsDisjoint(levels, l, L, e); }
      if l != L + 1 { LevelsDisjoint(levels, l, L + 1, e); }
    }
  }

  lemma MovedTo(levels: seq<Level>, levels': seq<Level>, L: nat,
                I0: set<Entry>, I1: set<Entry>, K: set<Entry>, R1: set<Entry>, e: Entry)
    requires MovesExactly(levels, levels', L, I0, I1, K, R1)
    requires e in VersionSet(levels) && !(e in I0 + I1 && e !in K)
    ensures e in VersionSet(levels')
  {
    VersionMember(levels', e);
    VersionMember(levels, e);
    var l :| 0 <= l < NUM_LEVELS && e in LevelSet(levels[l]);
    if e in K {
      assert e in LevelSet(levels'[L + 1]);
    } else {
      assert e in LevelSet(levels'[l]);
    }
  }

  // ----- Install -----

  /** The outputs fit into the current version, whatever the borders of the inputs. */
  ghost predicate Placed(db: Db, outputs: Level) {
    && CanInstall(db, outputs)
    && ValidVersion(db.levels) && NumbersUnique(db.levels)
    && JobChosen(db.job.value) && Grown(db.job.value.version, db.levels)
  }

  ghost predicate Ready(db: Db, outputs: Level) {
    Placed(db, outputs) && SplitFree(db.job.value.version[db.job.value.level], db.job.value.in0)
  }

  lemma InsertAllSet(files: Level, ts: Level)
    ensures LevelSet(InsertAll(files, ts)) == LevelSet(files) + LevelSet(ts)
  {
  }

  lemma KeptSet(job: Job)
    requires JobChosen(job)
    ensures Sorted(JobKept(job)) && Set(JobKept(job)) <= InputSet(job)
  {
    var xs := JobInput(job);
    JobInputSorted(job);
    KeptFrom(xs, |xs|, job.smallest, job.version, job.level);
    assert xs[..|xs|] == xs;
    forall e | e in JobKept(job) ensures e in InputSet(job) {
      assert e in Set(xs);
    }
  }

  lemma InstallMoves(db: Db, outputs: Level)
    requires Placed(db, outputs)
    ensures var job := db.job.value;
            MovesExactly(db.levels, Install(db, outputs).levels, job.level, LevelSet(job.in0), LevelSet(job.in1),
                         Set(JobKept(job)), LevelSet(Rest(db.levels[job.level + 1], job.in1)))
    ensures var job := db.job.value;
            SplitFree(job.version[job.level], job.in0) ==>
              Newer(LevelSet(Install(db, outputs).levels[job.level]), LevelSet(job.in0))
  {
    hide Chosen, Grown, ValidVersion, NumbersUnique, JobKept, Sorted, SplitFree, Clear, InstallEdit, Apply,
         InsertAll, Flat, LevelSet;
    var job := db.job.value;
    var L := job.level;
    InstallLevels(db, outputs);
    InputsStillThere(job, db.levels);
    RestSets(db.levels, L, job.in0);
    RestSets(db.levels, L + 1, job.in1);
    InputsApart(job, db.levels);
    if SplitFree(job.version[L], job.in0) { SplitFreeGrown(job.version, db.levels, L, job.in0); }
    KeptSet(job);
    FlatSet(outputs);
    InsertAllSet(Rest(db.levels[L + 1], job.in1), outputs);
  }

  /** Inputs share no entry with what stays beside them. */
  lemma InputsApart(job: Job, levels: seq<Level>)
    requires JobChosen(job) && Grown(job.version, levels) && ValidVersion(levels)
    ensures forall t | t in job.in0 :: t in job.version[job.level]
    ensures LeftOut(levels[job.level], job.in0) !! LevelSet(job.in0)
    ensures LeftOut(levels[job.level + 1], job.in1) !! LevelSet(job.in1)
  {
    hide LeftOut, Newer, LevelSet, NumbersUnique, AgeOrdered, Disjoint, Sorted;
    InputsFromVersion(job.version, job.level, job.in0, job.in1);
    InputsStillThere(job, levels);
    LeftOutDisjoint(levels[job.level + 1], job.in1);
    if job.level == 0 {
      LevelZeroSplitFree(job.version, job.in0);
      SplitFreeGrown(job.version, levels, 0, job.in0);
      LeftOutNewer(levels[0], job.in0);
      NewerDisjoint(LeftOut(levels[0], job.in0), LevelSet(job.in0));
    } else {
      LeftOutDisjoint(levels[job.level], job.in0);
    }
  }

  lemma InstallOutputsClear(db: Db, outputs: Level, o: Table, u: Table)
    requires Placed(db, outputs) && o in outputs && Sorted(o.entries)
    requires u in db.levels[db.job.value.level + 1] && u !in db.job.value.in1
    ensures Clear(o, u)
  {
    hide Grown, ValidVersion, NumbersUnique, JobKept, ValidInputs;
    var job := db.job.value;
    if u in job.version[job.level + 1] {
      OutputsFit(job.version, job.level, job.in0, job.in1, u);
      KeptSet(job);
      FlatMember(outputs, Smallest(o));
      FlatMember(outputs, Largest(o));
      assert Smallest(o) in o.entries && Largest(o) in o.entries;
      assert Smallest(o) in Set(Flat(outputs)) && Largest(o) in Set(Flat(outputs));
      assert Smallest(o) in InputSet(job) && Largest(o) in InputSet(job);
    }
  }

  lemma InstallSorted(db: Db, outputs: Level)
    requires Placed(db, outputs)
    ensures SortedLevel(InsertAll(Rest(db.levels[db.job.value.level + 1], db.job.value.in1), outputs))
  {
    hide JobChosen, Grown, NumbersUnique, JobKept, AgeOrdered, Clear;
    var job := db.job.value;
    var L := job.level;
    var rest := Rest(db.levels[L + 1], job.in1);
    InputsStillThere(job, db.levels);
    RemoveSorted(db.levels[L + 1], Numbers(job.in1));
    KeptSet(job);
    SortedFlatGivesLevel(outputs);
    forall o, u | o in outputs && u in rest ensures Clear(o, u) {
      RestMember(db.levels, L + 1, job.in1, u);
      InstallOutputsClear(db, outputs, o, u);
    }
    InsertAllSorted(rest, outputs);
  }

  lemma ValidAfterMove(levels: seq<Level>, levels': seq<Level>, L: nat,
                       I0: set<Entry>, I1: set<Entry>, K: set<Entry>)
    requires ValidVersion(levels) && Moves(levels, levels', L, I0, I1, K) && Newer(LevelSet(levels'[L]), I0)
    requires TablesSorted(levels'[0]) && DistinctNumbers(levels'[0])
    requires forall t | t in levels'[0] :: t in levels[0]
    requires L > 0 ==> SortedLevel(levels'[L])
    requires SortedLevel(levels'[L + 1])
    ensures ValidVersion(levels')
  {
    hide Newer, Sorted, Disjoint;
    forall i, j | 0 <= i < j < NUM_LEVELS ensures Newer(LevelSet(levels'[i]), LevelSet(levels'[j])) {
      MoveAge(levels, levels', L, I0, I1, K, i, j);
    }
    assert AgeOrdered(levels');
  }

  /** Each level can still be searched, whatever the borders of the inputs. */
  lemma InstallSearchable(db: Db, outputs: Level)
    requires Placed(db, outputs)
    ensures Searchable(Install(db, outputs).levels)
    ensures forall t | t in Install(db, outputs).levels[0] :: t in db.levels[0]
  {
    hide JobChosen, Grown, NumbersUnique, JobKept, Clear, SortedLevel, Newer, AgeOrdered, Apply, InstallEdit,
         InsertAll, Flat, Searchable;
    var job := db.job.value;
    var L := job.level;
    InstallLevels(db, outputs);
    InstallSorted(db, outputs);
    ValidIsSearchable(db.levels);
    if L == 0 {
      RemoveDistinct(db.levels[0], Numbers(job.in0));
    } else {
      RemoveSorted(db.levels[L], Numbers(job.in0));
    }
    SearchableAfter(db.levels, L, Rest(db.levels[L], job.in0),
                    InsertAll(Rest(db.levels[L + 1], job.in1), outputs));
  }

  lemma SearchableAfter(levels: seq<Level>, L: nat, a: Level, b: Level)
    requires Searchable(levels) && L + 1 < NUM_LEVELS && SortedLevel(b) && forall t | t in a :: t in levels[L]
    requires L == 0 ==> DistinctNumbers(a)
    requires L > 0 ==> SortedLevel(a)
    ensures Searchable(levels[L := a][L + 1 := b])
    ensures forall t | t in levels[L := a][L + 1 := b][0] :: t in levels[0]
  {
    hide Sorted, Disjoint, Newer;
  }

  lemma InstallValid(db: Db, outputs: Level)
    requires Ready(db, outputs)
    ensures ValidVersion(Install(db, outputs).levels)
  {
    hide Chosen, Grown, NumbersUnique, JobKept, AgeOrdered, Moves, Clear, SplitFree, Newer, Disjoint, Sorted, Apply,
         InstallEdit, Flat;
    var job := db.job.value;
    var L := job.level;
    InstallMoves(db, outputs);
    InstallSearchable(db, outputs);
    ValidAfterMove(db.levels, Install(db, outputs).levels, L, LevelSet(job.in0), LevelSet(job.in1), Set(JobKept(job)));
  }

  lemma InputInVersion(job: Job, e: Entry)
    requires JobChosen(job) && e in InputSet(job)
    ensures e in VersionSet(job.version)
  {
    InputsInLevels(job);
    LevelInVersion(job.version, job.level);
    LevelInVersion(job.version, job.level + 1);
  }

  lemma BelowOutputNewer(job: Job, levels: seq<Level>, l: nat, d: Entry, e: Entry)
    requires JobChosen(job) && Grown(job.version, levels)
    requires job.level + 2 <= l < NUM_LEVELS && SortedLevel(levels[l]) && d in LevelSet(levels[l])
    requires e in InputSet(job) && d.key == e.key
    requires IsBase(job.version, job.level, e.key)
    ensures d.stamp > e.stamp
  {
    hide ValidVersion, ValidInputs, SplitFree, NumbersUnique;
    var u :| u in levels[l] && d in u.entries;
    EntryInRange(u, d);
    assert u !in job.version[l];
    InputInVersion(job, e);
    assert d in Set(u.entries);
  }

  lemma AboveOutputNewer(levels: seq<Level>, L: nat, l: nat, d: Entry, e: Entry)
    requires |levels| == NUM_LEVELS && AgeOrdered(levels) && l < L && L + 1 < NUM_LEVELS
    requires d in LevelSet(levels[l]) && d.key == e.key
    requires e in LevelSet(levels[L]) || e in LevelSet(levels[L + 1])
    ensures d.stamp > e.stamp
  {
    assert Newer(LevelSet(levels[l]), LevelSet(levels[L]));
    assert Newer(LevelSet(levels[l]), LevelSet(levels[L + 1]));
  }

  lemma AtLevelNewer(job: Job, levels: seq<Level>, d: Entry, e: Entry)
    requires JobChosen(job) && Grown(job.version, levels) && SplitFree(job.version[job.level], job.in0)
    requires |levels| == NUM_LEVELS && AgeOrdered(levels) && job.level + 1 < NUM_LEVELS
    requires d in LevelSet(levels[job.level]) && d !in LevelSet(job.in0)
    requires e in InputSet(job) && d.key == e.key
    ensures d.stamp > e.stamp
  {
    hide JobChosen, Grown, SplitFree;
    var L := job.level;
    InputsStillThere(job, levels);
    if e in LevelSet(job.in0) {
      ChosenFromVersion(job);
      SplitFreeGrown(job.version, levels, L, job.in0);
      LeftOutNewer(levels[L], job.in0);
      assert d in LeftOut(levels[L], job.in0);
    } else {
      assert Newer(LevelSet(levels[L]), LevelSet(levels[L + 1]));
      assert e in LevelSet(levels[L + 1]);
    }
  }

  lemma ChosenFromVersion(job: Job)
    requires JobChosen(job)
    ensures job.level + 1 < NUM_LEVELS && |job.version| == NUM_LEVELS
    ensures forall t | t in job.in0 :: t in job.version[job.level]
    ensures forall t | t in job.in1 :: t in job.version[job.level + 1]
  {
    hide ValidInputs;
    InputsFromVersion(job.version, job.level, job.in0, job.in1);
  }

  lemma AtOutputLevel(job: Job, levels: seq<Level>, d: Entry, e: Entry)
    requires JobChosen(job) && Grown(job.version, levels)
    requires d in LevelSet(levels[job.level + 1]) && d !in LevelSet(job.in1)
    requires e in InputSet(job) && d.key == e.key && d.stamp <= e.stamp
    ensures d in LeftOut(job.version[job.level + 1], job.in1)
  {
    hide JobChosen;
    ChosenFromVersion(job);
    var u :| u in levels[job.level + 1] && d in u.entries;
    if u !in job.version[job.level + 1] {
      InputInVersion(job, e);
      OneIsNewer(Set(u.entries), VersionSet(job.version), d, e);
    }
  }

  lemma OneIsNewer(A: set<Entry>, B: set<Entry>, d: Entry, e: Entry)
    requires Newer(A, B) && d in A && e in B && d.key == e.key
    ensures d.stamp > e.stamp
  {
  }

  /** Outside the input, what is older than a deletion that may be dropped is in a table of the
      output level that was left out. */
  lemma OlderIsLeftOut(db: Db, outputs: Level, d: Entry, e: Entry)
    requires Ready(db, outputs) && Layers(db.mem, db.imm, db.levels)
    requires d in Stored(db) && d !in InputSet(db.job.value)
    requires e in InputSet(db.job.value) && d.key == e.key && d.stamp <= e.stamp
    requires IsBase(db.job.value.version, db.job.value.level, e.key)
    ensures d in LeftOut(db.job.value.version[db.job.value.level + 1], db.job.value.in1)
  {
    hide JobChosen, Grown, NumbersUnique, ValidVersion, Sorted, IsBase, JobKept, LeftOut, Newer, LevelSet, SplitFree;
    var job := db.job.value;
    NotInMemtables(db, d, e);
    VersionMember(db.levels, d);
    var l :| 0 <= l < |db.levels| && d in LevelSet(db.levels[l]);
    OlderAt(job, db.levels, l, d, e);
  }

  lemma NotInMemtables(db: Db, d: Entry, e: Entry)
    requires Layers(db.mem, db.imm, db.levels) && db.job.Some? && JobChosen(db.job.value)
    requires Grown(db.job.value.version, db.levels)
    requires d in Stored(db) && e in InputSet(db.job.value) && d.key == e.key && d.stamp <= e.stamp
    ensures d in VersionSet(db.levels)
  {
    hide JobChosen, ValidVersion, InputSet;
    InputInVersion(db.job.value, e);
    VersionGrows(db.job.value.version, db.levels);
  }

  lemma OlderAt(job: Job, levels: seq<Level>, l: nat, d: Entry, e: Entry)
    requires JobChosen(job) && Grown(job.version, levels) && ValidVersion(levels) && l < NUM_LEVELS
    requires SplitFree(job.version[job.level], job.in0)
    requires d in LevelSet(levels[l]) && d !in InputSet(job)
    requires e in InputSet(job) && d.key == e.key && d.stamp <= e.stamp
    requires IsBase(job.version, job.level, e.key)
    ensures d in LeftOut(job.version[job.level + 1], job.in1)
  {
    hide JobChosen, Grown, AgeOrdered, Sorted, Disjoint, IsBase, LeftOut, SplitFree;
    var L := job.level;
    ChosenFromVersion(job);
    if l < L {
      InputsStillThere(job, levels);
      AboveOutputNewer(levels, L, l, d, e);
    } else if l == L {
      AtLevelNewer(job, levels, d, e);
    } else if l == L + 1 {
      AtOutputLevel(job, levels, d, e);
    } else {
      assert SortedLevel(levels[l]);
      BelowOutputNewer(job, levels, l, d, e);
    }
  }

  /** What was left out is stored, and no input. */
  lemma LeftOutStored(db: Db, d: Entry)
    requires db.job.Some? && JobChosen(db.job.value) && Grown(db.job.value.version, db.levels)
    requires d in LeftOut(db.job.value.version[db.job.value.level + 1], db.job.value.in1)
    ensures d in Stored(db) && d !in InputSet(db.job.value)
  {
    hide Grown, NumbersUnique;
    var job := db.job.value;
    var v := job.version;
    ChosenFromVersion(job);
    VersionGrowsIn(db, d);
    InputsInLevels(job);
    LeftOutDisjoint(v[job.level + 1], job.in1);
    if d in LevelSet(job.in0) { LevelsDisjoint(v, job.level, job.level + 1, d); }
  }

  lemma VersionGrowsIn(db: Db, d: Entry)
    requires db.job.Some? && JobChosen(db.job.value) && Grown(db.job.value.version, db.levels)
    requires d in LeftOut(db.job.value.version[db.job.value.level + 1], db.job.value.in1)
    ensures d in Stored(db)
  {
    hide JobChosen;
    ChosenFromVersion(db.job.value);
    var l := db.job.value.level + 1;
    assert d in LevelSet(db.job.value.version[l]);
    LevelInVersion(db.job.value.version, l);
    VersionGrows(db.job.value.version, db.levels);
  }

  /** The two ways to say that a value comes back: outside the merged input, and in a table left out. */
  lemma UncoversIsResurrects(db: Db, outputs: Level, e: Entry, d: Entry)
    requires Ready(db, outputs) && Layers(db.mem, db.imm, db.levels)
    ensures var job := db.job.value;
            Uncovers(job, Stored(db), e, d)
            <==> Resurrects(Stored(db), JobInput(job), job.smallest, job.version, job.level, e, d)
  {
    hide JobChosen, Grown, NumbersUnique, ValidVersion, Sorted, IsBase, JobKept, LeftOut, InputSet, Newer, SplitFree,
         JobInput, Stored, Clear, Flat;
    var job := db.job.value;
    ChosenFromVersion(job);
    var S, R := Stored(db), LeftOut(job.version[job.level + 1], job.in1);
    JobInputSorted(job);
    assert e in JobInput(job) <==> e in Set(JobInput(job));
    if e in InputSet(job) && IsBase(job.version, job.level, e.key) {
      forall v: Entry | v.key == e.key && v.stamp <= e.stamp ensures v in R <==> v in S - InputSet(job) {
        if v in R { LeftOutStored(db, v); } else if v in S && v !in InputSet(job) { OlderIsLeftOut(db, outputs, v, e); }
      }
    }
  }

  /** Installing the outputs changes no read from the compaction's snapshot on, exactly when no
      deletion that is dropped uncovers a value. */
  lemma InstallReads(db: Db, outputs: Level, history: set<Entry>)
    requires Ready(db, outputs) && Layers(db.mem, db.imm, db.levels)
    requires Stored(db) <= history && UniqueSeqs(history)
    ensures Stored(Install(db, outputs)) <= Stored(db)
    ensures VersionSet(Install(db, outputs).levels) <= VersionSet(db.levels)
    ensures SameReads(Stored(db), Stored(Install(db, outputs)), db.job.value.smallest)
       <==> NothingUncovered(db.job.value, Stored(db))
  {
    hide Placed, Layers, Stored, JobInput, JobKept, Resurrects, Uncovers, SameReads, UniqueSeqs, InputSet, SplitFree;
    assert Placed(db, outputs);
    PlacedBasics(db, outputs);
    var job := db.job.value;
    var S := Stored(db);
    var xs := JobInput(job);
    InputStored(db, outputs);
    UniqueLess(history, S);
    DroppedIsInvisible(S, xs, job.smallest, job.version, job.level);
    InstallStored(db, outputs);
    forall e, d ensures Uncovers(job, S, e, d)
                   <==> Resurrects(S, xs, job.smallest, job.version, job.level, e, d) {
      UncoversIsResurrects(db, outputs, e, d);
    }
    assert JobKept(job) == Kept(xs, |xs|, job.smallest, job.version, job.level) by { KeptIs(job); }
  }

  lemma PlacedBasics(db: Db, outputs: Level)
    requires Placed(db, outputs)
    ensures db.job.Some? && |db.levels| == NUM_LEVELS
    ensures db.job.value.level + 1 < NUM_LEVELS && |db.job.value.version| == NUM_LEVELS
  {
  }

  lemma KeptIs(job: Job)
    ensures JobKept(job) == Kept(JobInput(job), |JobInput(job)|, job.smallest, job.version, job.level)
  {
  }

  lemma InputStored(db: Db, outputs: Level)
    requires Placed(db, outputs)
    ensures db.job.value.level + 1 < |db.job.value.version|
    ensures Sorted(JobInput(db.job.value)) && Set(JobInput(db.job.value)) <= Stored(db)
  {
    hide JobInput, JobKept, ValidInputs, Sorted, InputSet, NumbersUnique;
    var job := db.job.value;
    JobInputSorted(job);
    VersionGrows(job.version, db.levels);
    forall e | e in InputSet(job) ensures e in Stored(db) { InputInVersion(job, e); }
  }

  lemma InstallStored(db: Db, outputs: Level)
    requires Placed(db, outputs) && Layers(db.mem, db.imm, db.levels)
    ensures VersionSet(Install(db, outputs).levels) <= VersionSet(db.levels)
    ensures Stored(Install(db, outputs))
         == Stored(db) - (Set(JobInput(db.job.value)) - Set(JobKept(db.job.value)))
  {
    hide JobChosen, NumbersUnique, JobKept, JobInput, MovesExactly, Clear, Flat, LevelSet, Searchable, Apply,
         InstallEdit, Disjoint;
    var job := db.job.value;
    var db' := Install(db, outputs);
    JobInputSorted(job);
    InstallMoves(db, outputs);
    MoveContents(db.levels, db'.levels, job.level, LevelSet(job.in0), LevelSet(job.in1),
                 Set(JobKept(job)), LevelSet(Rest(db.levels[job.level + 1], job.in1)));
    forall e | e in InputSet(job) ensures e !in Set(db.mem) && e !in Set(ImmSeq(db.imm)) {
      InputInVersion(job, e);
      VersionGrows(job.version, db.levels);
    }
  }

  /** New tables appear at level `l1` only, and they are the outputs. */
  ghost predicate AddsAt(levels: seq<Level>, levels': seq<Level>, l1: nat, outputs: Level) {
    && |levels| == |levels'| && l1 < |levels|
    && (forall l, t | 0 <= l < |levels| && l != l1 && t in levels'[l] :: t in levels[l])
    && (forall t | t in levels'[l1] :: t in levels[l1] || t in outputs)
  }

  lemma InstallNumbers(db: Db, outputs: Level, db': Db)
    requires db.job.Some? && |db.levels| == |db'.levels| == NUM_LEVELS && NumbersUnique(db.levels)
    requires db' == db.(levels := db'.levels, manifest := db'.manifest, job := None,
                        pending := db.pending - (set n | n in db.job.value.numbers))
    requires AddsAt(db.levels, db'.levels, db.job.value.level + 1, outputs)
    requires |outputs| == |db.job.value.numbers|
    requires forall i | 0 <= i < |outputs| :: outputs[i].number == db.job.value.numbers[i]
    requires DbOnDisk(db) && NumbersBelow(db.levels, db.nextFile)
    requires OutputNumbers(db.job.value.numbers, db.pending)
    ensures NumbersUnique(db'.levels) && NumbersBelow(db'.levels, db.nextFile) && DbOnDisk(db')
  {
    hide NumbersUnique;
    var job := db.job.value;
    FreshNumbers(db.levels, db'.levels, job.level + 1, outputs, job.numbers, db.pending);
    forall t: Table | t in outputs ensures t.number in db.pending && t.number in job.numbers {
      var i :| 0 <= i < |outputs| && outputs[i] == t;
      assert job.numbers[i] in job.numbers;
    }
  }

  lemma InstallTables(db: Db, outputs: Level, levels': seq<Level>)
    requires CanInstall(db, outputs) && levels' == Install(db, outputs).levels
    ensures AddsAt(db.levels, levels', db.job.value.level + 1, outputs)
  {
    hide JobKept, InstallEdit, Apply, Flat, Clear;
    InstallLevels(db, outputs);
    var L := db.job.value.level;
    TwoLevelsChanged(db.levels, L, Rest(db.levels[L], db.job.value.in0), Rest(db.levels[L + 1], db.job.value.in1),
                     outputs);
  }

  lemma TwoLevelsChanged(levels: seq<Level>, L: nat, a: Level, b: Level, outputs: Level)
    requires L + 1 < |levels|
    requires (forall t | t in a :: t in levels[L]) && forall t | t in b :: t in levels[L + 1]
    ensures AddsAt(levels, levels[L := a][L + 1 := InsertAll(b, outputs)], L + 1, outputs)
  {
    hide InsertAll;
  }

  lemma FreshNumbers(levels: seq<Level>, levels': seq<Level>, l1: nat, outputs: Level, numbers: seq<nat>,
                     pending: set<nat>)
    requires |levels| == |levels'| == NUM_LEVELS && NumbersUnique(levels)
    requires AddsAt(levels, levels', l1, outputs)
    requires |outputs| == |numbers| && forall i | 0 <= i < |outputs| :: outputs[i].number == numbers[i]
    requires forall i, j | 0 <= i < j < |numbers| :: numbers[i] != numbers[j]
    requires forall n | n in numbers :: n in pending
    requires forall l, t | 0 <= l < NUM_LEVELS && t in levels[l] :: t.number !in pending
    ensures NumbersUnique(levels')
  {
    forall t | t in outputs ensures t.number in pending {
      var i :| 0 <= i < |outputs| && outputs[i] == t;
      assert numbers[i] in numbers;
    }
    forall l, m, t: Table, u: Table | 0 <= l < NUM_LEVELS && 0 <= m < NUM_LEVELS && t in levels'[l] &&
                        u in levels'[m] && t.number == u.number
      ensures l == m && t == u
    {
      if t in outputs && u in outputs {
        var i :| 0 <= i < |outputs| && outputs[i] == t;
        var j :| 0 <= j < |outputs| && outputs[j] == u;
      }
    }
  }

  lemma InstallOrdered(db: Db, outputs: Level)
    requires CanInstall(db, outputs) && OrderedLevels(db.levels) && DbOnDisk(db)
    requires OutputNumbers(db.job.value.numbers, db.pending)
    ensures OrderedLevels(Install(db, outputs).levels)
  {
    hide JobKept, Clear, VersionOnDisk;
    var job := db.job.value;
    var L := job.level;
    InstallLevels(db, outputs);
    RemoveOrdered(db.levels[L], Numbers(job.in0));
    RemoveOrdered(db.levels[L + 1], Numbers(job.in1));
    forall t: Table | t in outputs ensures t.number in db.pending {
      var i :| 0 <= i < |outputs| && outputs[i] == t;
      assert job.numbers[i] in job.numbers;
    }
    InsertAllOrdered(Rest(db.levels[L + 1], job.in1), outputs);
  }

  function Max(a: nat, b: nat): nat { if a > b then a else b }

  lemma InstallKeeps(db: Db, outputs: Level, history: set<Entry>, floor: nat)
    requires Inv(db, history, floor) && CanInstall(db, outputs)
    ensures Inv(Install(db, outputs), history, Max(floor, db.job.value.smallest))
  {
    hide Layers, Truthful, Saved, Logged, LastSaved, BatchesWithin, OnDisk, JobLive, CanInstall, Apply, InstallEdit,
         Stored, Settled;
    CanInstallBasics(db, outputs);
    NoJob(Install(db, outputs));
    InstallContents(db, outputs, history, floor);
    InstallSaved(db, outputs);
  }

  lemma NoJob(db: Db)
    requires db.job.None?
    ensures DbJobLive(db)
  {
  }

  lemma CanInstallBasics(db: Db, outputs: Level)
    requires CanInstall(db, outputs)
    ensures db.job.Some? && |db.levels| == NUM_LEVELS
  {
  }

  lemma InstallContents(db: Db, outputs: Level, history: set<Entry>, floor: nat)
    requires CanInstall(db, outputs) && DbJobLive(db)
    requires Layers(db.mem, db.imm, db.levels) && Saved(db.levels, db.manifest, db.logNumber, db.nextFile)
    requires Truthful(Stored(db), history, floor, db.last, db.snapshots)
    ensures var db' := Install(db, outputs);
            && Layers(db'.mem, db'.imm, db'.levels)
            && Truthful(Stored(db'), history, Max(floor, db.job.value.smallest), db'.last, db'.snapshots)
  {
    hide JobChosen, Grown, JobKept, ValidVersion, SameReads, NumbersUnique, Newer, Sorted, UniqueSeqs, InstallEdit,
         Apply;
    var db' := Install(db, outputs);
    assert Ready(db, outputs);
    InstallValid(db, outputs);
    InstallReads(db, outputs, history);
    InstallTruth(Stored(db), Stored(db'), history, floor, db.job.value.smallest, db.last, db.snapshots);
    InstallLayers(db, db');
  }

  lemma InstallSaved(db: Db, outputs: Level)
    requires CanInstall(db, outputs) && DbJobLive(db) && DbOnDisk(db)
    requires Saved(db.levels, db.manifest, db.logNumber, db.nextFile)
    requires LastSaved(db.mem, db.imm, db.inflight, db.last, db.manifest[|db.manifest| - 1].lastSequence)
    ensures var db' := Install(db, outputs);
            && Saved(db'.levels, db'.manifest, db'.logNumber, db'.nextFile)
            && LastSaved(db'.mem, db'.imm, db'.inflight, db'.last, db'.manifest[|db'.manifest| - 1].lastSequence)
            && DbOnDisk(db')
  {
    hide JobChosen, Grown, JobKept, NumbersUnique, Apply, OnDisk, OrderedLevels;
    var db' := Install(db, outputs);
    assert db'.manifest[..|db.manifest|] == db.manifest;
    InstallTables(db, outputs, db'.levels);
    InstallNumbers(db, outputs, db');
    InstallOrdered(db, outputs);
  }

  lemma InstallLayers(db: Db, db': Db)
    requires Layers(db.mem, db.imm, db.levels) && ValidVersion(db'.levels)
    requires db'.mem == db.mem && db'.imm == db.imm && Stored(db') <= Stored(db)
    requires VersionSet(db'.levels) <= VersionSet(db.levels)
    ensures Layers(db'.mem, db'.imm, db'.levels)
  {
    hide ValidVersion;
  }

  lemma InstallTruth(stored: set<Entry>, stored': set<Entry>, history: set<Entry>, floor: nat, smallest: nat,
                     last: nat, snapshots: seq<nat>)
    requires Truthful(stored, history, floor, last, snapshots)
    requires stored' <= stored && SameReads(stored, stored', smallest)
    requires smallest <= last && forall s | s in snapshots :: smallest <= s
    ensures Truthful(stored', history, Max(floor, smallest), last, snapshots)
  {
    assert SameReads(stored', stored, smallest);
    SameReadsTrans(stored', stored, history, smallest, floor);
  }
}
