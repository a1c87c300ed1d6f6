/** Compactions whose input borders split a user key: exactly when a reader notices.

    A level may hold the newer versions of a user key at the end of one table and the older ones at
    the start of the next.  `SetupOtherInputs` chooses whole tables by user key range and may cut
    there.  Two things can go wrong: newer versions move below older ones, and a deletion is dropped
    while an older value stays in the next table of the output level. */
module Borders {
  import opened Wrappers
  import opened Entries
  import opened Versions
  import opened Selection
  import opened Compactions
  import opened Edits
  import opened Engine
  import opened Steps
  import opened CompactionSteps
  import opened Installing
  import opened Moving

  // ----- Where a key is split -----

  /** The table right after the chosen run starts with the user key the run ends with. */
  predicate BorderShared(files: Level, a: nat, b: nat) {
    a < b < |files| && Largest(files[b - 1]).key == Smallest(files[b]).key
  }

  lemma OrderedAcross(files: Level, i: nat, j: nat, d: Entry, e: Entry)
    requires SortedLevel(files) && i < j < |files| && d in files[i].entries && e in files[j].entries
    ensures Before(d, e)
  {
    EntryBetweenEnds(files[i], d);
    EntryBetweenEnds(files[j], e);
  }

  lemma SplitNewerSide(files: Level, a: nat, b: nat, i: nat, j: nat)
    requires SortedLevel(files) && a <= i < b <= |files| && j < |files|
    requires j < a || (b <= j && !BorderShared(files, a, b))
    ensures Newer(Set(files[j].entries), Set(files[i].entries))
  {
    forall d, e | d in files[j].entries && e in files[i].entries && d.key == e.key ensures d.stamp > e.stamp {
      if j < a {
        OrderedAcross(files, j, i, d, e);
      } else {
        EntryInRange(files[i], e);
        EntryInRange(files[j], d);
        RangeOrdered(files, i, b - 1);
        RangeOrdered(files, b - 1, b);
        RangeOrdered(files, b, j);
      }
    }
  }

  lemma OneTablePerPlace(files: Level, i: nat, j: nat)
    requires SortedLevel(files) && i < j < |files|
    ensures files[i] != files[j]
  {
    assert Before(Largest(files[i]), Smallest(files[j]));
    EntryBetweenEnds(files[i], Smallest(files[i]));
  }

  lemma SharedBorderSplits(files: Level, part: Level, a: nat, b: nat)
    requires SortedLevel(files) && IsSlice(files, part, a, b) && BorderShared(files, a, b)
    ensures !SplitFree(files, part)
  {
    var t, u := files[b - 1], files[b];
    assert t == part[b - 1 - a] && t in part;
    forall m | 0 <= m < |part| ensures part[m] != u {
      OneTablePerPlace(files, a + m, b);
    }
    OrderedAcross(files, b - 1, b, Largest(t), Smallest(u));
    assert Largest(t) in Set(t.entries) && Smallest(u) in Set(u.entries);
    assert !Newer(Set(u.entries), Set(t.entries));
  }

  lemma ClearBorderSplitFree(files: Level, part: Level, a: nat, b: nat)
    requires SortedLevel(files) && IsSlice(files, part, a, b) && !BorderShared(files, a, b)
    ensures SplitFree(files, part)
  {
    hide SortedLevel, Newer;
    forall t, u | t in part && u in files && u !in part ensures Newer(Set(u.entries), Set(t.entries)) {
      var m :| 0 <= m < |part| && part[m] == t;
      var j :| 0 <= j < |files| && files[j] == u;
      assert j < a || b <= j;
      SplitNewerSide(files, a, b, a + m, j);
    }
  }

  /** The border test decides whether older versions of an input key stay behind. */
  lemma SplitFreeIffBorder(files: Level, part: Level, a: nat, b: nat)
    requires SortedLevel(files) && IsSlice(files, part, a, b)
    ensures SplitFree(files, part) <==> !BorderShared(files, a, b)
  {
    if BorderShared(files, a, b) {
      SharedBorderSplits(files, part, a, b);
    } else {
      ClearBorderSplitFree(files, part, a, b);
    }
  }

  // ----- What a reader could notice -----

  /** The input entry `e` moves below `d`, an older version that answers otherwise. */
  ghost predicate Overtakes(job: Job, S: set<Entry>, e: Entry, d: Entry)
    requires job.level < |job.version|
  {
    && e in LevelSet(job.in0) && Exposed(S, job.smallest, e)
    && Newest(LeftOut(job.version[job.level], job.in0), e.key, e.stamp, d) && Answer(e) != Answer(d)
  }

  /** A reader at or above the compaction's snapshot could notice. */
  ghost predicate Noticed(job: Job, S: set<Entry>)
    requires job.level + 1 < |job.version|
  {
    exists e, d :: Overtakes(job, S, e, d) || Uncovers(job, S, e, d)
  }

  /** Writes made after the compaction began hide nothing from its oldest reader. */
  lemma LaterWritesDoNotMatter(job: Job, S: set<Entry>, S': set<Entry>)
    requires job.level + 1 < |job.version| && S <= S' && forall v | v in S' && v !in S :: v.stamp > job.smallest
    ensures Noticed(job, S) <==> Noticed(job, S')
  {
    forall e, d ensures Overtakes(job, S, e, d) <==> Overtakes(job, S', e, d)
                ensures Uncovers(job, S, e, d) <==> Uncovers(job, S', e, d) {
      assert Exposed(S, job.smallest, e) <==> Exposed(S', job.smallest, e);
    }
  }

  // ----- Searches before and after -----

  ghost predicate Sane(db: Db, outputs: Level) {
    Placed(db, outputs) && Layers(db.mem, db.imm, db.levels) && UniqueSeqs(Stored(db))
  }

  lemma LookedUpOnce(layers: seq<set<Entry>>, S: set<Entry>, k: Key, s: nat, r: Option<Entry>, q: Option<Entry>)
    requires UniqueSeqs(S) && forall i | 0 <= i < |layers| :: layers[i] <= S
    requires LookedUp(layers, k, s, r) && LookedUp(layers, k, s, q)
    ensures r == q
  {
    if r.Some? && q.Some? {
      var i :| HitIn(layers, i, k, s, r.value);
      var j :| HitIn(layers, j, k, s, q.value);
      assert r.value in layers[i] && q.value in layers[j];
    }
  }

  /** What the layers look like afterwards. */
  ghost predicate Shifted(before: seq<set<Entry>>, after: seq<set<Entry>>, L: nat, rest0: set<Entry>, I0: set<Entry>,
                          rest1: set<Entry>, I1: set<Entry>, K: set<Entry>) {
    && |before| == |after| == 2 + NUM_LEVELS && L + 1 < NUM_LEVELS
    && (forall i | 0 <= i < |before| && i != L + 2 && i != L + 3 :: after[i] == before[i])
    && before[L + 2] == rest0 + I0 && after[L + 2] == rest0
    && before[L + 3] == rest1 + I1 && after[L + 3] == rest1 + K
    && K <= I0 + I1
  }

  lemma InstallShifts(db: Db, outputs: Level)
    requires Sane(db, outputs)
    ensures var job := db.job.value; var L := job.level;
            && job.level + 1 < |job.version| == |db.levels|
            && Shifted(LayersOf(db), LayersOf(Install(db, outputs)), L,
                       LeftOut(db.levels[L], job.in0), LevelSet(job.in0),
                       LeftOut(db.levels[L + 1], job.in1), LevelSet(job.in1), Set(JobKept(job)))
    ensures AgeLayers(LayersOf(db)) && UnionOf(Stored(db), LayersOf(db))
  {
    hide Layers, JobChosen, Grown, ValidVersion, NumbersUnique, JobKept, Flat, Clear, LevelSet, LeftOut, Apply,
         InstallEdit, LayersOf, UniqueSeqs, Stored, Sorted, Rest, MovesExactly, Shifted, AgeLayers, UnionOf;
    var job := db.job.value;
    StoredLayers(db);
    LayersInAgeOrder(db);
    InputsStillThere(job, db.levels);
    ChosenFromVersion(job);
    RestSets(db.levels, job.level, job.in0);
    RestSets(db.levels, job.level + 1, job.in1);
    InstallMoves(db, outputs);
    RestStays(db, outputs);
    ShiftedLayers(db, Install(db, outputs), job.level, LeftOut(db.levels[job.level], job.in0), LevelSet(job.in0),
                  LeftOut(db.levels[job.level + 1], job.in1), LevelSet(job.in1), Set(JobKept(job)));
  }

  lemma RestStays(db: Db, outputs: Level)
    requires CanInstall(db, outputs)
    ensures Install(db, outputs).levels[db.job.value.level] == Rest(db.levels[db.job.value.level], db.job.value.in0)
  {
    hide JobKept, Clear, Apply, InstallEdit, Rest, InsertAll, Flat;
    InstallLevels(db, outputs);
  }

  lemma ShiftedLayers(db: Db, db': Db, L: nat, rest0: set<Entry>, I0: set<Entry>, rest1: set<Entry>, I1: set<Entry>,
                      K: set<Entry>)
    requires db'.mem == db.mem && db'.imm == db.imm
    requires MovesExactly(db.levels, db'.levels, L, I0, I1, K, rest1) && LevelSet(db'.levels[L]) == rest0
    ensures Shifted(LayersOf(db), LayersOf(db'), L, rest0, I0, rest1, I1, K)
  {
    hide LevelSet, LayersOf, Set;
    var before, after := LayersOf(db), LayersOf(db');
    forall i | 0 <= i < |before| && i != L + 2 && i != L + 3 ensures after[i] == before[i] {
      if i >= 2 { assert after[i] == LevelSet(db'.levels[i - 2]) && before[i] == LevelSet(db.levels[i - 2]); }
    }
    assert before[2 + L] == LevelSet(db.levels[L]) && after[2 + L] == LevelSet(db'.levels[L]);
    assert before[2 + (L + 1)] == LevelSet(db.levels[L + 1]) && after[2 + (L + 1)] == LevelSet(db'.levels[L + 1]);
  }

  /** Nothing visible lies in a layer before the one that holds the newest entry. */
  lemma AheadAbsent(layers: seq<set<Entry>>, S: set<Entry>, k: Key, s: nat, x: Entry, i: nat, j: nat)
    requires AgeLayers(layers) && UnionOf(S, layers) && Newest(S, k, s, x)
    requires i < j < |layers| && x in layers[j]
    ensures Absent(layers[i], k, s)
  {
    assert Newer(layers[i], layers[j]);
    forall y | y in layers[i] ensures !Matches(y, k, s) {
      assert y in S;
    }
  }

  /** The newest entry of all, still in its layer or moved down one: it is found. */
  lemma FoundUnmoved(before: seq<set<Entry>>, after: seq<set<Entry>>, S: set<Entry>, L: nat, rest0: set<Entry>,
                     I0: set<Entry>, rest1: set<Entry>, I1: set<Entry>, K: set<Entry>, k: Key, s: nat, x: Entry)
    requires Shifted(before, after, L, rest0, I0, rest1, I1, K) && AgeLayers(before) && UnionOf(S, before)
    requires Newest(S, k, s, x) && x !in I0 + I1
    ensures LookedUp(after, k, s, Some(x))
  {
    hide Newest, Absent, AgeLayers;
    NewestStored(S, k, s, x);
    var j :| 0 <= j < |before| && x in before[j];
    assert x in after[j];
    forall i | 0 <= i < j ensures Absent(after[i], k, s) {
      AheadAbsent(before, S, k, s, x, i, j);
      if i == L + 3 {
        AheadAbsent(before, S, k, s, x, L + 2, j);
        AbsentInUnion(before[L + 2], before[L + 3], after[L + 3], k, s);
      } else if i == L + 2 {
        AbsentInUnion(before[L + 2], {}, after[L + 2], k, s);
      }
    }
    AfterInStored(before, after, S, L, rest0, I0, rest1, I1, K, j);
    NewestStays(S, after[j], k, s, x);
    assert HitIn(after, j, k, s, x);
  }

  lemma NewestStored(S: set<Entry>, k: Key, s: nat, x: Entry)
    requires Newest(S, k, s, x)
    ensures x in S && x.key == k && x.stamp <= s
  {
  }

  lemma AbsentInUnion(A: set<Entry>, B: set<Entry>, C: set<Entry>, k: Key, s: nat)
    requires Absent(A, k, s) && (B == {} || Absent(B, k, s)) && C <= A + B
    ensures Absent(C, k, s)
  {
  }

  lemma AfterInStored(before: seq<set<Entry>>, after: seq<set<Entry>>, S: set<Entry>, L: nat, rest0: set<Entry>,
                      I0: set<Entry>, rest1: set<Entry>, I1: set<Entry>, K: set<Entry>, j: nat)
    requires Shifted(before, after, L, rest0, I0, rest1, I1, K) && UnionOf(S, before) && j < |after|
    ensures after[j] <= S
  {
    forall y | y in after[j] ensures y in S {
      if y in before[j] {
        InSomeLayer(S, before, j, y);
      } else if y in before[L + 2] {
        InSomeLayer(S, before, L + 2, y);
      } else {
        InSomeLayer(S, before, L + 3, y);
      }
    }
  }

  lemma UpperAbsent(before: seq<set<Entry>>, after: seq<set<Entry>>, S: set<Entry>, L: nat, rest0: set<Entry>,
                    I0: set<Entry>, rest1: set<Entry>, I1: set<Entry>, K: set<Entry>, k: Key, s: nat, x: Entry)
    requires Shifted(before, after, L, rest0, I0, rest1, I1, K) && AgeLayers(before) && UnionOf(S, before)
    requires Newest(S, k, s, x) && x in I0 + I1
    ensures forall i | 0 <= i < L + 2 :: Absent(after[i], k, s)
  {
    forall i | 0 <= i < L + 2 ensures Absent(after[i], k, s) {
      if x in I0 {
        AheadAbsent(before, S, k, s, x, i, L + 2);
      } else {
        AheadAbsent(before, S, k, s, x, i, L + 3);
      }
    }
  }

  /** Of what stays at the level, only what was left out of the inputs is at or below an input. */
  lemma RestAtLevel(job: Job, levels: seq<Level>, x: Entry, y: Entry)
    requires JobChosen(job) && Grown(job.version, levels) && job.level + 1 < |levels|
    requires x in InputSet(job) && y.key == x.key && y.stamp <= x.stamp
    ensures y in LeftOut(levels[job.level], job.in0) <==> y in LeftOut(job.version[job.level], job.in0)
    ensures y in LeftOut(levels[job.level + 1], job.in1) <==> y in LeftOut(job.version[job.level + 1], job.in1)
  {
    hide JobChosen, InputSet;
    ChosenFromVersion(job);
    InputInVersion(job, x);
    if y in LeftOut(levels[job.level], job.in0) {
      var u :| u in levels[job.level] && u !in job.in0 && y in u.entries;
      if u !in job.version[job.level] { OneIsNewer(Set(u.entries), VersionSet(job.version), y, x); }
    }
    if y in LeftOut(levels[job.level + 1], job.in1) {
      var u :| u in levels[job.level + 1] && u !in job.in1 && y in u.entries;
      if u !in job.version[job.level + 1] { OneIsNewer(Set(u.entries), VersionSet(job.version), y, x); }
    }
  }

  /** The newest visible entry was an input and an older version of its key stayed at the level. */
  lemma FoundOvertaken(db: Db, outputs: Level, k: Key, s: nat, x: Entry, d: Entry)
    requires Sane(db, outputs) && Newest(Stored(db), k, s, x) && x in InputSet(db.job.value)
    requires db.job.value.level < |db.job.value.version|
    requires Newest(LeftOut(db.job.value.version[db.job.value.level], db.job.value.in0), k, x.stamp, d)
    ensures LookedUp(LayersOf(Install(db, outputs)), k, s, Some(d))
  {
    hide Sane, LeftOut, LayersOf, Stored, AgeLayers, UnionOf, JobKept, LevelSet, JobChosen, Grown;
    Facts(db, outputs);
    var job := db.job.value;
    var L := job.level;
    var before, after := LayersOf(db), LayersOf(Install(db, outputs));
    var rest0, rest1 := LeftOut(db.levels[L], job.in0), LeftOut(db.levels[L + 1], job.in1);
    UpperAbsent(before, after, Stored(db), L, rest0, LevelSet(job.in0), rest1, LevelSet(job.in1), Set(JobKept(job)),
                k, s, x);
    RestAtLevel(job, db.levels, x, d);
    forall y | y in rest0 && Matches(y, k, s) ensures y.stamp <= d.stamp {
      InSomeLayer(Stored(db), before, L + 2, y);
      RestAtLevel(job, db.levels, x, y);
    }
    assert HitIn(after, L + 2, k, s, d);
  }

  lemma InSomeLayer(S: set<Entry>, layers: seq<set<Entry>>, i: nat, y: Entry)
    requires UnionOf(S, layers) && i < |layers| && y in layers[i]
    ensures y in S
  {
  }

  lemma Facts(db: Db, outputs: Level)
    requires Sane(db, outputs)
    ensures db.job.Some? && |db.levels| == NUM_LEVELS
    ensures var job := db.job.value; var L := job.level;
            && L + 1 < |job.version| == NUM_LEVELS && JobChosen(job) && Grown(job.version, db.levels)
            && Shifted(LayersOf(db), LayersOf(Install(db, outputs)), L,
                       LeftOut(db.levels[L], job.in0), LevelSet(job.in0),
                       LeftOut(db.levels[L + 1], job.in1), LevelSet(job.in1), Set(JobKept(job)))
    ensures AgeLayers(LayersOf(db)) && UnionOf(Stored(db), LayersOf(db)) && UniqueSeqs(Stored(db))
    ensures forall l | 1 <= l < NUM_LEVELS :: SortedLevel(db.levels[l])
  {
    hide Layers, JobKept, Flat, Clear, LevelSet, LeftOut, LayersOf, UniqueSeqs, Stored, SortedLevel, AgeOrdered,
         Shifted, ValidInputs, Grown;
    PlacedBasics(db, outputs);
    InstallShifts(db, outputs);
  }

  /** It was an input, nothing older stayed at the level, and it was kept. */
  lemma FoundKept(db: Db, outputs: Level, k: Key, s: nat, x: Entry)
    requires Sane(db, outputs) && Newest(Stored(db), k, s, x) && x in InputSet(db.job.value)
    requires db.job.value.level < |db.job.value.version|
    requires Absent(LeftOut(db.job.value.version[db.job.value.level], db.job.value.in0), k, x.stamp)
    requires x in JobKept(db.job.value)
    ensures LookedUp(LayersOf(Install(db, outputs)), k, s, Some(x))
  {
    hide Sane, LeftOut, LayersOf, Stored, AgeLayers, UnionOf, JobKept, LevelSet, JobChosen, Grown;
    Facts(db, outputs);
    LevelAbsent(db, outputs, k, s, x);
    var job := db.job.value;
    var L := job.level;
    var before, after := LayersOf(db), LayersOf(Install(db, outputs));
    forall y | y in after[L + 3] && Matches(y, k, s) ensures y.stamp <= x.stamp {
      InSomeLayer(Stored(db), before, if y in before[L + 3] then L + 3 else L + 2, y);
    }
    assert HitIn(after, L + 3, k, s, x);
  }

  lemma LevelAbsent(db: Db, outputs: Level, k: Key, s: nat, x: Entry)
    requires Sane(db, outputs) && Newest(Stored(db), k, s, x) && x in InputSet(db.job.value)
    requires db.job.value.level < |db.job.value.version|
    requires Absent(LeftOut(db.job.value.version[db.job.value.level], db.job.value.in0), k, x.stamp)
    ensures db.job.value.level + 3 < |LayersOf(Install(db, outputs))|
    ensures forall i | 0 <= i < db.job.value.level + 3 :: Absent(LayersOf(Install(db, outputs))[i], k, s)
  {
    hide Sane, LeftOut, LayersOf, Stored, AgeLayers, UnionOf, JobKept, LevelSet, JobChosen, Grown, Newest, Set;
    Facts(db, outputs);
    var job := db.job.value;
    var L := job.level;
    var before, after := LayersOf(db), LayersOf(Install(db, outputs));
    var rest0, rest1 := LeftOut(db.levels[L], job.in0), LeftOut(db.levels[L + 1], job.in1);
    UpperAbsent(before, after, Stored(db), L, rest0, LevelSet(job.in0), rest1, LevelSet(job.in1), Set(JobKept(job)),
                k, s, x);
    forall y | y in rest0 ensures !Matches(y, k, s) {
      InSomeLayer(Stored(db), before, L + 2, y);
      NotAtLevel(job, db.levels, Stored(db), k, s, x, y);
    }
    assert Absent(rest0, k, s);
  }

  lemma NotAtLevel(job: Job, levels: seq<Level>, S: set<Entry>, k: Key, s: nat, x: Entry, y: Entry)
    requires JobChosen(job) && Grown(job.version, levels) && job.level + 1 < |levels|
    requires Newest(S, k, s, x) && x in InputSet(job) && y in S && y in LeftOut(levels[job.level], job.in0)
    requires Absent(LeftOut(job.version[job.level], job.in0), k, x.stamp)
    ensures !Matches(y, k, s)
  {
    hide JobChosen, Grown, LeftOut, InputSet;
    if Matches(y, k, s) { RestAtLevel(job, levels, x, y); }
  }

  /** It was a deletion that the base-level rule dropped: what was left out below it is found. */
  lemma FoundUncovered(db: Db, outputs: Level, k: Key, s: nat, x: Entry, r: Option<Entry>)
    requires Sane(db, outputs) && Newest(Stored(db), k, s, x) && x in InputSet(db.job.value)
    requires db.job.value.level + 1 < |db.job.value.version|
    requires Absent(LeftOut(db.job.value.version[db.job.value.level], db.job.value.in0), k, x.stamp)
    requires x !in JobKept(db.job.value) && x.stamp <= db.job.value.smallest
    requires IsBase(db.job.value.version, db.job.value.level, k)
    requires Finds(LeftOut(db.job.value.version[db.job.value.level + 1], db.job.value.in1), k, x.stamp, r)
    ensures LookedUp(LayersOf(Install(db, outputs)), k, s, r)
  {
    hide Sane, LeftOut, LayersOf, Stored, AgeLayers, UnionOf, JobKept, LevelSet, JobChosen, Grown, IsBase,
         SortedLevel, Shifted, Newest, Absent, InputSet, Set, Finds, LookedUp;
    Facts(db, outputs);
    LevelAbsent(db, outputs, k, s, x);
    NewestStored(Stored(db), k, s, x);
    var job := db.job.value;
    var L := job.level;
    var before, after := LayersOf(db), LayersOf(Install(db, outputs));
    var left := LeftOut(job.version[L + 1], job.in1);
    forall y: Entry | Matches(y, k, s) ensures y in after[L + 3] <==> y in left && y.stamp <= x.stamp {
      AtOutput(db, outputs, k, s, x, y);
    }
    SameFinds(after[L + 3], left, k, s, x.stamp, r);
    forall i | L + 3 < i < |after| ensures Absent(after[i], k, s) { DeeperAbsent(db, outputs, k, s, x, i); }
    FoundAt(after, L + 3, k, s, r);
  }

  lemma FoundAt(layers: seq<set<Entry>>, j: nat, k: Key, s: nat, r: Option<Entry>)
    requires j < |layers| && Finds(layers[j], k, s, r)
    requires (forall i | 0 <= i < j :: Absent(layers[i], k, s))
             && (forall i | j < i < |layers| :: Absent(layers[i], k, s))
    ensures LookedUp(layers, k, s, r)
  {
    hide Newest, Absent;
    if r.Some? { assert HitIn(layers, j, k, s, r.value); }
  }

  lemma SameFinds(A: set<Entry>, B: set<Entry>, k: Key, s: nat, bound: nat, r: Option<Entry>)
    requires bound <= s && Finds(B, k, bound, r)
    requires forall y: Entry | Matches(y, k, s) :: y in A <==> y in B && y.stamp <= bound
    ensures Finds(A, k, s, r)
  {
  }

  lemma AtOutput(db: Db, outputs: Level, k: Key, s: nat, x: Entry, y: Entry)
    requires Sane(db, outputs) && Newest(Stored(db), k, s, x) && x in InputSet(db.job.value)
    requires db.job.value.level + 1 < |db.job.value.version|
    requires x !in JobKept(db.job.value) && x.stamp <= db.job.value.smallest && Matches(y, k, s)
    ensures db.job.value.level + 3 < |LayersOf(Install(db, outputs))|
    ensures y in LayersOf(Install(db, outputs))[db.job.value.level + 3] <==>
            y in LeftOut(db.job.value.version[db.job.value.level + 1], db.job.value.in1) && y.stamp <= x.stamp
  {
    hide Sane, LeftOut, LayersOf, Stored, AgeLayers, UnionOf, JobKept, LevelSet, JobChosen, Grown, UniqueSeqs;
    Facts(db, outputs);
    var job := db.job.value;
    var L := job.level;
    var before, after := LayersOf(db), LayersOf(Install(db, outputs));
    if y in after[L + 3] {
      InSomeLayer(Stored(db), before, if y in before[L + 3] then L + 3 else L + 2, y);
      SameStamp(Stored(db), y, x);
      if y in JobKept(job) { OlderNotKept(job, x, y); }
      RestAtLevel(job, db.levels, x, y);
    } else if y.stamp <= x.stamp {
      RestAtLevel(job, db.levels, x, y);
    }
  }

  lemma OlderNotKept(job: Job, x: Entry, y: Entry)
    requires JobChosen(job) && x in InputSet(job) && x.stamp <= job.smallest && y.key == x.key && y.stamp < x.stamp
    ensures y !in JobKept(job)
  {
    hide JobChosen, Kept, InputSet, JobInput;
    JobInputSorted(job);
    KeptSet(job);
    var xs := JobInput(job);
    assert x in Set(xs);
    var i :| 0 <= i < |xs| && xs[i] == x;
    if y in JobKept(job) {
      assert y in Set(JobKept(job)) && y in Set(xs);
      OlderIsDropped(xs, job.smallest, job.version, job.level, i, y);
    }
  }

  lemma DeeperAbsent(db: Db, outputs: Level, k: Key, s: nat, x: Entry, i: nat)
    requires Sane(db, outputs) && Newest(Stored(db), k, s, x) && x in InputSet(db.job.value)
    requires IsBase(db.job.value.version, db.job.value.level, k)
    requires db.job.value.level + 3 < i < |LayersOf(Install(db, outputs))|
    ensures Absent(LayersOf(Install(db, outputs))[i], k, s)
  {
    hide Sane, LeftOut, LayersOf, Stored, AgeLayers, UnionOf, JobKept, LevelSet, JobChosen, Grown, IsBase,
         SortedLevel;
    Facts(db, outputs);
    var before, after := LayersOf(db), LayersOf(Install(db, outputs));
    forall y | y in after[i] ensures !Matches(y, k, s) {
      InSomeLayer(Stored(db), before, i, y);
      if Matches(y, k, s) { BelowOutputNewer(db.job.value, db.levels, i - 2, y, x); }
    }
  }

  // ----- The exact condition -----

  /** A search before and after, for one key and sequence number. */
  lemma SearchAfter(db: Db, outputs: Level, k: Key, s: nat, x: Entry) returns (r: Option<Entry>)
    requires Sane(db, outputs) && Newest(Stored(db), k, s, x) && db.job.value.smallest <= s
    ensures db.job.value.level + 1 < |db.job.value.version|
    ensures LookedUp(LayersOf(Install(db, outputs)), k, s, r)
    ensures Answer(x) != AnswerOf(r) ==>
              && r.Some?
              && (Overtakes(db.job.value, Stored(db), x, r.value) || Uncovers(db.job.value, Stored(db), x, r.value))
  {
    hide Sane, LeftOut, LayersOf, Stored, AgeLayers, UnionOf, JobKept, LevelSet, JobChosen, Grown, IsBase, LookedUp,
         Shifted, SortedLevel, InputSet;
    Facts(db, outputs);
    var job := db.job.value;
    var S := Stored(db);
    NewestIsExposed(S, job.smallest, k, s, x);
    if x !in InputSet(job) {
      r := Some(x);
      NotInputFound(db, outputs, k, s, x);
      return;
    }
    var left0, left1 := LeftOut(job.version[job.level], job.in0), LeftOut(job.version[job.level + 1], job.in1);
    NewestExists(left0, k, x.stamp);
    if d :| Newest(left0, k, x.stamp, d) {
      r := Some(d);
      FoundOvertaken(db, outputs, k, s, x, d);
      OvertakenIsFirst(db, outputs, x, d);
    } else if x in JobKept(job) {
      r := Some(x);
      FoundKept(db, outputs, k, s, x);
    } else {
      DroppedDeletion(db, outputs, x);
      NewestExists(left1, k, x.stamp);
      if d :| Newest(left1, k, x.stamp, d) {
        r := Some(d);
      } else {
        r := None;
      }
      FoundUncovered(db, outputs, k, s, x, r);
    }
  }

  lemma NotInputFound(db: Db, outputs: Level, k: Key, s: nat, x: Entry)
    requires Sane(db, outputs) && Newest(Stored(db), k, s, x) && x !in InputSet(db.job.value)
    ensures LookedUp(LayersOf(Install(db, outputs)), k, s, Some(x))
  {
    hide Sane, LeftOut, LayersOf, Stored, AgeLayers, UnionOf, JobKept, LevelSet, JobChosen, Grown, LookedUp, Shifted;
    Facts(db, outputs);
    var job := db.job.value;
    FoundUnmoved(LayersOf(db), LayersOf(Install(db, outputs)), Stored(db), job.level,
                 LeftOut(db.levels[job.level], job.in0), LevelSet(job.in0),
                 LeftOut(db.levels[job.level + 1], job.in1), LevelSet(job.in1), Set(JobKept(job)), k, s, x);
  }

  /** An input with an older version left behind at the level is itself from that level. */
  lemma OvertakenIsFirst(db: Db, outputs: Level, x: Entry, d: Entry)
    requires Sane(db, outputs) && x in InputSet(db.job.value) && db.job.value.level < |db.job.value.version|
    requires d in LeftOut(db.job.value.version[db.job.value.level], db.job.value.in0)
    requires d.key == x.key && d.stamp <= x.stamp
    ensures x in LevelSet(db.job.value.in0)
  {
    hide Placed, Layers, JobChosen, LeftOut, LevelSet;
    Facts(db, outputs);
    if x !in LevelSet(db.job.value.in0) { LeftIsNewer(db.job.value, x, d); }
  }

  lemma LeftIsNewer(job: Job, x: Entry, d: Entry)
    requires JobChosen(job) && x in LevelSet(job.in1) && d.key == x.key
    requires d in LeftOut(job.version[job.level], job.in0)
    ensures d.stamp > x.stamp
  {
    hide NumbersUnique, ValidInputs, SortedLevel, DistinctNumbers, TablesSorted, Newer;
    InputsInLevels(job);
    assert d in LevelSet(job.version[job.level]);
    assert Newer(LevelSet(job.version[job.level]), LevelSet(job.version[job.level + 1]));
    OneIsNewer(LevelSet(job.version[job.level]), LevelSet(job.version[job.level + 1]), d, x);
  }

  lemma DroppedDeletion(db: Db, outputs: Level, x: Entry)
    requires Sane(db, outputs) && x in InputSet(db.job.value) && x !in JobKept(db.job.value)
    requires Exposed(Stored(db), db.job.value.smallest, x)
    ensures x.kind == Deletion && x.stamp <= db.job.value.smallest
    ensures IsBase(db.job.value.version, db.job.value.level, x.key)
  {
    hide Layers, JobChosen, Kept, Stored, InputSet, JobInput, Exposed, IsBase, Grown, ValidVersion, UniqueSeqs, Flat;
    var job := db.job.value;
    JobInputSorted(job);
    InputStored(db, outputs);
    assert x in Set(JobInput(job));
    ExposedDropIsDeletion(Stored(db), JobInput(job), job.smallest, job.version, job.level, x);
  }

  ghost predicate SameAnswers(before: seq<set<Entry>>, after: seq<set<Entry>>, floor: nat) {
    forall k, s: nat, r, q | floor <= s && LookedUp(before, k, s, r) && LookedUp(after, k, s, q) ::
      AnswerOf(r) == AnswerOf(q)
  }

  lemma NewestIsFound(db: Db, k: Key, s: nat, x: Entry)
    requires Layers(db.mem, db.imm, db.levels) && Newest(Stored(db), k, s, x)
    ensures LookedUp(LayersOf(db), k, s, Some(x))
  {
    hide Layers, LayersOf, Stored;
    StoredLayers(db);
    LayersInAgeOrder(db);
    var layers := LayersOf(db);
    var j :| 0 <= j < |layers| && x in layers[j];
    forall i | 0 <= i < j ensures Absent(layers[i], k, s) { AheadAbsent(layers, Stored(db), k, s, x, i, j); }
    assert HitIn(layers, j, k, s, x);
  }

  lemma AfterWithin(db: Db, outputs: Level, i: nat)
    requires Sane(db, outputs) && i < |LayersOf(Install(db, outputs))|
    ensures LayersOf(Install(db, outputs))[i] <= Stored(db)
  {
    hide Sane, LeftOut, LayersOf, Stored, AgeLayers, JobKept, LevelSet, JobChosen, Grown, SortedLevel;
    Facts(db, outputs);
  }

  /** `InstallCompactionResults`: every search at or above the compaction's snapshot gives the same
      answer as before if and only if no reader could notice the borders. */
  lemma InstallSafeIff(db: Db, outputs: Level)
    requires Sane(db, outputs) && db.job.value.level + 1 < |db.job.value.version|
    ensures SameAnswers(LayersOf(db), LayersOf(Install(db, outputs)), db.job.value.smallest)
       <==> !Noticed(db.job.value, Stored(db))
  {
    hide Sane, LayersOf, Stored, Overtakes, Uncovers, SameAnswers;
    SaneBasics(db, outputs);
    var job := db.job.value;
    if e, d :| Overtakes(job, Stored(db), e, d) || Uncovers(job, Stored(db), e, d) {
      NoticedChanges(db, outputs, e, d);
    } else {
      UnnoticedKeeps(db, outputs);
    }
  }

  lemma SaneBasics(db: Db, outputs: Level)
    requires Sane(db, outputs)
    ensures db.job.Some? && |db.levels| == NUM_LEVELS
  {
    hide Placed;
    PlacedBasics(db, outputs);
  }

  lemma UnnoticedKeeps(db: Db, outputs: Level)
    requires Sane(db, outputs) && db.job.value.level + 1 < |db.job.value.version|
    requires forall e, d :: !(Overtakes(db.job.value, Stored(db), e, d) || Uncovers(db.job.value, Stored(db), e, d))
    ensures SameAnswers(LayersOf(db), LayersOf(Install(db, outputs)), db.job.value.smallest)
  {
    hide Sane, LayersOf, Stored, LookedUp, Overtakes, Uncovers, AnswerOf;
    SaneBasics(db, outputs);
    var before, after := LayersOf(db), LayersOf(Install(db, outputs));
    forall k, s: nat, r, q | db.job.value.smallest <= s && LookedUp(before, k, s, r) && LookedUp(after, k, s, q)
      ensures AnswerOf(r) == AnswerOf(q)
    {
      UnnoticedSame(db, outputs, k, s, r, q);
    }
  }

  lemma UnnoticedSame(db: Db, outputs: Level, k: Key, s: nat, r: Option<Entry>, q: Option<Entry>)
    requires Sane(db, outputs) && db.job.value.level + 1 < |db.job.value.version| && db.job.value.smallest <= s
    requires LookedUp(LayersOf(db), k, s, r) && LookedUp(LayersOf(Install(db, outputs)), k, s, q)
    requires forall e, d :: !(Overtakes(db.job.value, Stored(db), e, d) || Uncovers(db.job.value, Stored(db), e, d))
    ensures AnswerOf(r) == AnswerOf(q)
  {
    hide Placed, Layers, LayersOf, Stored, LookedUp, Overtakes, Uncovers, UniqueSeqs;
    PlacedBasics(db, outputs);
    FoundIsNewest(db, k, s, r);
    var after := LayersOf(Install(db, outputs));
    forall i | 0 <= i < |after| ensures after[i] <= Stored(db) { AfterWithin(db, outputs, i); }
    if r.Some? {
      var p := SearchAfter(db, outputs, k, s, r.value);
      LookedUpOnce(after, Stored(db), k, s, p, q);
    } else {
      NothingThere(after, Stored(db), k, s);
      LookedUpOnce(after, Stored(db), k, s, None, q);
    }
  }

  lemma NothingThere(layers: seq<set<Entry>>, S: set<Entry>, k: Key, s: nat)
    requires Absent(S, k, s) && forall i | 0 <= i < |layers| :: layers[i] <= S
    ensures LookedUp(layers, k, s, None)
  {
  }

  /** Where and what a reader notices: `e` before, `d` after. */
  lemma NoticedAt(db: Db, outputs: Level, e: Entry, d: Entry) returns (s: nat)
    requires Sane(db, outputs) && db.job.value.level + 1 < |db.job.value.version|
    requires Overtakes(db.job.value, Stored(db), e, d) || Uncovers(db.job.value, Stored(db), e, d)
    ensures db.job.value.smallest <= s
    ensures LookedUp(LayersOf(db), e.key, s, Some(e))
    ensures LookedUp(LayersOf(Install(db, outputs)), e.key, s, Some(d))
    ensures Answer(e) != Answer(d)
  {
    hide Placed, Layers, LayersOf, Stored, LookedUp, UniqueSeqs, JobKept, IsBase, LeftOut, Newest, Exposed;
    PlacedBasics(db, outputs);
    var job := db.job.value;
    ExposedStored(db, outputs, e);
    s := ExposedIsNewest(Stored(db), job.smallest, e);
    NewestIsFound(db, e.key, s, e);
    if Overtakes(job, Stored(db), e, d) {
      FoundOvertaken(db, outputs, e.key, s, e, d);
    } else {
      UncoveredAlone(db, outputs, e, d);
      FoundUncovered(db, outputs, e.key, s, e, Some(d));
    }
  }

  lemma NoticedChanges(db: Db, outputs: Level, e: Entry, d: Entry)
    requires Sane(db, outputs) && db.job.value.level + 1 < |db.job.value.version|
    requires Overtakes(db.job.value, Stored(db), e, d) || Uncovers(db.job.value, Stored(db), e, d)
    ensures !SameAnswers(LayersOf(db), LayersOf(Install(db, outputs)), db.job.value.smallest)
  {
    hide Sane, LayersOf, Stored, LookedUp, Overtakes, Uncovers;
    var s := NoticedAt(db, outputs, e, d);
    assert AnswerOf(Some(e)) != AnswerOf(Some(d));
  }

  lemma ExposedStored(db: Db, outputs: Level, e: Entry)
    requires Sane(db, outputs) && e in InputSet(db.job.value)
    ensures e in Stored(db)
  {
    hide Layers, JobChosen, Kept, InputSet, JobInput, ValidVersion, UniqueSeqs, Flat, Stored, JobKept;
    JobInputSorted(db.job.value);
    InputStored(db, outputs);
  }

  /** A deletion that uncovers a value comes from the output level, so nothing of its key is older
      at the level above. */
  lemma UncoveredAlone(db: Db, outputs: Level, e: Entry, d: Entry)
    requires Sane(db, outputs) && db.job.value.level + 1 < |db.job.value.version|
    requires Uncovers(db.job.value, Stored(db), e, d)
    ensures Absent(LeftOut(db.job.value.version[db.job.value.level], db.job.value.in0), e.key, e.stamp)
    ensures e !in JobKept(db.job.value) && e in LevelSet(db.job.value.in1)
  {
    hide Sane, Stored, JobKept, IsBase, JobChosen, LeftOut, InputSet, LevelSet, Exposed;
    SaneChosen(db, outputs);
    var job := db.job.value;
    NotKept(db, outputs, e);
    SameKeyIsInput(job, e, d);
    forall y | y in LeftOut(job.version[job.level], job.in0) ensures !Matches(y, e.key, e.stamp) {
      if Matches(y, e.key, e.stamp) { LeftIsNewer(job, e, y); }
    }
  }

  lemma SaneChosen(db: Db, outputs: Level)
    requires Sane(db, outputs)
    ensures db.job.Some? && JobChosen(db.job.value)
  {
    hide JobChosen;
  }

  lemma NotKept(db: Db, outputs: Level, e: Entry)
    requires Sane(db, outputs) && e in InputSet(db.job.value) && Exposed(Stored(db), db.job.value.smallest, e)
    requires e.kind == Deletion && e.stamp <= db.job.value.smallest
    requires IsBase(db.job.value.version, db.job.value.level, e.key)
    ensures e !in JobKept(db.job.value)
  {
    hide Layers, JobChosen, Kept, Stored, InputSet, JobInput, Exposed, IsBase, Grown, ValidVersion, UniqueSeqs, Flat;
    var job := db.job.value;
    JobInputSorted(job);
    InputStored(db, outputs);
    assert e in Set(JobInput(job));
    ExposedDropIsDeletion(Stored(db), JobInput(job), job.smallest, job.version, job.level, e);
  }

  /** Every table of the output level with a key of the first inputs is an input. */
  lemma SameKeyIsInput(job: Job, e: Entry, d: Entry)
    requires JobChosen(job) && e in InputSet(job) && d.key == e.key
    requires d in LeftOut(job.version[job.level + 1], job.in1)
    ensures e in LevelSet(job.in1)
  {
    hide NumbersUnique, ValidVersion, LevelSet, ValidInputs;
    ChosenFromVersion(job);
    var u :| u in job.version[job.level + 1] && u !in job.in1 && d in u.entries;
    OutputsFit(job.version, job.level, job.in0, job.in1, u);
  }

  // ----- In terms of the borders -----

  /** A reader notices only where the table behind the inputs starts with the user key they end with. */
  lemma NoticedOnlyAtBorders(job: Job, S: set<Entry>, e: Entry, d: Entry, a: nat, b: nat, a1: nat, b1: nat)
    requires JobChosen(job) && IsSlice(job.version[job.level + 1], job.in1, a1, b1)
    requires job.level > 0 ==> IsSlice(job.version[job.level], job.in0, a, b)
    ensures Overtakes(job, S, e, d) ==> job.level > 0 && BorderShared(job.version[job.level], a, b)
    ensures Uncovers(job, S, e, d) ==> BorderShared(job.version[job.level + 1], a1, b1)
  {
    hide NumbersUnique, ValidInputs, AgeOrdered, SortedLevel, LeftOut, LevelSet, Exposed, IsBase;
    if Overtakes(job, S, e, d) {
      if job.level == 0 {
        ZeroIsSplitFree(job);
        LeftOutNewer(job.version[0], job.in0);
      } else if !BorderShared(job.version[job.level], a, b) {
        ClearBorderSplitFree(job.version[job.level], job.in0, a, b);
        LeftOutNewer(job.version[job.level], job.in0);
      }
    }
    if Uncovers(job, S, e, d) {
      SameKeyIsInput(job, e, d);
      if !BorderShared(job.version[job.level + 1], a1, b1) {
        ClearBorderSplitFree(job.version[job.level + 1], job.in1, a1, b1);
        LeftOutNewer(job.version[job.level + 1], job.in1);
      }
    }
  }

  lemma ZeroIsSplitFree(job: Job)
    requires JobChosen(job) && job.level == 0
    ensures SplitFree(job.version[0], job.in0)
  {
    hide AgeOrdered, NumbersUnique, SplitFree;
    LevelZeroSplitFree(job.version, job.in0);
  }

  /** The newest version left behind a shared border is the first entry of the next table. */
  lemma BehindBorder(files: Level, part: Level, a: nat, b: nat)
    requires SortedLevel(files) && IsSlice(files, part, a, b) && BorderShared(files, a, b)
    ensures var e, d := Largest(files[b - 1]), Smallest(files[b]);
            d.stamp < e.stamp && e in LevelSet(part) && Newest(LeftOut(files, part), e.key, e.stamp, d)
  {
    var e, d := Largest(files[b - 1]), Smallest(files[b]);
    assert part[b - 1 - a] == files[b - 1] && files[b - 1] in part;
    forall m | 0 <= m < |part| ensures part[m] != files[b] {
      OneTablePerPlace(files, a + m, b);
    }
    assert Before(e, d);
    assert e in files[b - 1].entries && d in files[b].entries && files[b] !in part;
    assert d in LeftOut(files, part);
    forall y | y in LeftOut(files, part) && Matches(y, e.key, e.stamp) ensures y.stamp <= d.stamp {
      var u :| u in files && u !in part && y in u.entries;
      var j :| 0 <= j < |files| && files[j] == u;
      if a <= j < b { SliceMember(files, part, a, b, j); }
      LeftOfBorder(files, b, j, y);
    }
  }

  lemma LeftOfBorder(files: Level, b: nat, j: nat, y: Entry)
    requires SortedLevel(files) && 0 < b < |files| && j < |files| && y in files[j].entries
    requires y.key == Largest(files[b - 1]).key == Smallest(files[b]).key
    ensures j < b - 1 ==> y.stamp > Largest(files[b - 1]).stamp
    ensures b <= j ==> y.stamp <= Smallest(files[b]).stamp
  {
    if j < b - 1 {
      OrderedAcross(files, j, b - 1, y, Largest(files[b - 1]));
    } else if j == b {
      EntryBetweenEnds(files[b], y);
    } else if j > b {
      OrderedAcross(files, b, j, Smallest(files[b]), y);
    }
  }

  lemma SliceMember(files: Level, part: Level, a: nat, b: nat, j: nat)
    requires IsSlice(files, part, a, b) && a <= j < b
    ensures files[j] in part
  {
    assert part[j - a] == files[j];
  }

  /** A merging compaction across a shared border: a search at the last input entry returns the first
      entry of the next table instead; a reader can ask there when the entry is not below the
      compaction's snapshot. */
  lemma SharedBorderGoesStale(db: Db, outputs: Level, a: nat, b: nat)
    requires Sane(db, outputs) && 0 < db.job.value.level < |db.job.value.version|
    requires IsSlice(db.job.value.version[db.job.value.level], db.job.value.in0, a, b)
    requires BorderShared(db.job.value.version[db.job.value.level], a, b)
    ensures var files := db.job.value.version[db.job.value.level];
            var e, d := Largest(files[b - 1]), Smallest(files[b]);
            && LookedUp(LayersOf(db), e.key, e.stamp, Some(e))
            && LookedUp(LayersOf(Install(db, outputs)), e.key, e.stamp, Some(d)) && d.stamp < e.stamp
            && (db.job.value.smallest <= e.stamp && Answer(e) != Answer(d) ==>
                  Overtakes(db.job.value, Stored(db), e, d))
  {
    hide Placed, Layers, LayersOf, Stored, LookedUp, JobKept, LeftOut, LevelSet, UniqueSeqs, Newest;
    Facts(db, outputs);
    var job := db.job.value;
    var files := job.version[job.level];
    var e, d := Largest(files[b - 1]), Smallest(files[b]);
    VersionSorted(job);
    BehindBorder(files, job.in0, a, b);
    ExposedStored(db, outputs, e);
    NewestAtItself(Stored(db), e);
    NewestIsFound(db, e.key, e.stamp, e);
    FoundOvertaken(db, outputs, e.key, e.stamp, e, d);
  }

  lemma VersionSorted(job: Job)
    requires JobChosen(job) && job.level > 0
    ensures SortedLevel(job.version[job.level])
  {
  }

  lemma NewestAtItself(S: set<Entry>, e: Entry)
    requires e in S
    ensures Newest(S, e.key, e.stamp, e)
    ensures forall floor: nat | floor <= e.stamp :: Exposed(S, floor, e)
  {
  }

  // ----- From a running database -----

  function NumbersIn(files: Level): (r: seq<nat>)
    ensures |r| == |files| && forall i | 0 <= i < |files| :: r[i] == files[i].number
  {
    if files == [] then [] else NumbersIn(files[..|files| - 1]) + [files[|files| - 1].number]
  }

  /** A compaction of `in0` and `in1` that starts now and has opened these outputs. */
  function Begun(db: Db, level: nat, in0: Level, in1: Level, outputs: Level): Db {
    db.(job := Some(Job(level, in0, in1, OldestReadable(db), db.levels, NumbersIn(outputs))))
  }

  ghost predicate CompactsTo(db: Db, level: nat, in0: Level, in1: Level, outputs: Level) {
    && |db.levels| == NUM_LEVELS && level + 1 < NUM_LEVELS && ValidInputs(db.levels, level, in0, in1)
    && Flat(outputs) == JobKept(Begun(db, level, in0, in1, outputs).job.value)
  }

  lemma BegunIsSane(db: Db, history: set<Entry>, floor: nat, level: nat, in0: Level, in1: Level, outputs: Level)
    requires Inv(db, history, floor) && CompactsTo(db, level, in0, in1, outputs)
    ensures Sane(Begun(db, level, in0, in1, outputs), outputs)
  {
    hide ValidVersion, Logged, LastSaved, BatchesWithin, OnDisk, JobLive, SameReads, Flat, JobKept, NumbersUnique,
         Replay, ValidInputs, NumbersIn;
    var mid := Begun(db, level, in0, in1, outputs);
    SameStored(db, mid);
    UniqueLess(history, Stored(db));
    assert Grown(mid.job.value.version, mid.levels);
    assert CanInstall(mid, outputs);
  }

  /** In any state a run can reach: compacting any inputs `SetupOtherInputs` may choose keeps every
      answer from the oldest readable sequence number on, if and only if no reader could notice. */
  lemma CompactionSafeIff(db: Db, history: set<Entry>, floor: nat, level: nat, in0: Level, in1: Level, outputs: Level)
    requires Inv(db, history, floor) && CompactsTo(db, level, in0, in1, outputs)
    ensures SameAnswers(LayersOf(db), LayersOf(Install(Begun(db, level, in0, in1, outputs), outputs)),
                        OldestReadable(db))
       <==> !Noticed(Job(level, in0, in1, OldestReadable(db), db.levels, []), Stored(db))
  {
    hide Inv, Flat, JobKept, ValidInputs, SameAnswers, Sane, Stored, Apply, InstallEdit, Noticed, LayersOf;
    var mid := Begun(db, level, in0, in1, outputs);
    BegunIsSane(db, history, floor, level, in0, in1, outputs);
    InstallSafeIff(mid, outputs);
    SameStored(db, mid);
    NoticedIgnoresNumbers(mid.job.value, Stored(db));
    SameLayers(db, mid);
  }

  lemma SameLayers(db: Db, db': Db)
    requires db'.mem == db.mem && db'.imm == db.imm && db'.levels == db.levels
    ensures LayersOf(db') == LayersOf(db)
  {
  }

  lemma NoticedIgnoresNumbers(job: Job, S: set<Entry>)
    requires job.level + 1 < |job.version|
    ensures Noticed(job, S) <==> Noticed(job.(numbers := []), S)
  {
    forall e, d ensures Overtakes(job, S, e, d) <==> Overtakes(job.(numbers := []), S, e, d)
                ensures Uncovers(job, S, e, d) <==> Uncovers(job.(numbers := []), S, e, d) {
      assert InputSet(job) == InputSet(job.(numbers := []));
    }
  }

  // ----- Moving one table -----

  /** What moving a table to the next level could do to a reader, as a compaction that drops nothing. */
  function MoveJob(db: Db, level: nat, f: Table): Job {
    Job(level, [f], [], OldestReadable(db), db.levels, [])
  }

  ghost predicate Movable(db: Db, level: nat, f: Table) {
    && |db.levels| == NUM_LEVELS && level + 1 < NUM_LEVELS && ValidInputs(db.levels, level, [f], [])
    && NumbersUnique(db.levels) && Layers(db.mem, db.imm, db.levels) && UniqueSeqs(Stored(db))
  }

  lemma InvMovable(db: Db, history: set<Entry>, floor: nat, level: nat, f: Table)
    requires Inv(db, history, floor) && |db.levels| == NUM_LEVELS && level + 1 < NUM_LEVELS
    requires ValidInputs(db.levels, level, [f], [])
    ensures Movable(db, level, f)
  {
    hide ValidVersion, Logged, LastSaved, BatchesWithin, OnDisk, JobLive, SameReads, NumbersUnique, Replay, ValidInputs,
         BordersSafe, Newer, Sorted;
    UniqueLess(history, Stored(db));
  }

  lemma MoveShifts(db: Db, level: nat, f: Table)
    requires Movable(db, level, f)
    ensures Shifted(LayersOf(db), LayersOf(Move(db, level, f)), level, LeftOut(db.levels[level], [f]), LevelSet([f]),
                    LevelSet(db.levels[level + 1]), {}, LevelSet([f]))
    ensures AgeLayers(LayersOf(db)) && UnionOf(Stored(db), LayersOf(db))
  {
    hide Layers, NumbersUnique, LevelSet, LeftOut, Rest, MoveEdit, Apply, InsertTable, Stored, UniqueSeqs;
    StoredLayers(db);
    LayersInAgeOrder(db);
    InputsFromVersion(db.levels, level, [f], []);
    MoveLevels(db, level, f);
    RestSets(db.levels, level, [f]);
    InsertLevelSet(db.levels[level + 1], f);
    SingleSet(f);
    MovedLayers(db, Move(db, level, f), level, LeftOut(db.levels[level], [f]), LevelSet([f]));
  }

  lemma MovedLayers(db: Db, db': Db, level: nat, rest: set<Entry>, I: set<Entry>)
    requires |db.levels| == |db'.levels| == NUM_LEVELS && level + 1 < NUM_LEVELS
    requires db'.mem == db.mem && db'.imm == db.imm
    requires forall l | 0 <= l < NUM_LEVELS && l != level && l != level + 1 :: db'.levels[l] == db.levels[l]
    requires LevelSet(db.levels[level]) == rest + I && LevelSet(db'.levels[level]) == rest
    requires LevelSet(db'.levels[level + 1]) == LevelSet(db.levels[level + 1]) + I
    ensures Shifted(LayersOf(db), LayersOf(db'), level, rest, I, LevelSet(db.levels[level + 1]), {}, I)
  {
    hide LevelSet, Set;
    var before, after := LayersOf(db), LayersOf(db');
    assert before[2 + level] == LevelSet(db.levels[level]) && after[2 + level] == LevelSet(db'.levels[level]);
    assert before[3 + level] == LevelSet(db.levels[level + 1]) && after[3 + level] == LevelSet(db'.levels[level + 1]);
  }

  /** A search after the move. */
  lemma SearchMoved(db: Db, level: nat, f: Table, k: Key, s: nat, x: Entry) returns (r: Entry)
    requires Movable(db, level, f) && Newest(Stored(db), k, s, x)
    ensures LookedUp(LayersOf(Move(db, level, f)), k, s, Some(r))
    ensures r == x || (x in LevelSet([f]) && Newest(LeftOut(db.levels[level], [f]), k, x.stamp, r))
    ensures forall d | x in LevelSet([f]) && Newest(LeftOut(db.levels[level], [f]), k, x.stamp, d) ::
              LookedUp(LayersOf(Move(db, level, f)), k, s, Some(d))
  {
    hide Movable, LeftOut, LayersOf, Stored, AgeLayers, UnionOf, LevelSet, Shifted, LookedUp;
    MovableSizes(db, level, f);
    MoveShifts(db, level, f);
    var before, after := LayersOf(db), LayersOf(Move(db, level, f));
    var rest, I, next := LeftOut(db.levels[level], [f]), LevelSet([f]), LevelSet(db.levels[level + 1]);
    r := x;
    if x !in I {
      FoundUnmoved(before, after, Stored(db), level, rest, I, next, {}, I, k, s, x);
      return;
    }
    forall d | Newest(rest, k, x.stamp, d) ensures LookedUp(after, k, s, Some(d)) {
      FoundLeft(before, after, Stored(db), level, rest, I, next, k, s, x, d);
    }
    NewestExists(rest, k, x.stamp);
    if d :| Newest(rest, k, x.stamp, d) {
      r := d;
    } else {
      FoundBelow(before, after, Stored(db), level, rest, I, next, k, s, x);
    }
  }

  lemma MovableSizes(db: Db, level: nat, f: Table)
    requires Movable(db, level, f)
    ensures |db.levels| == NUM_LEVELS && level + 1 < NUM_LEVELS && Layers(db.mem, db.imm, db.levels)
    ensures UniqueSeqs(Stored(db))
  {
  }

  lemma FoundLeft(before: seq<set<Entry>>, after: seq<set<Entry>>, S: set<Entry>, L: nat, rest: set<Entry>,
                  I: set<Entry>, next: set<Entry>, k: Key, s: nat, x: Entry, d: Entry)
    requires Shifted(before, after, L, rest, I, next, {}, I) && AgeLayers(before) && UnionOf(S, before)
    requires Newest(S, k, s, x) && x in I && Newest(rest, k, x.stamp, d)
    ensures LookedUp(after, k, s, Some(d))
  {
    hide AgeLayers, UnionOf;
    UpperAbsent(before, after, S, L, rest, I, next, {}, I, k, s, x);
    forall y | y in rest && Matches(y, k, s) ensures y.stamp <= d.stamp {
      InSomeLayer(S, before, L + 2, y);
    }
    assert HitIn(after, L + 2, k, s, d);
  }

  lemma FoundBelow(before: seq<set<Entry>>, after: seq<set<Entry>>, S: set<Entry>, L: nat, rest: set<Entry>,
                   I: set<Entry>, next: set<Entry>, k: Key, s: nat, x: Entry)
    requires Shifted(before, after, L, rest, I, next, {}, I) && AgeLayers(before) && UnionOf(S, before)
    requires Newest(S, k, s, x) && x in I && Absent(rest, k, x.stamp)
    ensures LookedUp(after, k, s, Some(x))
  {
    hide AgeLayers, UnionOf;
    UpperAbsent(before, after, S, L, rest, I, next, {}, I, k, s, x);
    forall y | y in rest ensures !Matches(y, k, s) {
      InSomeLayer(S, before, L + 2, y);
    }
    forall y | y in after[L + 3] && Matches(y, k, s) ensures y.stamp <= x.stamp {
      InSomeLayer(S, before, if y in before[L + 3] then L + 3 else L + 2, y);
    }
    assert HitIn(after, L + 3, k, s, x);
  }

  ghost predicate MoveNoticed(db: Db, level: nat, f: Table)
    requires level < |db.levels|
  {
    exists e, d :: Overtakes(MoveJob(db, level, f), Stored(db), e, d)
  }

  /** A trivial move: every search from the oldest readable sequence number on gives the same answer as
      before, if and only if no newest entry of the moved table leaves an older version with another
      answer behind in its level. */
  lemma MoveSafeIff(db: Db, level: nat, f: Table)
    requires Movable(db, level, f)
    ensures SameAnswers(LayersOf(db), LayersOf(Move(db, level, f)), OldestReadable(db)) <==> !MoveNoticed(db, level, f)
  {
    hide Movable, LayersOf, Stored, Overtakes, SameAnswers, OldestReadable;
    MovableSizes(db, level, f);
    if e, d :| Overtakes(MoveJob(db, level, f), Stored(db), e, d) {
      MoveChanges(db, level, f, e, d);
    } else {
      MoveUnnoticed(db, level, f);
    }
  }

  /** Where and what a reader notices of a move. */
  lemma MoveNoticedAt(db: Db, level: nat, f: Table, e: Entry, d: Entry) returns (s: nat)
    requires Movable(db, level, f) && level < |db.levels| && Overtakes(MoveJob(db, level, f), Stored(db), e, d)
    ensures OldestReadable(db) <= s && Answer(e) != Answer(d)
    ensures LookedUp(LayersOf(db), e.key, s, Some(e)) && LookedUp(LayersOf(Move(db, level, f)), e.key, s, Some(d))
  {
    hide Movable, LayersOf, Stored, LookedUp, Newest, Exposed, LevelSet, LeftOut, Layers, UniqueSeqs, OldestReadable;
    MovableSizes(db, level, f);
    MovedStored(db, level, f, e);
    s := ExposedIsNewest(Stored(db), OldestReadable(db), e);
    NewestIsFound(db, e.key, s, e);
    var r := SearchMoved(db, level, f, e.key, s, e);
  }

  lemma MovedStored(db: Db, level: nat, f: Table, e: Entry)
    requires Movable(db, level, f) && e in LevelSet([f])
    ensures e in Stored(db)
  {
    hide Movable, LayersOf, Stored, LevelSet, LeftOut, AgeLayers, UnionOf;
    MovableSizes(db, level, f);
    MoveShifts(db, level, f);
    InSomeLayer(Stored(db), LayersOf(db), level + 2, e);
  }

  lemma MoveChanges(db: Db, level: nat, f: Table, e: Entry, d: Entry)
    requires Movable(db, level, f) && level < |db.levels| && Overtakes(MoveJob(db, level, f), Stored(db), e, d)
    ensures !SameAnswers(LayersOf(db), LayersOf(Move(db, level, f)), OldestReadable(db))
  {
    hide Movable, LayersOf, Stored, LookedUp, Overtakes, OldestReadable;
    MovableSizes(db, level, f);
    var s := MoveNoticedAt(db, level, f, e, d);
    assert AnswerOf(Some(e)) != AnswerOf(Some(d));
  }

  lemma MoveUnnoticed(db: Db, level: nat, f: Table)
    requires Movable(db, level, f) && level < |db.levels| && !MoveNoticed(db, level, f)
    ensures SameAnswers(LayersOf(db), LayersOf(Move(db, level, f)), OldestReadable(db))
  {
    hide Movable, LayersOf, Stored, LookedUp, Overtakes, AnswerOf, MoveNoticed, OldestReadable;
    MovableSizes(db, level, f);
    var before, after := LayersOf(db), LayersOf(Move(db, level, f));
    forall k, s: nat, r, q | OldestReadable(db) <= s && LookedUp(before, k, s, r) && LookedUp(after, k, s, q)
      ensures AnswerOf(r) == AnswerOf(q)
    {
      MoveSame(db, level, f, k, s, r, q);
    }
  }

  lemma MoveSame(db: Db, level: nat, f: Table, k: Key, s: nat, r: Option<Entry>, q: Option<Entry>)
    requires Movable(db, level, f) && level < |db.levels| && !MoveNoticed(db, level, f) && OldestReadable(db) <= s
    requires LookedUp(LayersOf(db), k, s, r) && LookedUp(LayersOf(Move(db, level, f)), k, s, q)
    ensures AnswerOf(r) == AnswerOf(q)
  {
    hide Movable, LayersOf, Stored, LookedUp, UniqueSeqs, Layers, Newest, LeftOut, LevelSet, Shifted, Exposed,
         OldestReadable;
    MovableSizes(db, level, f);
    FoundIsNewest(db, k, s, r);
    MovedWithin(db, level, f);
    var after := LayersOf(Move(db, level, f));
    if r.Some? {
      var p := SearchMoved(db, level, f, k, s, r.value);
      NewestIsExposed(Stored(db), OldestReadable(db), k, s, r.value);
      KeyOfNewest(Stored(db), k, s, r.value);
      if p != r.value { LeftIsNoticed(db, level, f, r.value, p); }
      LookedUpOnce(after, Stored(db), k, s, Some(p), q);
    } else {
      NothingThere(after, Stored(db), k, s);
      LookedUpOnce(after, Stored(db), k, s, None, q);
    }
  }

  lemma LeftIsNoticed(db: Db, level: nat, f: Table, x: Entry, d: Entry)
    requires level < |db.levels| && x in LevelSet([f]) && Exposed(Stored(db), OldestReadable(db), x)
    requires Newest(LeftOut(db.levels[level], [f]), x.key, x.stamp, d)
    ensures Answer(x) == Answer(d) || MoveNoticed(db, level, f)
  {
    hide Stored, LeftOut, LevelSet, Exposed, OldestReadable, Newest;
    assert Answer(x) != Answer(d) ==> Overtakes(MoveJob(db, level, f), Stored(db), x, d);
  }

  lemma KeyOfNewest(S: set<Entry>, k: Key, s: nat, x: Entry)
    requires Newest(S, k, s, x)
    ensures x.key == k
  {
  }

  lemma ShiftedLength(before: seq<set<Entry>>, after: seq<set<Entry>>, L: nat, rest0: set<Entry>, I0: set<Entry>,
                      rest1: set<Entry>, I1: set<Entry>, K: set<Entry>)
    requires Shifted(before, after, L, rest0, I0, rest1, I1, K)
    ensures |after| == |before| == 2 + NUM_LEVELS
  {
  }

  // ----- The border test -----

  /** Every search finds the same entry, at any sequence number. */
  ghost predicate SameFound(before: seq<set<Entry>>, after: seq<set<Entry>>) {
    forall k, s: nat, r, q | LookedUp(before, k, s, r) && LookedUp(after, k, s, q) :: r == q
  }

  /** The next table starts with the user key the moved one ends with: the lookup at that last entry
      returns the older version. */
  lemma SharedBorderIsStale(db: Db, level: nat, i: nat)
    requires 0 < level && level < |db.levels| && i < |db.levels[level]| && Movable(db, level, db.levels[level][i])
    requires BorderShared(db.levels[level], i, i + 1)
    ensures var e, d := Largest(db.levels[level][i]), Smallest(db.levels[level][i + 1]);
            && LookedUp(LayersOf(db), e.key, e.stamp, Some(e)) && d.stamp < e.stamp
            && LookedUp(LayersOf(Move(db, level, db.levels[level][i])), e.key, e.stamp, Some(d))
  {
    hide Movable, LayersOf, Stored, LookedUp, Layers, UniqueSeqs, SortedLevel, LeftOut, BorderShared, LevelSet;
    var files := db.levels[level];
    var f := files[i];
    MovableSizes(db, level, f);
    MovableSorted(db, level, f);
    assert IsSlice(files, [f], i, i + 1);
    BehindBorder(files, [f], i, i + 1);
    var e := Largest(f);
    LastInSingle(f);
    MovedStored(db, level, f, e);
    NewestAtItself(Stored(db), e);
    NewestIsFound(db, e.key, e.stamp, e);
    var r := SearchMoved(db, level, f, e.key, e.stamp, e);
  }

  lemma LastInSingle(f: Table)
    ensures Largest(f) in LevelSet([f])
  {
    assert f in [f] && Largest(f) in f.entries;
  }

  lemma MovableSorted(db: Db, level: nat, f: Table)
    requires Movable(db, level, f) && 0 < level
    ensures SortedLevel(db.levels[level])
  {
    hide SortedLevel, AgeOrdered, ValidInputs, NumbersUnique;
  }

  lemma ClearBorderKeepsLookups(db: Db, level: nat, i: nat)
    requires 0 < level && level < |db.levels| && i < |db.levels[level]| && Movable(db, level, db.levels[level][i])
    requires !BorderShared(db.levels[level], i, i + 1)
    ensures SameFound(LayersOf(db), LayersOf(Move(db, level, db.levels[level][i])))
  {
    hide Movable, LayersOf, Stored, LookedUp, BorderShared;
    var f := db.levels[level][i];
    MovableSizes(db, level, f);
    var before, after := LayersOf(db), LayersOf(Move(db, level, f));
    forall k, s: nat, r, q | LookedUp(before, k, s, r) && LookedUp(after, k, s, q) ensures r == q {
      ClearBorderFinds(db, level, i, k, s, r, q);
    }
  }

  lemma ClearBorderFinds(db: Db, level: nat, i: nat, k: Key, s: nat, r: Option<Entry>, q: Option<Entry>)
    requires 0 < level && level < |db.levels| && i < |db.levels[level]| && Movable(db, level, db.levels[level][i])
    requires !BorderShared(db.levels[level], i, i + 1)
    requires LookedUp(LayersOf(db), k, s, r) && LookedUp(LayersOf(Move(db, level, db.levels[level][i])), k, s, q)
    ensures r == q
  {
    hide Movable, LayersOf, Stored, LookedUp, UniqueSeqs, Layers, LeftOut, LevelSet, Shifted, BorderShared,
         SortedLevel, SplitFree;
    var f := db.levels[level][i];
    MovableSizes(db, level, f);
    MovableSorted(db, level, f);
    FoundIsNewest(db, k, s, r);
    MovedWithin(db, level, f);
    var after := LayersOf(Move(db, level, f));
    if r.Some? {
      var p := SearchMoved(db, level, f, k, s, r.value);
      assert IsSlice(db.levels[level], [f], i, i + 1);
      SplitFreeIffBorder(db.levels[level], [f], i, i + 1);
      if p != r.value { OlderLeftSplits(db.levels[level], f, r.value, p); }
      LookedUpOnce(after, Stored(db), k, s, Some(p), q);
    } else {
      NothingThere(after, Stored(db), k, s);
      LookedUpOnce(after, Stored(db), k, s, None, q);
    }
  }

  lemma OlderLeftSplits(files: Level, f: Table, x: Entry, d: Entry)
    requires x in LevelSet([f]) && Newest(LeftOut(files, [f]), x.key, x.stamp, d)
    ensures !SplitFree(files, [f])
  {
    hide Newer;
    var u :| u in files && u !in [f] && d in u.entries;
    assert f in [f];
    if Newer(Set(u.entries), Set(f.entries)) { OneIsNewer(Set(u.entries), Set(f.entries), d, x); }
  }

  lemma MovedWithin(db: Db, level: nat, f: Table)
    requires Movable(db, level, f)
    ensures |db.levels| == NUM_LEVELS
    ensures forall i | 0 <= i < |LayersOf(Move(db, level, f))| :: LayersOf(Move(db, level, f))[i] <= Stored(db)
  {
    hide Movable, LayersOf, Stored, LeftOut, LevelSet, Shifted, AgeLayers, UnionOf;
    MovableSizes(db, level, f);
    MoveShifts(db, level, f);
    var after := LayersOf(Move(db, level, f));
    ShiftedLength(LayersOf(db), after, level, LeftOut(db.levels[level], [f]), LevelSet([f]),
                  LevelSet(db.levels[level + 1]), {}, LevelSet([f]));
    forall i | 0 <= i < |after| ensures after[i] <= Stored(db) {
      AfterInStored(LayersOf(db), after, Stored(db), level, LeftOut(db.levels[level], [f]), LevelSet([f]),
                    LevelSet(db.levels[level + 1]), {}, LevelSet([f]), i);
    }
  }

  /** A trivial move below level 0: every search of the whole store finds the same entry, at whatever
      sequence number, if and only if the next table does not start with the moved table's last user key. */
  lemma MoveSafeIffBorderClear(db: Db, level: nat, i: nat)
    requires 0 < level && level < |db.levels| && i < |db.levels[level]| && Movable(db, level, db.levels[level][i])
    ensures SameFound(LayersOf(db), LayersOf(Move(db, level, db.levels[level][i])))
       <==> !BorderShared(db.levels[level], i, i + 1)
  {
    hide Movable, LayersOf, LookedUp;
    if BorderShared(db.levels[level], i, i + 1) {
      SharedBorderIsStale(db, level, i);
    } else {
      ClearBorderKeepsLookups(db, level, i);
    }
  }
}
