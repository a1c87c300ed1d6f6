/** The trivial move: one table slides down a level without being rewritten. */
module Moving {
  import opened Wrappers
  import opened Entries
  import opened Versions
  import opened Selection
  import opened Edits
  import opened Engine
  import opened Steps
  import opened CompactionSteps
  import opened Installing

  ghost predicate CanMove(db: Db, level: nat, f: Table) {
    && db.job.None? && |db.levels| == NUM_LEVELS && level + 1 < NUM_LEVELS
    && ValidInputs(db.levels, level, [f], [])
    && (level > 0 ==> SplitFree(db.levels[level], [f]))
  }

  function MoveEdit(db: Db, level: nat, f: Table): Edit {
    Edit({(level, f.number)}, [(level + 1, f)], db.logNumber, db.nextFile, db.last)
  }

  function Move(db: Db, level: nat, f: Table): Db
    requires |db.levels| == NUM_LEVELS
  {
    var edit := MoveEdit(db, level, f);
    db.(levels := Apply(db.levels, edit), manifest := db.manifest + [edit])
  }

  /** The table leaves its level, arrives at the next, and nothing else moves. */
  lemma MoveIs(db: Db, level: nat, f: Table, l: nat, t: Table)
    requires |db.levels| == NUM_LEVELS && level < NUM_LEVELS && l < NUM_LEVELS
    requires f in db.levels[level] && NumbersUnique(db.levels)
    ensures t in Move(db, level, f).levels[l] <==>
            (t in db.levels[l] && t != f) || (l == level + 1 && t == f)
  {
    hide Apply;
    ApplyIs(db.levels, MoveEdit(db, level, f), l, t);
  }

  lemma MoveLevels(db: Db, level: nat, f: Table)
    requires |db.levels| == NUM_LEVELS && level + 1 < NUM_LEVELS
    ensures Apply(db.levels, MoveEdit(db, level, f))
         == db.levels[level := Rest(db.levels[level], [f])][level + 1 := InsertTable(db.levels[level + 1], f)]
  {
    var edit := MoveEdit(db, level, f);
    hide ApplyAt;
    forall l | 0 <= l < NUM_LEVELS
      ensures l != level && l != level + 1 ==> ApplyAt(db.levels[l], edit, l) == db.levels[l]
      ensures l == level ==> ApplyAt(db.levels[l], edit, l) == Rest(db.levels[l], [f])
      ensures l == level + 1 ==> ApplyAt(db.levels[l], edit, l) == InsertTable(db.levels[l], f)
    {
      MoveAt(db.levels[l], edit, level, f, l);
    }
  }

  lemma MoveAt(files: Level, edit: Edit, level: nat, f: Table, l: nat)
    requires edit.deleted == {(level, f.number)} && edit.added == [(level + 1, f)]
    ensures l != level && l != level + 1 ==> ApplyAt(files, edit, l) == files
    ensures l == level ==> ApplyAt(files, edit, l) == Rest(files, [f])
    ensures l == level + 1 ==> ApplyAt(files, edit, l) == InsertTable(files, f)
  {
    assert edit.added[..0] == [];
    assert Numbers([f]) == {f.number};
    assert DeletedAt(edit, l) == if l == level then {f.number} else {};
    assert AddedAt(edit.added, l) == if l == level + 1 then [f] else [];
    assert [f][..0] == [];
    assert InsertAll(files, [f]) == InsertTable(files, f);
    if l != level {
      RemoveNothing(files, {});
    }
  }

  lemma MoveSplitFree(levels: seq<Level>, level: nat, f: Table)
    requires ValidVersion(levels) && level + 1 < NUM_LEVELS && ValidInputs(levels, level, [f], [])
    requires level > 0 ==> SplitFree(levels[level], [f])
    ensures SplitFree(levels[level], [f]) && f in levels[level] && Sorted(f.entries)
  {
    InputsFromVersion(levels, level, [f], []);
    assert f in [f];
    InputSorted(levels, level, f);
    if level == 0 {
      LevelZeroSplitFree(levels, [f]);
    }
  }

  lemma MoveClear(levels: seq<Level>, level: nat, f: Table, u: Table)
    requires ValidVersion(levels) && level + 1 < NUM_LEVELS && ValidInputs(levels, level, [f], [])
    requires u in levels[level + 1]
    ensures Clear(f, u)
  {
    OutputsFit(levels, level, [f], [], u);
    assert f in [f] && Smallest(f) in f.entries && Largest(f) in f.entries;
    assert Smallest(f) in LevelSet([f]) && Largest(f) in LevelSet([f]);
  }

  lemma MoveSets(levels: seq<Level>, level: nat, f: Table, levels': seq<Level>)
    requires |levels| == NUM_LEVELS && NumbersUnique(levels) && level + 1 < NUM_LEVELS
    requires SplitFree(levels[level], [f]) && f in levels[level]
    requires levels' == levels[level := Rest(levels[level], [f])][level + 1 := InsertTable(levels[level + 1], f)]
    ensures MovesExactly(levels, levels', level, Set(f.entries), {}, Set(f.entries), LevelSet(levels[level + 1]))
    ensures Newer(LevelSet(levels'[level]), Set(f.entries))
  {
    hide NumbersUnique, Newer, SplitFree;
    RestSets(levels, level, [f]);
    InsertLevelSet(levels[level + 1], f);
    SingleSet(f);
    NewerDisjoint(LevelSet(Rest(levels[level], [f])), Set(f.entries));
    SlideSets(levels, level, Rest(levels[level], [f]), InsertTable(levels[level + 1], f), Set(f.entries));
  }

  lemma SingleSet(f: Table)
    ensures LevelSet([f]) == Set(f.entries)
  {
  }

  lemma SlideSets(levels: seq<Level>, level: nat, A: Level, B: Level, I: set<Entry>)
    requires |levels| == NUM_LEVELS && level + 1 < NUM_LEVELS
    requires LevelSet(levels[level]) == LevelSet(A) + I && LevelSet(A) !! I
    requires LevelSet(B) == LevelSet(levels[level + 1]) + I
    ensures MovesExactly(levels, levels[level := A][level + 1 := B], level, I, {}, I, LevelSet(levels[level + 1]))
  {
    hide Newer, LevelSet;
  }

  lemma MoveSorted(levels: seq<Level>, level: nat, f: Table)
    requires ValidVersion(levels) && level + 1 < NUM_LEVELS && ValidInputs(levels, level, [f], [])
    requires Sorted(f.entries)
    ensures SortedLevel(InsertTable(levels[level + 1], f))
    ensures level > 0 ==> SortedLevel(Rest(levels[level], [f]))
    ensures level == 0 ==> TablesSorted(Rest(levels[0], [f])) && DistinctNumbers(Rest(levels[0], [f]))
  {
    hide AgeOrdered, ValidInputs, Clear;
    forall u | u in levels[level + 1] ensures Clear(f, u) {
      MoveClear(levels, level, f, u);
    }
    InsertSorted(levels[level + 1], f);
    if level == 0 {
      RemoveDistinct(levels[0], Numbers([f]));
    } else {
      RemoveSorted(levels[level], Numbers([f]));
    }
  }

  lemma MoveValid(levels: seq<Level>, level: nat, f: Table, levels': seq<Level>)
    requires ValidVersion(levels) && NumbersUnique(levels) && level + 1 < NUM_LEVELS
    requires ValidInputs(levels, level, [f], []) && (level > 0 ==> SplitFree(levels[level], [f]))
    requires levels' == levels[level := Rest(levels[level], [f])][level + 1 := InsertTable(levels[level + 1], f)]
    ensures ValidVersion(levels') && VersionSet(levels') == VersionSet(levels)
  {
    hide AgeOrdered, NumbersUnique, ValidInputs, SortedLevel, Moves, SplitFree;
    MoveSplitFree(levels, level, f);
    MoveSets(levels, level, f, levels');
    MoveSorted(levels, level, f);
    var I, R1 := Set(f.entries), LevelSet(levels[level + 1]);
    MoveContents(levels, levels', level, I, {}, I, R1);
    ValidAfterMove(levels, levels', level, I, {}, I);
  }

  /** Table `f` now lives at level `l1` only; every other table stayed where it was. */
  ghost predicate Relocates(levels: seq<Level>, levels': seq<Level>, l1: nat, f: Table) {
    && |levels| == |levels'|
    && (forall l, t | 0 <= l < |levels'| && t in levels'[l] && t.number == f.number :: l == l1 && t == f)
    && (forall l, t | 0 <= l < |levels'| && t in levels'[l] && t.number != f.number :: t in levels[l])
  }

  lemma MoveRelocates(levels: seq<Level>, level: nat, f: Table, levels': seq<Level>)
    requires |levels| == NUM_LEVELS && level + 1 < NUM_LEVELS && NumbersUnique(levels) && f in levels[level]
    requires levels' == levels[level := Rest(levels[level], [f])][level + 1 := InsertTable(levels[level + 1], f)]
    ensures Relocates(levels, levels', level + 1, f)
  {
    hide Remove, InsertTable;
    assert Numbers([f]) == {f.number};
    forall l, t: Table | 0 <= l < |levels'| && t in levels'[l]
      ensures if t.number == f.number then l == level + 1 && t == f else t in levels[l]
    {
      if l == level {
        assert t in Rest(levels[level], [f]);
      } else if l == level + 1 {
        assert t in InsertTable(levels[level + 1], f);
      } else {
        assert t in levels[l];
      }
    }
  }

  lemma MoveNumbers(levels: seq<Level>, levels': seq<Level>, l0: nat, l1: nat, f: Table, bound: nat)
    requires Relocates(levels, levels', l1, f) && NumbersUnique(levels) && NumbersBelow(levels, bound)
    requires l0 < |levels| && f in levels[l0]
    ensures NumbersUnique(levels') && NumbersBelow(levels', bound)
  {
  }

  lemma MoveOnDisk(db: Db, levels': seq<Level>, l0: nat, l1: nat, f: Table)
    requires DbOnDisk(db) && Relocates(db.levels, levels', l1, f) && l0 < |db.levels| && f in db.levels[l0]
    ensures OnDisk(levels', db.pinned, db.job, db.pending, db.tables, db.nextFile, db.logs)
  {
  }

  lemma MoveOrdered(levels: seq<Level>, level: nat, f: Table, levels': seq<Level>)
    requires |levels| == NUM_LEVELS && level + 1 < NUM_LEVELS && NumbersUnique(levels) && f in levels[level]
    requires levels' == levels[level := Rest(levels[level], [f])][level + 1 := InsertTable(levels[level + 1], f)]
    requires OrderedLevels(levels)
    ensures OrderedLevels(levels')
  {
    RemoveOrdered(levels[level], Numbers([f]));
    InsertOrdered(levels[level + 1], f);
  }

  lemma MoveParts(db: Db, level: nat, f: Table, levels': seq<Level>)
    requires ValidVersion(db.levels) && NumbersUnique(db.levels) && NumbersBelow(db.levels, db.nextFile)
    requires OrderedLevels(db.levels) && DbOnDisk(db) && CanMove(db, level, f)
    requires levels' == db.levels[level := Rest(db.levels[level], [f])]
                                 [level + 1 := InsertTable(db.levels[level + 1], f)]
    ensures ValidVersion(levels') && VersionSet(levels') == VersionSet(db.levels)
    ensures NumbersUnique(levels') && NumbersBelow(levels', db.nextFile) && OrderedLevels(levels')
    ensures OnDisk(levels', db.pinned, db.job, db.pending, db.tables, db.nextFile, db.logs)
  {
    hide ValidVersion, NumbersUnique, NumbersBelow, OrderedLevels, ValidInputs, SplitFree, OnDisk, Relocates, Sorted;
    MoveValid(db.levels, level, f, levels');
    MoveSplitFree(db.levels, level, f);
    MoveRelocates(db.levels, level, f, levels');
    MoveNumbers(db.levels, levels', level, level + 1, f, db.nextFile);
    MoveOnDisk(db, levels', level, level + 1, f);
    MoveOrdered(db.levels, level, f, levels');
  }

  /** A step that rearranges the version without changing what it holds. */
  lemma Rearranged(db: Db, db': Db, edit: Edit, history: set<Entry>, floor: nat)
    requires Inv(db, history, floor) && db.job.None?
    requires db' == db.(levels := db'.levels, manifest := db.manifest + [edit])
    requires db'.levels == Apply(db.levels, edit)
    requires edit.logNumber == db.logNumber && edit.nextFile == db.nextFile && edit.lastSequence == db.last
    requires ValidVersion(db'.levels) && VersionSet(db'.levels) == VersionSet(db.levels)
    requires NumbersUnique(db'.levels) && NumbersBelow(db'.levels, db.nextFile) && OrderedLevels(db'.levels)
    requires DbOnDisk(db')
    ensures Inv(db', history, floor)
  {
    hide ValidVersion, NumbersUnique, NumbersBelow, OrderedLevels, Truthful, Logged, OnDisk, BatchesWithin, Newer,
         Sorted, Apply, LastSaved;
    assert db'.manifest[..|db.manifest|] == db.manifest;
    SavedNow(db.mem, db.imm, db.inflight, db.last, db.manifest[|db.manifest| - 1].lastSequence);
    assert Stored(db') == Stored(db);
  }

  lemma MoveKeeps(db: Db, level: nat, f: Table, history: set<Entry>, floor: nat)
    requires Inv(db, history, floor) && CanMove(db, level, f)
    ensures Inv(Move(db, level, f), history, floor)
  {
    hide ValidVersion, NumbersUnique, NumbersBelow, OrderedLevels, Truthful, Logged, ValidInputs, SplitFree, Apply,
         OnDisk, LastSaved, BatchesWithin;
    MoveLevels(db, level, f);
    NumbersBelowGrows(db.levels, db.manifest[|db.manifest| - 1].nextFile, db.nextFile);
    var db' := Move(db, level, f);
    MoveParts(db, level, f, db'.levels);
    Rearranged(db, db', MoveEdit(db, level, f), history, floor);
  }

  lemma SavedNow(mem: seq<Entry>, imm: Option<seq<Entry>>, inflight: Option<Batch>, last: nat, saved: nat)
    requires LastSaved(mem, imm, inflight, last, saved)
    ensures LastSaved(mem, imm, inflight, last, last)
  {
  }

  lemma NumbersBelowGrows(levels: seq<Level>, a: nat, b: nat)
    requires NumbersBelow(levels, a) && a <= b
    ensures NumbersBelow(levels, b)
  {
  }
}
