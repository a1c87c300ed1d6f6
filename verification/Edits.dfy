/** Version edits: how a logged edit turns one version into the next. */
module Edits {
  import opened Entries
  import opened Versions

  /** One manifest record, as far as recovery uses it. */
  datatype Edit = Edit(deleted: set<(nat, nat)>, added: seq<(nat, Table)>,
                       logNumber: nat, nextFile: nat, lastSequence: nat)

  function DeletedAt(e: Edit, level: nat): set<nat> {
    set p | p in e.deleted && p.0 == level :: p.1
  }

  function AddedAt(added: seq<(nat, Table)>, level: nat): Level {
    if added == [] then []
    else
      var r := AddedAt(added[..|added| - 1], level);
      var (l, t) := added[|added| - 1];
      if l == level then r + [t] else r
  }

  function Remove(files: Level, gone: set<nat>): (r: Level)
    ensures forall t :: t in r <==> t in files && t.number !in gone
  {
    if files == [] then []
    else (if files[0].number in gone then [] else [files[0]]) + Remove(files[1..], gone)
  }

  /** `BySmallestKey`. */
  predicate BySmallest(a: Table, b: Table) {
    || Before(Smallest(a), Smallest(b))
    || (Smallest(a).key == Smallest(b).key && Smallest(a).stamp == Smallest(b).stamp && a.number < b.number)
  }

  function Numbers(files: Level): set<nat> {
    set t | t in files :: t.number
  }

  function InsertTable(files: Level, t: Table): (r: Level)
    ensures forall u :: u in r <==> u in files || u == t
    ensures |r| == |files| + 1
  {
    if files == [] then [t]
    else if BySmallest(t, files[0]) then [t] + files
    else [files[0]] + InsertTable(files[1..], t)
  }

  function InsertAll(files: Level, ts: Level): (r: Level)
    ensures forall u :: u in r <==> u in files || u in ts
  {
    if ts == [] then files
    else
      assert ts == ts[..|ts| - 1] + [ts[|ts| - 1]];
      InsertTable(InsertAll(files, ts[..|ts| - 1]), ts[|ts| - 1])
  }

  function ApplyAt(files: Level, e: Edit, level: nat): Level {
    InsertAll(Remove(files, DeletedAt(e, level)), AddedAt(e.added, level))
  }

  function Apply(levels: seq<Level>, e: Edit): (r: seq<Level>)
    requires |levels| == NUM_LEVELS
    ensures |r| == NUM_LEVELS
    ensures forall l | 0 <= l < NUM_LEVELS :: r[l] == ApplyAt(levels[l], e, l)
  {
    seq(NUM_LEVELS, l requires 0 <= l < NUM_LEVELS => ApplyAt(levels[l], e, l))
  }

  lemma {:induction false} AddedAtIs(added: seq<(nat, Table)>, level: nat, t: Table)
    ensures t in AddedAt(added, level) <==> (level, t) in added
  {
    if added != [] {
      var n := |added| - 1;
      assert added == added[..n] + [added[n]];
      AddedAtIs(added[..n], level, t);
      assert (level, t) == added[n] <==> added[n].0 == level && added[n].1 == t;
    }
  }

  /** An edit takes out exactly the files it names as deleted and puts in those it names as new. */
  lemma ApplyIs(levels: seq<Level>, e: Edit, level: nat, t: Table)
    requires |levels| == NUM_LEVELS && level < NUM_LEVELS
    ensures t in Apply(levels, e)[level] <==>
            (t in levels[level] && (level, t.number) !in e.deleted) || (level, t) in e.added
  {
    AddedAtIs(e.added, level, t);
    assert t.number in DeletedAt(e, level) <==> (level, t.number) in e.deleted;
  }

  function EmptyVersion(): (r: seq<Level>)
    ensures |r| == NUM_LEVELS && forall l | 0 <= l < NUM_LEVELS :: r[l] == []
  {
    [[], [], [], [], [], [], []]
  }

  function Replay(manifest: seq<Edit>): (r: seq<Level>)
    ensures |r| == NUM_LEVELS
  {
    if manifest == [] then EmptyVersion()
    else Apply(Replay(manifest[..|manifest| - 1]), manifest[|manifest| - 1])
  }

  // ----- Removing and inserting keep a level in order -----

  lemma RemoveNothing(files: Level, gone: set<nat>)
    requires forall t | t in files :: t.number !in gone
    ensures Remove(files, gone) == files
  {
  }

  lemma {:induction false} RemoveSorted(files: Level, gone: set<nat>)
    requires SortedLevel(files)
    ensures SortedLevel(Remove(files, gone))
  {
    if files != [] {
      RemoveSorted(files[1..], gone);
      var r := Remove(files[1..], gone);
      forall i | 0 <= i < |r| ensures Before(Largest(files[0]), Smallest(r[i])) {
        assert r[i] in files[1..];
        var j :| 0 <= j < |files[1..]| && files[1..][j] == r[i];
        assert files[j + 1] == r[i];
      }
    }
  }

  lemma {:induction false} RemoveDistinct(files: Level, gone: set<nat>)
    requires DistinctNumbers(files)
    ensures DistinctNumbers(Remove(files, gone))
  {
    if files != [] {
      RemoveDistinct(files[1..], gone);
      var r := Remove(files[1..], gone);
      forall i | 0 <= i < |r| ensures r[i].number != files[0].number {
        assert r[i] in files[1..];
        var j :| 0 <= j < |files[1..]| && files[1..][j] == r[i];
        assert files[j + 1] == r[i];
      }
    }
  }

  /** The two tables do not interleave. */
  predicate Clear(t: Table, u: Table) {
    Before(Largest(t), Smallest(u)) || Before(Largest(u), Smallest(t))
  }

  lemma {:induction false} InsertSorted(files: Level, t: Table)
    requires SortedLevel(files) && Sorted(t.entries)
    requires forall u | u in files :: Clear(t, u)
    ensures SortedLevel(InsertTable(files, t))
  {
    if files != [] {
      var u := files[0];
      assert Clear(t, u);
      TableOrdered(t);
      TableOrdered(u);
      if BySmallest(t, u) {
        forall i | 0 <= i < |files| ensures Before(Largest(t), Smallest(files[i])) {
          TableOrdered(files[i]);
        }
      } else {
        InsertSorted(files[1..], t);
        var r := InsertTable(files[1..], t);
        forall i | 0 <= i < |r| ensures Before(Largest(u), Smallest(r[i])) {
          assert r[i] in r;
          if r[i] != t {
            var j :| 0 <= j < |files[1..]| && files[1..][j] == r[i];
            assert files[j + 1] == r[i];
          }
        }
      }
    }
  }

  lemma TableOrdered(t: Table)
    requires Sorted(t.entries)
    ensures Largest(t) == Smallest(t) || Before(Smallest(t), Largest(t))
  {
    if |t.entries| > 1 { assert Before(t.entries[0], t.entries[|t.entries| - 1]); }
  }

  lemma {:induction false} InsertDistinct(files: Level, t: Table)
    requires DistinctNumbers(files) && forall u | u in files :: u.number != t.number
    ensures DistinctNumbers(InsertTable(files, t))
  {
    if files != [] && !BySmallest(t, files[0]) {
      InsertDistinct(files[1..], t);
      var r := InsertTable(files[1..], t);
      forall i | 0 <= i < |r| ensures r[i].number != files[0].number {
        assert r[i] in r;
        if r[i] != t {
          var j :| 0 <= j < |files[1..]| && files[1..][j] == r[i];
          assert files[j + 1] == r[i];
        }
      }
    }
  }

  lemma {:induction false} InsertAllSorted(files: Level, ts: Level)
    requires SortedLevel(files) && SortedLevel(ts)
    requires forall t, u | t in ts && u in files :: Clear(t, u)
    ensures SortedLevel(InsertAll(files, ts))
  {
    if ts != [] {
      var n := |ts| - 1;
      InsertAllSorted(files, ts[..n]);
      forall u | u in InsertAll(files, ts[..n]) ensures Clear(ts[n], u) {
        if u in ts[..n] {
          var j :| 0 <= j < n && ts[j] == u;
          assert Before(Largest(ts[j]), Smallest(ts[n]));
        }
      }
      InsertSorted(InsertAll(files, ts[..n]), ts[n]);
    }
  }

  lemma {:induction false} InsertAllDistinct(files: Level, ts: Level)
    requires DistinctNumbers(files) && DistinctNumbers(ts)
    requires forall t, u | t in ts && u in files :: t.number != u.number
    ensures DistinctNumbers(InsertAll(files, ts))
  {
    if ts != [] {
      var n := |ts| - 1;
      InsertAllDistinct(files, ts[..n]);
      forall u | u in InsertAll(files, ts[..n]) ensures u.number != ts[n].number {
        if u in ts[..n] {
          var j :| 0 <= j < n && ts[j] == u;
        }
      }
      InsertDistinct(InsertAll(files, ts[..n]), ts[n]);
    }
  }

  // ----- Lists in `BySmallest` order, as the builder keeps them -----

  ghost predicate OrderedLevel(files: Level) {
    forall i, j | 0 <= i < j < |files| :: BySmallest(files[i], files[j])
  }

  ghost predicate OrderedLevels(levels: seq<Level>) {
    forall l | 0 <= l < |levels| :: OrderedLevel(levels[l])
  }

  lemma {:induction false} InsertOrdered(files: Level, t: Table)
    requires OrderedLevel(files) && forall u | u in files :: u.number != t.number
    ensures OrderedLevel(InsertTable(files, t))
  {
    if files != [] && !BySmallest(t, files[0]) {
      assert files[0] in files;
      InsertOrdered(files[1..], t);
      var r := InsertTable(files[1..], t);
      forall i | 0 <= i < |r| ensures BySmallest(files[0], r[i]) {
        assert r[i] in r;
        if r[i] != t {
          var j :| 0 <= j < |files[1..]| && files[1..][j] == r[i];
          assert files[j + 1] == r[i];
        }
      }
    }
  }

  lemma {:induction false} InsertAllOrdered(files: Level, ts: Level)
    requires OrderedLevel(files) && DistinctNumbers(ts)
    requires forall t, u | t in ts && u in files :: t.number != u.number
    ensures OrderedLevel(InsertAll(files, ts))
  {
    if ts != [] {
      var n := |ts| - 1;
      InsertAllOrdered(files, ts[..n]);
      forall u | u in InsertAll(files, ts[..n]) ensures u.number != ts[n].number {
        if u in ts[..n] {
          var j :| 0 <= j < n && ts[j] == u;
        }
      }
      InsertOrdered(InsertAll(files, ts[..n]), ts[n]);
    }
  }

  lemma {:induction false} RemoveOrdered(files: Level, gone: set<nat>)
    requires OrderedLevel(files)
    ensures OrderedLevel(Remove(files, gone))
  {
    if files != [] {
      RemoveOrdered(files[1..], gone);
      var r := Remove(files[1..], gone);
      forall i | 0 <= i < |r| ensures BySmallest(files[0], r[i]) {
        assert r[i] in files[1..];
        var j :| 0 <= j < |files[1..]| && files[1..][j] == r[i];
        assert files[j + 1] == r[i];
      }
    }
  }

  /** Adding a list's tables one by one to nothing gives the list back. */
  lemma {:induction false} RebuildOrdered(files: Level)
    requires OrderedLevel(files)
    ensures InsertAll([], files) == files
  {
    if files != [] {
      var n := |files| - 1;
      RebuildOrdered(files[..n]);
      InsertLast(files[..n], files[n]);
      assert files == files[..n] + [files[n]];
    }
  }

  lemma {:induction false} InsertLast(files: Level, t: Table)
    requires forall u | u in files :: BySmallest(u, t)
    ensures InsertTable(files, t) == files + [t]
  {
    if files != [] {
      assert files[0] in files;
      InsertLast(files[1..], t);
      assert files + [t] == [files[0]] + (files[1..] + [t]);
    }
  }
}
