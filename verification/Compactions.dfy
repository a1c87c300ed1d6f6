/** The merge loop of a compaction: what it drops, and why no reader notices. */
module Compactions {
  import opened Wrappers
  import opened Entries
  import opened Versions
  import opened Selection
  import opened Grandparents

  // ----- The sorted merge the input iterator yields -----

  function Merge(a: seq<Entry>, b: seq<Entry>): (r: seq<Entry>)
    ensures forall e :: e in r <==> e in a || e in b
  {
    if a == [] then b
    else if b == [] then a
    else if Before(b[0], a[0]) then [b[0]] + Merge(a, b[1..])
    else [a[0]] + Merge(a[1..], b)
  }

  ghost predicate Separate(a: seq<Entry>, b: seq<Entry>) {
    forall x, y | x in a && y in b :: Before(x, y) || Before(y, x)
  }

  lemma {:induction false} MergeSorted(a: seq<Entry>, b: seq<Entry>)
    requires Sorted(a) && Sorted(b) && Separate(a, b)
    ensures Sorted(Merge(a, b))
    decreases |a| + |b|
  {
    if a != [] && b != [] {
      if Before(b[0], a[0]) {
        MergeSorted(a, b[1..]);
        PrependSorted(b[0], Merge(a, b[1..]));
      } else {
        assert Before(a[0], b[0]);
        MergeSorted(a[1..], b);
        PrependSorted(a[0], Merge(a[1..], b));
      }
    }
  }

  lemma PrependSorted(x: Entry, r: seq<Entry>)
    requires Sorted(r) && forall e | e in r :: Before(x, e)
    ensures Sorted([x] + r)
  {
  }

  function MergeAll(runs: seq<seq<Entry>>): (r: seq<Entry>)
    ensures forall e :: e in r <==> exists run :: run in runs && e in run
  {
    if runs == [] then [] else Merge(runs[0], MergeAll(runs[1..]))
  }

  ghost predicate PairwiseSeparate(runs: seq<seq<Entry>>) {
    forall i, j | 0 <= i < j < |runs| :: Separate(runs[i], runs[j])
  }

  lemma {:induction false} MergeAllSorted(runs: seq<seq<Entry>>)
    requires forall run | run in runs :: Sorted(run)
    requires PairwiseSeparate(runs)
    ensures Sorted(MergeAll(runs))
  {
    if runs != [] {
      MergeAllSorted(runs[1..]);
      forall x, y | x in runs[0] && y in MergeAll(runs[1..])
        ensures Before(x, y) || Before(y, x)
      {
        var run :| run in runs[1..] && y in run;
        var j :| 0 <= j < |runs[1..]| && runs[1..][j] == run;
        assert Separate(runs[0], runs[j + 1]);
      }
      MergeSorted(runs[0], MergeAll(runs[1..]));
    }
  }

  function Flat(files: Level): seq<Entry> {
    if files == [] then [] else Flat(files[..|files| - 1]) + files[|files| - 1].entries
  }

  lemma {:induction false} FlatMember(files: Level, e: Entry)
    ensures e in Flat(files) <==> e in LevelSet(files)
  {
    if files != [] {
      var n := |files| - 1;
      FlatMember(files[..n], e);
      assert files == files[..n] + [files[n]];
    }
  }

  lemma {:induction false} FlatSorted(files: Level)
    requires SortedLevel(files)
    ensures Sorted(Flat(files))
  {
    if files != [] {
      var n := |files| - 1;
      FlatSorted(files[..n]);
      var t := files[n];
      forall x, y | x in Flat(files[..n]) && y in t.entries ensures Before(x, y) {
        FlatMember(files[..n], x);
        var u :| u in files[..n] && x in u.entries;
        var i :| 0 <= i < n && files[i] == u;
        EntryBetweenEnds(u, x);
        EntryBetweenEnds(t, y);
        assert Before(Largest(u), Smallest(t));
      }
      ConcatSorted(Flat(files[..n]), t.entries);
    }
  }

  lemma ConcatSorted(a: seq<Entry>, b: seq<Entry>)
    requires Sorted(a) && Sorted(b) && forall x, y | x in a && y in b :: Before(x, y)
    ensures Sorted(a + b)
  {
  }

  lemma {:induction false} SortedFlatGivesLevel(files: Level)
    requires Sorted(Flat(files))
    ensures SortedLevel(files)
  {
    if files != [] {
      var n := |files| - 1;
      var a, b := Flat(files[..n]), files[n].entries;
      SortedParts(a, b);
      SortedFlatGivesLevel(files[..n]);
      forall i | 0 <= i < n ensures Before(Largest(files[i]), Smallest(files[n])) {
        assert files[i] in files[..n] && Largest(files[i]) in files[i].entries;
        FlatMember(files[..n], Largest(files[i]));
        assert Largest(files[i]) in a && Smallest(files[n]) in b;
      }
      forall t | t in files ensures Sorted(t.entries) {
        assert t in files[..n] || t == files[n];
      }
    }
  }

  lemma SortedParts(a: seq<Entry>, b: seq<Entry>)
    requires Sorted(a + b)
    ensures Sorted(a) && Sorted(b)
    ensures forall x, y | x in a && y in b :: Before(x, y)
  {
    var c := a + b;
    forall i, j | 0 <= i < j < |a| ensures Before(a[i], a[j]) {
      assert c[i] == a[i] && c[j] == a[j];
    }
    forall i, j | 0 <= i < j < |b| ensures Before(b[i], b[j]) {
      assert c[|a| + i] == b[i] && c[|a| + j] == b[j];
    }
    forall x, y | x in a && y in b ensures Before(x, y) {
      var i :| 0 <= i < |a| && a[i] == x;
      var j :| 0 <= j < |b| && b[j] == y;
      assert c[i] == x && c[|a| + j] == y;
    }
  }

  // ----- What the loop drops -----

  /** No table below the output level has `k` in its range. */
  ghost predicate IsBase(levels: seq<Level>, level: nat, k: Key) {
    forall l, t | level + 2 <= l < |levels| && t in levels[l] :: k < Smallest(t).key || Largest(t).key < k
  }

  /** The drop decision for entry `i` of the merged input. */
  ghost predicate Drops(xs: seq<Entry>, i: nat, smallest: nat, levels: seq<Level>, level: nat)
    requires i < |xs|
  {
    || (i > 0 && xs[i - 1].key == xs[i].key && xs[i - 1].stamp <= smallest)
    || (xs[i].kind == Deletion && xs[i].stamp <= smallest && IsBase(levels, level, xs[i].key))
  }

  /** What is left of the first `n` entries. */
  ghost function Kept(xs: seq<Entry>, n: nat, smallest: nat, levels: seq<Level>, level: nat): seq<Entry>
    requires n <= |xs|
  {
    if n == 0 then []
    else
      var r := Kept(xs, n - 1, smallest, levels, level);
      if Drops(xs, n - 1, smallest, levels, level) then r else r + [xs[n - 1]]
  }

  lemma {:induction false} KeptMember(xs: seq<Entry>, n: nat, smallest: nat, levels: seq<Level>, level: nat, i: nat)
    requires Sorted(xs) && i < n <= |xs|
    ensures xs[i] in Kept(xs, n, smallest, levels, level) <==> !Drops(xs, i, smallest, levels, level)
  {
    if i < n - 1 {
      KeptMember(xs, n - 1, smallest, levels, level, i);
      assert Before(xs[i], xs[n - 1]);
    } else {
      KeptFrom(xs, n - 1, smallest, levels, level);
    }
  }

  lemma {:induction false} KeptFrom(xs: seq<Entry>, n: nat, smallest: nat, levels: seq<Level>, level: nat)
    requires Sorted(xs) && n <= |xs|
    ensures Sorted(Kept(xs, n, smallest, levels, level))
    ensures forall e | e in Kept(xs, n, smallest, levels, level) :: e in xs[..n]
    ensures n < |xs| ==> forall e | e in Kept(xs, n, smallest, levels, level) :: Before(e, xs[n])
  {
    if n > 0 {
      KeptFrom(xs, n - 1, smallest, levels, level);
      assert xs[..n] == xs[..n - 1] + [xs[n - 1]];
      forall e | e in Kept(xs, n, smallest, levels, level) && n < |xs| ensures Before(e, xs[n]) {
        assert e in xs[..n];
        var j :| 0 <= j < n && xs[j] == e;
      }
    }
  }

  /** Dropping the deletion `e` lets a reader see `d`, which is not part of the merged input. */
  ghost predicate Resurrects(S: set<Entry>, xs: seq<Entry>, smallest: nat, levels: seq<Level>, level: nat,
                             e: Entry, d: Entry) {
    && e in xs && e.kind == Deletion && e.stamp <= smallest && IsBase(levels, level, e.key)
    && Exposed(S, smallest, e)
    && Newest(S - Set(xs), e.key, e.stamp, d) && d.kind == Value
  }

  /** Dropping is invisible at every snapshot from `smallest` on exactly when no dropped deletion
      was the last thing to hide a value outside the merged input. */
  lemma DroppedIsInvisible(S: set<Entry>, xs: seq<Entry>, smallest: nat, levels: seq<Level>, level: nat)
    requires UniqueSeqs(S) && Sorted(xs) && Set(xs) <= S
    ensures SameReads(S, S - (Set(xs) - Set(Kept(xs, |xs|, smallest, levels, level))), smallest)
       <==> forall e, d :: !Resurrects(S, xs, smallest, levels, level, e, d)
  {
    hide Reads, SameReads, UniqueSeqs, Resurrects, Kept;
    var dropped := Set(xs) - Set(Kept(xs, |xs|, smallest, levels, level));
    DropKeepsReads(S, dropped, smallest);
    if e, d :| Resurrects(S, xs, smallest, levels, level, e, d) {
      ResurrectedReads(S, xs, smallest, levels, level, e, d);
    } else {
      forall e | e in dropped && Exposed(S, smallest, e) ensures Reads(S - dropped, e.key, e.stamp, Answer(e)) {
        HiddenReads(S, xs, smallest, levels, level, e);
      }
    }
  }

  /** What is left of a key below a dropped deletion is what lies outside the input. */
  lemma LeftBelow(S: set<Entry>, xs: seq<Entry>, smallest: nat, levels: seq<Level>, level: nat, e: Entry, d: Entry)
    requires Sorted(xs) && e in xs && e.stamp <= smallest && d.key == e.key && d.stamp < e.stamp
    ensures d in S - (Set(xs) - Set(Kept(xs, |xs|, smallest, levels, level))) <==> d in S - Set(xs)
  {
    hide Kept;
    if d in xs {
      var i :| 0 <= i < |xs| && xs[i] == e;
      OlderIsDropped(xs, smallest, levels, level, i, d);
    }
  }

  /** A dropped entry that a reader could meet is a deletion dropped by the base-level rule. */
  lemma ExposedDropIsDeletion(S: set<Entry>, xs: seq<Entry>, smallest: nat, levels: seq<Level>, level: nat, e: Entry)
    requires Sorted(xs) && Set(xs) <= S && e in xs && Exposed(S, smallest, e)
    ensures e !in Kept(xs, |xs|, smallest, levels, level) <==>
            e.kind == Deletion && e.stamp <= smallest && IsBase(levels, level, e.key)
  {
    hide Kept;
    var i :| 0 <= i < |xs| && xs[i] == e;
    KeptMember(xs, |xs|, smallest, levels, level, i);
    if i > 0 && xs[i - 1].key == e.key {
      assert Before(xs[i - 1], xs[i]);
      assert xs[i - 1] in Set(xs);
    }
  }

  lemma SortedBehind(xs: seq<Entry>, e: Entry)
    requires Sorted(xs) && (xs != [] ==> Before(xs[|xs| - 1], e))
    ensures Sorted(xs + [e])
  {
    forall i | 0 <= i < |xs| ensures Before(xs[i], e) { assert i < |xs| - 1 ==> Before(xs[i], xs[|xs| - 1]); }
  }

  /** What the loop keeps: exactly the entries that are still the newest of the input for some reader, but for
      deletions with nothing below them and no snapshot that needs them. */
  lemma KeptIffVisible(xs: seq<Entry>, smallest: nat, levels: seq<Level>, level: nat, e: Entry)
    requires Sorted(xs)
    ensures e in Kept(xs, |xs|, smallest, levels, level) <==>
            && e in xs && Exposed(Set(xs), smallest, e)
            && !(e.kind == Deletion && e.stamp <= smallest && IsBase(levels, level, e.key))
  {
    hide Kept, IsBase;
    KeptFrom(xs, |xs|, smallest, levels, level);
    assert xs[..|xs|] == xs;
    if e in xs {
      if Exposed(Set(xs), smallest, e) {
        ExposedDropIsDeletion(Set(xs), xs, smallest, levels, level, e);
      } else {
        HiddenIsDropped(xs, smallest, levels, level, e);
      }
    }
  }

  lemma HiddenIsDropped(xs: seq<Entry>, smallest: nat, levels: seq<Level>, level: nat, e: Entry)
    requires Sorted(xs) && e in xs && !Exposed(Set(xs), smallest, e)
    ensures e !in Kept(xs, |xs|, smallest, levels, level)
  {
    hide Kept, Sorted;
    var d :| d in xs && d.key == e.key && d.stamp > e.stamp && d.stamp <= smallest;
    var i :| 0 <= i < |xs| && xs[i] == d;
    OlderIsDropped(xs, smallest, levels, level, i, e);
  }

  lemma ResurrectedReads(S: set<Entry>, xs: seq<Entry>, smallest: nat, levels: seq<Level>, level: nat,
                         e: Entry, d: Entry)
    requires UniqueSeqs(S) && Sorted(xs) && Set(xs) <= S && Resurrects(S, xs, smallest, levels, level, e, d)
    ensures var T := S - (Set(xs) - Set(Kept(xs, |xs|, smallest, levels, level)));
            && e in S - T && Exposed(S, smallest, e)
            && Newest(T, e.key, e.stamp, d) && !Reads(T, e.key, e.stamp, Answer(e))
  {
    hide Kept, Reads, UniqueSeqs;
    var T := S - (Set(xs) - Set(Kept(xs, |xs|, smallest, levels, level)));
    ExposedDropIsDeletion(S, xs, smallest, levels, level, e);
    NothingBetween(S, xs, e);
    forall v | v in T && v.key == e.key && v.stamp <= e.stamp ensures v in S - Set(xs) {
      SameStamp(S, v, e);
      LeftBelow(S, xs, smallest, levels, level, e, v);
    }
    assert d in T;
    UniqueLess(S, T);
    NewestReads(T, e.key, e.stamp, d, Answer(e));
  }

  lemma SameStamp(S: set<Entry>, v: Entry, e: Entry)
    requires UniqueSeqs(S) && v in S && e in S && v.key == e.key && v.stamp <= e.stamp
    ensures v == e || v.stamp < e.stamp
  {
  }

  lemma NothingBetween(S: set<Entry>, xs: seq<Entry>, e: Entry)
    requires e in xs && Set(xs) <= S
    ensures e in S && e !in S - Set(xs)
  {
    assert e in Set(xs);
  }

  lemma HiddenReads(S: set<Entry>, xs: seq<Entry>, smallest: nat, levels: seq<Level>, level: nat, e: Entry)
    requires UniqueSeqs(S) && Sorted(xs) && Set(xs) <= S
    requires forall d :: !Resurrects(S, xs, smallest, levels, level, e, d)
    requires e in Set(xs) - Set(Kept(xs, |xs|, smallest, levels, level)) && Exposed(S, smallest, e)
    ensures Reads(S - (Set(xs) - Set(Kept(xs, |xs|, smallest, levels, level))), e.key, e.stamp, Answer(e))
  {
    hide Kept, UniqueSeqs;
    var T := S - (Set(xs) - Set(Kept(xs, |xs|, smallest, levels, level)));
    ExposedDropIsDeletion(S, xs, smallest, levels, level, e);
    forall v | v in S && v.key == e.key && v.stamp <= e.stamp && v != e ensures v in T <==> v in S - Set(xs) {
      SameStamp(S, v, e);
      LeftBelow(S, xs, smallest, levels, level, e, v);
    }
    NewestExists(T, e.key, e.stamp);
    if d :| Newest(T, e.key, e.stamp, d) {
      assert Newest(S - Set(xs), e.key, e.stamp, d);
      assert e in xs && !Resurrects(S, xs, smallest, levels, level, e, d);
    }
  }

  lemma OlderIsDropped(xs: seq<Entry>, smallest: nat, levels: seq<Level>, level: nat, i: nat, d: Entry)
    requires Sorted(xs) && i < |xs| && xs[i].stamp <= smallest
    requires d in xs && d.key == xs[i].key && d.stamp < xs[i].stamp
    ensures d !in Kept(xs, |xs|, smallest, levels, level)
  {
    var j :| 0 <= j < |xs| && xs[j] == d;
    assert i == j - 1 || Before(xs[i], xs[j - 1]);
    assert Before(xs[j - 1], xs[j]);
    KeptMember(xs, |xs|, smallest, levels, level, j);
  }

  // ----- The loop itself -----

  /** The cursors a compaction keeps into the levels below its output. */
  class Compaction {
    const level: nat
    const inputVersion: seq<Level>
    const grandparents: Level
    var levelPtrs: seq<nat>
    var grandparentIndex: nat
    var seenKey: bool
    var overlappedBytes: nat

    /** Every key asked about so far is at or below this one. */
    ghost var asked: Option<Key>

    /** The entries shown to `ShouldStopBefore` so far. */
    ghost var shown: seq<Entry>

    /** Overlap is counted since the last stop. */
    ghost predicate Counting()
      reads `grandparentIndex, `seenKey, `overlappedBytes, `shown
    {
      var n := |shown|;
      Sorted(shown) &&
      if n == 0 then !seenKey && grandparentIndex == 0 && overlappedBytes == 0
      else
        && seenKey && grandparentIndex == Passed(grandparents, shown[n - 1])
        && overlappedBytes == if Stops(grandparents, shown, n - 1) then 0
                              else Counted(grandparents, shown, n - 1)
    }

    ghost predicate Valid()
      reads this
    {
      Counting() && Pointing()
    }

    /** The cursors have passed only tables before every key asked about. */
    ghost predicate Pointing()
      reads `levelPtrs, `asked
    {
      && |inputVersion| == NUM_LEVELS
      && |levelPtrs| == NUM_LEVELS
      && (forall l | level + 2 <= l < NUM_LEVELS :: SortedLevel(inputVersion[l]))
      && (forall l | level + 2 <= l < NUM_LEVELS :: levelPtrs[l] <= |inputVersion[l]|)
      && (forall l, i | level + 2 <= l < NUM_LEVELS && 0 <= i < levelPtrs[l] ::
            asked.Some? && Largest(inputVersion[l][i]).key < asked.value)
    }

    constructor (level: nat, inputVersion: seq<Level>, grandparents: Level)
      requires ValidVersion(inputVersion)
      ensures Valid() && this.level == level && this.inputVersion == inputVersion && asked == None
      ensures this.grandparents == grandparents && shown == []
    {
      this.level, this.inputVersion, this.grandparents := level, inputVersion, grandparents;
      levelPtrs := seq(NUM_LEVELS, i => 0);
      grandparentIndex, seenKey, overlappedBytes := 0, false, 0;
      asked, shown := None, [];
    }

    /** `Compaction::ShouldStopBefore`: shown the entries in order, it stops exactly where more than the limit
        has been passed since it stopped last. */
    method ShouldStopBefore(e: Entry) returns (r: bool)
      requires Valid() && (shown != [] ==> Before(shown[|shown| - 1], e))
      modifies `grandparentIndex, `seenKey, `overlappedBytes, `shown
      ensures Valid() && shown == old(shown) + [e] && r == Stops(grandparents, shown, |shown| - 1)
    {
      hide Stops, Since, Passed, Bytes, Counted, CountedFrom;
      ghost var from := CountedFrom(grandparents, shown, e);
      StartsCounting(grandparents, shown, e);
      while grandparentIndex < |grandparents| && Before(Largest(grandparents[grandparentIndex]), e)
        invariant grandparentIndex <= |grandparents| && shown == old(shown)
        invariant forall i | 0 <= i < grandparentIndex :: Before(Largest(grandparents[i]), e)
        invariant seenKey == (shown != []) && (seenKey ==> from.Some?) && (seenKey ==> from.value <= grandparentIndex)
        invariant overlappedBytes == if seenKey then Bytes(grandparents, from.value, grandparentIndex) else 0
        decreases |grandparents| - grandparentIndex
      {
        if seenKey {
          BytesMore(grandparents, from.value, grandparentIndex);
          overlappedBytes := overlappedBytes + grandparents[grandparentIndex].bytes;
        }
        grandparentIndex := grandparentIndex + 1;
      }
      PassedIs(grandparents, e, grandparentIndex);
      seenKey, shown := true, shown + [e];
      CountsOn(grandparents, old(shown), e);
      SortedBehind(old(shown), e);
      r := overlappedBytes > MAX_GRANDPARENT_OVERLAP_BYTES;
      if r {
        overlappedBytes := 0;
      }
    }

    /** `Compaction::IsBaseLevelForKey`: the cursors only move forward, so the keys must be
        asked in ascending order; the answer is then exact. */
    method IsBaseLevelForKey(k: Key) returns (r: bool)
      requires Valid()
      requires asked.Some? ==> asked.value <= k
      modifies `levelPtrs, `asked
      ensures Valid() && asked == Some(k)
      ensures r <==> IsBase(inputVersion, level, k)
    {
      hide AgeOrdered, DistinctNumbers, Sorted, Counting;
      asked := Some(k);
      var lvl := level + 2;
      while lvl < NUM_LEVELS
        invariant level + 2 <= lvl
        invariant Valid() && asked == Some(k)
        invariant forall l, t | level + 2 <= l < lvl && l < NUM_LEVELS && t in inputVersion[l] ::
                    k < Smallest(t).key || Largest(t).key < k
      {
        var files := inputVersion[lvl];
        while levelPtrs[lvl] < |files| && k > Largest(files[levelPtrs[lvl]]).key
          invariant Valid() && asked == Some(k)
          decreases |files| - levelPtrs[lvl]
        {
          levelPtrs := levelPtrs[lvl := levelPtrs[lvl] + 1];
        }
        var p := levelPtrs[lvl];
        if p < |files| && k >= Smallest(files[p]).key {
          assert files[p] in inputVersion[lvl];
          return false;
        }
        forall t | t in files ensures k < Smallest(t).key || Largest(t).key < k {
          var i :| 0 <= i < |files| && files[i] == t;
          if p < i { RangeOrdered(files, p, i); }
        }
        lvl := lvl + 1;
      }
      r := true;
    }
  }

  // ----- Where outputs are cut -----

  /** The cutting rules: a table is closed when it has grown to `limit`, and before every entry of the input at
      which `stopBefore` holds. */
  datatype Cutting = Cutting(limit: nat, grown: seq<Entry> -> nat, stopBefore: nat -> bool)

  /** Behind `done`, the entries kept of the first `at` went into one table, which no rule closed earlier. */
  ghost predicate Whole(kept: nat -> seq<Entry>, cut: Cutting, done: seq<Entry>, table: seq<Entry>, at: nat) {
    && kept(at) == done + table
    && (forall n | 0 < n < |table| :: cut.grown(table[..n]) < cut.limit)
    && (forall i: nat | i < at && |kept(i)| > |done| :: !cut.stopBefore(i))
  }

  /** A rule closes the table behind the first `at` entries of the input, or the input ends there. */
  ghost predicate Closes(cut: Cutting, table: seq<Entry>, at: nat, total: nat) {
    at <= total && (cut.grown(table) >= cut.limit || at == total || cut.stopBefore(at))
  }

  /** Every output ends where a rule says so, and nowhere else. */
  ghost predicate RightlyCut(kept: nat -> seq<Entry>, total: nat, cut: Cutting, outputs: Level, ends: seq<nat>) {
    && |ends| == |outputs|
    && forall j | 0 <= j < |outputs| ::
         && Whole(kept, cut, Flat(outputs[..j]), outputs[j].entries, ends[j])
         && Closes(cut, outputs[j].entries, ends[j], total)
  }

  ghost function Rules(limit: nat, grown: seq<Entry> -> nat, grandparents: Level, xs: seq<Entry>): Cutting {
    Cutting(limit, grown, (i: nat) => i < |xs| && Stops(grandparents, xs, i))
  }

  ghost function KeptUpTo(xs: seq<Entry>, smallest: nat, levels: seq<Level>, level: nat): nat -> seq<Entry> {
    (n: nat) => if n <= |xs| then Kept(xs, n, smallest, levels, level) else []
  }

  lemma {:induction false} KeptGrows(xs: seq<Entry>, smallest: nat, levels: seq<Level>, level: nat, m: nat, n: nat)
    requires m <= n <= |xs|
    ensures Kept(xs, m, smallest, levels, level) <= Kept(xs, n, smallest, levels, level)
  {
    if m < n { KeptGrows(xs, smallest, levels, level, m, n - 1); }
  }

  lemma NewTable(xs: seq<Entry>, smallest: nat, levels: seq<Level>, level: nat, cut: Cutting, n: nat)
    requires n <= |xs|
    ensures var kept := KeptUpTo(xs, smallest, levels, level); Whole(kept, cut, kept(n), [], n)
  {
    var kept := KeptUpTo(xs, smallest, levels, level);
    forall i: nat | i < n ensures |kept(i)| <= |kept(n)| { KeptGrows(xs, smallest, levels, level, i, n); }
    assert kept(n) + [] == kept(n);
  }

  /** The table takes in one more entry, or stays as it is. */
  lemma StillWhole(kept: nat -> seq<Entry>, cut: Cutting, done: seq<Entry>, table: seq<Entry>, at: nat,
                   more: seq<Entry>)
    requires Whole(kept, cut, done, table, at) && |more| <= 1 && kept(at + 1) == kept(at) + more
    requires table != [] ==> cut.grown(table) < cut.limit && !cut.stopBefore(at)
    ensures Whole(kept, cut, done, table + more, at + 1)
  {
    var table' := table + more;
    assert kept(at + 1) == done + table';
    forall n | 0 < n < |table'| ensures cut.grown(table'[..n]) < cut.limit {
      if n < |table| {
        assert table'[..n] == table[..n];
      } else {
        assert table'[..n] == table;
      }
    }
  }

  // ----- The loop -----

  /** The loop of `DBImpl::DoCompactionWork` over the merged input: it writes what the drop rules keep, and cuts
      outputs where the rules say so.  `grown` is the size of a table in the making, `sizeOf` when finished. */
  method DoCompactionWork(c: Compaction, input: seq<Entry>, smallest: nat, firstNumber: nat, limit: nat,
                          grown: seq<Entry> -> nat, sizeOf: seq<Entry> -> nat)
    returns (outputs: Level, ghost ends: seq<nat>)
    requires c.Valid() && c.asked == None && c.shown == []
    requires Sorted(input) && smallest < MAX_SEQUENCE
    modifies c
    ensures Flat(outputs) == Kept(input, |input|, smallest, c.inputVersion, c.level)
    ensures RightlyCut(KeptUpTo(input, smallest, c.inputVersion, c.level), |input|,
                       Rules(limit, grown, c.grandparents, input), outputs, ends)
    ensures forall i | 0 <= i < |outputs| ::
              outputs[i].number == firstNumber + i && outputs[i].bytes == sizeOf(outputs[i].entries)
  {
    hide Filling, Stops, Kept, KeptUpTo, Drops, Running, Flat, Written, Sorted, RightlyCut;
    outputs, ends := [], [];
    var builder: seq<Entry> := [];
    var seen := Seen(None, MAX_SEQUENCE);
    ghost var kept := KeptUpTo(input, smallest, c.inputVersion, c.level);
    ghost var cut := Rules(limit, grown, c.grandparents, input);
    NothingBuilt(input, smallest, c.inputVersion, c.level, cut, firstNumber, sizeOf);
    NothingSeen(c, input, smallest);
    for i := 0 to |input|
      invariant Running(c, input, i, seen) && c.shown == input[..i]
      invariant Building(kept, |input|, cut, firstNumber, sizeOf, outputs, ends, builder, i)
    {
      var stop := StopBefore(c, input, i, seen);
      if stop && builder != [] {
        outputs, builder, ends := CloseOutput(kept, |input|, cut, firstNumber, sizeOf, outputs, ends, builder, i);
        StartOver(input, smallest, c.inputVersion, c.level, cut, firstNumber, sizeOf, outputs, ends, i);
      }
      var drop;
      drop, seen := ShouldDrop(c, input, i, smallest, seen);
      KeptStep(input, i, smallest, c.inputVersion, c.level);
      if drop {
        EntryDropped(kept, |input|, cut, firstNumber, sizeOf, outputs, ends, builder, i);
      } else {
        EntryAdded(kept, |input|, cut, firstNumber, sizeOf, outputs, ends, builder, i, input[i]);
        builder := builder + [input[i]];
        if grown(builder) >= limit {
          outputs, builder, ends :=
            CloseOutput(kept, |input|, cut, firstNumber, sizeOf, outputs, ends, builder, i + 1);
          StartOver(input, smallest, c.inputVersion, c.level, cut, firstNumber, sizeOf, outputs, ends, i + 1);
        }
      }
    }
    BuiltIsKept(kept, |input|, cut, firstNumber, sizeOf, outputs, ends, builder, |input|);
    if builder != [] {
      outputs, builder, ends := CloseOutput(kept, |input|, cut, firstNumber, sizeOf, outputs, ends, builder, |input|);
    }
    KeptAll(input, smallest, c.inputVersion, c.level);
    AllWritten(outputs, firstNumber, sizeOf);
  }

  /** The outputs closed so far, and the table in the making behind the first `i` entries. */
  ghost predicate Filling(kept: nat -> seq<Entry>, total: nat, cut: Cutting, firstNumber: nat,
                          sizeOf: seq<Entry> -> nat, outputs: Level, ends: seq<nat>, builder: seq<Entry>, i: nat) {
    && Whole(kept, cut, Flat(outputs), builder, i)
    && RightlyCut(kept, total, cut, outputs, ends) && Written(outputs, firstNumber, sizeOf)
  }

  /** The same, the table not being full. */
  ghost predicate Building(kept: nat -> seq<Entry>, total: nat, cut: Cutting, firstNumber: nat,
                           sizeOf: seq<Entry> -> nat, outputs: Level, ends: seq<nat>, builder: seq<Entry>, i: nat) {
    && Filling(kept, total, cut, firstNumber, sizeOf, outputs, ends, builder, i)
    && (builder != [] ==> cut.grown(builder) < cut.limit)
  }

  lemma NothingBuilt(xs: seq<Entry>, smallest: nat, levels: seq<Level>, level: nat, cut: Cutting, firstNumber: nat,
                     sizeOf: seq<Entry> -> nat)
    ensures Building(KeptUpTo(xs, smallest, levels, level), |xs|, cut, firstNumber, sizeOf, [], [], [], 0)
  {
    NewTable(xs, smallest, levels, level, cut, 0);
  }

  lemma StartOver(xs: seq<Entry>, smallest: nat, levels: seq<Level>, level: nat, cut: Cutting, firstNumber: nat,
                  sizeOf: seq<Entry> -> nat, outputs: Level, ends: seq<nat>, i: nat)
    requires var kept := KeptUpTo(xs, smallest, levels, level);
             && i <= |xs| && Flat(outputs) == kept(i)
             && RightlyCut(kept, |xs|, cut, outputs, ends) && Written(outputs, firstNumber, sizeOf)
    ensures Building(KeptUpTo(xs, smallest, levels, level), |xs|, cut, firstNumber, sizeOf, outputs, ends, [], i)
  {
    hide KeptUpTo, RightlyCut, Flat, Whole, Written;
    NewTable(xs, smallest, levels, level, cut, i);
  }

  lemma EntryDropped(kept: nat -> seq<Entry>, total: nat, cut: Cutting, firstNumber: nat, sizeOf: seq<Entry> -> nat,
                     outputs: Level, ends: seq<nat>, builder: seq<Entry>, i: nat)
    requires Building(kept, total, cut, firstNumber, sizeOf, outputs, ends, builder, i)
    requires (builder != [] ==> !cut.stopBefore(i)) && kept(i + 1) == kept(i) + []
    ensures Building(kept, total, cut, firstNumber, sizeOf, outputs, ends, builder, i + 1)
  {
    hide Whole, RightlyCut, Flat, Written;
    StillWhole(kept, cut, Flat(outputs), builder, i, []);
    assert builder + [] == builder;
  }

  lemma EntryAdded(kept: nat -> seq<Entry>, total: nat, cut: Cutting, firstNumber: nat, sizeOf: seq<Entry> -> nat,
                   outputs: Level, ends: seq<nat>, builder: seq<Entry>, i: nat, e: Entry)
    requires Building(kept, total, cut, firstNumber, sizeOf, outputs, ends, builder, i)
    requires (builder != [] ==> !cut.stopBefore(i)) && kept(i + 1) == kept(i) + [e]
    ensures Filling(kept, total, cut, firstNumber, sizeOf, outputs, ends, builder + [e], i + 1)
  {
    hide Whole, RightlyCut, Flat, Written;
    StillWhole(kept, cut, Flat(outputs), builder, i, [e]);
  }

  lemma BuiltIsKept(kept: nat -> seq<Entry>, total: nat, cut: Cutting, firstNumber: nat, sizeOf: seq<Entry> -> nat,
                    outputs: Level, ends: seq<nat>, builder: seq<Entry>, i: nat)
    requires Building(kept, total, cut, firstNumber, sizeOf, outputs, ends, builder, i)
    ensures builder == [] ==>
              && Flat(outputs) == kept(i) && RightlyCut(kept, total, cut, outputs, ends)
              && Written(outputs, firstNumber, sizeOf)
  {
    hide RightlyCut, Flat, Written;
  }

  lemma AllWritten(outputs: Level, firstNumber: nat, sizeOf: seq<Entry> -> nat)
    requires Written(outputs, firstNumber, sizeOf)
    ensures forall i | 0 <= i < |outputs| ::
              outputs[i].number == firstNumber + i && outputs[i].bytes == sizeOf(outputs[i].entries)
  {
  }

  lemma KeptAll(xs: seq<Entry>, smallest: nat, levels: seq<Level>, level: nat)
    ensures KeptUpTo(xs, smallest, levels, level)(|xs|) == Kept(xs, |xs|, smallest, levels, level)
  {
  }

  /** The user key the loop is at, and the sequence number it has seen last for it. */
  datatype Seen = Seen(key: Option<Key>, sequence: nat)

  ghost predicate Running(c: Compaction, input: seq<Entry>, i: nat, seen: Seen)
    reads c
  {
    && c.Valid() && i <= |input| && Sorted(input)
    && (c.asked.Some? ==> i > 0 && c.asked.value <= input[i - 1].key)
    && seen == if i == 0 then Seen(None, MAX_SEQUENCE) else Seen(Some(input[i - 1].key), input[i - 1].stamp)
  }

  lemma NothingSeen(c: Compaction, input: seq<Entry>, smallest: nat)
    requires c.Valid() && c.asked == None && Sorted(input)
    ensures Running(c, input, 0, Seen(None, MAX_SEQUENCE))
  {
  }

  method StopBefore(c: Compaction, input: seq<Entry>, i: nat, ghost seen: Seen) returns (r: bool)
    requires Running(c, input, i, seen) && i < |input| && c.shown == input[..i]
    modifies c
    ensures Running(c, input, i, seen) && c.shown == input[..i + 1]
    ensures r == Stops(c.grandparents, input, i)
  {
    hide Stops;
    assert i > 0 ==> Before(input[i - 1], input[i]);
    r := c.ShouldStopBefore(input[i]);
    assert input[..i + 1] == input[..i] + [input[i]];
    StopsEarly(c.grandparents, input[..i + 1], input, i);
  }

  /** The drop decision, from the running state alone. */
  method ShouldDrop(c: Compaction, input: seq<Entry>, i: nat, smallest: nat, seen0: Seen)
    returns (drop: bool, seen: Seen)
    requires Running(c, input, i, seen0) && i < |input| && smallest < MAX_SEQUENCE
    modifies c
    ensures drop == Drops(input, i, smallest, c.inputVersion, c.level)
    ensures Running(c, input, i + 1, seen) && c.shown == old(c.shown)
  {
    var e := input[i];
    seen := seen0;
    assert i > 0 ==> Before(input[i - 1], e);
    if seen.key.None? || e.key != seen.key.value {
      seen := Seen(Some(e.key), MAX_SEQUENCE);
    }
    drop := false;
    if seen.sequence <= smallest {
      drop := true;
    } else if e.kind == Deletion && e.stamp <= smallest {
      drop := c.IsBaseLevelForKey(e.key);
    }
    seen := seen.(sequence := e.stamp);
  }

  lemma KeptStep(xs: seq<Entry>, n: nat, smallest: nat, levels: seq<Level>, level: nat)
    requires n < |xs|
    ensures var kept := KeptUpTo(xs, smallest, levels, level);
            kept(n + 1) == kept(n) + if Drops(xs, n, smallest, levels, level) then [] else [xs[n]]
  {
    hide Drops;
    var r := Kept(xs, n, smallest, levels, level);
    assert Kept(xs, n + 1, smallest, levels, level) ==
           if Drops(xs, n, smallest, levels, level) then r else r + [xs[n]];
    hide Kept;
    assert r + [] == r;
  }

  ghost predicate Written(outputs: Level, firstNumber: nat, sizeOf: seq<Entry> -> nat) {
    forall i | 0 <= i < |outputs| ::
      outputs[i].number == firstNumber + i && outputs[i].bytes == sizeOf(outputs[i].entries)
  }

  method CloseOutput(ghost kept: nat -> seq<Entry>, ghost total: nat, ghost cut: Cutting, firstNumber: nat,
                     sizeOf: seq<Entry> -> nat, outputs: Level, ghost ends: seq<nat>, builder: seq<Entry>,
                     ghost at: nat)
    returns (r: Level, rest: seq<Entry>, ghost ends': seq<nat>)
    requires builder != [] && Filling(kept, total, cut, firstNumber, sizeOf, outputs, ends, builder, at)
    requires Closes(cut, builder, at, total)
    ensures rest == [] && Flat(r) == kept(at)
    ensures Written(r, firstNumber, sizeOf) && RightlyCut(kept, total, cut, r, ends')
  {
    var t := TableFile(firstNumber + |outputs|, sizeOf(builder), builder);
    r := outputs + [t];
    rest := [];
    ends' := ends + [at];
    assert r[..|r| - 1] == outputs;
    forall j | 0 <= j < |outputs| ensures r[..j] == outputs[..j] {}
  }

  // ----- How much an output overlaps -----

  /** Where an entry that is kept comes from. */
  lemma {:induction false} KeptOrigin(xs: seq<Entry>, n: nat, smallest: nat, levels: seq<Level>, level: nat, p: nat)
    returns (i: nat)
    requires n <= |xs| && p < |Kept(xs, n, smallest, levels, level)|
    ensures i < n && |Kept(xs, i, smallest, levels, level)| == p < |Kept(xs, i + 1, smallest, levels, level)|
    ensures xs[i] == Kept(xs, n, smallest, levels, level)[p]
  {
    hide Drops;
    if p < |Kept(xs, n - 1, smallest, levels, level)| {
      i := KeptOrigin(xs, n - 1, smallest, levels, level, p);
    } else {
      i := n - 1;
    }
  }

  /** From the first entry of an output to its last, at most the limit of grandparents is passed. */
  lemma OutputOverlapsLittle(xs: seq<Entry>, smallest: nat, levels: seq<Level>, level: nat, limit: nat,
                             grown: seq<Entry> -> nat, grandparents: Level, outputs: Level, ends: seq<nat>, j: nat)
    requires Sorted(xs) && j < |outputs|
    requires RightlyCut(KeptUpTo(xs, smallest, levels, level), |xs|, Rules(limit, grown, grandparents, xs), outputs,
                        ends)
    ensures var t := outputs[j];
            Bytes(grandparents, Passed(grandparents, Smallest(t)), Passed(grandparents, Largest(t)))
              <= MAX_GRANDPARENT_OVERLAP_BYTES
  {
    hide Kept, Stops, Bytes, Passed, Flat;
    var kept := KeptUpTo(xs, smallest, levels, level);
    var done, t, end := Flat(outputs[..j]), outputs[j].entries, ends[j];
    var a := KeptOrigin(xs, end, smallest, levels, level, |done|);
    var b := KeptOrigin(xs, end, smallest, levels, level, |done| + |t| - 1);
    if b < a { KeptGrows(xs, smallest, levels, level, b, a); }
    forall i | a < i <= b ensures !Stops(grandparents, xs, i) {
      KeptGrows(xs, smallest, levels, level, a + 1, i);
      assert |kept(i)| > |done|;
    }
    OverlapWithin(grandparents, xs, a, b);
  }
}
