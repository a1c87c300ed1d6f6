/** Choosing compaction inputs and the output level of a memtable flush. */
module Selection {
  import opened Wrappers
  import opened Entries
  import opened Versions

  const TARGET_FILE_SIZE: nat := 2 * 1048576
  const MAX_GRANDPARENT_OVERLAP_BYTES: nat := 10 * TARGET_FILE_SIZE
  const EXPANDED_COMPACTION_BYTE_SIZE_LIMIT: nat := 25 * TARGET_FILE_SIZE

  /** The tables meeting `[lo, hi]`, in level order. */
  function Overlapping(files: Level, lo: Option<Key>, hi: Option<Key>): (r: Level)
    ensures forall t :: t in r <==> t in files && Meets(t, lo, hi)
  {
    if files == [] then []
    else
      var r := Overlapping(files[..|files| - 1], lo, hi);
      var t := files[|files| - 1];
      assert files == files[..|files| - 1] + [t];
      if Meets(t, lo, hi) then r + [t] else r
  }

  /** No table reaches across the border of `[lo, hi]`. */
  ghost predicate Closed(files: Level, lo: Option<Key>, hi: Option<Key>) {
    forall t | t in files && Meets(t, lo, hi) :: Inside(t, lo, hi)
  }

  predicate Inside(t: Table, lo: Option<Key>, hi: Option<Key>) {
    && (lo.None? || lo.value <= Smallest(t).key)
    && (hi.None? || Largest(t).key <= hi.value)
  }

  /** `[c, d]` contains `[lo, hi]`; an open bound stays open. */
  predicate Covers(c: Option<Key>, d: Option<Key>, lo: Option<Key>, hi: Option<Key>) {
    && (c.None? || (lo.Some? && c.value <= lo.value))
    && (d.None? || (hi.Some? && d.value >= hi.value))
  }

  /** No closed range around `[begin, end]` is smaller than `[lo, hi]`. */
  ghost predicate Forced(files: Level, begin: Option<Key>, end: Option<Key>,
                         lo: Option<Key>, hi: Option<Key>) {
    && (lo.Some? <==> begin.Some?) && (hi.Some? <==> end.Some?)
    && Covers(lo, hi, begin, end)
    && forall c, d | Covers(c, d, begin, end) && Closed(files, c, d) :: Covers(c, d, lo, hi)
  }

  /** The least closed range around `[begin, end]`. */
  ghost predicate LeastClosed(files: Level, begin: Option<Key>, end: Option<Key>,
                              lo: Option<Key>, hi: Option<Key>) {
    Forced(files, begin, end, lo, hi) && Closed(files, lo, hi)
  }

  /** Table end points still outside `[lo, hi]`: what each restart of the search uses up. */
  ghost function Outside(files: Level, lo: Option<Key>, hi: Option<Key>): nat {
    if files == [] then 0
    else
      Outside(files[1..], lo, hi)
      + (if lo.Some? && Smallest(files[0]).key < lo.value then 1 else 0)
      + (if hi.Some? && Largest(files[0]).key > hi.value then 1 else 0)
  }

  lemma {:induction false} WideningUsesUpEndpoint(files: Level, lo: Option<Key>, hi: Option<Key>,
                               lo': Option<Key>, hi': Option<Key>, t: Table)
    requires lo.Some? <==> lo'.Some?
    requires hi.Some? <==> hi'.Some?
    requires lo.Some? ==> lo'.value <= lo.value
    requires hi.Some? ==> hi.value <= hi'.value
    ensures Outside(files, lo', hi') <= Outside(files, lo, hi)
    ensures t in files && lo.Some? && lo'.value <= Smallest(t).key < lo.value ==>
              Outside(files, lo', hi') < Outside(files, lo, hi)
    ensures t in files && hi.Some? && hi.value < Largest(t).key <= hi'.value ==>
              Outside(files, lo', hi') < Outside(files, lo, hi)
  {
    if files != [] {
      WideningUsesUpEndpoint(files[1..], lo, hi, lo', hi', t);
      assert t in files ==> t == files[0] || t in files[1..];
    }
  }

  lemma ScanStep(files: Level, i: nat, lo: Option<Key>, hi: Option<Key>)
    requires i < |files|
    ensures Overlapping(files[..i + 1], lo, hi)
         == Overlapping(files[..i], lo, hi) + (if Meets(files[i], lo, hi) then [files[i]] else [])
    ensures Closed(files[..i], lo, hi) && (Meets(files[i], lo, hi) ==> Inside(files[i], lo, hi)) ==>
              Closed(files[..i + 1], lo, hi)
  {
    assert files[..i + 1] == files[..i] + [files[i]];
    assert files[..i + 1][..i] == files[..i];
  }

  /** Any closed range around the current one also holds a table that meets it, so growing to
      that table's end point is forced. */
  lemma Widen(files: Level, begin: Option<Key>, end: Option<Key>,
              lo: Option<Key>, hi: Option<Key>, f: Table, lo': Option<Key>, hi': Option<Key>)
    requires Forced(files, begin, end, lo, hi) && f in files && Meets(f, lo, hi) && Sorted(f.entries)
    requires || (lo.Some? && Smallest(f).key < lo.value && lo' == Some(Smallest(f).key) && hi' == hi)
             || (hi.Some? && Largest(f).key > hi.value && hi' == Some(Largest(f).key) && lo' == lo)
    ensures Forced(files, begin, end, lo', hi')
    ensures Outside(files, lo', hi') < Outside(files, lo, hi)
  {
    forall c, d | Covers(c, d, begin, end) && Closed(files, c, d) ensures Covers(c, d, lo', hi') {
      assert Covers(c, d, lo, hi);
      assert Meets(f, c, d);
    }
    WideningUsesUpEndpoint(files, lo, hi, lo', hi', f);
  }

  lemma NothingScanned(files: Level, lo: Option<Key>, hi: Option<Key>)
    ensures Overlapping(files[..0], lo, hi) == [] && Closed(files[..0], lo, hi)
    ensures Forced(files, lo, hi, lo, hi)
  {
  }

  /** `Version::GetOverlappingInputs`, with the level-0 restarts. */
  method GetOverlappingInputs(levelZero: bool, files: Level, begin: Option<Key>, end: Option<Key>)
    returns (inputs: Level, ghost lo: Option<Key>, ghost hi: Option<Key>)
    requires TablesSorted(files)
    ensures inputs == Overlapping(files, lo, hi)
    ensures !levelZero ==> lo == begin && hi == end && inputs == Overlapping(files, begin, end)
    ensures levelZero ==> LeastClosed(files, begin, end, lo, hi)
  {
    hide Forced, Closed, Overlapping, Outside, Sorted;
    inputs := [];
    var userBegin, userEnd := begin, end;
    var i := 0;
    NothingScanned(files, begin, end);
    while i < |files|
      invariant 0 <= i <= |files|
      invariant !levelZero ==> userBegin == begin && userEnd == end
      invariant Forced(files, begin, end, userBegin, userEnd)
      invariant inputs == Overlapping(files[..i], userBegin, userEnd)
      invariant levelZero ==> Closed(files[..i], userBegin, userEnd)
      decreases Outside(files, userBegin, userEnd), |files| - i
    {
      var f := files[i];
      ScanStep(files, i, userBegin, userEnd);
      i := i + 1;
      if userBegin.Some? && Largest(f).key < userBegin.value {
      } else if userEnd.Some? && Smallest(f).key > userEnd.value {
      } else {
        inputs := inputs + [f];
        if levelZero {
          if userBegin.Some? && Smallest(f).key < userBegin.value {
            Widen(files, begin, end, userBegin, userEnd, f, Some(Smallest(f).key), userEnd);
            userBegin := Some(Smallest(f).key);
            inputs := [];
            i := 0;
            NothingScanned(files, userBegin, userEnd);
          } else if userEnd.Some? && Largest(f).key > userEnd.value {
            Widen(files, begin, end, userBegin, userEnd, f, userBegin, Some(Largest(f).key));
            userEnd := Some(Largest(f).key);
            inputs := [];
            i := 0;
            NothingScanned(files, userBegin, userEnd);
          }
        }
      }
    }
    assert files[..|files|] == files;
    lo, hi := userBegin, userEnd;
  }

  // ----- The slice a sorted level contributes -----

  predicate Below(t: Table, lo: Option<Key>) { lo.Some? && Largest(t).key < lo.value }

  predicate Above(t: Table, hi: Option<Key>) { hi.Some? && Smallest(t).key > hi.value }

  lemma {:induction false} AllBelow(files: Level, lo: Option<Key>, hi: Option<Key>)
    requires forall j | 0 <= j < |files| :: Below(files[j], lo)
    ensures Overlapping(files, lo, hi) == []
  {
    if files != [] { AllBelow(files[..|files| - 1], lo, hi); }
  }

  lemma LastInOrder(files: Level, lo: Option<Key>, hi: Option<Key>)
    requires SortedLevel(files) && files != []
    ensures SortedLevel(files[..|files| - 1])
    ensures forall j | 0 <= j < |files| && Below(files[|files| - 1], lo) :: Below(files[j], lo)
    ensures forall j | 0 <= j < |files| && Above(files[j], hi) :: Above(files[|files| - 1], hi)
  {
    forall j | 0 <= j < |files|
      ensures Below(files[|files| - 1], lo) ==> Below(files[j], lo)
      ensures Above(files[j], hi) ==> Above(files[|files| - 1], hi)
    {
      RangeOrdered(files, j, |files| - 1);
    }
  }

  ghost predicate SliceFrom(files: Level, lo: Option<Key>, hi: Option<Key>, a: nat, b: nat) {
    && a <= b <= |files|
    && Overlapping(files, lo, hi) == files[a..b]
    && (forall j | 0 <= j < a :: Below(files[j], lo))
    && (forall j | b <= j < |files| :: Above(files[j], hi))
  }

  /** On a sorted level the tables meeting a range are consecutive. */
  lemma {:induction false} OverlappingIsSlice(files: Level, lo: Option<Key>, hi: Option<Key>)
    returns (a: nat, b: nat)
    requires SortedLevel(files)
    ensures SliceFrom(files, lo, hi, a, b)
  {
    if files == [] {
      a, b := 0, 0;
    } else {
      LastInOrder(files, lo, hi);
      var n := |files| - 1;
      a, b := OverlappingIsSlice(files[..n], lo, hi);
      if Meets(files[n], lo, hi) {
        SliceTakeLast(files, lo, hi, a, b);
        b := n + 1;
      } else if Below(files[n], lo) {
        AllBelow(files, lo, hi);
        a, b := n + 1, n + 1;
      } else {
        SliceSkipLast(files, lo, hi, a, b);
      }
    }
  }

  lemma SliceTakeLast(files: Level, lo: Option<Key>, hi: Option<Key>, a: nat, b: nat)
    requires files != []
    requires SliceFrom(files[..|files| - 1], lo, hi, a, b) && Meets(files[|files| - 1], lo, hi)
    requires forall j | 0 <= j < |files| && Above(files[j], hi) :: Above(files[|files| - 1], hi)
    ensures SliceFrom(files, lo, hi, a, |files|)
  {
    var n := |files| - 1;
    assert files[a..n + 1] == files[..n][a..n] + [files[n]];
    forall j | 0 <= j < a ensures Below(files[j], lo) {
      assert files[..n][j] == files[j];
    }
  }

  lemma SliceSkipLast(files: Level, lo: Option<Key>, hi: Option<Key>, a: nat, b: nat)
    requires files != []
    requires SliceFrom(files[..|files| - 1], lo, hi, a, b) && Above(files[|files| - 1], hi)
    ensures SliceFrom(files, lo, hi, a, b)
  {
    var n := |files| - 1;
    assert files[a..b] == files[..n][a..b];
    forall j | b <= j < |files| ensures Above(files[j], hi) {
      if j < n { assert files[..n][j] == files[j]; }
    }
    forall j | 0 <= j < a ensures Below(files[j], lo) {
      assert files[..n][j] == files[j];
    }
  }

  lemma SlicePrefix(files: Level, part: Level, a: nat, b: nat, r: Level)
    requires IsSlice(files, part, a, b) && r <= part
    ensures IsSlice(files, r, a, a + |r|)
  {
    assert r == part[..|r|];
  }

  // ----- Ranges of input lists -----

  ghost predicate IsRange(inputs: Level, lo: Key, hi: Key) {
    && (forall t | t in inputs :: lo <= Smallest(t).key && Largest(t).key <= hi)
    && (exists t :: t in inputs && Smallest(t).key == lo)
    && (exists t :: t in inputs && Largest(t).key == hi)
  }

  /** `VersionSet::GetRange`. */
  method GetRange(inputs: Level) returns (lo: Entry, hi: Entry)
    requires inputs != []
    ensures IsRange(inputs, lo.key, hi.key)
  {
    lo, hi := Smallest(inputs[0]), Largest(inputs[0]);
    RangeOfOne(inputs[0]);
    assert inputs[..1] == [inputs[0]];
    hide IsRange;
    for i := 1 to |inputs|
      invariant IsRange(inputs[..i], lo.key, hi.key)
    {
      var f := inputs[i];
      ghost var lo', hi' := lo, hi;
      if Before(Smallest(f), lo) { lo := Smallest(f); }
      if Before(hi, Largest(f)) { hi := Largest(f); }
      RangeMore(inputs[..i], f, lo'.key, hi'.key, lo.key, hi.key);
      assert inputs[..i + 1] == inputs[..i] + [f];
    }
    assert inputs[..|inputs|] == inputs;
  }

  lemma RangeOfOne(t: Table)
    ensures IsRange([t], Smallest(t).key, Largest(t).key)
  {
    assert t in [t];
  }

  lemma RangeMore(files: Level, f: Table, lo: Key, hi: Key, lo': Key, hi': Key)
    requires IsRange(files, lo, hi)
    requires lo' == if Smallest(f).key < lo then Smallest(f).key else lo
    requires hi' == if Largest(f).key > hi then Largest(f).key else hi
    ensures IsRange(files + [f], lo', hi')
  {
    var p :| p in files && Smallest(p).key == lo;
    var q :| q in files && Largest(q).key == hi;
    var r := files + [f];
    assert p in r && q in r && f in r;
  }

  /** What `SetupOtherInputs` owes to the merge: nothing at the level is cut in two by the choice
      of `in0`, and `in1` is every table of the next level meeting the range of `in0`. */
  ghost predicate ValidInputs(levels: seq<Level>, level: nat, in0: Level, in1: Level)
    requires |levels| == NUM_LEVELS && level + 1 < NUM_LEVELS
  {
    && ValidFirstInputs(levels, level, in0)
    && exists lo, hi :: IsRange(in0, lo, hi) && in1 == Overlapping(levels[level + 1], Some(lo), Some(hi))
  }

  ghost predicate ValidFirstInputs(levels: seq<Level>, level: nat, in0: Level)
    requires level < |levels|
  {
    && in0 != []
    && (forall t | t in in0 :: t in levels[level])
    && (level == 0 ==> DistinctNumbers(in0))
    && (level == 0 ==> forall t, u | t in in0 && u in levels[0] && u !in in0 :: Apart(t, u))
    && (level > 0 ==> exists a, b :: IsSlice(levels[level], in0, a, b))
  }

  predicate Apart(t: Table, u: Table) {
    Largest(t).key < Smallest(u).key || Largest(u).key < Smallest(t).key
  }

  ghost predicate IsSlice(files: Level, part: Level, a: nat, b: nat) {
    a <= b <= |files| && part == files[a..b]
  }

  function TotalFileSize(files: Level): nat {
    if files == [] then 0 else files[0].bytes + TotalFileSize(files[1..])
  }

  /** A level-0 closure leaves out only tables apart from every chosen one. */
  lemma ClosureLeavesApart(files: Level, lo: Option<Key>, hi: Option<Key>)
    requires Closed(files, lo, hi)
    ensures forall t, u | t in Overlapping(files, lo, hi) && u in files &&
                          u !in Overlapping(files, lo, hi) :: Apart(t, u)
  {
  }

  lemma {:induction false} OverlappingDistinct(files: Level, lo: Option<Key>, hi: Option<Key>)
    requires DistinctNumbers(files)
    ensures DistinctNumbers(Overlapping(files, lo, hi))
  {
    if files != [] {
      var n := |files| - 1;
      OverlappingDistinct(files[..n], lo, hi);
      var r := Overlapping(files[..n], lo, hi);
      forall i | 0 <= i < |r| ensures r[i].number != files[n].number {
        assert r[i] in files[..n];
        var j :| 0 <= j < n && files[j] == r[i];
      }
    }
  }

  lemma RangeIsOrdered(inputs: Level, lo: Key, hi: Key)
    requires TablesSorted(inputs) && IsRange(inputs, lo, hi)
    ensures lo <= hi
  {
    var t :| t in inputs && Smallest(t).key == lo;
    EntryInRange(t, Smallest(t));
  }

  /** The tables meeting a range around some of the level's tables form valid first inputs. */
  lemma MeetingIsValid(levels: seq<Level>, level: nat, lo: Option<Key>, hi: Option<Key>, t: Table)
    requires ValidVersion(levels) && level < NUM_LEVELS
    requires t in levels[level] && Meets(t, lo, hi)
    requires level == 0 ==> Closed(levels[0], lo, hi)
    ensures ValidFirstInputs(levels, level, Overlapping(levels[level], lo, hi))
  {
    var r := Overlapping(levels[level], lo, hi);
    assert t in r;
    if level == 0 {
      ClosureLeavesApart(levels[0], lo, hi);
      OverlappingDistinct(levels[0], lo, hi);
    } else {
      var a, b := OverlappingIsSlice(levels[level], lo, hi);
      assert IsSlice(levels[level], r, a, b);
    }
  }

  // ----- Inputs without a gap -----

  predicate Spans(t: Table, k: Key) {
    Smallest(t).key <= k <= Largest(t).key
  }

  predicate Between(t: Table, u: Table, k: Key) {
    Smallest(t).key <= k <= Largest(u).key
  }

  ghost predicate Held(files: Level, k: Key) {
    exists t :: t in files && Spans(t, k)
  }

  /** Together the tables span every key from the first to the last of theirs. */
  ghost predicate Gapless(files: Level) {
    forall t, u, k | t in files && u in files && Between(t, u, k) :: Held(files, k)
  }

  ghost predicate Touches(files: Level, t: Table) {
    exists k :: Held(files, k) && Spans(t, k)
  }

  lemma LeftAnchor(files: Level, more: Level, x: Table, k: Key) returns (v: Table)
    requires forall t | t in more :: Touches(files, t)
    requires x in files + more && Smallest(x).key <= k && !Spans(x, k)
    ensures v in files && Smallest(v).key <= k
  {
    if x in files {
      v := x;
    } else {
      var j :| Held(files, j) && Spans(x, j);
      v :| v in files && Spans(v, j);
    }
  }

  lemma RightAnchor(files: Level, more: Level, x: Table, k: Key) returns (v: Table)
    requires forall t | t in more :: Touches(files, t)
    requires x in files + more && k <= Largest(x).key && !Spans(x, k)
    ensures v in files && k <= Largest(v).key
  {
    if x in files {
      v := x;
    } else {
      var j :| Held(files, j) && Spans(x, j);
      v :| v in files && Spans(v, j);
    }
  }

  lemma TouchingKeepsGapless(files: Level, more: Level)
    requires Gapless(files) && forall t | t in more :: Touches(files, t)
    ensures Gapless(files + more)
  {
    forall x, y, k | x in files + more && y in files + more && Between(x, y, k) ensures Held(files + more, k) {
      if !Spans(x, k) && !Spans(y, k) {
        var v := LeftAnchor(files, more, x, k);
        var w := RightAnchor(files, more, y, k);
        assert Between(v, w, k);
        assert Held(files, k);
        var h :| h in files && Spans(h, k);
        assert h in files + more;
      }
    }
  }

  lemma MeetingTouches(files: Level, p: Table, q: Table, t: Table)
    requires Gapless(files) && p in files && q in files && Smallest(p).key <= Largest(q).key
    requires Sorted(t.entries) && Meets(t, Some(Smallest(p).key), Some(Largest(q).key))
    ensures Touches(files, t)
  {
    EntryInRange(t, Smallest(t));
    var lo := Smallest(p).key;
    var j := if Smallest(t).key < lo then lo else Smallest(t).key;
    assert Between(p, q, j);
    assert Held(files, j) && Spans(t, j);
  }

  /** Tables meeting the range of some tables of a gapless list leave it gapless. */
  lemma AddMeeting(files: Level, part: Level, lo: Key, hi: Key, more: Level)
    requires Gapless(files) && (forall t | t in part :: t in files) && IsRange(part, lo, hi) && lo <= hi
    requires forall t | t in more :: Sorted(t.entries) && Meets(t, Some(lo), Some(hi))
    ensures Gapless(files + more)
  {
    var p :| p in part && Smallest(p).key == lo;
    var q :| q in part && Largest(q).key == hi;
    forall t | t in more ensures Touches(files, t) {
      MeetingTouches(files, p, q, t);
    }
    TouchingKeepsGapless(files, more);
  }

  lemma SameMembersGapless(a: Level, b: Level)
    requires Gapless(a) && forall t :: t in a <==> t in b
    ensures Gapless(b)
  {
    forall t, u, k | t in b && u in b && Between(t, u, k) ensures Held(b, k) {
      assert Held(a, k);
      var v :| v in a && Spans(v, k);
    }
  }

  /** A bound above `k` that no start of a table lies between. */
  lemma {:induction false} CutAbove(files: Level, k: Key, begin: Key) returns (c: Key)
    requires k < begin
    ensures k < c <= begin && forall t | t in files && Smallest(t).key > k :: c <= Smallest(t).key
  {
    if files == [] {
      c := begin;
    } else {
      c := CutAbove(files[1..], k, begin);
      if k < Smallest(files[0]).key < c { c := Smallest(files[0]).key; }
      assert files == [files[0]] + files[1..];
    }
  }

  lemma {:induction false} CutBelow(files: Level, k: Key, end: Key) returns (c: Key)
    requires end < k
    ensures end <= c < k && forall t | t in files && Largest(t).key < k :: Largest(t).key <= c
  {
    if files == [] {
      c := end;
    } else {
      c := CutBelow(files[1..], k, end);
      if c < Largest(files[0]).key < k { c := Largest(files[0]).key; }
      assert files == [files[0]] + files[1..];
    }
  }

  /** The least closed range has no uncovered key outside the range asked for. */
  lemma ClosureHolds(files: Level, begin: Key, end: Key, lo: Option<Key>, hi: Option<Key>, x: Table, k: Key)
    requires LeastClosed(files, Some(begin), Some(end), lo, hi) && x in files && Meets(x, lo, hi)
    requires Smallest(x).key <= k < begin
    ensures Held(Overlapping(files, lo, hi), k)
  {
    var r := Overlapping(files, lo, hi);
    if !Held(r, k) {
      var c := CutAbove(files, k, begin);
      forall t | t in files && Meets(t, Some(c), hi) ensures Inside(t, Some(c), hi) {
        assert Inside(x, lo, hi);
        assert Meets(t, lo, hi);
        assert t in r && Inside(t, lo, hi);
        assert !Spans(t, k);
      }
      assert Covers(Some(c), hi, Some(begin), Some(end)) && Closed(files, Some(c), hi);
    }
  }

  lemma ClosureHoldsBeyond(files: Level, begin: Key, end: Key, lo: Option<Key>, hi: Option<Key>, x: Table, k: Key)
    requires LeastClosed(files, Some(begin), Some(end), lo, hi) && x in files && Meets(x, lo, hi)
    requires end < k <= Largest(x).key
    ensures Held(Overlapping(files, lo, hi), k)
  {
    var r := Overlapping(files, lo, hi);
    if !Held(r, k) {
      var c := CutBelow(files, k, end);
      forall t | t in files && Meets(t, lo, Some(c)) ensures Inside(t, lo, Some(c)) {
        assert Inside(x, lo, hi);
        assert Meets(t, lo, hi);
        assert t in r && Inside(t, lo, hi);
        assert !Spans(t, k);
      }
      assert Covers(lo, Some(c), Some(begin), Some(end)) && Closed(files, lo, Some(c));
    }
  }

  /** The level-0 closure around a gapless list leaves it gapless. */
  lemma AddClosure(files: Level, all: Level, begin: Key, end: Key, lo: Option<Key>, hi: Option<Key>)
    requires Gapless(all) && IsRange(all, begin, end)
    requires LeastClosed(files, Some(begin), Some(end), lo, hi)
    ensures Gapless(all + Overlapping(files, lo, hi))
  {
    hide LeastClosed;
    var r := Overlapping(files, lo, hi);
    var p :| p in all && Smallest(p).key == begin;
    var q :| q in all && Largest(q).key == end;
    forall x, y, k | x in all + r && y in all + r && Between(x, y, k) ensures Held(all + r, k) {
      if begin <= k <= end {
        assert Between(p, q, k) && Held(all, k);
        HeldMore(all, r, k);
      } else if k < begin {
        ClosureHolds(files, begin, end, lo, hi, x, k);
        HeldMore(all, r, k);
      } else {
        ClosureHoldsBeyond(files, begin, end, lo, hi, y, k);
        HeldMore(all, r, k);
      }
    }
  }

  lemma HeldMore(a: Level, b: Level, k: Key)
    ensures Held(a, k) || Held(b, k) ==> Held(a + b, k)
  {
    if Held(a, k) {
      var t :| t in a && Spans(t, k);
      assert t in a + b;
    } else if Held(b, k) {
      var t :| t in b && Spans(t, k);
      assert t in a + b;
    }
  }

  /** The range `GetOverlappingInputs` ends with: the one asked for, or at level 0 the closed one. */
  ghost predicate Widened(levelZero: bool, files: Level, begin: Option<Key>, end: Option<Key>,
                          lo: Option<Key>, hi: Option<Key>) {
    if levelZero then LeastClosed(files, begin, end, lo, hi) else lo == begin && hi == end
  }

  /** The grown inputs are taken when there are more of them, the sizes allow it and the number of next
      level inputs stays the same. */
  ghost predicate Grew(levels: seq<Level>, level: nat, in0: Level, in1: Level, grown: Level, r0: Level, r1: Level,
                       lo: Key, hi: Key)
    requires level + 1 < |levels|
  {
    var next := Overlapping(levels[level + 1], Some(lo), Some(hi));
    if |next| == |in1| then r0 == grown && r1 == next else r0 == in0 && r1 == in1
  }

  /** What the attempt to grow the inputs of `level` comes to. */
  ghost predicate Expanded(levels: seq<Level>, level: nat, in0: Level, in1: Level, r0: Level, r1: Level)
    requires level + 1 < |levels|
  {
    exists begin, end, lo, hi ::
      && IsRange(in0 + in1, begin, end) && Widened(level == 0, levels[level], Some(begin), Some(end), lo, hi)
      && ExpandedTo(levels, level, in0, in1, Overlapping(levels[level], lo, hi), r0, r1)
  }

  ghost predicate ExpandedTo(levels: seq<Level>, level: nat, in0: Level, in1: Level, grown: Level, r0: Level, r1: Level)
    requires level + 1 < |levels|
  {
    if |grown| > |in0| && TotalFileSize(in1) + TotalFileSize(grown) < EXPANDED_COMPACTION_BYTE_SIZE_LIMIT
    then exists lo, hi :: IsRange(grown, lo, hi) && Grew(levels, level, in0, in1, grown, r0, r1, lo, hi)
    else r0 == in0 && r1 == in1
  }

  /** What `SetupOtherInputs` makes of the inputs of `level`. */
  ghost predicate SetUp(levels: seq<Level>, level: nat, inputs: Level, in0: Level, in1: Level)
    requires level + 1 < |levels|
  {
    exists lo, hi ::
      && IsRange(inputs, lo, hi)
      && var next := Overlapping(levels[level + 1], Some(lo), Some(hi));
         if next == [] then in0 == inputs && in1 == [] else Expanded(levels, level, inputs, next, in0, in1)
  }

  /** `VersionSet::SetupOtherInputs`: pick the level+1 tables, try to grow the level inputs. */
  method SetupOtherInputs(levels: seq<Level>, level: nat, inputs: Level)
    returns (in0: Level, in1: Level)
    requires ValidVersion(levels) && level + 1 < NUM_LEVELS
    requires ValidFirstInputs(levels, level, inputs)
    ensures ValidInputs(levels, level, in0, in1)
    ensures SetUp(levels, level, inputs, in0, in1)
    ensures forall t | t in inputs :: t in in0
    ensures Gapless(inputs) ==> Gapless(in0 + in1)
  {
    hide Gapless, Expanded;
    in0 := inputs;
    var smallest, largest := GetRange(in0);
    RangeIsOrdered(in0, smallest.key, largest.key);
    ghost var lo: Option<Key>, hi: Option<Key>;
    in1, lo, hi := GetOverlappingInputs(false, levels[level + 1], Some(smallest.key), Some(largest.key));
    if Gapless(inputs) { NextLevelGapless(levels, level, in0, in1, smallest.key, largest.key); }
    if in1 != [] {
      in0, in1 := ExpandInputs(levels, level, in0, in1, smallest.key, largest.key);
    }
  }

  /** The attempt to take in more tables of `level` without a change at `level + 1`. */
  method ExpandInputs(levels: seq<Level>, level: nat, in0: Level, in1: Level, ghost low: Key, ghost high: Key)
    returns (r0: Level, r1: Level)
    requires ValidVersion(levels) && level + 1 < NUM_LEVELS && ValidFirstInputs(levels, level, in0)
    requires IsRange(in0, low, high) && in1 == Overlapping(levels[level + 1], Some(low), Some(high))
    ensures ValidInputs(levels, level, r0, r1)
    ensures Expanded(levels, level, in0, in1, r0, r1)
    ensures forall t | t in in0 :: t in r0
    ensures Gapless(in0 + in1) ==> Gapless(r0 + r1)
  {
    hide Gapless, LeastClosed, Expanded, ExpandedTo, ValidInputs, TotalFileSize;
    r0, r1 := in0, in1;
    GrownValid(levels, level, in0, in1, low, high);
    var allStart, allLimit := GetRange(in0 + in1);
    BothSorted(levels, level, in0, in1);
    RangeIsOrdered(in0 + in1, allStart.key, allLimit.key);
    ghost var lo: Option<Key>, hi: Option<Key>;
    var expanded0;
    expanded0, lo, hi := GetOverlappingInputs(level == 0, levels[level], Some(allStart.key), Some(allLimit.key));
    GrownInputs(levels, level, in0, in1, allStart.key, allLimit.key, lo, hi);
    if |expanded0| > |in0|
       && TotalFileSize(in1) + TotalFileSize(expanded0) < EXPANDED_COMPACTION_BYTE_SIZE_LIMIT {
      var newStart, newLimit := GetRange(expanded0);
      RangeIsOrdered(expanded0, newStart.key, newLimit.key);
      var expanded1;
      ghost var l: Option<Key>, h: Option<Key>;
      expanded1, l, h := GetOverlappingInputs(false, levels[level + 1], Some(newStart.key), Some(newLimit.key));
      WhenMore(levels, level, in0, in1, expanded0, newStart.key, newLimit.key);
      if |expanded1| == |in1| {
        r0, r1 := expanded0, expanded1;
        if Gapless(in0 + in1) {
          GrownGapless(levels, level, in0, in1, r0, allStart.key, allLimit.key, lo, hi, low, high,
                       r1, newStart.key, newLimit.key);
        }
        GrownValid(levels, level, r0, r1, newStart.key, newLimit.key);
      }
    } else {
      WhenNot(levels, level, in0, in1, expanded0);
    }
    IsExpanded(levels, level, in0, in1, r0, r1, allStart.key, allLimit.key, lo, hi);
  }

  lemma WhenNot(levels: seq<Level>, level: nat, in0: Level, in1: Level, grown: Level)
    requires level + 1 < |levels|
    requires !(|grown| > |in0| && TotalFileSize(in1) + TotalFileSize(grown) < EXPANDED_COMPACTION_BYTE_SIZE_LIMIT)
    ensures ExpandedTo(levels, level, in0, in1, grown, in0, in1)
  {
  }

  lemma WhenMore(levels: seq<Level>, level: nat, in0: Level, in1: Level, grown: Level, lo: Key, hi: Key)
    requires level + 1 < |levels| && IsRange(grown, lo, hi)
    requires |grown| > |in0| && TotalFileSize(in1) + TotalFileSize(grown) < EXPANDED_COMPACTION_BYTE_SIZE_LIMIT
    ensures var next := Overlapping(levels[level + 1], Some(lo), Some(hi));
            if |next| == |in1| then ExpandedTo(levels, level, in0, in1, grown, grown, next)
            else ExpandedTo(levels, level, in0, in1, grown, in0, in1)
  {
    hide IsRange, TotalFileSize;
    var next := Overlapping(levels[level + 1], Some(lo), Some(hi));
    assert |next| == |in1| ==> Grew(levels, level, in0, in1, grown, grown, next, lo, hi);
    assert |next| != |in1| ==> Grew(levels, level, in0, in1, grown, in0, in1, lo, hi);
  }

  lemma IsExpanded(levels: seq<Level>, level: nat, in0: Level, in1: Level, r0: Level, r1: Level, begin: Key, end: Key,
                   lo: Option<Key>, hi: Option<Key>)
    requires level + 1 < |levels| && IsRange(in0 + in1, begin, end)
    requires Widened(level == 0, levels[level], Some(begin), Some(end), lo, hi)
    requires ExpandedTo(levels, level, in0, in1, Overlapping(levels[level], lo, hi), r0, r1)
    ensures Expanded(levels, level, in0, in1, r0, r1)
  {
    hide IsRange, Widened, ExpandedTo;
  }

  lemma GrownValid(levels: seq<Level>, level: nat, in0: Level, in1: Level, lo: Key, hi: Key)
    requires |levels| == NUM_LEVELS && level + 1 < NUM_LEVELS && ValidFirstInputs(levels, level, in0)
    requires IsRange(in0, lo, hi) && in1 == Overlapping(levels[level + 1], Some(lo), Some(hi))
    ensures ValidInputs(levels, level, in0, in1)
  {
    hide IsRange, ValidFirstInputs;
  }

  lemma BothSorted(levels: seq<Level>, level: nat, in0: Level, in1: Level)
    requires ValidVersion(levels) && level + 1 < NUM_LEVELS
    requires (forall t | t in in0 :: t in levels[level]) && (forall t | t in in1 :: t in levels[level + 1])
    ensures TablesSorted(in0 + in1)
  {
    forall t | t in in0 + in1 ensures Sorted(t.entries) {
      if t in in0 { InputSorted(levels, level, t); } else { InputSorted(levels, level + 1, t); }
    }
  }

  lemma NextLevelGapless(levels: seq<Level>, level: nat, in0: Level, in1: Level, lo: Key, hi: Key)
    requires ValidVersion(levels) && level + 1 < NUM_LEVELS && Gapless(in0) && IsRange(in0, lo, hi) && lo <= hi
    requires in1 == Overlapping(levels[level + 1], Some(lo), Some(hi))
    ensures Gapless(in0 + in1)
  {
    hide Gapless;
    forall t | t in in1 ensures Sorted(t.entries) { InputSorted(levels, level + 1, t); }
    AddMeeting(in0, in0, lo, hi, in1);
  }

  lemma GrownGapless(levels: seq<Level>, level: nat, in0: Level, in1: Level, expanded0: Level,
                     start: Key, limit: Key, lo: Option<Key>, hi: Option<Key>, low: Key, high: Key,
                     expanded1: Level, newStart: Key, newLimit: Key)
    requires ValidVersion(levels) && |levels| == NUM_LEVELS && level + 1 < NUM_LEVELS
    requires Gapless(in0 + in1) && IsRange(in0 + in1, start, limit) && start <= limit
    requires IsRange(in0, low, high) && in1 == Overlapping(levels[level + 1], Some(low), Some(high))
    requires expanded0 == Overlapping(levels[level], lo, hi) && forall t | t in in0 :: t in expanded0
    requires level > 0 ==> lo == Some(start) && hi == Some(limit)
    requires level == 0 ==> LeastClosed(levels[0], Some(start), Some(limit), lo, hi)
    requires IsRange(expanded0, newStart, newLimit) && newStart <= newLimit
    requires expanded1 == Overlapping(levels[level + 1], Some(newStart), Some(newLimit))
    ensures Gapless(expanded0 + expanded1)
  {
    hide Gapless, LeastClosed, ValidVersion, IsRange, Overlapping;
    GrownOnce(levels, level, in0 + in1, expanded0, start, limit, lo, hi);
    AllSorted(levels, level + 1, expanded1);
    AddMeeting(in0 + in1 + expanded0, expanded0, newStart, newLimit, expanded1);
    WiderTakesMore(levels[level + 1], in0, low, high, expanded0, newStart, newLimit);
    SameMembersGapless(in0 + in1 + expanded0 + expanded1, expanded0 + expanded1);
  }

  lemma GrownOnce(levels: seq<Level>, level: nat, all: Level, expanded0: Level,
                  start: Key, limit: Key, lo: Option<Key>, hi: Option<Key>)
    requires ValidVersion(levels) && |levels| == NUM_LEVELS && level + 1 < NUM_LEVELS
    requires Gapless(all) && IsRange(all, start, limit) && start <= limit
    requires expanded0 == Overlapping(levels[level], lo, hi)
    requires level > 0 ==> lo == Some(start) && hi == Some(limit)
    requires level == 0 ==> LeastClosed(levels[0], Some(start), Some(limit), lo, hi)
    ensures Gapless(all + expanded0)
  {
    hide Gapless, LeastClosed, ValidVersion, IsRange, Overlapping;
    if level == 0 {
      AddClosure(levels[0], all, start, limit, lo, hi);
    } else {
      AllSorted(levels, level, expanded0);
      AddMeeting(all, all, start, limit, expanded0);
    }
  }

  lemma AllSorted(levels: seq<Level>, level: nat, files: Level)
    requires ValidVersion(levels) && |levels| == NUM_LEVELS && level < NUM_LEVELS
    requires forall t | t in files :: t in levels[level]
    ensures forall t | t in files :: Sorted(t.entries)
  {
    forall t | t in files ensures Sorted(t.entries) { InputSorted(levels, level, t); }
  }

  lemma WiderTakesMore(files: Level, a: Level, lo: Key, hi: Key, b: Level, lo': Key, hi': Key)
    requires (forall t | t in a :: t in b) && IsRange(a, lo, hi) && IsRange(b, lo', hi')
    ensures forall t | t in Overlapping(files, Some(lo), Some(hi)) :: t in Overlapping(files, Some(lo'), Some(hi'))
  {
    var p :| p in a && Smallest(p).key == lo;
    var q :| q in a && Largest(q).key == hi;
    assert lo' <= lo && hi <= hi';
  }

  lemma GrownInputs(levels: seq<Level>, level: nat, in0: Level, in1: Level, start: Key, limit: Key,
                    lo: Option<Key>, hi: Option<Key>)
    requires ValidVersion(levels) && level + 1 < NUM_LEVELS
    requires ValidFirstInputs(levels, level, in0)
    requires forall t | t in in1 :: t in levels[level + 1]
    requires IsRange(in0 + in1, start, limit)
    requires level > 0 ==> lo == Some(start) && hi == Some(limit)
    requires level == 0 ==> LeastClosed(levels[0], Some(start), Some(limit), lo, hi)
    ensures ValidFirstInputs(levels, level, Overlapping(levels[level], lo, hi))
    ensures forall t | t in in0 :: t in Overlapping(levels[level], lo, hi)
  {
    forall t | t in in0 ensures t in levels[level] && Meets(t, lo, hi) {
      EntryInRange(t, Smallest(t));
      assert t in in0 + in1;
    }
    RangeIsOrdered(in0 + in1, start, limit);
    MeetingIsValid(levels, level, lo, hi, in0[0]);
  }

  /** Whatever the merge emits lies on one side of any table that stays at level+1. */
  lemma OutputsFit(levels: seq<Level>, level: nat, in0: Level, in1: Level, t: Table)
    requires ValidVersion(levels) && level + 1 < NUM_LEVELS
    requires ValidInputs(levels, level, in0, in1)
    requires t in levels[level + 1] && t !in in1
    ensures AllAfter(t, LevelSet(in0) + LevelSet(in1)) || AllBefore(LevelSet(in0) + LevelSet(in1), t)
    ensures forall d, e | d in t.entries && e in LevelSet(in0) :: d.key != e.key
  {
    var lo, hi :| IsRange(in0, lo, hi) && in1 == Overlapping(levels[level + 1], Some(lo), Some(hi));
    forall u | u in in0 ensures Sorted(u.entries) {
      InputSorted(levels, level, u);
    }
    RangeHoldsEntries(in0, lo, hi);
    FitAround(levels[level + 1], lo, hi, LevelSet(in0), t);
  }

  ghost predicate KeysWithin(S: set<Entry>, lo: Key, hi: Key) {
    forall e | e in S :: lo <= e.key <= hi
  }

  lemma RangeHoldsEntries(inputs: Level, lo: Key, hi: Key)
    requires TablesSorted(inputs) && IsRange(inputs, lo, hi)
    ensures KeysWithin(LevelSet(inputs), lo, hi)
  {
    forall e | e in LevelSet(inputs) ensures lo <= e.key <= hi {
      var u :| u in inputs && e in u.entries;
      EntryInRange(u, e);
    }
  }

  lemma FitAround(files: Level, lo: Key, hi: Key, S: set<Entry>, t: Table)
    requires SortedLevel(files) && KeysWithin(S, lo, hi)
    requires t in files && !Meets(t, Some(lo), Some(hi))
    ensures AllAfter(t, S + LevelSet(Overlapping(files, Some(lo), Some(hi))))
         || AllBefore(S + LevelSet(Overlapping(files, Some(lo), Some(hi))), t)
    ensures forall d, e | d in t.entries && e in S :: d.key != e.key
  {
    var a, b := OverlappingIsSlice(files, Some(lo), Some(hi));
    var j :| 0 <= j < |files| && files[j] == t;
    forall d | d in t.entries ensures d.key < lo || d.key > hi {
      EntryInRange(t, d);
    }
    if j < a {
      assert Below(files[j], Some(lo));
    } else {
      assert b <= j;
      assert Above(files[j], Some(hi));
    }
    SideOfSlice(files, a, b, j);
  }

  lemma InputSorted(levels: seq<Level>, level: nat, u: Table)
    requires ValidVersion(levels) && level < NUM_LEVELS && u in levels[level]
    ensures Sorted(u.entries)
  {
    if level > 0 { assert SortedLevel(levels[level]); }
  }

  ghost predicate AllAfter(t: Table, S: set<Entry>) {
    forall e | e in S :: Before(Largest(t), e)
  }

  ghost predicate AllBefore(S: set<Entry>, t: Table) {
    forall e | e in S :: Before(e, Smallest(t))
  }

  lemma SideOfSlice(files: Level, a: nat, b: nat, j: nat)
    requires SortedLevel(files) && a <= b <= |files| && j < |files|
    ensures j < a ==> AllAfter(files[j], LevelSet(files[a..b]))
    ensures b <= j ==> AllBefore(LevelSet(files[a..b]), files[j])
  {
    forall e | e in LevelSet(files[a..b])
      ensures j < a ==> Before(Largest(files[j]), e)
      ensures b <= j ==> Before(e, Smallest(files[j]))
    {
      var u :| u in files[a..b] && e in u.entries;
      var i :| 0 <= i < b - a && files[a..b][i] == u;
      assert files[a + i] == u;
      EntryBetweenEnds(u, e);
    }
  }

  lemma EntryBetweenEnds(t: Table, e: Entry)
    requires Sorted(t.entries) && e in t.entries
    ensures e == Smallest(t) || Before(Smallest(t), e)
    ensures e == Largest(t) || Before(e, Largest(t))
  {
    var i :| 0 <= i < |t.entries| && t.entries[i] == e;
  }

  /** The tables of level 0 that meet the range, widened until no table crosses it. */
  ghost predicate Closure(files: Level, begin: Option<Key>, end: Option<Key>, chosen: Level) {
    exists lo, hi :: LeastClosed(files, begin, end, lo, hi) && chosen == Overlapping(files, lo, hi)
  }

  /** The inputs for a table: those set up for it, at level 0 for its closure. */
  ghost predicate PickedFor(levels: seq<Level>, level: nat, f: Table, in0: Level, in1: Level)
    requires level + 1 < |levels|
  {
    if level > 0 then SetUp(levels, level, [f], in0, in1)
    else exists first :: Closure(levels[0], Some(Smallest(f).key), Some(Largest(f).key), first)
                      && SetUp(levels, 0, first, in0, in1)
  }

  /** A level-0 choice is closed under overlap. */
  method PickLevelZero(levels: seq<Level>, f: Table) returns (in0: Level)
    requires ValidVersion(levels) && f in levels[0]
    ensures ValidFirstInputs(levels, 0, in0) && f in in0 && Gapless(in0)
    ensures Closure(levels[0], Some(Smallest(f).key), Some(Largest(f).key), in0)
  {
    hide Gapless;
    var smallest, largest := GetRange([f]);
    ghost var lo: Option<Key>, hi: Option<Key>;
    in0, lo, hi := GetOverlappingInputs(true, levels[0], Some(smallest.key), Some(largest.key));
    EntryInRange(f, Smallest(f));
    assert f in [f];
    assert smallest.key == Smallest(f).key && largest.key == Largest(f).key;
    MeetingIsValid(levels, 0, lo, hi, f);
    OneGapless(f);
    AddClosure(levels[0], [f], smallest.key, largest.key, lo, hi);
    SameMembersGapless([f] + in0, in0);
  }

  lemma OneGapless(f: Table)
    ensures Gapless([f])
  {
    assert f in [f];
  }

  /** `VersionSet::PickCompaction` for a size- or seek-triggered compaction of table `f`. */
  method PickInputs(levels: seq<Level>, level: nat, f: Table) returns (in0: Level, in1: Level)
    requires ValidVersion(levels) && level + 1 < NUM_LEVELS && f in levels[level]
    ensures ValidInputs(levels, level, in0, in1) && f in in0 && Gapless(in0 + in1)
    ensures PickedFor(levels, level, f, in0, in1)
  {
    hide Gapless, SetUp, Closure;
    if level == 0 {
      in0 := PickLevelZero(levels, f);
    } else {
      in0 := [f];
      OneGapless(f);
      var i :| 0 <= i < |levels[level]| && levels[level][i] == f;
      assert IsSlice(levels[level], in0, i, i + 1);
      assert ValidFirstInputs(levels, level, in0);
    }
    in0, in1 := SetupOtherInputs(levels, level, in0);
  }

  /** The closure is empty only when nothing meets the requested range. */
  lemma ClosureEmptyIff(files: Level, begin: Option<Key>, end: Option<Key>, lo: Option<Key>, hi: Option<Key>)
    requires LeastClosed(files, begin, end, lo, hi)
    ensures Overlapping(files, lo, hi) != [] <==> exists t :: t in files && Meets(t, begin, end)
  {
    var r := Overlapping(files, lo, hi);
    if t :| t in files && Meets(t, begin, end) {
      assert t in r;
    } else {
      assert Covers(begin, end, begin, end) && Closed(files, begin, end);
      assert r != [] ==> r[0] in r;
    }
  }

  /** The shortest prefix that reaches the size of one output table, or all there is. */
  ghost predicate Limited(inputs: Level, r: Level) {
    && r != [] && r <= inputs && (r == inputs || TotalFileSize(r) >= TARGET_FILE_SIZE)
    && TotalFileSize(r[..|r| - 1]) < TARGET_FILE_SIZE
  }

  /** Keep the shortest prefix reaching the size limit of one table. */
  method LimitBytes(inputs: Level) returns (r: Level)
    requires inputs != []
    ensures Limited(inputs, r)
  {
    var total, n := 0, 0;
    while n < |inputs| && total < TARGET_FILE_SIZE
      invariant 0 <= n <= |inputs| && total == TotalFileSize(inputs[..n])
      invariant n > 0 ==> TotalFileSize(inputs[..n - 1]) < TARGET_FILE_SIZE
    {
      TotalMore(inputs[..n], inputs[n]);
      assert inputs[..n + 1] == inputs[..n] + [inputs[n]];
      total := total + inputs[n].bytes;
      n := n + 1;
    }
    r := inputs[..n];
    assert r[..n - 1] == inputs[..n - 1];
  }

  lemma {:induction false} TotalMore(files: Level, t: Table)
    ensures TotalFileSize(files + [t]) == TotalFileSize(files) + t.bytes
  {
    if files != [] {
      assert (files + [t])[1..] == files[1..] + [t];
      TotalMore(files[1..], t);
    }
  }

  /** The inputs of a manual compaction: the closure of the range at level 0, above it as many of the tables that
      meet the range as the size limit lets through; then set up like any others. */
  ghost predicate Manual(levels: seq<Level>, level: nat, begin: Option<Key>, end: Option<Key>, in0: Level, in1: Level)
    requires level + 1 < |levels|
  {
    exists chosen ::
      && (if level == 0 then Closure(levels[0], begin, end, chosen)
          else Limited(Overlapping(levels[level], begin, end), chosen))
      && SetUp(levels, level, chosen, in0, in1)
  }

  /** `Compaction::IsTrivialMove`: one table, nothing to merge it with, not too much below. */
  ghost predicate IsTrivialMove(levels: seq<Level>, level: nat, in0: Level, in1: Level) {
    && |in0| == 1 && in1 == []
    && (level + 2 < |levels| ==>
          TotalFileSize(Overlapping(levels[level + 2], Some(Smallest(in0[0]).key), Some(Largest(in0[0]).key)))
            <= MAX_GRANDPARENT_OVERLAP_BYTES)
  }

  /** `VersionSet::CompactRange`: a manual compaction, cut short above level 0. */
  method CompactRange(levels: seq<Level>, level: nat, begin: Option<Key>, end: Option<Key>)
    returns (found: bool, in0: Level, in1: Level)
    requires ValidVersion(levels) && level + 1 < NUM_LEVELS
    ensures found <==> exists t :: t in levels[level] && Meets(t, begin, end)
    ensures found ==> ValidInputs(levels, level, in0, in1)
    ensures found ==> Manual(levels, level, begin, end, in0, in1)
  {
    hide Gapless, ValidInputs, AgeOrdered, TotalFileSize, SetUp;
    ghost var lo: Option<Key>, hi: Option<Key>;
    in0, lo, hi := GetOverlappingInputs(level == 0, levels[level], begin, end);
    in1 := [];
    found := in0 != [];
    if level == 0 {
      ClosureEmptyIff(levels[0], begin, end, lo, hi);
    }
    if !found {
      return;
    }
    assert in0[0] in levels[level] && Meets(in0[0], lo, hi);
    MeetingIsValid(levels, level, lo, hi, in0[0]);
    if level > 0 {
      ghost var a: nat, b: nat :| IsSlice(levels[level], in0, a, b);
      var r := LimitBytes(in0);
      SlicePrefix(levels[level], in0, a, b, r);
      in0 := r;
    }
    ghost var chosen := in0;
    in0, in1 := SetupOtherInputs(levels, level, in0);
    assert if level == 0 then Closure(levels[0], begin, end, chosen)
           else Limited(Overlapping(levels[level], begin, end), chosen);
  }

  /** Too much below: an overlap one level down, or too many overlapping bytes two levels down. */
  ghost predicate Blocked(levels: seq<Level>, level: nat, lo: Key, hi: Key)
    requires level + 1 < |levels|
  {
    || (exists t :: t in levels[level + 1] && Meets(t, Some(lo), Some(hi)))
    || (level + 2 < |levels|
        && TotalFileSize(Overlapping(levels[level + 2], Some(lo), Some(hi))) > MAX_GRANDPARENT_OVERLAP_BYTES)
  }

  /** The level for a memtable with this key range: level 0 when something there overlaps, else the
      first level with too much below it, or the deepest allowed. */
  ghost predicate Picked(levels: seq<Level>, lo: Key, hi: Key, level: nat)
    requires |levels| == NUM_LEVELS
  {
    && level <= MAX_MEM_COMPACT_LEVEL
    && ((exists t :: t in levels[0] && Meets(t, Some(lo), Some(hi))) ==> level == 0)
    && ((forall t | t in levels[0] :: !Meets(t, Some(lo), Some(hi))) ==>
          && (level == MAX_MEM_COMPACT_LEVEL || Blocked(levels, level, lo, hi))
          && forall l: nat | l < level :: !Blocked(levels, l, lo, hi))
  }

  /** There is one such level, and above level 0 nothing from there up overlaps the range. */
  lemma PickedOnce(levels: seq<Level>, lo: Key, hi: Key, level: nat, other: nat)
    requires |levels| == NUM_LEVELS && Picked(levels, lo, hi, level)
    ensures Picked(levels, lo, hi, other) ==> other == level
    ensures level > 0 ==> forall l, t | 0 <= l <= level && t in levels[l] :: !Meets(t, Some(lo), Some(hi))
  {
    if level > 0 {
      forall l, t | 0 <= l <= level && t in levels[l] ensures !Meets(t, Some(lo), Some(hi)) {
        if l > 0 { assert !Blocked(levels, l - 1, lo, hi); }
      }
    }
  }

  /** `Version::PickLevelForMemTableOutput`. */
  method PickLevelForMemTableOutput(levels: seq<Level>, lo: Key, hi: Key) returns (level: nat)
    requires ValidVersion(levels) && lo <= hi
    ensures Picked(levels, lo, hi, level)
  {
    hide Blocked;
    level := 0;
    var overlap := SomeFileOverlapsRange(false, levels[0], Some(lo), Some(hi));
    if !overlap {
      while level < MAX_MEM_COMPACT_LEVEL
        invariant level <= MAX_MEM_COMPACT_LEVEL
        invariant forall l, t | 0 <= l <= level && t in levels[l] :: !Meets(t, Some(lo), Some(hi))
        invariant forall l: nat | l < level :: !Blocked(levels, l, lo, hi)
      {
        var blocked := TooMuchBelow(levels, level, lo, hi);
        if blocked {
          break;
        }
        level := level + 1;
      }
    }
  }

  method TooMuchBelow(levels: seq<Level>, level: nat, lo: Key, hi: Key) returns (r: bool)
    requires ValidVersion(levels) && level + 1 < NUM_LEVELS
    ensures r <==> Blocked(levels, level, lo, hi)
    ensures !r ==> forall t | t in levels[level + 1] :: !Meets(t, Some(lo), Some(hi))
  {
    r := SomeFileOverlapsRange(true, levels[level + 1], Some(lo), Some(hi));
    if !r && level + 2 < NUM_LEVELS {
      ghost var l: Option<Key>, h: Option<Key>;
      var overlaps;
      overlaps, l, h := GetOverlappingInputs(false, levels[level + 2], Some(lo), Some(hi));
      r := TotalFileSize(overlaps) > MAX_GRANDPARENT_OVERLAP_BYTES;
    }
  }
}
