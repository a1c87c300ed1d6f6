/** `MergingIterator`: several sorted children behave as one cursor over their sorted merge. */
module Merger {
  import opened Wrappers
  import opened Entries
  import opened Compactions
  import opened Cursors
  import opened TwoLevel
  import opened Children

  ghost predicate SortedRuns(runs: seq<seq<Entry>>) {
    (forall run | run in runs :: Sorted(run)) && PairwiseSeparate(runs)
  }

  ghost predicate InSome(runs: seq<seq<Entry>>, e: Entry) {
    exists d, i :: 0 <= d < |runs| && 0 <= i < |runs[d]| && runs[d][i] == e
  }

  /** `M` is the sorted merge of the children, no two of which share an internal key. */
  ghost predicate Merges(runs: seq<seq<Entry>>, M: seq<Entry>) {
    && SortedRuns(runs) && Sorted(M)
    && (forall n | 0 <= n < |M| :: InSome(runs, M[n]))
    && (forall d, i | 0 <= d < |runs| && 0 <= i < |runs[d]| :: runs[d][i] in M)
  }

  lemma MergeAllMerges(runs: seq<seq<Entry>>)
    requires SortedRuns(runs)
    ensures Merges(runs, MergeAll(runs))
  {
    hide Sorted, PairwiseSeparate;
    MergeAllSorted(runs);
    var M := MergeAll(runs);
    forall d, i | 0 <= d < |runs| && 0 <= i < |runs[d]| ensures runs[d][i] in M {
      assert runs[d] in runs && runs[d][i] in runs[d];
    }
    forall n | 0 <= n < |M| ensures InSome(runs, M[n]) {
      assert M[n] in M;
      var run :| run in runs && M[n] in run;
      var d :| 0 <= d < |runs| && runs[d] == run;
      var i :| 0 <= i < |run| && run[i] == M[n];
      assert runs[d][i] == M[n];
    }
  }

  ghost predicate InRange(runs: seq<seq<Entry>>, at: seq<Option<nat>>) {
    |at| == |runs| && forall d | 0 <= d < |runs| :: at[d].Some? ==> at[d].value < |runs[d]|
  }

  /** Every child stands at its first entry that is not among the first `r` of the merge. */
  ghost predicate AllForward(runs: seq<seq<Entry>>, at: seq<Option<nat>>, M: seq<Entry>, r: nat) {
    && InRange(runs, at) && r <= |M|
    && forall d | 0 <= d < |runs| :: Divides(runs[d], CutForward(at[d], |runs[d]|), Set(M[..r]))
  }

  /** Every child stands at its last entry that is among the first `r` of the merge. */
  ghost predicate AllBackward(runs: seq<seq<Entry>>, at: seq<Option<nat>>, M: seq<Entry>, r: nat) {
    && InRange(runs, at) && r <= |M|
    && forall d | 0 <= d < |runs| :: Divides(runs[d], CutBackward(at[d]), Set(M[..r]))
  }

  /** An entry of the merge sits in exactly one child, at one place. */
  lemma Home(runs: seq<seq<Entry>>, M: seq<Entry>, r: nat) returns (d: nat, i: nat)
    requires Merges(runs, M) && r < |M|
    ensures d < |runs| && i < |runs[d]| && runs[d][i] == M[r]
  {
    assert InSome(runs, M[r]);
    var d', i' :| 0 <= d' < |runs| && 0 <= i' < |runs[d']| && runs[d'][i'] == M[r];
    d, i := d', i';
  }

  lemma OnlyHome(runs: seq<seq<Entry>>, c: nat, i: nat, d: nat, j: nat)
    requires SortedRuns(runs) && c < |runs| && d < |runs| && i < |runs[c]| && j < |runs[d]|
    requires runs[c][i] == runs[d][j]
    ensures c == d && i == j
  {
    var e := runs[c][i];
    assert e in runs[c] && e in runs[d] && !Before(e, e) && runs[c] in runs;
    if c == d { SortedDistinct(runs[c], i, j); }
  }

  /** Being among the first `r` is having an index below `r`. */
  lemma LowIs(M: seq<Entry>, r: nat, n: nat)
    requires Sorted(M) && n < |M| && r <= |M|
    ensures M[n] in Set(M[..r]) <==> n < r
  {
    if n < r {
      assert M[..r][n] == M[n];
    } else {
      forall m | 0 <= m < r ensures M[m] != M[n] { assert Before(M[m], M[n]); }
    }
  }

  lemma Somewhere(runs: seq<seq<Entry>>, M: seq<Entry>, d: nat, i: nat) returns (n: nat)
    requires Merges(runs, M) && d < |runs| && i < |runs[d]|
    ensures n < |M| && M[n] == runs[d][i]
  {
    assert runs[d][i] in M;
    n :| 0 <= n < |M| && M[n] == runs[d][i];
  }

  ghost predicate IsSmallest(runs: seq<seq<Entry>>, at: seq<Option<nat>>, c: Option<nat>)
    requires InRange(runs, at)
  {
    && (c.None? ==> forall d | 0 <= d < |runs| :: at[d].None?)
    && (c.Some? ==> c.value < |runs| && at[c.value].Some?)
    && (c.Some? ==> forall d | 0 <= d < |runs| && at[d].Some? ::
          !Before(runs[d][at[d].value], runs[c.value][at[c.value].value]))
  }

  ghost predicate IsLargest(runs: seq<seq<Entry>>, at: seq<Option<nat>>, c: Option<nat>)
    requires InRange(runs, at)
  {
    && (c.None? ==> forall d | 0 <= d < |runs| :: at[d].None?)
    && (c.Some? ==> c.value < |runs| && at[c.value].Some?)
    && (c.Some? ==> forall d | 0 <= d < |runs| && at[d].Some? ::
          !Before(runs[c.value][at[c.value].value], runs[d][at[d].value]))
  }

  /** The smallest head is the next entry of the merge. */
  lemma SmallestIsNext(runs: seq<seq<Entry>>, at: seq<Option<nat>>, M: seq<Entry>, r: nat, c: Option<nat>)
    requires Merges(runs, M) && AllForward(runs, at, M, r) && IsSmallest(runs, at, c)
    ensures c.Some? <==> r < |M|
    ensures c.Some? ==> runs[c.value][at[c.value].value] == M[r]
  {
    hide Merges, Set;
    assert Sorted(M) by { MergeIsSorted(runs, M); }
    if r < |M| {
      var d, i := Home(runs, M, r);
      LowIs(M, r, r);
      assert at[d].Some? && at[d].value <= i;
      NotAfter(runs, M, d, at[d].value, i);
    }
    if c.Some? {
      var n := Somewhere(runs, M, c.value, at[c.value].value);
      LowIs(M, r, n);
    }
  }

  lemma MergeIsSorted(runs: seq<seq<Entry>>, M: seq<Entry>)
    requires Merges(runs, M)
    ensures Sorted(M)
  {
  }

  lemma NotAfter(runs: seq<seq<Entry>>, M: seq<Entry>, d: nat, i: nat, j: nat)
    requires Merges(runs, M) && d < |runs| && i <= j < |runs[d]|
    ensures i == j || Before(runs[d][i], runs[d][j])
  {
    assert runs[d] in runs;
  }

  /** The largest head is the previous entry of the merge. */
  lemma LargestIsPrevious(runs: seq<seq<Entry>>, at: seq<Option<nat>>, M: seq<Entry>, r: nat, c: Option<nat>)
    requires Merges(runs, M) && AllBackward(runs, at, M, r) && IsLargest(runs, at, c)
    ensures c.Some? <==> r > 0
    ensures c.Some? ==> runs[c.value][at[c.value].value] == M[r - 1]
  {
    hide Merges, Set;
    assert Sorted(M) by { MergeIsSorted(runs, M); }
    if r > 0 {
      var d, i := Home(runs, M, r - 1);
      LowIs(M, r, r - 1);
      assert at[d].Some? && i <= at[d].value;
      NotAfter(runs, M, d, i, at[d].value);
    }
    if c.Some? {
      var n := Somewhere(runs, M, c.value, at[c.value].value);
      LowIs(M, r, n);
    }
  }

  /** Passing one more entry moves the cut of the child that holds it, and no other. */
  lemma OneMore(runs: seq<seq<Entry>>, M: seq<Entry>, r: nat, c: nat, i: nat, d: nat, cut: nat)
    requires Merges(runs, M) && r < |M| && c < |runs| && i < |runs[c]| && d < |runs|
    requires runs[c][i] == M[r]
    ensures d != c ==> (Divides(runs[d], cut, Set(M[..r])) <==> Divides(runs[d], cut, Set(M[..r + 1])))
    ensures d == c ==> (Divides(runs[d], i, Set(M[..r])) <==> Divides(runs[d], i + 1, Set(M[..r + 1])))
  {
    hide Merges, Set;
    forall j | 0 <= j < |runs[d]|
      ensures runs[d][j] in Set(M[..r + 1]) <==> runs[d][j] in Set(M[..r]) || (d == c && j == i)
      ensures d == c && j == i ==> runs[d][j] !in Set(M[..r])
    {
      OneMoreAt(runs, M, r, c, i, d, j);
    }
  }

  lemma OneMoreAt(runs: seq<seq<Entry>>, M: seq<Entry>, r: nat, c: nat, i: nat, d: nat, j: nat)
    requires Merges(runs, M) && r < |M| && c < |runs| && i < |runs[c]| && d < |runs| && j < |runs[d]|
    requires runs[c][i] == M[r]
    ensures runs[d][j] in Set(M[..r + 1]) <==> runs[d][j] in Set(M[..r]) || (d == c && j == i)
    ensures d == c && j == i ==> runs[d][j] !in Set(M[..r])
  {
    hide Set;
    var n := Somewhere(runs, M, d, j);
    LowIs(M, r, n);
    LowIs(M, r + 1, n);
    LowIs(M, r, r);
    if n == r { OnlyHome(runs, c, i, d, j); }
  }

  /** Seeking a child divides it where seeking the merge divides the merge. */
  lemma SeekDivides(runs: seq<seq<Entry>>, M: seq<Entry>, k: Key, s: nat, d: nat)
    requires Merges(runs, M) && d < |runs|
    ensures Divides(runs[d], SeekIndex(runs[d], k, s), Set(M[..SeekIndex(M, k, s)]))
  {
    hide Set;
    var r, cut := SeekIndex(M, k, s), SeekIndex(runs[d], k, s);
    assert runs[d] in runs;
    forall i | 0 <= i < |runs[d]| ensures i < cut <==> runs[d][i] in Set(M[..r]) {
      var n := Somewhere(runs, M, d, i);
      LowIs(M, r, n);
      SeekSplits(M, k, s, n);
      SeekSplits(runs[d], k, s, i);
    }
  }

  lemma SeekSplits(xs: seq<Entry>, k: Key, s: nat, i: nat)
    requires Sorted(xs) && i < |xs|
    ensures i < SeekIndex(xs, k, s) <==> !AtOrAfter(xs[i], k, s)
  {
    var c := SeekIndex(xs, k, s);
    assert c < i ==> Before(xs[c], xs[i]);
  }

  /** Seeking the whole merge to an entry of it. */
  lemma SeekEntry(xs: seq<Entry>, p: nat)
    requires Sorted(xs) && p < |xs|
    ensures SeekIndex(xs, xs[p].key, xs[p].stamp) == p
  {
    var c := SeekIndex(xs, xs[p].key, xs[p].stamp);
    SeekSplits(xs, xs[p].key, xs[p].stamp, p);
    assert c < p ==> Before(xs[c], xs[p]);
  }

  // ----- Moves of one child -----

  /** Seeking `x`, and stepping over it when it is there, leaves what is after `x`. */
  lemma PastIs(xs: seq<Entry>, x: Entry, at: Option<nat>)
    requires Sorted(xs)
    requires var c := SeekIndex(xs, x.key, x.stamp);
             at == if c < |xs| && xs[c].key == x.key && xs[c].stamp == x.stamp then At(c + 1, |xs|) else At(c, |xs|)
    ensures forall i | 0 <= i < |xs| :: i < CutForward(at, |xs|) <==> !Before(x, xs[i])
  {
    var c := SeekIndex(xs, x.key, x.stamp);
    forall i | 0 <= i < |xs| ensures i < c <==> !AtOrAfter(xs[i], x.key, x.stamp) {
      SeekSplits(xs, x.key, x.stamp, i);
    }
    forall i | c <= i < |xs| ensures c == i || Before(xs[c], xs[i]) {}
  }

  lemma PastDivides(runs: seq<seq<Entry>>, M: seq<Entry>, p: nat, d: nat, cut: nat)
    requires Merges(runs, M) && p < |M| && d < |runs| && cut <= |runs[d]|
    requires forall i | 0 <= i < |runs[d]| :: i < cut <==> !Before(M[p], runs[d][i])
    ensures Divides(runs[d], cut, Set(M[..p + 1]))
  {
    hide Merges, Set;
    MergeIsSorted(runs, M);
    forall i | 0 <= i < |runs[d]| ensures i < cut <==> runs[d][i] in Set(M[..p + 1]) {
      var n := Somewhere(runs, M, d, i);
      LowIs(M, p + 1, n);
      assert n < p ==> Before(M[n], M[p]);
      assert p < n ==> Before(M[p], M[n]);
    }
  }

  lemma BeforeDivides(runs: seq<seq<Entry>>, M: seq<Entry>, p: nat, d: nat)
    requires Merges(runs, M) && p < |M| && d < |runs|
    ensures Divides(runs[d], SeekIndex(runs[d], M[p].key, M[p].stamp), Set(M[..p]))
  {
    hide Merges, Set;
    MergeIsSorted(runs, M);
    SeekEntry(M, p);
    SeekDivides(runs, M, M[p].key, M[p].stamp, d);
  }

  // ----- The iterator -----

  class MergingIterator {
    const kids: seq<IteratorWrapper>
    ghost const tables: set<TwoLevelIterator>

    /** What the children go over, and their sorted merge. */
    ghost const runs: seq<seq<Entry>>
    ghost const M: seq<Entry>
    var current: Option<nat>
    var forward: bool

    /** Where the children stand, and the position in the merge. */
    ghost var at: seq<Option<nat>>
    ghost var pos: Option<nat>

    /** The children are apart, and stand at `at`. */
    ghost predicate Linked()
      reads this, kids, tables
    {
      && |runs| == |kids| && tables == TablesOf(kids) && Apart(kids) && InRange(runs, at)
      && (forall d | 0 <= d < |kids| :: kids[d].table != null ==> kids[d].table in tables)
      && forall d | 0 <= d < |kids| :: kids[d].Valid() && kids[d].xs == runs[d] && kids[d].pos == at[d]
    }

    ghost predicate Valid()
      reads this, kids, tables
    {
      && Linked() && Merges(runs, M)
      && (current.Some? <==> pos.Some?)
      && (pos.Some? ==>
            && pos.value < |M| && current.value < |runs| && at[current.value].Some?
            && runs[current.value][at[current.value].value] == M[pos.value]
            && (if forward then AllForward(runs, at, M, pos.value)
                else AllBackward(runs, at, M, pos.value + 1)))
    }

    constructor (kids: seq<IteratorWrapper>, ghost runs: seq<seq<Entry>>)
      requires SortedRuns(runs) && |runs| == |kids| && Apart(kids)
      requires forall d | 0 <= d < |kids| :: kids[d].Valid() && kids[d].xs == runs[d] && kids[d].pos == None
      ensures Valid() && this.kids == kids && tables == TablesOf(kids)
      ensures this.runs == runs && M == MergeAll(runs) && pos == None
    {
      hide Merges, MergeAll, IteratorWrapper.Valid;
      MergeAllMerges(runs);
      this.kids, tables, this.runs, M := kids, TablesOf(kids), runs, MergeAll(runs);
      at, current, forward, pos := seq(|kids|, i => None), None, true, None;
    }

    /** One child moves; the others stay. */
    method Move(i: nat, m: Cursors.Move)
      requires Linked() && i < |kids|
      modifies kids[i], kids[i].table, `at
      ensures Linked() && at == old(at)[i := Moved(runs[i], old(at)[i], m)]
    {
      hide IteratorWrapper.Valid;
      kids[i].Make(m);
      MovedInRange(runs[i], at[i], m);
      at := at[i := kids[i].pos];
    }

    /** What a child shows is its entry at `at`. */
    lemma Heads(d: nat)
      requires Linked() && d < |kids|
      ensures kids[d].head == if at[d].Some? then Some(runs[d][at[d].value]) else None
    {
    }

    /** `key()` and `value()`. */
    method Entry() returns (e: Entries.Entry)
      requires Valid() && current.Some?
      ensures pos.Some? && e == M[pos.value]
    {
      Heads(current.value);
      e := kids[current.value].head.value;
    }

    /** The entry, when the iterator is valid. */
    method Show() returns (e: Option<Entries.Entry>)
      requires Valid()
      ensures e == if pos.Some? then Some(M[pos.value]) else None
    {
      e := None;
      if current.Some? {
        var x := Entry();
        e := Some(x);
      }
    }

    method FindSmallest()
      requires Linked()
      modifies `current
      ensures Linked() && IsSmallest(runs, at, current)
    {
      hide IteratorWrapper.Valid;
      forall d | 0 <= d < |kids| ensures kids[d].head == if at[d].Some? then Some(runs[d][at[d].value]) else None {
        Heads(d);
      }
      current := None;
      for i := 0 to |kids|
        invariant current.None? ==> forall d | 0 <= d < i :: at[d].None?
        invariant current.Some? ==> current.value < i && at[current.value].Some?
        invariant current.Some? ==> forall d | 0 <= d < i && at[d].Some? ::
                    !Before(runs[d][at[d].value], runs[current.value][at[current.value].value])
      {
        if kids[i].head.Some? {
          if current.None? {
            current := Some(i);
          } else if Before(kids[i].head.value, kids[current.value].head.value) {
            current := Some(i);
          }
        }
      }
    }

    method FindLargest()
      requires Linked()
      modifies `current
      ensures Linked() && IsLargest(runs, at, current)
    {
      hide IteratorWrapper.Valid;
      forall d | 0 <= d < |kids| ensures kids[d].head == if at[d].Some? then Some(runs[d][at[d].value]) else None {
        Heads(d);
      }
      current := None;
      for i := |kids| downto 0
        invariant current.None? ==> forall d | i <= d < |kids| :: at[d].None?
        invariant current.Some? ==> i <= current.value < |kids| && at[current.value].Some?
        invariant current.Some? ==> forall d | i <= d < |kids| && at[d].Some? ::
                    !Before(runs[current.value][at[current.value].value], runs[d][at[d].value])
      {
        if kids[i].head.Some? {
          if current.None? {
            current := Some(i);
          } else if Before(kids[current.value].head.value, kids[i].head.value) {
            current := Some(i);
          }
        }
      }
    }

    /** All children divided at `r` going forward: the current entry is the `r`-th. */
    method SettleForward(ghost r: nat)
      requires Linked() && Merges(runs, M) && AllForward(runs, at, M, r)
      modifies `current, `forward, `pos
      ensures Valid() && pos == At(r, |M|)
    {
      hide Merges, Divides, IteratorWrapper.Valid;
      FindSmallest();
      SmallestIsNext(runs, at, M, r, current);
      forward, pos := true, At(r, |M|);
    }

    method SettleBackward(ghost r: nat)
      requires Linked() && Merges(runs, M) && AllBackward(runs, at, M, r)
      modifies `current, `forward, `pos
      ensures Valid() && pos == LastOf(r)
    {
      hide Merges, Divides, IteratorWrapper.Valid;
      FindLargest();
      LargestIsPrevious(runs, at, M, r, current);
      forward, pos := false, LastOf(r);
    }

    /** Every child makes the same move. */
    method MoveAll(m: Cursors.Move)
      requires Linked()
      modifies kids, tables, `at
      ensures Linked() && forall d | 0 <= d < |runs| :: at[d] == Moved(runs[d], old(at)[d], m)
    {
      hide TablesOf, Apart, IteratorWrapper.Valid;
      for i := 0 to |kids|
        invariant Linked()
        invariant forall d | 0 <= d < i :: at[d] == Moved(runs[d], old(at)[d], m)
        invariant forall d | i <= d < |runs| :: at[d] == old(at)[d]
      {
        Move(i, m);
      }
    }

    method Seek(k: Key, s: nat)
      requires Valid()
      modifies this, kids, tables
      ensures Valid() && pos == Moved(M, old(pos), Cursors.Move.Seek(k, s))
    {
      hide Merges, Divides, Set, IteratorWrapper.Valid;
      MoveAll(Cursors.Move.Seek(k, s));
      forall d | 0 <= d < |runs|
        ensures Divides(runs[d], CutForward(at[d], |runs[d]|), Set(M[..SeekIndex(M, k, s)]))
      {
        SeekDivides(runs, M, k, s, d);
      }
      SettleForward(SeekIndex(M, k, s));
    }

    method SeekToFirst()
      requires Valid()
      modifies this, kids, tables
      ensures Valid() && pos == Moved(M, old(pos), Cursors.Move.SeekToFirst)
    {
      hide Merges, IteratorWrapper.Valid;
      MoveAll(Cursors.Move.SeekToFirst);
      SettleForward(0);
    }

    method SeekToLast()
      requires Valid()
      modifies this, kids, tables
      ensures Valid() && pos == Moved(M, old(pos), Cursors.Move.SeekToLast)
    {
      hide Merges, IteratorWrapper.Valid;
      MoveAll(Cursors.Move.SeekToLast);
      forall d | 0 <= d < |runs| ensures Divides(runs[d], |runs[d]|, Set(M[..|M|])) {
        AllLow(runs, M, d);
      }
      SettleBackward(|M|);
    }

    method Next()
      requires Valid() && current.Some?
      modifies this, kids, tables
      ensures Valid() && pos == Moved(M, old(pos), Cursors.Move.Next)
    {
      hide Merges, Divides, Set, IteratorWrapper.Valid;
      ghost var p := pos.value;
      var c := current.value;
      if !forward {
        TurnForward();
        Move(c, Cursors.Move.Next);
      } else {
        ghost var was := at;
        Move(c, Cursors.Move.Next);
        forall d | 0 <= d < |runs|
          ensures Divides(runs[d], CutForward(at[d], |runs[d]|), Set(M[..p + 1]))
        {
          OneMore(runs, M, p, c, was[c].value, d, CutForward(was[d], |runs[d]|));
        }
      }
      SettleForward(p + 1);
    }

    /** Put a child at its first entry after `x`; an entry equal to `x` is stepped over. */
    method GoPast(i: nat, x: Entries.Entry)
      requires Linked() && i < |kids| && Sorted(runs[i])
      modifies kids[i], kids[i].table, `at
      ensures Linked() && at == old(at)[i := at[i]]
      ensures forall j | 0 <= j < |runs[i]| :: j < CutForward(at[i], |runs[i]|) <==> !Before(x, runs[i][j])
    {
      hide Sorted, IteratorWrapper.Valid;
      Move(i, Cursors.Move.Seek(x.key, x.stamp));
      Heads(i);
      if kids[i].head.Some? && kids[i].head.value.key == x.key && kids[i].head.value.stamp == x.stamp {
        Move(i, Cursors.Move.Next);
      }
      PastIs(runs[i], x, at[i]);
    }

    /** Put a child at its last entry before `x`. */
    method GoBefore(i: nat, x: Entries.Entry)
      requires Linked() && i < |kids|
      modifies kids[i], kids[i].table, `at
      ensures Linked() && at == old(at)[i := at[i]]
      ensures CutBackward(at[i]) == SeekIndex(runs[i], x.key, x.stamp)
    {
      hide Sorted, IteratorWrapper.Valid;
      Move(i, Cursors.Move.Seek(x.key, x.stamp));
      Heads(i);
      if kids[i].head.Some? {
        Move(i, Cursors.Move.Prev);
      } else {
        Move(i, Cursors.Move.SeekToLast);
      }
    }

    /** The direction switch: every other child goes past the current entry. */
    method TurnForward()
      requires Valid() && current.Some? && !forward
      modifies kids, tables, `at
      ensures Linked() && at[current.value] == old(at)[current.value]
      ensures forall d | 0 <= d < |runs| && d != current.value ::
                Divides(runs[d], CutForward(at[d], |runs[d]|), Set(M[..pos.value + 1]))
    {
      hide Merges, Divides, Set, IteratorWrapper.Valid;
      var x := Entry();
      for i := 0 to |kids|
        invariant Linked() && at[current.value] == old(at)[current.value]
        invariant forall d | 0 <= d < i && d != current.value ::
                    Divides(runs[d], CutForward(at[d], |runs[d]|), Set(M[..pos.value + 1]))
      {
        if i != current.value {
          RunSorted(runs, M, i);
          GoPast(i, x);
          PastDivides(runs, M, pos.value, i, CutForward(at[i], |runs[i]|));
        }
      }
    }

    method Prev()
      requires Valid() && current.Some?
      modifies this, kids, tables
      ensures Valid() && pos == Moved(M, old(pos), Cursors.Move.Prev)
    {
      hide Merges, Divides, Set, IteratorWrapper.Valid;
      ghost var p := pos.value;
      var c := current.value;
      if forward {
        TurnBackward();
        Move(c, Cursors.Move.Prev);
      } else {
        ghost var was := at;
        Move(c, Cursors.Move.Prev);
        forall d | 0 <= d < |runs| ensures Divides(runs[d], CutBackward(at[d]), Set(M[..p])) {
          OneMore(runs, M, p, c, was[c].value, d, CutBackward(was[d]));
        }
      }
      SettleBackward(p);
    }

    method TurnBackward()
      requires Valid() && current.Some? && forward
      modifies kids, tables, `at
      ensures Linked() && at[current.value] == old(at)[current.value]
      ensures forall d | 0 <= d < |runs| && d != current.value ::
                Divides(runs[d], CutBackward(at[d]), Set(M[..pos.value]))
    {
      hide Merges, Divides, Set, IteratorWrapper.Valid;
      var x := Entry();
      for i := 0 to |kids|
        invariant Linked() && at[current.value] == old(at)[current.value]
        invariant forall d | 0 <= d < i && d != current.value ::
                    Divides(runs[d], CutBackward(at[d]), Set(M[..pos.value]))
      {
        if i != current.value {
          GoBefore(i, x);
          BeforeDivides(runs, M, pos.value, i);
        }
      }
    }

    /** What a caller does: relative moves only from a valid position. */
    method Make(m: Cursors.Move)
      requires Valid()
      modifies this, kids, tables
      ensures Valid() && pos == Moved(M, old(pos), m)
    {
      hide Merges, AllForward, AllBackward, InRange, IteratorWrapper.Valid;
      match m
      case Seek(k, s) => Seek(k, s);
      case SeekToFirst => SeekToFirst();
      case SeekToLast => SeekToLast();
      case Next => if current.Some? { Next(); }
      case Prev => if current.Some? { Prev(); }
    }
  }

  lemma MovedInRange(xs: seq<Entry>, at: Option<nat>, m: Move)
    requires at.Some? ==> at.value < |xs|
    ensures Moved(xs, at, m).Some? ==> Moved(xs, at, m).value < |xs|
  {
  }

  /** A merging iterator over new wrappers. */
  method NewMergingIterator(children: seq<Child>) returns (it: MergingIterator)
    requires AllUsable(children) && SortedRuns(AllUnder(children))
    ensures fresh(it) && fresh(it.kids) && fresh(it.tables)
    ensures it.Valid() && it.runs == AllUnder(children) && it.M == MergeAll(AllUnder(children)) && it.pos == None
  {
    hide SortedRuns, MergeAll, Merges, IteratorWrapper.Valid, AllUsable, Apart;
    var kids := Wrap(children);
    it := new MergingIterator(kids, AllUnder(children));
  }

  /** Any run of moves, in any directions, shows what a cursor over the sorted merge shows. */
  method Run(children: seq<Child>, moves: seq<Move>) returns (shown: seq<Option<Entries.Entry>>)
    requires AllUsable(children) && SortedRuns(AllUnder(children))
    ensures |shown| == |moves|
    ensures forall i | 0 <= i < |moves| :: shown[i] == Shown(MergeAll(AllUnder(children)), moves[..i + 1])
  {
    hide SortedRuns, MergeAll, Merges, AllForward, AllBackward, InRange, Moved, MergingIterator.Valid;
    var it := NewMergingIterator(children);
    ghost var M := it.M;
    shown := [];
    for i := 0 to |moves|
      invariant fresh(it) && fresh(it.kids) && fresh(it.tables) && it.Valid() && it.M == M
      invariant it.pos == PosAfter(M, moves[..i]) && |shown| == i
      invariant forall n | 0 <= n < i :: shown[n] == Shown(M, moves[..n + 1])
    {
      assert moves[..i + 1][..i] == moves[..i];
      it.Make(moves[i]);
      var e := it.Show();
      shown := shown + [e];
    }
  }

  lemma RunSorted(runs: seq<seq<Entry>>, M: seq<Entry>, d: nat)
    requires Merges(runs, M) && d < |runs|
    ensures Sorted(runs[d])
  {
    assert runs[d] in runs;
  }

  lemma AllLow(runs: seq<seq<Entry>>, M: seq<Entry>, d: nat)
    requires Merges(runs, M) && d < |runs|
    ensures Divides(runs[d], |runs[d]|, Set(M[..|M|]))
  {
    assert M[..|M|] == M;
  }
}
