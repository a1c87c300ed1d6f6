/** `DBIter`: a cursor over user entries, driven by a cursor over internal entries. */
module DbIter {
  import opened Wrappers
  import opened Entries
  import opened Compactions
  import Cursors
  import opened Children
  import opened Merger

  // ----- The list a user should see -----

  /** Entry `i` is what a read of its key at snapshot `s` returns. */
  ghost predicate Yields(xs: seq<Entry>, s: nat, i: nat) {
    && i < |xs| && xs[i].stamp <= s && xs[i].kind == Value
    && forall m | 0 <= m < i && xs[m].key == xs[i].key :: xs[m].stamp > s
  }

  /** The indices below `n` that yield, in order. */
  ghost function Live(xs: seq<Entry>, s: nat, n: nat): (r: seq<nat>) {
    if n == 0 then [] else if Yields(xs, s, n - 1) then Live(xs, s, n - 1) + [n - 1] else Live(xs, s, n - 1)
  }

  ghost function Visible(xs: seq<Entry>, s: nat): (r: seq<Entry>)
    ensures |r| == |Live(xs, s, |xs|)|
  {
    LiveBelow(xs, s, |xs|);
    var live := Live(xs, s, |xs|);
    seq(|live|, p requires 0 <= p < |live| => xs[live[p]])
  }

  lemma {:induction false} LiveBelow(xs: seq<Entry>, s: nat, n: nat)
    ensures forall p | 0 <= p < |Live(xs, s, n)| :: Live(xs, s, n)[p] < n && Yields(xs, s, Live(xs, s, n)[p])
    ensures forall p, q | 0 <= p < q < |Live(xs, s, n)| :: Live(xs, s, n)[p] < Live(xs, s, n)[q]
  {
    if n > 0 { LiveBelow(xs, s, n - 1); }
  }

  /** How many entries before `i` the user sees. */
  ghost function Rank(xs: seq<Entry>, s: nat, i: nat): nat {
    |Live(xs, s, i)|
  }

  lemma {:induction false} LivePrefix(xs: seq<Entry>, s: nat, i: nat, n: nat)
    requires i <= n
    ensures Live(xs, s, i) <= Live(xs, s, n)
  {
    if i < n { LivePrefix(xs, s, i, n - 1); }
  }

  lemma RankOf(xs: seq<Entry>, s: nat, i: nat)
    requires Yields(xs, s, i)
    ensures Rank(xs, s, i) < |Live(xs, s, |xs|)| && Live(xs, s, |xs|)[Rank(xs, s, i)] == i
    ensures Visible(xs, s)[Rank(xs, s, i)] == xs[i]
  {
    LivePrefix(xs, s, i + 1, |xs|);
    assert Live(xs, s, i + 1)[Rank(xs, s, i)] == i;
  }

  /** No entry from `a` up to `b` yields. */
  ghost predicate NoneIn(xs: seq<Entry>, s: nat, a: nat, b: nat) {
    forall n: nat | a <= n < b :: !Yields(xs, s, n)
  }

  lemma {:induction false} RankAcross(xs: seq<Entry>, s: nat, a: nat, b: nat)
    requires a <= b && NoneIn(xs, s, a, b)
    ensures Rank(xs, s, b) == Rank(xs, s, a)
  {
    if a < b { RankAcross(xs, s, a, b - 1); }
  }

  /** `Visible` is exactly what reads at `s` return, each key once, in key order. */
  lemma VisibleIsReads(xs: seq<Entry>, s: nat, k: Key, v: Payload)
    requires Sorted(xs)
    ensures Reads(Set(xs), k, s, Some(v)) <==>
            exists p :: 0 <= p < |Visible(xs, s)| && Visible(xs, s)[p].key == k && Visible(xs, s)[p].value == v
  {
    hide Live;
    LiveBelow(xs, s, |xs|);
    var live, vis := Live(xs, s, |xs|), Visible(xs, s);
    if e :| Newest(Set(xs), k, s, e) && e.kind == Value && e.value == v {
      var i :| 0 <= i < |xs| && xs[i] == e;
      NewestYields(xs, s, i);
      RankOf(xs, s, i);
    }
    if p :| 0 <= p < |vis| && vis[p].key == k && vis[p].value == v {
      YieldsIsNewest(xs, s, live[p]);
    }
  }

  lemma NewestYields(xs: seq<Entry>, s: nat, i: nat)
    requires Sorted(xs) && i < |xs| && Newest(Set(xs), xs[i].key, s, xs[i]) && xs[i].kind == Value
    ensures Yields(xs, s, i)
  {
    forall m | 0 <= m < i && xs[m].key == xs[i].key ensures xs[m].stamp > s {
      assert xs[m] in Set(xs) && Before(xs[m], xs[i]);
    }
  }

  lemma YieldsIsNewest(xs: seq<Entry>, s: nat, i: nat)
    requires Sorted(xs) && Yields(xs, s, i)
    ensures Newest(Set(xs), xs[i].key, s, xs[i])
  {
    forall d | d in Set(xs) && Matches(d, xs[i].key, s) ensures d.stamp <= xs[i].stamp {
      var m :| 0 <= m < |xs| && xs[m] == d;
      if i < m { assert Before(xs[i], xs[m]); }
    }
  }

  ghost predicate Ordered(vis: seq<Entry>) {
    forall p, q | 0 <= p < q < |vis| :: vis[p].key < vis[q].key
  }

  lemma VisibleOrdered(xs: seq<Entry>, s: nat)
    requires Sorted(xs)
    ensures Ordered(Visible(xs, s))
  {
    LiveBelow(xs, s, |xs|);
    var live := Live(xs, s, |xs|);
    forall p, q | 0 <= p < q < |live| ensures xs[live[p]].key < xs[live[q]].key {
      assert Before(xs[live[p]], xs[live[q]]);
    }
  }

  // ----- The cursor a user should have -----

  datatype Move = Seek(target: Key) | SeekToFirst | SeekToLast | Next | Prev

  /** Index of the first entry at or after `k`, or the length. */
  ghost function FirstFrom(vis: seq<Entry>, k: Key): (p: nat)
    ensures p <= |vis|
    ensures p < |vis| ==> vis[p].key >= k
    ensures forall q | 0 <= q < p :: vis[q].key < k
  {
    if vis == [] || vis[0].key >= k then 0 else 1 + FirstFrom(vis[1..], k)
  }

  /** The reference cursor; the two relative moves ask for a valid position. */
  ghost function Moved(vis: seq<Entry>, pos: Option<nat>, m: Move): Option<nat> {
    match m
    case Seek(k) => Cursors.At(FirstFrom(vis, k), |vis|)
    case SeekToFirst => Cursors.At(0, |vis|)
    case SeekToLast => Cursors.LastOf(|vis|)
    case Next => Cursors.After(pos, |vis|)
    case Prev => Cursors.BeforePos(pos)
  }

  /** What the reference cursor shows after each move of a run; a relative move from an invalid
      position is not made. */
  ghost function Shown(vis: seq<Entry>, pos: Option<nat>): Option<(Key, Payload)> {
    if pos.Some? && pos.value < |vis| then Some((vis[pos.value].key, vis[pos.value].value)) else None
  }

  ghost function PosAfter(vis: seq<Entry>, moves: seq<Move>): Option<nat> {
    if moves == [] then None
    else Moved(vis, PosAfter(vis, moves[..|moves| - 1]), moves[|moves| - 1])
  }

  // ----- Walks over the rows -----

  ghost function Repeated(m: Move, n: nat): (r: seq<Move>)
    ensures |r| == n && forall i | 0 <= i < n :: r[i] == m
  {
    seq(n, _ => m)
  }

  /** From the first row, each `Next` shows the next row, until every row was shown once. */
  lemma {:induction false} WalksForward(vis: seq<Entry>, n: nat)
    ensures PosAfter(vis, [Move.SeekToFirst] + Repeated(Move.Next, n)) == if n < |vis| then Some(n) else None
  {
    var moves := [Move.SeekToFirst] + Repeated(Move.Next, n);
    if n == 0 {
      assert moves == [] + [Move.SeekToFirst];
    } else {
      WalksForward(vis, n - 1);
      assert moves[..n] == [Move.SeekToFirst] + Repeated(Move.Next, n - 1);
    }
  }

  /** From the last row, `Prev` shows the same rows in reverse. */
  lemma {:induction false} WalksBackward(vis: seq<Entry>, n: nat)
    ensures PosAfter(vis, [Move.SeekToLast] + Repeated(Move.Prev, n)) ==
            if n < |vis| then Some(|vis| - 1 - n) else None
  {
    var moves := [Move.SeekToLast] + Repeated(Move.Prev, n);
    if n == 0 {
      assert moves == [] + [Move.SeekToLast];
    } else {
      WalksBackward(vis, n - 1);
      assert moves[..n] == [Move.SeekToLast] + Repeated(Move.Prev, n - 1);
    }
  }

  // ----- The iterator -----

  /** The entries at `lo` and up that a forward scan may still return. */
  ghost predicate Wanted(xs: seq<Entry>, s: nat, skipping: bool, skip: Key, n: nat) {
    Yields(xs, s, n) && (skipping ==> xs[n].key > skip)
  }

  ghost predicate NoneWanted(xs: seq<Entry>, s: nat, skipping: bool, skip: Key, a: nat, b: nat) {
    forall n: nat | a <= n < b :: !Wanted(xs, s, skipping, skip, n)
  }

  lemma WantedUnskipped(xs: seq<Entry>, s: nat, skip: Key, a: nat, b: nat)
    requires NoneWanted(xs, s, false, skip, a, b)
    ensures NoneIn(xs, s, a, b)
  {
    forall n: nat | a <= n < b ensures !Yields(xs, s, n) {
      assert !Wanted(xs, s, false, skip, n);
    }
  }

  /** State of a forward scan that has passed everything below `c`. */
  ghost predicate Passed(xs: seq<Entry>, s: nat, c: nat, skipping: bool, skip: Key) {
    forall m, n | 0 <= m < c <= n < |xs| && xs[m].key == xs[n].key && xs[m].stamp <= s ::
      skipping && xs[n].key <= skip
  }

  class DBIter {
    /** The internal iterator, and the list it goes over. */
    const inner: MergingIterator
    ghost const xs: seq<Entry>
    const sequence: nat
    var forward: bool
    var valid: bool
    var savedKey: Key
    var savedValue: Payload

    /** The position in the list of visible entries. */
    ghost var pos: Option<nat>

    /** The internal iterator works, over `xs`. */
    ghost predicate Driving()
      reads inner, inner.kids, inner.tables
    {
      && inner.Valid() && inner.M == xs && Sorted(xs)
      && (inner.pos.Some? <==> inner.current.Some?) && (inner.pos.Some? ==> inner.pos.value < |xs|)
    }

    ghost predicate Valid()
      reads this, inner, inner.kids, inner.tables
    {
      && Driving()
      && (inner.pos.Some? ==> inner.pos.value < |xs|)
      && (valid <==> pos.Some?)
      && (valid ==> pos.value < |Live(xs, sequence, |xs|)|)
      && (valid && forward ==> inner.pos == Some(Live(xs, sequence, |xs|)[pos.value]))
      && (valid && !forward ==> Behind(Live(xs, sequence, |xs|)[pos.value]))
    }

    /** Moving backwards: entry `j` is saved, and everything between the internal position and
        `j` is invisible. */
    ghost predicate Behind(j: nat)
      reads this, inner, inner.kids, inner.tables
    {
      && j < |xs| && savedKey == xs[j].key && savedValue == xs[j].value
      && (inner.pos.Some? ==> inner.pos.value < j)
      && forall m: nat | (if inner.pos.Some? then inner.pos.value + 1 else 0) <= m < j :: xs[m].stamp > sequence
    }

    constructor (inner: MergingIterator, sequence: nat)
      requires inner.Valid() && Sorted(inner.M)
      ensures Valid() && this.inner == inner && xs == inner.M && this.sequence == sequence && pos == None
    {
      this.inner, this.xs, this.sequence := inner, inner.M, sequence;
      forward, valid, savedKey, savedValue, pos := true, false, 0.0, [], None;
    }

    method Key() returns (k: Entries.Key)
      requires Valid() && valid
      ensures k == Visible(xs, sequence)[pos.value].key
    {
      LiveBelow(xs, sequence, |xs|);
      k := savedKey;
      if forward {
        var e := inner.Entry();
        k := e.key;
      }
    }

    method Value() returns (v: Payload)
      requires Valid() && valid
      ensures v == Visible(xs, sequence)[pos.value].value
    {
      LiveBelow(xs, sequence, |xs|);
      v := savedValue;
      if forward {
        var e := inner.Entry();
        v := e.value;
      }
    }

    method StepForward()
      requires Driving() && inner.pos.Some?
      modifies inner, inner.kids, inner.tables
      ensures Driving() && inner.pos == Cursors.At(old(inner.pos).value + 1, |xs|)
    {
      hide MergingIterator.Valid, Sorted;
      Drive(Cursors.Next);
    }

    /** Moves of the internal iterator. */
    method Drive(m: Cursors.Move)
      requires Driving() && (m.Next? || m.Prev? ==> inner.pos.Some?)
      modifies inner, inner.kids, inner.tables
      ensures Driving() && inner.pos == Cursors.Moved(xs, old(inner.pos), m)
    {
      hide MergingIterator.Linked, Merges, AllForward, AllBackward, InRange, Sorted;
      match m
      case Seek(k, s) => inner.Seek(k, s);
      case SeekToFirst => inner.SeekToFirst();
      case SeekToLast => inner.SeekToLast();
      case Next => inner.Next();
      case Prev => inner.Prev();
    }

    method Current() returns (e: Entry)
      requires Driving() && inner.pos.Some?
      ensures e == xs[inner.pos.value]
    {
      e := inner.Entry();
    }

    /** Stop at the first wanted entry from the current position on. */
    method FindNextUserEntry(skip0: bool)
      requires Driving() && inner.pos.Some? && inner.pos.value < |xs| && forward
      requires Passed(xs, sequence, inner.pos.value, skip0, savedKey)
      requires forall n: nat | inner.pos.value <= n < |xs| && xs[n].stamp <= sequence && skip0 :: xs[n].key >= savedKey
      modifies inner, inner.kids, inner.tables, `valid, `savedKey
      ensures Driving()
      ensures inner.pos.Some? ==> inner.pos.value < |xs|
      ensures valid <==> inner.pos.Some?
      ensures valid ==> old(inner.pos.value) <= inner.pos.value
      ensures valid ==> Wanted(xs, sequence, skip0, old(savedKey), inner.pos.value)
      ensures NoneWanted(xs, sequence, skip0, old(savedKey), old(inner.pos.value),
                         if valid then inner.pos.value else |xs|)
    {
      hide MergingIterator.Valid;
      var skipping := skip0;
      ghost var from, c := inner.pos.value, inner.pos.value;
      while inner.current.Some?
        invariant Driving()
        invariant from <= c <= |xs| && inner.pos == (if c < |xs| then Some(c) else None)
        invariant skip0 ==> skipping && savedKey >= old(savedKey)
        invariant Passed(xs, sequence, c, skipping, savedKey)
        invariant NoneWanted(xs, sequence, skip0, old(savedKey), from, c)
        invariant forall n: nat | c <= n < |xs| && skipping && xs[n].key <= savedKey ::
                    !Wanted(xs, sequence, skip0, old(savedKey), n)
        decreases |xs| - c
      {
        var e := Current();
        if e.stamp <= sequence {
          match e.kind
          case Deletion =>
            DeletionHides(xs, sequence, c, skipping, savedKey);
            savedKey, skipping := e.key, true;
          case Value =>
            if !(skipping && e.key <= savedKey) {
              valid, savedKey := true, 0.0;
              return;
            }
        }
        StepForward();
        c := c + 1;
      }
      savedKey, valid := 0.0, false;
    }

    /** Save the last yielding entry at or before the current position, and stop behind it. */
    method FindPrevUserEntry()
      requires Driving() && (inner.pos.Some? ==> inner.pos.value < |xs|) && !forward
      modifies inner, inner.kids, inner.tables, `valid, `savedKey, `savedValue, `forward
      ensures Driving()
      ensures inner.pos.Some? ==> inner.pos.value < |xs|
      ensures valid ==> !forward && exists j: nat :: LastYield(old(inner.pos), j) && Behind(j)
      ensures !valid ==> NoneIn(xs, sequence, 0, Above(old(inner.pos)))
    {
      hide MergingIterator.Valid;
      var kind := Deletion;
      ghost var q := Above(inner.pos);
      while inner.current.Some?
        invariant Driving()
        invariant (inner.pos.Some? ==> inner.pos.value < |xs|) && !forward
        invariant Above(inner.pos) <= q <= Above(old(inner.pos))
        invariant forall m: nat | Above(inner.pos) <= m < q :: xs[m].stamp > sequence
        invariant NoneIn(xs, sequence, q + 1, Above(old(inner.pos)))
        invariant kind == Deletion ==> NoneIn(xs, sequence, q, Above(old(inner.pos)))
        invariant kind == Kind.Value ==> q < Above(old(inner.pos)) && SavedFrom(q)
        decreases Above(inner.pos)
      {
        var e := Current();
        if e.stamp <= sequence {
          if kind != Deletion && e.key < savedKey {
            StopsRun(xs, sequence, inner.pos.value, q);
            break;
          }
          TakesOver(xs, sequence, inner.pos.value, q, kind, Above(old(inner.pos)));
          q := inner.pos.value;
          kind := e.kind;
          if kind == Deletion {
            savedKey, savedValue := 0.0, [];
          } else {
            savedKey, savedValue := e.key, e.value;
          }
        }
        Drive(Cursors.Prev);
      }
      if kind == Deletion {
        assert inner.pos.None?;
        NothingVisible(xs, sequence, q);
        valid, savedKey, savedValue, forward := false, 0.0, [], true;
      } else {
        assert LastYield(old(inner.pos), q) && Behind(q);
        valid := true;
      }
    }

    ghost predicate SavedFrom(q: nat)
      reads this
    {
      && q < |xs| && xs[q].kind == Kind.Value && xs[q].stamp <= sequence
      && savedKey == xs[q].key && savedValue == xs[q].value
    }

    ghost predicate LastYield(from: Option<nat>, j: nat) {
      j < Above(from) && Yields(xs, sequence, j) && NoneIn(xs, sequence, j + 1, Above(from))
    }

    method Seek(target: Entries.Key)
      requires Valid()
      modifies this, inner, inner.kids, inner.tables
      ensures Valid() && pos == Moved(Visible(xs, sequence), old(pos), Move.Seek(target))
    {
      hide Live, Yields, Visible, Passed, MergingIterator.Valid;
      forward, savedValue, savedKey := true, [], target;
      ghost var i := SeekIndex(xs, target, sequence);
      Drive(Cursors.Seek(target, sequence));
      if inner.current.Some? {
        SeekPassed(xs, sequence, target);
        FindNextUserEntry(false);
        WantedUnskipped(xs, sequence, target, i, if valid then inner.pos.value else |xs|);
      } else {
        valid := false;
      }
      SeekRank(xs, sequence, target, if valid then inner.pos.value else |xs|);
      pos := if valid then Some(Rank(xs, sequence, inner.pos.value)) else None;
      if valid { RankOf(xs, sequence, inner.pos.value); }
    }

    method SeekToFirst()
      requires Valid()
      modifies this, inner, inner.kids, inner.tables
      ensures Valid() && pos == Moved(Visible(xs, sequence), old(pos), Move.SeekToFirst)
    {
      hide MergingIterator.Valid;
      forward, savedValue := true, [];
      Drive(Cursors.SeekToFirst);
      if inner.current.Some? {
        ghost var skip := savedKey;
        FindNextUserEntry(false);
        WantedUnskipped(xs, sequence, skip, 0, if valid then inner.pos.value else |xs|);
      } else {
        valid := false;
      }
      RankAcross(xs, sequence, 0, if valid then inner.pos.value else |xs|);
      pos := if valid then Some(Rank(xs, sequence, inner.pos.value)) else None;
      if valid { RankOf(xs, sequence, inner.pos.value); }
    }

    /** `FindPrevUserEntry`: the position is that of the last entry the user sees before the internal one. */
    method Back()
      requires Driving() && !forward
      modifies this, inner, inner.kids, inner.tables
      ensures Valid() && pos == Cursors.LastOf(Rank(xs, sequence, Above(old(inner.pos))))
    {
      hide Live, Yields, Visible, Sorted, MergingIterator.Valid;
      RankZero(xs, sequence);
      ghost var end := Above(inner.pos);
      FindPrevUserEntry();
      if valid {
        ghost var i: nat :| LastYield(old(inner.pos), i) && Behind(i);
        RankOf(xs, sequence, i);
        RankPast(xs, sequence, i);
        RankAcross(xs, sequence, i + 1, end);
        pos := Some(Rank(xs, sequence, i));
      } else {
        RankAcross(xs, sequence, 0, end);
        pos := None;
      }
    }

    method SeekToLast()
      requires Valid()
      modifies this, inner, inner.kids, inner.tables
      ensures Valid() && pos == Moved(Visible(xs, sequence), old(pos), Move.SeekToLast)
    {
      hide Live, Yields, Visible, Sorted, MergingIterator.Valid;
      forward, savedValue := false, [];
      Drive(Cursors.SeekToLast);
      assert Above(inner.pos) == |xs|;
      Back();
    }

    method Next()
      requires Valid() && valid
      modifies this, inner, inner.kids, inner.tables
      ensures Valid() && pos == Moved(Visible(xs, sequence), old(pos), Move.Next)
    {
      hide Live, Yields, Visible, Passed, Sorted, MergingIterator.Valid;
      ghost var j := Live(xs, sequence, |xs|)[pos.value];
      LiveBelow(xs, sequence, |xs|);
      RankOfLive(xs, sequence, pos.value);
      if !forward {
        forward := true;
        if inner.current.None? {
          Drive(Cursors.SeekToFirst);
        } else {
          Drive(Cursors.Next);
        }
        // `Behind` puts entry `j` after the old position, so the internal iterator is valid here.
      } else {
        var e := Current();
        savedKey := e.key;
      }
      ghost var from := inner.pos.value;
      NextPassed(xs, sequence, j, from);
      FindNextUserEntry(true);
      NextRank(xs, sequence, j, from, if valid then inner.pos.value else |xs|);
      pos := if valid then Some(Rank(xs, sequence, inner.pos.value)) else None;
      if valid { RankOf(xs, sequence, inner.pos.value); }
    }

    /** Step back over every entry of the current key. */
    method LeaveRun()
      requires Driving() && inner.pos.Some? && inner.pos.value < |xs|
      modifies inner, inner.kids, inner.tables, `savedKey
      ensures Driving()
      ensures inner.pos.Some? ==> inner.pos.value < old(inner.pos.value)
      ensures forall m: nat | Above(inner.pos) <= m < old(inner.pos.value) :: xs[m].key == xs[old(inner.pos.value)].key
    {
      hide MergingIterator.Valid;
      var e := Current();
      savedKey := e.key;
      while true
        invariant Driving()
        invariant inner.pos.Some? && inner.pos.value <= old(inner.pos.value) && savedKey == xs[old(inner.pos.value)].key
        invariant forall m: nat | inner.pos.value <= m < old(inner.pos.value) :: xs[m].key == savedKey
        decreases inner.pos.value
      {
        Drive(Cursors.Prev);
        if inner.current.None? { return; }
        e := Current();
        if e.key < savedKey { return; }
        assert Before(xs[inner.pos.value], xs[old(inner.pos.value)]);
      }
    }

    method Prev()
      requires Valid() && valid
      modifies this, inner, inner.kids, inner.tables
      ensures Valid() && pos == Moved(Visible(xs, sequence), old(pos), Move.Prev)
    {
      hide Live, Yields, Visible, Sorted, MergingIterator.Valid;
      ghost var j := Live(xs, sequence, |xs|)[pos.value];
      LiveBelow(xs, sequence, |xs|);
      RankOfLive(xs, sequence, pos.value);
      if forward {
        LeaveRun();
        if inner.current.None? {
          PrevRank(xs, sequence, j, 0);
          valid, savedKey, savedValue, pos := false, 0.0, [], None;
          return;
        }
        forward := false;
      }
      PrevRank(xs, sequence, j, Above(inner.pos));
      Back();
    }

    /** What a caller does: relative moves only from a valid position. */
    method Make(m: Move)
      requires Valid()
      modifies this, inner, inner.kids, inner.tables
      ensures Valid() && pos == Moved(Visible(xs, sequence), old(pos), m)
    {
      hide Live, Visible, Sorted, Yields, FirstFrom;
      match m
      case Seek(k) => Seek(k);
      case SeekToFirst => SeekToFirst();
      case SeekToLast => SeekToLast();
      case Next => if valid { Next(); }
      case Prev => if valid { Prev(); }
    }

    method View() returns (v: Option<(Entries.Key, Payload)>)
      requires Valid()
      ensures v == Shown(Visible(xs, sequence), pos)
    {
      hide Live, Visible, Sorted;
      if valid {
        var k := Key();
        var x := Value();
        v := Some((k, x));
      } else {
        v := None;
      }
    }
  }

  /** Any run of moves, in any directions, shows what the reference cursor shows. */
  method Run(children: seq<Child>, sequence: nat, moves: seq<Move>) returns (shown: seq<Option<(Key, Payload)>>)
    requires AllUsable(children) && SortedRuns(AllUnder(children))
    ensures |shown| == |moves|
    ensures var vis := Visible(MergeAll(AllUnder(children)), sequence);
            forall i | 0 <= i < |moves| :: shown[i] == Shown(vis, PosAfter(vis, moves[..i + 1]))
  {
    hide Live, Visible, Sorted, Yields, SortedRuns, MergeAll, Merges, AllUsable, MergingIterator.Valid;
    var inner := NewMergingIterator(children);
    ghost var xs := inner.M;
    InnerSorted(inner);
    var it := new DBIter(inner, sequence);
    shown := [];
    for i := 0 to |moves|
      invariant fresh(it) && fresh(inner) && fresh(inner.kids) && fresh(inner.tables)
      invariant it.inner == inner && it.Valid() && it.xs == xs && it.sequence == sequence
      invariant it.pos == PosAfter(Visible(xs, sequence), moves[..i])
      invariant |shown| == i
      invariant forall n | 0 <= n < i ::
                  shown[n] == Shown(Visible(xs, sequence), PosAfter(Visible(xs, sequence), moves[..n + 1]))
    {
      assert moves[..i + 1][..i] == moves[..i];
      it.Make(moves[i]);
      var view := it.View();
      shown := shown + [view];
    }
  }

  lemma InnerSorted(inner: MergingIterator)
    requires inner.Valid()
    ensures Sorted(inner.M)
  {
    hide Sorted;
    MergeIsSorted(inner.runs, inner.M);
  }

  /** One past the position, zero when there is none. */
  ghost function Above(at: Option<nat>): nat {
    if at.Some? then at.value + 1 else 0
  }

  lemma RankZero(xs: seq<Entry>, s: nat)
    ensures Rank(xs, s, 0) == 0
  {
  }

  lemma RankPast(xs: seq<Entry>, s: nat, i: nat)
    requires Yields(xs, s, i)
    ensures Rank(xs, s, i + 1) == Rank(xs, s, i) + 1
  {
  }

  lemma RankOfLive(xs: seq<Entry>, s: nat, p: nat)
    requires p < |Live(xs, s, |xs|)|
    ensures Rank(xs, s, Live(xs, s, |xs|)[p]) == p
  {
    LiveBelow(xs, s, |xs|);
    RankOf(xs, s, Live(xs, s, |xs|)[p]);
  }

  lemma NextPassed(xs: seq<Entry>, s: nat, j: nat, from: nat)
    requires Sorted(xs) && from <= j < |xs| && Yields(xs, s, j)
    requires forall m: nat | from <= m < j :: xs[m].stamp > s
    ensures Passed(xs, s, from, true, xs[j].key)
    ensures forall n: nat | from <= n < |xs| && xs[n].stamp <= s :: xs[n].key >= xs[j].key
  {
    forall m: nat | m < j ensures xs[m].key <= xs[j].key { assert Before(xs[m], xs[j]); }
    forall n: nat | j < n < |xs| ensures xs[n].key >= xs[j].key { assert Before(xs[j], xs[n]); }
  }

  lemma NextRank(xs: seq<Entry>, s: nat, j: nat, from: nat, end: nat)
    requires Sorted(xs) && Yields(xs, s, j) && from <= j && from <= end <= |xs|
    requires NoneWanted(xs, s, true, xs[j].key, from, end)
    requires end < |xs| ==> Wanted(xs, s, true, xs[j].key, end)
    ensures Rank(xs, s, end) == Rank(xs, s, j) + 1
  {
    assert j < end;
    forall n: nat | j + 1 <= n < end ensures !Yields(xs, s, n) {
      assert Before(xs[j], xs[n]) && !Wanted(xs, s, true, xs[j].key, n);
    }
    RankAcross(xs, s, j + 1, end);
  }

  lemma PrevRank(xs: seq<Entry>, s: nat, j: nat, end: nat)
    requires Sorted(xs) && Yields(xs, s, j) && end <= j
    requires forall m: nat | end <= m < j :: xs[m].key == xs[j].key || xs[m].stamp > s
    ensures Rank(xs, s, j) == Rank(xs, s, end) && Rank(xs, s, 0) == 0
  {
    RankAcross(xs, s, end, j);
  }

  lemma SeekPassed(xs: seq<Entry>, s: nat, k: Key)
    requires Sorted(xs) && SeekIndex(xs, k, s) < |xs|
    ensures Passed(xs, s, SeekIndex(xs, k, s), false, k)
  {
    var i := SeekIndex(xs, k, s);
    forall n | i <= n < |xs| ensures xs[n].key >= k { assert i < n ==> Before(xs[i], xs[n]); }
  }

  lemma SeekRank(xs: seq<Entry>, s: nat, k: Key, end: nat)
    requires Sorted(xs) && SeekIndex(xs, k, s) <= end <= |xs|
    requires NoneIn(xs, s, SeekIndex(xs, k, s), end) && (end < |xs| ==> Yields(xs, s, end))
    ensures FirstFrom(Visible(xs, s), k) == Rank(xs, s, end)
  {
    var i, vis, live := SeekIndex(xs, k, s), Visible(xs, s), Live(xs, s, |xs|);
    LiveBelow(xs, s, |xs|);
    LivePrefix(xs, s, end, |xs|);
    LiveBelow(xs, s, end);
    VisibleOrdered(xs, s);
    forall q | 0 <= q < Rank(xs, s, end) ensures vis[q].key < k {
      assert Live(xs, s, end)[q] == live[q] < i;
    }
    if end < |xs| {
      RankOf(xs, s, end);
      assert i < end ==> Before(xs[i], xs[end]);
    }
    FirstFromIs(vis, k, Rank(xs, s, end));
  }

  lemma FirstFromIs(vis: seq<Entry>, k: Key, p: nat)
    requires p <= |vis| && (p < |vis| ==> vis[p].key >= k) && forall q | 0 <= q < p :: vis[q].key < k
    ensures FirstFrom(vis, k) == p
  {
  }

  lemma StopsRun(xs: seq<Entry>, s: nat, c: nat, q: nat)
    requires Sorted(xs) && c < q < |xs| && xs[c].key < xs[q].key && xs[q].kind == Value && xs[q].stamp <= s
    requires forall m: nat | c < m < q :: xs[m].stamp > s
    ensures Yields(xs, s, q)
  {
    forall m | 0 <= m <= c ensures xs[m].key < xs[q].key { assert m < c ==> Before(xs[m], xs[c]); }
  }

  lemma TakesOver(xs: seq<Entry>, s: nat, c: nat, q: nat, kind: Kind, end: nat)
    requires Sorted(xs) && c < q <= end <= |xs| && xs[c].stamp <= s && NoneIn(xs, s, q + 1, end)
    requires forall m: nat | c < m < q :: xs[m].stamp > s
    requires kind == Deletion ==> NoneIn(xs, s, q, end)
    requires kind == Value ==> q < |xs| && xs[c].key >= xs[q].key
    ensures NoneIn(xs, s, c + 1, end)
    ensures xs[c].kind == Deletion ==> NoneIn(xs, s, c, end)
  {
    if kind == Value { assert Before(xs[c], xs[q]); }
  }

  lemma NothingVisible(xs: seq<Entry>, s: nat, q: nat)
    requires q <= |xs| && forall m: nat | m < q :: xs[m].stamp > s
    ensures NoneIn(xs, s, 0, q)
  {
  }

  lemma DeletionHides(xs: seq<Entry>, s: nat, c: nat, skipping: bool, skip: Key)
    requires Sorted(xs) && c < |xs| && xs[c].stamp <= s && xs[c].kind == Deletion
    requires Passed(xs, s, c, skipping, skip)
    ensures Passed(xs, s, c + 1, true, xs[c].key)
    ensures forall n: nat | c < n < |xs| && xs[n].key <= xs[c].key :: !Yields(xs, s, n)
  {
    forall n: nat | c < n < |xs| ensures xs[c].key <= xs[n].key { assert Before(xs[c], xs[n]); }
    forall m, n | 0 <= m < c + 1 <= n < |xs| && xs[m].key == xs[n].key ensures xs[n].key <= xs[c].key {
      if m < c { assert Before(xs[m], xs[c]); }
    }
  }
}
