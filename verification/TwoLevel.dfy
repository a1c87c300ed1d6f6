/** `TwoLevelIterator`: an index over blocks and a cursor inside the current block behave as one
    cursor over the concatenation, empty blocks included. */
module TwoLevel {
  import opened Wrappers
  import opened Entries
  import opened Cursors

  /** An index entry: an internal key at or after everything in its block, and the block's handle. */
  datatype IndexEntry = IndexEntry(key: Key, stamp: nat, handle: nat)

  predicate IndexAtOrAfter(x: IndexEntry, k: Key, s: nat) {
    x.key > k || (x.key == k && x.stamp <= s)
  }

  predicate AtOrBefore(e: Entry, x: IndexEntry) {
    e.key < x.key || (e.key == x.key && e.stamp >= x.stamp)
  }

  function IndexSeek(index: seq<IndexEntry>, k: Key, s: nat): (i: nat)
    ensures i <= |index|
    ensures i < |index| ==> IndexAtOrAfter(index[i], k, s)
    ensures forall j | 0 <= j < i :: !IndexAtOrAfter(index[j], k, s)
  {
    if index == [] || IndexAtOrAfter(index[0], k, s) then 0 else 1 + IndexSeek(index[1..], k, s)
  }

  /** The first `n` blocks, one after the other. */
  ghost function Concat(index: seq<IndexEntry>, load: nat -> seq<Entry>, n: nat): seq<Entry>
    requires n <= |index|
  {
    if n == 0 then [] else Concat(index, load, n - 1) + load(index[n - 1].handle)
  }

  ghost function All(index: seq<IndexEntry>, load: nat -> seq<Entry>): seq<Entry> {
    Concat(index, load, |index|)
  }

  /** Index keys separate the blocks. */
  ghost predicate Separates(index: seq<IndexEntry>, load: nat -> seq<Entry>) {
    forall i, j, p | 0 <= i < |index| && 0 <= j < |index| && 0 <= p < |load(index[j].handle)| ::
      AtOrBefore(load(index[j].handle)[p], index[i]) <==> j <= i
  }

  lemma {:induction false} ConcatAt(index: seq<IndexEntry>, load: nat -> seq<Entry>, n: nat, i: nat, p: nat)
    requires i < n <= |index| && p < |load(index[i].handle)|
    ensures |Concat(index, load, i)| + p < |Concat(index, load, n)|
    ensures Concat(index, load, n)[|Concat(index, load, i)| + p] == load(index[i].handle)[p]
  {
    if i < n - 1 { ConcatAt(index, load, n - 1, i, p); }
  }

  lemma {:induction false} ConcatPrefix(index: seq<IndexEntry>, load: nat -> seq<Entry>, m: nat, n: nat)
    requires m <= n <= |index|
    ensures Concat(index, load, m) <= Concat(index, load, n)
  {
    if m < n { ConcatPrefix(index, load, m, n - 1); }
  }

  /** Where an entry of the concatenation comes from. */
  lemma {:induction false} Origin(index: seq<IndexEntry>, load: nat -> seq<Entry>, n: nat, q: nat)
    returns (i: nat, p: nat)
    requires n <= |index| && q < |Concat(index, load, n)|
    ensures i < n && p < |load(index[i].handle)| && q == |Concat(index, load, i)| + p
    ensures Concat(index, load, n)[q] == load(index[i].handle)[p]
  {
    if q < |Concat(index, load, n - 1)| {
      i, p := Origin(index, load, n - 1, q);
    } else {
      i, p := n - 1, q - |Concat(index, load, n - 1)|;
    }
  }

  lemma SeekIs(xs: seq<Entry>, k: Key, s: nat, c: nat)
    requires c <= |xs| && (c < |xs| ==> AtOrAfter(xs[c], k, s)) && forall j | 0 <= j < c :: !AtOrAfter(xs[j], k, s)
    ensures SeekIndex(xs, k, s) == c
  {
  }

  /** Seeking the index and then the block it names is seeking the concatenation. */
  lemma SeekLands(index: seq<IndexEntry>, load: nat -> seq<Entry>, k: Key, s: nat)
    requires Sorted(All(index, load)) && Separates(index, load)
    ensures var i := IndexSeek(index, k, s);
            SeekIndex(All(index, load), k, s) ==
            if i < |index| then |Concat(index, load, i)| + SeekIndex(load(index[i].handle), k, s)
            else |All(index, load)|
  {
    var xs, i := All(index, load), IndexSeek(index, k, s);
    var c := if i < |index| then |Concat(index, load, i)| + SeekIndex(load(index[i].handle), k, s) else |xs|;
    if i < |index| { ConcatPrefix(index, load, i + 1, |index|); }
    forall q | 0 <= q < c ensures !AtOrAfter(xs[q], k, s) {
      var j, p := Origin(index, load, |index|, q);
      EarlierBlock(index, load, k, s, j, p, q, c);
    }
    if c < |xs| {
      var j, p := Origin(index, load, |index|, c);
      LaterBlock(index, load, k, s, j, p, c);
    }
    SeekIs(xs, k, s, c);
  }

  lemma EarlierBlock(index: seq<IndexEntry>, load: nat -> seq<Entry>, k: Key, s: nat, j: nat, p: nat, q: nat, c: nat)
    requires Separates(index, load) && j < |index| && p < |load(index[j].handle)|
    requires var i := IndexSeek(index, k, s);
             i < |index| ==> c == |Concat(index, load, i)| + SeekIndex(load(index[i].handle), k, s)
    requires q == |Concat(index, load, j)| + p < c
    ensures !AtOrAfter(load(index[j].handle)[p], k, s)
  {
    var i := IndexSeek(index, k, s);
    if j < i {
      assert AtOrBefore(load(index[j].handle)[p], index[j]) && !IndexAtOrAfter(index[j], k, s);
    } else if i < j {
      ConcatPrefix(index, load, i + 1, j);
    }
  }

  lemma LaterBlock(index: seq<IndexEntry>, load: nat -> seq<Entry>, k: Key, s: nat, j: nat, p: nat, c: nat)
    requires Separates(index, load) && j < |index| && p < |load(index[j].handle)|
    requires var i := IndexSeek(index, k, s);
             i < |index| && c == |Concat(index, load, i)| + SeekIndex(load(index[i].handle), k, s)
    requires c == |Concat(index, load, j)| + p
    ensures AtOrAfter(load(index[j].handle)[p], k, s)
  {
    var i := IndexSeek(index, k, s);
    if j < i {
      ConcatPrefix(index, load, j + 1, i);
    } else if i < j {
      assert !AtOrBefore(load(index[j].handle)[p], index[i]);
    }
  }

  // ----- The iterator -----

  /** A cursor inside one block; `handle` names the block it was made for. */
  datatype DataIter = DataIter(handle: nat, at: Option<nat>)

  class TwoLevelIterator {
    const index: seq<IndexEntry>
    const load: nat -> seq<Entry>
    var indexAt: Option<nat>
    var data: Option<DataIter>

    /** The position in the concatenation. */
    ghost var pos: Option<nat>

    predicate HasEntry()
      reads this
    {
      data.Some? && data.value.at.Some?
    }

    ghost predicate InBlock()
      reads this
    {
      && (indexAt.Some? ==> indexAt.value < |index|)
      && (data.Some? ==> indexAt.Some? && data.value.handle == index[indexAt.value].handle)
      && (HasEntry() ==> data.value.at.value < |load(data.value.handle)|)
    }

    ghost predicate Valid()
      reads this
    {
      && Sorted(All(index, load)) && Separates(index, load)
      && InBlock()
      && (HasEntry() <==> pos.Some?)
      && (HasEntry() ==> pos.value == |Concat(index, load, indexAt.value)| + data.value.at.value < |All(index, load)|)
    }

    constructor (index: seq<IndexEntry>, load: nat -> seq<Entry>)
      requires Sorted(All(index, load)) && Separates(index, load)
      ensures Valid() && this.index == index && this.load == load && pos == None
    {
      this.index, this.load := index, load;
      indexAt, data, pos := None, None, None;
    }

    method Entry() returns (e: Entries.Entry)
      requires Valid() && HasEntry()
      ensures e == All(index, load)[pos.value]
    {
      ConcatAt(index, load, |index|, indexAt.value, data.value.at.value);
      e := load(data.value.handle)[data.value.at.value];
    }

    /** A block iterator already made for this handle is kept, wherever it stands. */
    method InitDataBlock()
      requires indexAt.Some? ==> indexAt.value < |index|
      modifies `data
      ensures data.Some? <==> indexAt.Some?
      ensures data.Some? ==> data.value.handle == index[indexAt.value].handle
    {
      if indexAt.None? {
        data := None;
      } else {
        var handle := index[indexAt.value].handle;
        if data.None? || data.value.handle != handle {
          data := Some(DataIter(handle, None));
        }
      }
    }

    method DataToFirst()
      requires data.Some?
      modifies `data
      ensures var handle := old(data).value.handle;
              data == Some(DataIter(handle, if load(handle) == [] then None else Some(0)))
    {
      data := Some(data.value.(at := if load(data.value.handle) == [] then None else Some(0)));
    }

    method DataToLast()
      requires data.Some?
      modifies `data
      ensures var n := |load(old(data).value.handle)|;
              data == Some(DataIter(old(data).value.handle, if n == 0 then None else Some(n - 1)))
    {
      var n := |load(data.value.handle)|;
      data := Some(data.value.(at := if n == 0 then None else Some(n - 1)));
    }

    /** What a forward skip has to reach: the current entry, or the first entry after the block. */
    ghost function Ahead(): nat
      requires InBlock()
      reads this
    {
      if HasEntry() then |Concat(index, load, indexAt.value)| + data.value.at.value
      else if indexAt.Some? then |Concat(index, load, indexAt.value + 1)|
      else |All(index, load)|
    }

    method SkipEmptyDataBlocksForward()
      requires Sorted(All(index, load)) && Separates(index, load) && InBlock()
      modifies this
      ensures Valid() && pos == At(old(Ahead()), |All(index, load)|)
    {
      hide Separates, Sorted;
      ghost var goal := Ahead();
      while data.None? || data.value.at.None?
        invariant InBlock() && Ahead() == goal
        decreases if indexAt.Some? then |index| - indexAt.value else 0, HasEntry()
      {
        if indexAt.None? {
          data, pos := None, None;
          return;
        }
        indexAt := if indexAt.value + 1 < |index| then Some(indexAt.value + 1) else None;
        InitDataBlock();
        if data.Some? { DataToFirst(); }
      }
      ConcatAt(index, load, |index|, indexAt.value, data.value.at.value);
      pos := Some(goal);
    }

    /** How many entries lie up to the current one, or before the block. */
    ghost function Behind(): nat
      requires InBlock()
      reads this
    {
      if HasEntry() then |Concat(index, load, indexAt.value)| + data.value.at.value + 1
      else if indexAt.Some? then |Concat(index, load, indexAt.value)|
      else 0
    }

    method SkipEmptyDataBlocksBackward()
      requires Sorted(All(index, load)) && Separates(index, load) && InBlock()
      modifies this
      ensures Valid() && pos == LastOf(old(Behind()))
    {
      hide Separates, Sorted;
      ghost var goal := Behind();
      while data.None? || data.value.at.None?
        invariant InBlock() && Behind() == goal
        decreases if indexAt.Some? then indexAt.value + 1 else 0, HasEntry()
      {
        if indexAt.None? {
          data, pos := None, None;
          return;
        }
        indexAt := if indexAt.value > 0 then Some(indexAt.value - 1) else None;
        InitDataBlock();
        if data.Some? { DataToLast(); }
      }
      ConcatAt(index, load, |index|, indexAt.value, data.value.at.value);
      pos := Some(goal - 1);
    }

    method Seek(k: Key, s: nat)
      requires Valid()
      modifies this
      ensures Valid() && pos == Moved(All(index, load), old(pos), Move.Seek(k, s))
    {
      hide Separates, Sorted;
      SeekLands(index, load, k, s);
      var i := IndexSeek(index, k, s);
      indexAt := if i < |index| then Some(i) else None;
      InitDataBlock();
      if data.Some? {
        var p := SeekIndex(load(data.value.handle), k, s);
        data := Some(data.value.(at := if p < |load(data.value.handle)| then Some(p) else None));
      }
      SkipEmptyDataBlocksForward();
    }

    method SeekToFirst()
      requires Valid()
      modifies this
      ensures Valid() && pos == Moved(All(index, load), old(pos), Move.SeekToFirst)
    {
      hide Separates, Sorted;
      assert |index| > 0 ==> Concat(index, load, 1) == Concat(index, load, 0) + load(index[0].handle);
      indexAt := if |index| > 0 then Some(0) else None;
      InitDataBlock();
      if data.Some? { DataToFirst(); }
      SkipEmptyDataBlocksForward();
    }

    method SeekToLast()
      requires Valid()
      modifies this
      ensures Valid() && pos == Moved(All(index, load), old(pos), Move.SeekToLast)
    {
      hide Separates, Sorted;
      indexAt := if |index| > 0 then Some(|index| - 1) else None;
      InitDataBlock();
      if data.Some? { DataToLast(); }
      SkipEmptyDataBlocksBackward();
    }

    method Next()
      requires Valid() && HasEntry()
      modifies this
      ensures Valid() && pos == Moved(All(index, load), old(pos), Move.Next)
    {
      hide Separates, Sorted;
      var p := data.value.at.value + 1;
      data := Some(data.value.(at := if p < |load(data.value.handle)| then Some(p) else None));
      SkipEmptyDataBlocksForward();
    }

    method Prev()
      requires Valid() && HasEntry()
      modifies this
      ensures Valid() && pos == Moved(All(index, load), old(pos), Move.Prev)
    {
      hide Separates, Sorted;
      var p := data.value.at.value;
      data := Some(data.value.(at := if p > 0 then Some(p - 1) else None));
      SkipEmptyDataBlocksBackward();
    }

    /** What a caller does: relative moves only from a valid position. */
    method Make(m: Move)
      requires Valid()
      modifies this
      ensures Valid() && pos == Moved(All(index, load), old(pos), m)
    {
      hide Separates, Sorted, InBlock, All;
      match m
      case Seek(k, s) => Seek(k, s);
      case SeekToFirst => SeekToFirst();
      case SeekToLast => SeekToLast();
      case Next => if HasEntry() { Next(); }
      case Prev => if HasEntry() { Prev(); }
    }
  }

  /** Any run of moves, in any directions, shows what a cursor over the concatenation shows. */
  method Run(index: seq<IndexEntry>, load: nat -> seq<Entry>, moves: seq<Move>)
    returns (shown: seq<Option<Entries.Entry>>)
    requires Sorted(All(index, load)) && Separates(index, load)
    ensures |shown| == |moves|
    ensures forall i | 0 <= i < |moves| :: shown[i] == Shown(All(index, load), moves[..i + 1])
  {
    hide Separates, Sorted, All, Moved;
    var it := new TwoLevelIterator(index, load);
    shown := [];
    for i := 0 to |moves|
      invariant fresh(it) && it.Valid() && it.index == index && it.load == load
      invariant it.pos == PosAfter(All(index, load), moves[..i]) && |shown| == i
      invariant forall n | 0 <= n < i :: shown[n] == Shown(All(index, load), moves[..n + 1])
    {
      assert moves[..i + 1][..i] == moves[..i];
      it.Make(moves[i]);
      if it.HasEntry() {
        var e := it.Entry();
        shown := shown + [Some(e)];
      } else {
        shown := shown + [None];
      }
    }
  }
}
