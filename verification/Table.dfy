/** A table file: data blocks behind an index of separators, with optional filters.  A point lookup
    reads one block at most and still finds the newest entry. */
module Table {
  import opened Wrappers
  import opened Entries
  import opened Bloom
  import opened FilterBlock
  import opened TwoLevel

  // ----- What the index has to satisfy -----

  /** Separator `x` between a block ending in `last` and whatever follows it: `last` itself, or a
      user key strictly between. */
  ghost predicate Parts(x: IndexEntry, last: Entry, next: Option<Entry>) {
    || (x.key == last.key && x.stamp == last.stamp)
    || (last.key < x.key && (next.Some? ==> x.key < next.value.key))
  }

  /** A table: index, blocks by handle (their file offset), filters. */
  datatype TableData = TableData(index: seq<IndexEntry>, blocks: map<nat, seq<Entry>>, filters: Option<Filters>)

  function BlockOf(t: TableData, handle: nat): seq<Entry> {
    if handle in t.blocks then t.blocks[handle] else []
  }

  /** No block is empty, and each separator parts its block from the next one. */
  ghost predicate Indexed(t: TableData) {
    && (forall i | 0 <= i < |t.index| :: BlockOf(t, t.index[i].handle) != [])
    && (forall i | 0 <= i < |t.index| :: Parts(t.index[i], LastIn(t, i), FirstAfter(t, i)))
  }

  ghost function LastIn(t: TableData, i: nat): Entry
    requires i < |t.index| && BlockOf(t, t.index[i].handle) != []
  {
    var b := BlockOf(t, t.index[i].handle); b[|b| - 1]
  }

  ghost function FirstAfter(t: TableData, i: nat): Option<Entry>
    requires forall i | 0 <= i < |t.index| :: BlockOf(t, t.index[i].handle) != []
  {
    if i + 1 < |t.index| then Some(BlockOf(t, t.index[i + 1].handle)[0]) else None
  }

  ghost function Loader(t: TableData): nat -> seq<Entry> {
    (h: nat) => BlockOf(t, h)
  }

  ghost function Contents(t: TableData): seq<Entry> {
    All(t.index, Loader(t))
  }

  /** Every key is covered by the filter of its block. */
  ghost predicate Filtered(t: TableData, hash: Hash) {
    t.filters.Some? ==>
      && WellFormed(t.filters.value)
      && forall i, p | 0 <= i < |t.index| && 0 <= p < |BlockOf(t, t.index[i].handle)| ::
           Holds(t.filters.value, hash, t.index[i].handle / FILTER_BASE, BlockOf(t, t.index[i].handle)[p].key)
  }

  // ----- Lookup -----

  /** The block a lookup reads: the one the index names, unless the filters rule the key out. */
  ghost function BlockRead(t: TableData, k: Key, s: nat, out: bool): Option<nat> {
    var i := IndexSeek(t.index, k, s);
    if i < |t.index| && !out then Some(t.index[i].handle) else None
  }

  /** `Table::InternalGet`: the entry handed to the caller's `saver`, if any, and the block read for it. */
  method InternalGet(t: TableData, policy: BloomFilterPolicy, hash: Hash, k: Key, s: nat)
    returns (r: Option<Entry>, read: Option<nat>)
    requires Sorted(Contents(t)) && Indexed(t) && Filtered(t, hash)
    ensures Lookup(Contents(t), k, s) == if r.Some? && r.value.key == k then r else None
    ensures var i := IndexSeek(t.index, k, s);
            read == BlockRead(t, k, s, i < |t.index| && t.filters.Some? && WellFormed(t.filters.value)
                                       && RuledOut(t.filters.value, hash, t.index[i].handle, k))
  {
    hide Sorted, Indexed, Holds;
    r, read := None, None;
    var i := IndexSeek(t.index, k, s);
    if i < |t.index| {
      var handle := t.index[i].handle;
      var skip := false;
      if t.filters.Some? {
        var may := KeyMayMatch(t.filters.value, policy, hash, handle, k);
        skip := !may;
      }
      if !skip {
        read := Some(handle);
        var b := BlockOf(t, handle);
        var p := SeekIndex(b, k, s);
        if p < |b| {
          r := Some(b[p]);
        }
      } else {
        NotThere(t, hash, k, s, i);
      }
    }
    OneBlockEnough(t, k, s);
  }

  /** The block the index names answers for the whole table. */
  lemma OneBlockEnough(t: TableData, k: Key, s: nat)
    requires Sorted(Contents(t)) && Indexed(t)
    ensures var i := IndexSeek(t.index, k, s);
            Lookup(Contents(t), k, s) == if i < |t.index| then Lookup(BlockOf(t, t.index[i].handle), k, s) else None
  {
    hide Sorted, Separates, SeekIndex, IndexSeek, Indexed, Concat;
    var load := Loader(t);
    IndexSeparates(t);
    SeekLands(t.index, load, k, s);
    var i := IndexSeek(t.index, k, s);
    if i < |t.index| {
      var b := BlockOf(t, t.index[i].handle);
      var p := SeekIndex(b, k, s);
      if p < |b| {
        ConcatAt(t.index, load, |t.index|, i, p);
      } else {
        ConcatStep(t, i);
        if i + 1 < |t.index| {
          NextBlockIsAnother(t, k, s, i);
          ConcatAt(t.index, load, |t.index|, i + 1, 0);
        }
      }
    }
  }

  lemma ConcatStep(t: TableData, i: nat)
    requires i < |t.index|
    ensures |Concat(t.index, Loader(t), i + 1)| == |Concat(t.index, Loader(t), i)| + |BlockOf(t, t.index[i].handle)|
  {
  }

  /** When the chosen block ends before the target, the next block starts with another user key. */
  lemma NextBlockIsAnother(t: TableData, k: Key, s: nat, i: nat)
    requires Indexed(t) && i + 1 < |t.index| && IndexAtOrAfter(t.index[i], k, s)
    requires SeekIndex(BlockOf(t, t.index[i].handle), k, s) == |BlockOf(t, t.index[i].handle)|
    ensures BlockOf(t, t.index[i + 1].handle) != [] && BlockOf(t, t.index[i + 1].handle)[0].key > k
  {
    assert Parts(t.index[i], LastIn(t, i), FirstAfter(t, i));
    assert !AtOrAfter(LastIn(t, i), k, s);
  }

  /** Entries of earlier blocks come first. */
  lemma AcrossBlocks(t: TableData, i: nat, p: nat, j: nat, q: nat)
    requires Sorted(Contents(t)) && i < |t.index| && j < |t.index|
    requires p < |BlockOf(t, t.index[i].handle)| && q < |BlockOf(t, t.index[j].handle)|
    requires i < j || (i == j && p < q)
    ensures Before(BlockOf(t, t.index[i].handle)[p], BlockOf(t, t.index[j].handle)[q])
  {
    var load := Loader(t);
    ConcatAt(t.index, load, |t.index|, i, p);
    ConcatAt(t.index, load, |t.index|, j, q);
    if i < j {
      ConcatPrefix(t.index, load, i + 1, j);
    }
  }

  lemma IndexSeparates(t: TableData)
    requires Sorted(Contents(t)) && Indexed(t)
    ensures Separates(t.index, Loader(t))
  {
    forall i, j, p | 0 <= i < |t.index| && 0 <= j < |t.index| && 0 <= p < |Loader(t)(t.index[j].handle)|
      ensures AtOrBefore(Loader(t)(t.index[j].handle)[p], t.index[i]) <==> j <= i
    {
      if j <= i {
        NotAfterSeparator(t, i, j, p);
      } else {
        AfterSeparator(t, i, j, p);
      }
    }
  }

  lemma NotAfterSeparator(t: TableData, i: nat, j: nat, p: nat)
    requires Sorted(Contents(t)) && Indexed(t) && j <= i < |t.index| && p < |BlockOf(t, t.index[j].handle)|
    ensures AtOrBefore(BlockOf(t, t.index[j].handle)[p], t.index[i])
  {
    hide Sorted, Contents;
    var b := BlockOf(t, t.index[i].handle);
    assert Parts(t.index[i], LastIn(t, i), FirstAfter(t, i));
    if j < i || p < |b| - 1 { AcrossBlocks(t, j, p, i, |b| - 1); }
  }

  lemma AfterSeparator(t: TableData, i: nat, j: nat, p: nat)
    requires Sorted(Contents(t)) && Indexed(t) && i < j < |t.index| && p < |BlockOf(t, t.index[j].handle)|
    ensures !AtOrBefore(BlockOf(t, t.index[j].handle)[p], t.index[i])
  {
    hide Sorted, Contents;
    var b := BlockOf(t, t.index[i].handle);
    assert Parts(t.index[i], LastIn(t, i), FirstAfter(t, i));
    AcrossBlocks(t, i, |b| - 1, j, p);
    if i + 1 < j || p > 0 { AcrossBlocks(t, i + 1, 0, j, p); }
  }

  lemma NotThere(t: TableData, hash: Hash, k: Key, s: nat, i: nat)
    requires i < |t.index| && t.filters.Some? && Filtered(t, hash)
    requires !Holds(t.filters.value, hash, t.index[i].handle / FILTER_BASE, k)
    ensures Lookup(BlockOf(t, t.index[i].handle), k, s) == None
  {
    hide Holds;
  }

  /** Why a separator must not fall between two versions of a key, as those that
      `InternalKeyComparator::FindShortestSeparator` makes do not: being at or after the block and before
      the next one is not enough, the older version would be hidden from every lookup in between. */
  lemma LooseSeparatorMisses(newer: Entry, older: Entry, sep: Stamp, s: Stamp)
    requires newer.key == older.key && newer.stamp > s >= sep > older.stamp
    ensures var k := newer.key;
            var t := TwoBlocks(newer, older, sep);
            && Separates(t.index, Loader(t)) && Contents(t) == [newer, older] && Sorted(Contents(t))
            && Lookup(Contents(t), k, s) == Some(older)
            && IndexSeek(t.index, k, s) == 0 && Lookup(BlockOf(t, 0), k, s) == None
  {
    var t, k := TwoBlocks(newer, older, sep), newer.key;
    var load := Loader(t);
    assert BlockOf(t, 0) == [newer] && BlockOf(t, 100) == [older];
    assert Concat(t.index, load, 0) == [];
    assert Concat(t.index, load, 1) == [newer];
    assert Contents(t) == [newer, older];
    assert [newer, older][1..] == [older] && [newer][1..] == [];
    assert SeekIndex([older], k, s) == 0;
    assert SeekIndex([newer, older], k, s) == 1;
    assert SeekIndex([newer], k, s) == 1;
  }

  function TwoBlocks(newer: Entry, older: Entry, sep: Stamp): TableData {
    TableData([IndexEntry(newer.key, sep, 0), IndexEntry(older.key, older.stamp, 100)],
              map[0 := [newer], 100 := [older]], None)
  }
}
