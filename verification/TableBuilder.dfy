/** Building a table: the index entry for a block waits until the next key is known. */
module TableBuilder {
  import opened Wrappers
  import opened Entries
  import opened Bloom
  import opened FilterBlock
  import opened TwoLevel
  import opened Table

  const TRAILER := 5

  /** `shorten(a, b)` is nothing or a key strictly between `a` and `b`; see module `Separators`. */
  ghost predicate IsShortener(shorten: (Key, Key) -> Option<Key>) {
    forall a, b :: shorten(a, b).Some? ==> a < shorten(a, b).value < b
  }

  ghost predicate IsSuccessor(successor: Key -> Option<Key>) {
    forall a :: successor(a).Some? ==> a < successor(a).value
  }

  /** A finished data block and its file offset. */
  datatype Written = Written(handle: nat, entries: seq<Entry>)

  ghost function Flatten(done: seq<Written>): seq<Entry> {
    if done == [] then [] else Flatten(done[..|done| - 1]) + done[|done| - 1].entries
  }

  lemma FlattenMore(done: seq<Written>, w: Written)
    ensures Flatten(done + [w]) == Flatten(done) + w.entries
  {
    assert (done + [w])[..|done|] == done;
  }

  /** The blocks on file, in order of their offsets. */
  ghost predicate OnFile(done: seq<Written>, blocks: map<nat, seq<Entry>>, offset: nat) {
    && (forall i | 0 <= i < |done| :: done[i].handle < offset && done[i].entries != [])
    && (forall i | 0 <= i < |done| :: done[i].handle in blocks && blocks[done[i].handle] == done[i].entries)
    && (forall i, j | 0 <= i < j < |done| :: done[i].handle < done[j].handle)
  }

  function LastEntry(w: Written): Entry
    requires w.entries != []
  {
    w.entries[|w.entries| - 1]
  }

  /** What follows block `i`: the next block, or the data collected for it. */
  ghost function Following(done: seq<Written>, data: seq<Entry>, i: nat): Option<Entry>
    requires forall i | 0 <= i < |done| :: done[i].entries != []
  {
    if i + 1 < |done| then Some(done[i + 1].entries[0]) else if data != [] then Some(data[0]) else None
  }

  /** How a comparator shortens index keys: between two keys, and behind the last. */
  datatype Shorter = Shorter(between: (Key, Key) -> Option<Key>, behind: Key -> Option<Key>)

  /** The key for a block ending in `last`: shortened when it can be, `last` otherwise. */
  function IndexKey(s: Shorter, last: Entry, next: Option<Entry>, handle: nat): IndexEntry {
    var m := if next.Some? then s.between(last.key, next.value.key) else s.behind(last.key);
    if m.Some? then IndexEntry(m.value, MAX_SEQUENCE, handle) else IndexEntry(last.key, last.stamp, handle)
  }

  ghost predicate IndexOk(index: seq<IndexEntry>, s: Shorter, done: seq<Written>, data: seq<Entry>) {
    && |index| <= |done| && (forall i | 0 <= i < |done| :: done[i].entries != [])
    && forall i | 0 <= i < |index| ::
         && index[i] == IndexKey(s, LastEntry(done[i]), Following(done, data, i), done[i].handle)
         && Parts(index[i], LastEntry(done[i]), Following(done, data, i))
  }

  // ----- Where blocks end -----

  /** The size a block is cut at, the size of a block in the making, and its size on file. */
  datatype Sizes = Sizes(limit: nat, estimate: seq<Entry> -> nat, onFile: seq<Entry> -> nat)

  /** No part of the block had reached the limit. */
  ghost predicate Growing(z: Sizes, entries: seq<Entry>) {
    forall n | 0 < n < |entries| :: z.estimate(entries[..n]) < z.limit
  }

  /** A block is closed when it has reached the limit, and put right behind the one before. */
  ghost predicate BlocksCut(z: Sizes, done: seq<Written>, offset: nat) {
    && (forall i | 0 <= i < |done| :: Growing(z, done[i].entries) && z.estimate(done[i].entries) >= z.limit)
    && Placed(z, done, offset)
  }

  ghost predicate Placed(z: Sizes, done: seq<Written>, offset: nat) {
    && (done != [] ==> done[0].handle == 0)
    && (forall i, j | 0 <= i < j < |done| && j == i + 1 :: done[j].handle == EndOf(z, done[i]))
    && offset == if done == [] then 0 else EndOf(z, done[|done| - 1])
  }

  /** The offset behind a block. */
  ghost function EndOf(z: Sizes, w: Written): nat {
    w.handle + z.onFile(w.entries) + TRAILER
  }

  lemma PlacedMore(z: Sizes, done: seq<Written>, offset: nat, data: seq<Entry>)
    requires Placed(z, done, offset)
    ensures Placed(z, done + [Written(offset, data)], offset + z.onFile(data) + TRAILER)
  {
  }

  lemma CutMore(z: Sizes, done: seq<Written>, offset: nat, data: seq<Entry>)
    requires BlocksCut(z, done, offset) && Growing(z, data) && z.estimate(data) >= z.limit
    ensures BlocksCut(z, done + [Written(offset, data)], offset + z.onFile(data) + TRAILER)
  {
    hide Growing, Placed;
    PlacedMore(z, done, offset, data);
  }

  ghost predicate Unfinished(z: Sizes, data: seq<Entry>) {
    Growing(z, data) && (data != [] ==> z.estimate(data) < z.limit)
  }

  lemma GrowsOn(z: Sizes, data: seq<Entry>, e: Entry)
    requires Unfinished(z, data)
    ensures Growing(z, data + [e])
  {
    forall n | 0 < n < |data + [e]| ensures z.estimate((data + [e])[..n]) < z.limit {
      assert (data + [e])[..n] == if n < |data| then data[..n] else data;
    }
  }

  ghost predicate FilterOk(f: Filters, keys: seq<Key>, hash: Hash, done: seq<Written>) {
    forall i, p | 0 <= i < |done| && 0 <= p < |done[i].entries| ::
      Promises(f, keys, hash, done[i].handle, done[i].entries[p].key)
  }

  ghost predicate DataOk(f: Filters, keys: seq<Key>, hash: Hash, data: seq<Entry>, offset: nat) {
    |f.offsets| == offset / FILTER_BASE && forall p | 0 <= p < |data| :: Promises(f, keys, hash, offset, data[p].key)
  }

  class TableBuilder {
    const hash: Hash
    const shorter: Shorter
    const sizes: Sizes
    const filter: FilterBlockBuilder?
    var offset: nat
    var blocks: map<nat, seq<Entry>>
    var index: seq<IndexEntry>
    var data: seq<Entry>
    var pending: bool
    var pendingHandle: nat
    var lastKey: Option<Entry>

    /** The finished blocks, and every entry added. */
    ghost var done: seq<Written>
    ghost var entries: seq<Entry>

    ghost predicate Filtering()
      reads `entries, `done, `data, `offset, filter
    {
      Collected(|entries|, done, data, offset)
    }

    /** The filters account for `n` keys: those of the finished blocks and of the collected data. */
    ghost predicate Collected(n: nat, done: seq<Written>, data: seq<Entry>, offset: nat)
      reads filter
    {
      filter != null ==>
        && filter.Valid() && filter.hash == hash && filter.Weight() <= n * Share(filter.policy)
        && FilterOk(filter.filters, filter.keys, hash, done)
        && DataOk(filter.filters, filter.keys, hash, data, offset)
    }

    ghost predicate Valid()
      reads this, filter
    {
      Core() && Filtering() && BlocksCut(sizes, done, offset) && Unfinished(sizes, data)
    }

    ghost predicate Core()
      reads this
    {
      && IsShortener(shorter.between) && IsSuccessor(shorter.behind)
      && entries == Flatten(done) + data && Entries.Sorted(entries)
      && OnFile(done, blocks, offset) && IndexOk(index, shorter, done, data)
      && |index| == |done| - (if pending then 1 else 0)
      && (pending ==> data == [] && pendingHandle == done[|done| - 1].handle)
      && (!pending && data == [] ==> done == [])
      && lastKey == (if entries == [] then None else Some(entries[|entries| - 1]))
    }

    constructor (hash: Hash, shorter: Shorter, sizes: Sizes, filter: FilterBlockBuilder?)
      requires IsShortener(shorter.between) && IsSuccessor(shorter.behind)
      requires filter != null ==> filter.Valid() && filter.hash == hash
      requires filter != null ==> filter.keys == [] && filter.filters == Filters([], [])
      ensures Valid() && entries == [] && this.hash == hash && this.filter == filter
      ensures this.shorter == shorter && this.sizes == sizes && done == [] && data == []
    {
      this.hash, this.shorter, this.sizes, this.filter := hash, shorter, sizes, filter;
      offset, blocks, index, data, pending, pendingHandle, lastKey := 0, map[], [], [], false, 0, None;
      done, entries := [], [];
    }

    /** The separator for the finished block, now that the next key is known. */
    method AddIndexEntry(e: Entry)
      requires Core() && pending && (entries == [] || Before(entries[|entries| - 1], e))
      modifies `index, `pending
      ensures !pending && |index| == |done| && IndexOk(index, shorter, done, [e])
    {
      hide Sorted, IndexOk, IsShortener, IsSuccessor, IndexKey, Before;
      LastOfLast(done);
      IndexPut(index, shorter, done, Some(e));
      index := index + [IndexKey(shorter, lastKey.value, Some(e), pendingHandle)];
      pending := false;
    }

    method Add(e: Entry)
      requires Valid() && (entries == [] || Before(entries[|entries| - 1], e))
      modifies this, filter
      ensures Valid() && entries == old(entries) + [e]
    {
      hide Growing, BlocksCut, IsShortener, IsSuccessor, OnFile, IndexOk, FilterOk, DataOk, Sorted, Flatten, Before,
           TableBuilder.Filtering;
      if pending {
        AddIndexEntry(e);
        assert data + [e] == [e];
      } else {
        IndexReady(index, shorter, done, data, e);
      }
      AddData(e);
      if sizes.estimate(data) >= sizes.limit {
        CutMore(sizes, done, offset, data);
        Flush();
        NothingGrows(sizes);
      }
    }

    method AddData(e: Entry)
      requires !pending && IndexOk(index, shorter, done, data + [e]) && |index| == |done|
      requires IsShortener(shorter.between) && IsSuccessor(shorter.behind) && OnFile(done, blocks, offset)
      requires Filtering() && BlocksCut(sizes, done, offset) && Unfinished(sizes, data)
      requires entries == Flatten(done) + data && Entries.Sorted(entries)
      requires entries == [] || Before(entries[|entries| - 1], e)
      modifies this, filter
      ensures Core() && Filtering() && entries == old(entries) + [e] && data == old(data) + [e]
      ensures done == old(done) && offset == old(offset) && Growing(sizes, data)
    {
      hide IsShortener, IsSuccessor, OnFile, IndexOk, FilterOk, DataOk, Sorted, Flatten, Growing, BlocksCut,
           TableBuilder.Collected;
      CollectKey(e);
      SortedMore(entries, e);
      GrowsOn(sizes, data, e);
      assert Flatten(done) + data + [e] == Flatten(done) + (data + [e]);
      lastKey := Some(e);
      entries := entries + [e];
      data := data + [e];
    }

    method CollectKey(e: Entry)
      requires Filtering()
      modifies filter
      ensures Collected(|entries| + 1, done, data + [e], offset)
    {
      hide FilterOk, DataOk, Share;
      if filter != null {
        KeyAdded(filter.filters, filter.keys, hash, done, data, offset, e);
        filter.AddKey(e.key);
        ShareMore(|entries|, filter.policy);
      }
    }

    /** `WriteBlock` for the collected data. */
    method WriteData()
      requires Core() && data != []
      modifies this
      ensures Core() && entries == old(entries) && data == []
      ensures offset == old(offset) + sizes.onFile(old(data)) + TRAILER
      ensures done == old(done) + [Written(old(offset), old(data))]
    {
      hide IsShortener, IsSuccessor, OnFile, IndexOk, Sorted, Flatten;
      ghost var w := Written(offset, data);
      var size := sizes.onFile(data);
      FlattenMore(done, w);
      OnFileMore(done, blocks, w, offset + size + TRAILER);
      IndexMore(index, shorter, done, data, offset);
      assert Flatten(done) + data + [] == Flatten(done) + data;
      pendingHandle := offset;
      blocks := blocks[offset := data];
      done := done + [w];
      offset := offset + size + TRAILER;
      data, pending := [], true;
    }

    /** `Flush`: the collected data becomes a block, and the filters move on to the next offset. */
    method Flush()
      requires Core() && Filtering()
      modifies this, filter
      ensures Core() && Filtering() && entries == old(entries) && data == []
      ensures done == if old(data) == [] then old(done) else old(done) + [Written(old(offset), old(data))]
      ensures offset == if old(data) == [] then old(offset) else old(offset) + sizes.onFile(old(data)) + TRAILER
    {
      hide Core, FilterOk, DataOk;
      if data == [] {
        return;
      }
      ghost var before, was, at := done, data, offset;
      WriteData();
      if filter != null {
        ghost var f, keys := filter.filters, filter.keys;
        FilterMore(f, keys, hash, before, was, at);
        filter.StartBlock(offset);
        FilterKept(f, keys, filter.filters, filter.keys, hash, done);
        NothingCollected(filter.filters, filter.keys, hash, offset);
      }
    }

    /** The last separator has nothing to stay below. */
    method AddLastIndexEntry()
      requires Core() && data == []
      modifies `index, `pending
      ensures |index| == |done| && IndexOk(index, shorter, done, [])
    {
      hide Sorted, IndexOk, IsShortener, IsSuccessor, IndexKey;
      if pending {
        LastOfLast(done);
        IndexPut(index, shorter, done, None);
        index := index + [IndexKey(shorter, lastKey.value, None, pendingHandle)];
        pending := false;
      }
    }

    method FinishFilters() returns (filters: Option<Filters>)
      requires Filtering()
      modifies filter
      ensures filters.Some? ==> WellFormed(filters.value) && AllHold(filters.value, hash, done)
      ensures filters.Some? <==> filter != null
      ensures filters.Some? ==> |filters.value.data| <= |entries| * Share(filter.policy)
    {
      hide FilterOk, DataOk, Holds, WellFormed;
      filters := None;
      if filter != null {
        ghost var f, keys := filter.filters, filter.keys;
        var fs := filter.Finish();
        filters := Some(fs);
        AllFiltered(f, keys, fs, hash, done);
      }
    }

    /** `Finish`. */
    method Finish() returns (t: TableData)
      requires Valid()
      modifies this, filter
      ensures Indexed(t) && Filtered(t, hash) && Table.Contents(t) == old(entries) && Entries.Sorted(old(entries))
      ensures t.filters.Some? <==> filter != null
      ensures t.filters.Some? ==> |t.filters.value.data| <= |old(entries)| * Share(filter.policy)
      ensures AsCut(t, shorter, sizes)
    {
      hide FilterOk, DataOk, IndexOk, OnFile, AllHold, WellFormed, Sorted, Flatten, IsShortener, IsSuccessor, BlocksCut,
           Unfinished, AsCut, AllCut;
      CutAtEnd(sizes, done, offset, data);
      Flush();
      AddLastIndexEntry();
      var filters := FinishFilters();
      t := TableData(index, blocks, filters);
      FinishedTable(t, shorter, done, offset, hash);
      FinishedCut(t, shorter, sizes, done, offset);
      assert Flatten(done) + [] == Flatten(done);
    }
  }

  ghost predicate AllHold(fs: Filters, hash: Hash, done: seq<Written>) {
    forall i, p | 0 <= i < |done| && 0 <= p < |done[i].entries| ::
      Holds(fs, hash, done[i].handle / FILTER_BASE, done[i].entries[p].key)
  }

  lemma AllFiltered(f: Filters, keys: seq<Key>, fs: Filters, hash: Hash, done: seq<Written>)
    requires FilterOk(f, keys, hash, done)
    requires forall o: nat, key: Key | Promises(f, keys, hash, o, key) :: Holds(fs, hash, o / FILTER_BASE, key)
    ensures AllHold(fs, hash, done)
  {
    hide Holds, Promises;
  }

  lemma BlockIsDone(t: TableData, s: Shorter, done: seq<Written>, offset: nat, i: nat)
    requires OnFile(done, t.blocks, offset) && IndexOk(t.index, s, done, []) && i < |t.index|
    ensures BlockOf(t, t.index[i].handle) == done[i].entries && t.index[i].handle == done[i].handle
  {
  }

  lemma FinishedTable(t: TableData, s: Shorter, done: seq<Written>, offset: nat, hash: Hash)
    requires OnFile(done, t.blocks, offset) && IndexOk(t.index, s, done, []) && |t.index| == |done|
    requires t.filters.Some? ==> WellFormed(t.filters.value) && AllHold(t.filters.value, hash, done)
    ensures Indexed(t) && Filtered(t, hash) && Table.Contents(t) == Flatten(done)
  {
    hide Holds;
    forall i | 0 <= i < |t.index| ensures BlockOf(t, t.index[i].handle) == done[i].entries {
      BlockIsDone(t, s, done, offset, i);
    }
    FlattenIsConcat(t, done, |done|);
    assert done[..|done|] == done;
  }

  /** Separators are shortened, blocks lie one behind the other, and each ends when it has reached the limit; the
      last may end earlier. */
  ghost predicate AsCut(t: TableData, s: Shorter, z: Sizes) {
    && (forall i | 0 <= i < |t.index| :: BlockOf(t, t.index[i].handle) != [])
    && (forall i | 0 <= i < |t.index| ::
          && t.index[i] == IndexKey(s, LastIn(t, i), FirstAfter(t, i), t.index[i].handle)
          && Growing(z, BlockOf(t, t.index[i].handle))
          && (i + 1 < |t.index| ==> z.estimate(BlockOf(t, t.index[i].handle)) >= z.limit))
    && (t.index != [] ==> t.index[0].handle == 0)
    && forall i, j | 0 <= i < j < |t.index| && j == i + 1 ::
         t.index[j].handle == EndOf(z, Written(t.index[i].handle, BlockOf(t, t.index[i].handle)))
  }

  /** The same of the finished blocks. */
  ghost predicate AllCut(z: Sizes, done: seq<Written>, offset: nat) {
    && Placed(z, done, offset) && (forall i | 0 <= i < |done| :: Growing(z, done[i].entries))
    && forall i | 0 <= i < |done| - 1 :: z.estimate(done[i].entries) >= z.limit
  }

  lemma CutAtEnd(z: Sizes, done: seq<Written>, offset: nat, data: seq<Entry>)
    requires BlocksCut(z, done, offset) && Unfinished(z, data)
    ensures if data == [] then AllCut(z, done, offset)
            else AllCut(z, done + [Written(offset, data)], offset + z.onFile(data) + TRAILER)
  {
    hide Growing, Placed;
    PlacedMore(z, done, offset, data);
  }

  lemma FinishedCut(t: TableData, s: Shorter, z: Sizes, done: seq<Written>, offset: nat)
    requires OnFile(done, t.blocks, offset) && IndexOk(t.index, s, done, []) && |t.index| == |done|
    requires AllCut(z, done, offset)
    ensures AsCut(t, s, z)
  {
    hide Growing, OnFile, IndexKey, Parts;
    forall i | 0 <= i < |t.index|
      ensures BlockOf(t, t.index[i].handle) == done[i].entries != [] && t.index[i].handle == done[i].handle
    {
      BlockIsDone(t, s, done, offset, i);
    }
    forall i | 0 <= i < |t.index|
      ensures t.index[i] == IndexKey(s, LastIn(t, i), FirstAfter(t, i), t.index[i].handle)
    {
      assert LastIn(t, i) == LastEntry(done[i]) && FirstAfter(t, i) == Following(done, [], i);
    }
    forall i | 0 <= i < |t.index| ensures Written(t.index[i].handle, BlockOf(t, t.index[i].handle)) == done[i] {}
  }

  lemma {:induction false} FlattenIsConcat(t: TableData, done: seq<Written>, n: nat)
    requires n <= |done| == |t.index| && forall i | 0 <= i < |done| :: BlockOf(t, t.index[i].handle) == done[i].entries
    ensures Concat(t.index, Loader(t), n) == Flatten(done[..n])
  {
    if n > 0 {
      FlattenIsConcat(t, done, n - 1);
      assert done[..n][..n - 1] == done[..n - 1];
    }
  }

  lemma SortedMore(xs: seq<Entry>, e: Entry)
    requires Sorted(xs) && (xs == [] || Before(xs[|xs| - 1], e))
    ensures Sorted(xs + [e])
  {
    var r := xs + [e];
    forall i, j | 0 <= i < j < |r| ensures Before(r[i], r[j]) {
      if j == |xs| && i < |xs| - 1 { assert Before(xs[i], xs[|xs| - 1]); }
    }
  }

  lemma KeyAdded(f: Filters, keys: seq<Key>, hash: Hash, done: seq<Written>, data: seq<Entry>, offset: nat, e: Entry)
    requires FilterOk(f, keys, hash, done) && DataOk(f, keys, hash, data, offset)
    ensures FilterOk(f, keys + [e.key], hash, done) && DataOk(f, keys + [e.key], hash, data + [e], offset)
  {
    hide Holds;
  }

  lemma OnFileMore(done: seq<Written>, blocks: map<nat, seq<Entry>>, w: Written, offset: nat)
    requires OnFile(done, blocks, w.handle) && w.entries != [] && w.handle < offset
    ensures OnFile(done + [w], blocks[w.handle := w.entries], offset)
  {
  }

  lemma IndexMore(index: seq<IndexEntry>, s: Shorter, done: seq<Written>, data: seq<Entry>, offset: nat)
    requires IndexOk(index, s, done, data) && data != [] && |index| == |done|
    ensures IndexOk(index, s, done + [Written(offset, data)], [])
  {
    var done' := done + [Written(offset, data)];
    hide Parts, IndexKey;
    assert forall i | 0 <= i < |index| :: Following(done', [], i) == Following(done, data, i) && done'[i] == done[i];
  }

  lemma ShareMore(n: nat, policy: BloomFilterPolicy)
    ensures (n + 1) * Share(policy) == n * Share(policy) + Share(policy)
  {
  }

  /** The entry for the last finished block. */
  lemma IndexPut(index: seq<IndexEntry>, s: Shorter, done: seq<Written>, next: Option<Entry>)
    requires IndexOk(index, s, done, []) && |index| + 1 == |done| && IsShortener(s.between) && IsSuccessor(s.behind)
    requires next.Some? ==> Before(LastEntry(done[|done| - 1]), next.value)
    ensures var w := done[|done| - 1];
            IndexOk(index + [IndexKey(s, LastEntry(w), next, w.handle)], s, done,
                    if next.Some? then [next.value] else [])
  {
    var n := |index|;
    var x := IndexKey(s, LastEntry(done[n]), next, done[n].handle);
    assert Parts(x, LastEntry(done[n]), next);
    hide Parts, IndexKey;
  }

  lemma NothingGrows(z: Sizes)
    ensures Growing(z, [])
  {
  }

  lemma IndexReady(index: seq<IndexEntry>, s: Shorter, done: seq<Written>, data: seq<Entry>, e: Entry)
    requires IndexOk(index, s, done, data) && |index| == |done| && (data == [] ==> done == [])
    ensures IndexOk(index, s, done, data + [e])
  {
    hide Parts, IndexKey;
    assert forall i | 0 <= i < |index| :: Following(done, data + [e], i) == Following(done, data, i);
  }

  lemma FilterMore(f: Filters, keys: seq<Key>, hash: Hash, done: seq<Written>, data: seq<Entry>, offset: nat)
    requires FilterOk(f, keys, hash, done) && DataOk(f, keys, hash, data, offset)
    ensures FilterOk(f, keys, hash, done + [Written(offset, data)]) && |f.offsets| == offset / FILTER_BASE
  {
    hide Promises;
  }

  lemma FilterKept(f: Filters, keys: seq<Key>, f': Filters, keys': seq<Key>, hash: Hash, done: seq<Written>)
    requires FilterOk(f, keys, hash, done)
    requires forall o: nat, key: Key | Promises(f, keys, hash, o, key) :: Promises(f', keys', hash, o, key)
    ensures FilterOk(f', keys', hash, done)
  {
    hide Promises;
  }

  lemma NothingCollected(f: Filters, keys: seq<Key>, hash: Hash, offset: nat)
    requires |f.offsets| == offset / FILTER_BASE
    ensures DataOk(f, keys, hash, [], offset)
  {
  }

  lemma LastOfLast(done: seq<Written>)
    requires done != [] && done[|done| - 1].entries != []
    ensures Flatten(done) != [] && Flatten(done)[|Flatten(done)| - 1] == LastEntry(done[|done| - 1])
  {
  }
}
