/** A table over byte keys, end to end: built with the comparator's separators, its filters written out
    as bytes, and looked up through those bytes. */
module TableBytes {
  import opened Wrappers
  import opened Coding
  import opened Entries
  import opened Bloom
  import opened FilterBlock
  import opened FilterBytes
  import opened ByteSeparators
  import opened TwoLevel
  import opened Table
  import opened TableBuilder

  /** The functions do on keys what the comparator's methods do on their bytes. */
  ghost predicate IsComparator(s: Shorter) {
    (forall a, b :: s.between(a, b) == ByteShorten(a, b)) && (forall a :: s.behind(a) == ByteSuccessor(a))
  }

  /** A filter block read from the file is the one the builder wrote; a table may be read without. */
  ghost predicate FilterOf(t: TableData, filter: Option<seq<Byte>>) {
    filter.Some? ==>
      t.filters.Some? && filter.value == Encoded(t.filters.value) && |t.filters.value.data| < WORD32
  }

  /** The bytes hold a filter for the offset that excludes the key. */
  ghost predicate Excluded(filter: seq<Byte>, hash: Hash, offset: nat, key: Key) {
    match FilterFor(filter, offset)
    case Unknown => false
    case Empty => true
    case Filter(bits) => |bits| < 2 || (bits[|bits| - 1] as nat <= MAX_PROBES && !Covers(bits, hash, key))
  }

  /** `Table::InternalGet`, with the filter block as bytes. */
  method InternalGetBytes(t: TableData, filter: Option<seq<Byte>>, policy: BloomFilterPolicy, hash: Hash,
                          k: Key, s: nat) returns (r: Option<Entry>, read: Option<nat>)
    requires Sorted(Contents(t)) && Indexed(t) && Filtered(t, hash) && FilterOf(t, filter)
    ensures Lookup(Contents(t), k, s) == if r.Some? && r.value.key == k then r else None
    ensures var i := IndexSeek(t.index, k, s);
            read == BlockRead(t, k, s,
                              i < |t.index| && filter.Some? && Excluded(filter.value, hash, t.index[i].handle, k))
  {
    hide Sorted, Indexed, Filtered, Encoded, FilterFor, Covers;
    r, read := None, None;
    var i := IndexSeek(t.index, k, s);
    if i < |t.index| {
      var handle := t.index[i].handle;
      var may := true;
      if filter.Some? {
        may := KeyMayMatchBytes(filter.value, policy, hash, handle, k);
      }
      if may {
        read := Some(handle);
        var b := BlockOf(t, handle);
        var p := SeekIndex(b, k, s);
        if p < |b| {
          r := Some(b[p]);
        }
      } else {
        NotInBlock(t, hash, k, s, i);
      }
    }
    OneBlockEnough(t, k, s);
  }

  /** What the bytes rule out is not in the block. */
  lemma NotInBlock(t: TableData, hash: Hash, k: Key, s: nat, i: nat)
    requires i < |t.index| && Filtered(t, hash) && t.filters.Some? && |t.filters.value.data| < WORD32
    requires Excluded(Encoded(t.filters.value), hash, t.index[i].handle, k)
    ensures Lookup(BlockOf(t, t.index[i].handle), k, s) == None
  {
    hide Filtered, Encoded, FilterFor, Holds, AllSet;
    var f, handle := t.filters.value, t.index[i].handle;
    if Holds(f, hash, handle / FILTER_BASE, k) {
      HeldIsFound(f, hash, handle, k);
    }
    NotThere(t, hash, k, s, i);
  }

  /** Builds a table from sorted entries. */
  method Build(entries: seq<Entry>, sizes: Sizes, policy: BloomFilterPolicy?, hash: Hash, shorter: Shorter)
    returns (t: TableData, filter: Option<seq<Byte>>)
    requires Sorted(entries) && IsComparator(shorter)
    requires policy != null ==> 1 <= policy.k <= MAX_PROBES
    ensures Contents(t) == entries && Indexed(t) && Filtered(t, hash) && AsCut(t, shorter, sizes)
    ensures filter.Some? ==> t.filters.Some? && filter.value == Encoded(t.filters.value)
    ensures filter.Some? <==> policy != null
    ensures filter.Some? ==> |t.filters.value.data| <= |entries| * Share(policy)
  {
    hide Sorted, IsShortener, IsSuccessor, Encoded, WellFormed, Indexed, Filtered, Contents, AsCut;
    Comparator(shorter);
    var keys: FilterBlockBuilder? := null;
    if policy != null {
      keys := new FilterBlockBuilder(policy, hash);
    }
    var b := new TableBuilder(hash, shorter, sizes, keys);
    for i := 0 to |entries|
      invariant fresh(b) && (b.filter != null ==> fresh(b.filter))
      invariant b.Valid() && b.entries == entries[..i] && b.shorter == shorter && b.sizes == sizes
      invariant b.filter == keys && (keys != null ==> keys.policy == policy)
    {
      SortedStep(entries, i);
      b.Add(entries[i]);
    }
    t := b.Finish();
    filter := None;
    if t.filters.Some? {
      var bytes := AppendOffsets(t.filters.value);
      filter := Some(bytes);
    }
  }

  lemma Comparator(s: Shorter)
    requires IsComparator(s)
    ensures IsShortener(s.between) && IsSuccessor(s.behind)
  {
    forall a, b ensures s.between(a, b).Some? ==> a < s.between(a, b).value < b { ShortenBetween(a, b); }
    forall a ensures s.behind(a).Some? ==> a < s.behind(a).value { SuccessorAfter(a); }
  }

  lemma SortedStep(entries: seq<Entry>, i: nat)
    requires Sorted(entries) && i < |entries|
    ensures entries[..i] == [] || Before(entries[..i][|entries[..i]| - 1], entries[i])
    ensures entries[..i + 1] == entries[..i] + [entries[i]]
  {
  }

  /** What was built is found: a lookup in the new table answers for the entries it was built from, when
      the filters are not too big for their offsets. */
  method BuildAndGet(entries: seq<Entry>, sizes: Sizes, policy: BloomFilterPolicy, hash: Hash, shorter: Shorter,
                     k: Key, s: nat) returns (r: Option<Entry>)
    requires Sorted(entries) && IsComparator(shorter) && 1 <= policy.k <= MAX_PROBES
    requires |entries| * Share(policy) < WORD32
    ensures Lookup(entries, k, s) == if r.Some? && r.value.key == k then r else None
  {
    hide Sorted, Indexed, Filtered, Encoded;
    var t, filter := Build(entries, sizes, policy, hash, shorter);
    var read;
    r, read := InternalGetBytes(t, filter, policy, hash, k, s);
  }
}
