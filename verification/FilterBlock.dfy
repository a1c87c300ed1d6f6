/** One filter per 2 KB of file offset, over all keys of the data blocks that start there. */
module FilterBlock {
  import opened Entries
  import opened Bloom

  const FILTER_BASE: nat := 2048

  /** Filters back to back, and where each starts. */
  datatype Filters = Filters(data: seq<bv8>, offsets: seq<nat>)

  ghost predicate WellFormed(f: Filters) {
    && (forall i | 0 <= i < |f.offsets| :: f.offsets[i] <= |f.data|)
    && (forall i, j | 0 <= i < j < |f.offsets| :: f.offsets[i] <= f.offsets[j])
  }

  function FilterAt(f: Filters, i: nat): seq<bv8>
    requires WellFormed(f) && i < |f.offsets|
  {
    f.data[f.offsets[i]..if i + 1 < |f.offsets| then f.offsets[i + 1] else |f.data|]
  }

  /** The filter with number `i`, when there is one, covers `key`. */
  ghost predicate Holds(f: Filters, hash: Hash, i: nat, key: Key) {
    WellFormed(f) && (i < |f.offsets| ==> Covers(FilterAt(f, i), hash, key))
  }

  /** More filters behind the last one leave it and those before it alone. */
  lemma HoldsLonger(f: Filters, more: seq<bv8>, hash: Hash, i: nat, key: Key)
    requires Holds(f, hash, i, key) && i < |f.offsets|
    ensures Holds(Filters(f.data + more, f.offsets + [|f.data|]), hash, i, key)
  {
    hide Covers;
    var f' := Filters(f.data + more, f.offsets + [|f.data|]);
    assert FilterAt(f', i) == FilterAt(f, i);
  }

  /** What the filters built so far promise for a key of a block that starts at `offset`: it is
      covered, or still among the keys waiting for the filter that will cover it. */
  ghost predicate Promises(f: Filters, keys: seq<Key>, hash: Hash, offset: nat, key: Key) {
    var i := offset / FILTER_BASE;
    if i < |f.offsets| then Holds(f, hash, i, key) else i == |f.offsets| && key in keys
  }

  /** What one key adds to the filters at most, in bytes. */
  function Share(policy: BloomFilterPolicy): nat {
    policy.bitsPerKey + 9
  }

  lemma ShareIsEnough(keys: nat, policy: BloomFilterPolicy)
    requires keys > 0
    ensures keys * policy.bitsPerKey + 9 <= keys * Share(policy)
  {
    assert keys * Share(policy) == keys * policy.bitsPerKey + keys * 9;
  }

  /** The filter for these keys and no others; an empty one for none. */
  ghost predicate MadeFor(filter: seq<bv8>, keys: seq<Key>, policy: BloomFilterPolicy, hash: Hash) {
    if keys == [] then filter == []
    else SizedFor(filter, |keys| * policy.bitsPerKey, policy.k)
         && OnlyProbed(filter[..|filter| - 1], keys, hash, policy.k)
  }

  /** Filter `i` is made for the keys of group `i`. */
  ghost predicate Grouped(f: Filters, groups: seq<seq<Key>>, policy: BloomFilterPolicy, hash: Hash) {
    && WellFormed(f) && |groups| == |f.offsets|
    && forall i | 0 <= i < |groups| :: MadeFor(FilterAt(f, i), groups[i], policy, hash)
  }

  ghost function Joined(groups: seq<seq<Key>>): seq<Key> {
    if groups == [] then [] else Joined(groups[..|groups| - 1]) + groups[|groups| - 1]
  }

  lemma JoinedMore(groups: seq<seq<Key>>, keys: seq<Key>)
    ensures Joined(groups + [keys]) == Joined(groups) + keys
  {
    assert (groups + [keys])[..|groups|] == groups;
  }

  class FilterBlockBuilder {
    const policy: BloomFilterPolicy
    const hash: Hash
    var keys: seq<Key>
    var filters: Filters

    /** The keys of each filter. */
    ghost var groups: seq<seq<Key>>

    ghost predicate Valid()
      reads this
    {
      Grouped(filters, groups, policy, hash) && 1 <= policy.k <= MAX_PROBES
    }

    /** All keys added so far, in order. */
    ghost function All(): seq<Key>
      reads this
    {
      Joined(groups) + keys
    }

    /** What the filters take, with those for the waiting keys. */
    ghost function Weight(): nat
      reads this
    {
      |filters.data| + |keys| * Share(policy)
    }

    constructor (policy: BloomFilterPolicy, hash: Hash)
      requires 1 <= policy.k <= MAX_PROBES
      ensures Valid() && keys == [] && filters == Filters([], []) && this.hash == hash && this.policy == policy
    {
      this.policy, this.hash, keys, filters, groups := policy, hash, [], Filters([], []), [];
    }

    method AddKey(key: Key)
      requires Valid()
      modifies `keys
      ensures Valid() && keys == old(keys) + [key] && Weight() == old(Weight()) + Share(policy)
      ensures All() == old(All()) + [key]
    {
      keys := keys + [key];
    }

    /** The collected keys become the next filter; an empty one when there are none. */
    method GenerateFilter()
      requires Valid()
      modifies this
      ensures Valid() && keys == [] && |filters.offsets| == |old(filters).offsets| + 1
      ensures forall i: nat, key: Key | i < |old(filters).offsets| && Holds(old(filters), hash, i, key) ::
                Holds(filters, hash, i, key)
      ensures forall key | key in old(keys) :: Holds(filters, hash, |old(filters).offsets|, key)
      ensures old(keys) == [] ==> filters.data == old(filters).data
      ensures groups == old(groups) + [old(keys)] && All() == old(All())
      ensures Weight() <= old(Weight())
    {
      hide Covers, Share, OnlyProbed, SizedFor, Joined;
      JoinedMore(groups, keys);
      var was := filters;
      var filter: seq<bv8> := [];
      if keys != [] {
        filter := policy.CreateFilter(keys, hash);
        ShareIsEnough(|keys|, policy);
      }
      filters := Filters(was.data + filter, was.offsets + [|was.data|]);
      assert FilterAt(filters, |was.offsets|) == filter;
      forall i | 0 <= i < |was.offsets| ensures FilterAt(filters, i) == FilterAt(was, i) {}
      forall key | key in keys ensures Holds(filters, hash, |was.offsets|, key) {
        var i :| 0 <= i < |keys| && keys[i] == key;
      }
      forall i: nat, key: Key | i < |was.offsets| && Holds(was, hash, i, key) ensures Holds(filters, hash, i, key) {
        HoldsLonger(was, filter, hash, i, key);
      }
      groups := groups + [keys];
      keys := [];
    }

    /** A block is about to start at `offset`; no earlier filter number is still open. */
    method StartBlock(offset: nat)
      requires Valid() && offset / FILTER_BASE >= |filters.offsets|
      modifies this
      ensures Valid() && |filters.offsets| == offset / FILTER_BASE && Weight() <= old(Weight())
      ensures All() == old(All())
      ensures forall o: nat, key: Key | Promises(old(filters), old(keys), hash, o, key) ::
                Promises(filters, keys, hash, o, key)
    {
      hide Holds, Weight, MadeFor;
      var index := offset / FILTER_BASE;
      while index > |filters.offsets|
        invariant Valid() && |filters.offsets| <= index && Weight() <= old(Weight()) && All() == old(All())
        invariant forall o: nat, key: Key | Promises(old(filters), old(keys), hash, o, key) ::
                    Promises(filters, keys, hash, o, key)
      {
        Generate();
      }
    }

    /** `GenerateFilter`, in terms of what is promised. */
    method Generate()
      requires Valid()
      modifies this
      ensures Valid() && |filters.offsets| == |old(filters).offsets| + 1 && Weight() <= old(Weight())
      ensures All() == old(All()) && keys == []
      ensures forall o: nat, key: Key | Promises(old(filters), old(keys), hash, o, key) ::
                Promises(filters, keys, hash, o, key)
    {
      hide Holds, Weight, MadeFor;
      GenerateFilter();
    }

    method Finish() returns (f: Filters)
      requires Valid()
      modifies this
      ensures WellFormed(f) && |f.data| <= old(Weight())
      ensures Grouped(f, groups, policy, hash) && Joined(groups) == old(All())
      ensures forall o: nat, key: Key | Promises(old(filters), old(keys), hash, o, key) ::
                Holds(f, hash, o / FILTER_BASE, key)
    {
      hide Covers, MadeFor;
      if keys != [] {
        Generate();
      }
      f := filters;
      assert Joined(groups) + [] == Joined(groups);
    }
  }

  /** There is a filter for the offset, it is one of ours, and it does not cover the key. */
  ghost predicate RuledOut(f: Filters, hash: Hash, offset: nat, key: Key)
    requires WellFormed(f)
  {
    && offset / FILTER_BASE < |f.offsets|
    && var filter := FilterAt(f, offset / FILTER_BASE);
       |filter| < 2 || (filter[|filter| - 1] as nat <= MAX_PROBES && !Covers(filter, hash, key))
  }

  /** `FilterBlockReader::KeyMayMatch`. */
  method KeyMayMatch(f: Filters, policy: BloomFilterPolicy, hash: Hash, offset: nat, key: Key) returns (r: bool)
    requires WellFormed(f)
    ensures Holds(f, hash, offset / FILTER_BASE, key) ==> r
    ensures r <==> !RuledOut(f, hash, offset, key)
  {
    hide AllSet;
    var index := offset / FILTER_BASE;
    if index < |f.offsets| {
      r := policy.KeyMayMatch(key, hash, FilterAt(f, index));
    } else {
      r := true;
    }
  }
}
