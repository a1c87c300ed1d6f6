/** The cache's hash table: bucket chains that grow with the number of elements. */
module HandleTable {
  import opened Wrappers
  import opened Entries

  /** A cache entry as the table sees it. */
  datatype Ref = Ref(id: nat, key: Key)

  type Hash = Key -> nat

  function BucketOf(hash: Hash, length: nat, k: Key): (b: nat)
    requires length > 0
    ensures b < length
  {
    hash(k) % length
  }

  ghost predicate DistinctKeys(chain: seq<Ref>) {
    forall i, j | 0 <= i < j < |chain| :: chain[i].key != chain[j].key
  }

  /** The chains hold exactly the map `m`, every entry in the bucket its hash names. */
  ghost predicate Represents(buckets: seq<seq<Ref>>, m: map<Key, nat>, hash: Hash) {
    && |buckets| > 0
    && (forall b, r | 0 <= b < |buckets| && r in buckets[b] ::
          BucketOf(hash, |buckets|, r.key) == b && r.key in m && m[r.key] == r.id)
    && (forall k | k in m :: Ref(m[k], k) in buckets[BucketOf(hash, |buckets|, k)])
    && (forall b | 0 <= b < |buckets| :: DistinctKeys(buckets[b]))
  }

  /** Four, doubled some times. */
  ghost predicate Doubled(n: nat) {
    n == 4 || (n > 4 && n % 2 == 0 && Doubled(n / 2))
  }

  /** Changing one chain changes the map at one key. */
  lemma ChainChanged(buckets: seq<seq<Ref>>, m: map<Key, nat>, hash: Hash, k: Key, chain: seq<Ref>, m': map<Key, nat>)
    requires Represents(buckets, m, hash) && DistinctKeys(chain)
    requires forall k' | k' != k :: (k' in m' <==> k' in m) && (k' in m ==> m'[k'] == m[k'])
    requires var b := BucketOf(hash, |buckets|, k);
             && (forall r | r in chain :: if r.key == k then k in m' && m'[k] == r.id else r in buckets[b])
             && (forall r | r in buckets[b] && r.key != k :: r in chain)
             && (k in m' ==> Ref(m'[k], k) in chain)
    ensures Represents(buckets[BucketOf(hash, |buckets|, k) := chain], m', hash)
  {
    hide DistinctKeys, BucketOf;
    var b := BucketOf(hash, |buckets|, k);
    var buckets' := buckets[b := chain];
    forall k' | k' in m' ensures Ref(m'[k'], k') in buckets'[BucketOf(hash, |buckets'|, k')] {
      if k' != k { assert Ref(m[k'], k') in buckets[BucketOf(hash, |buckets|, k')]; }
    }
  }

  class HandleTable {
    const hash: Hash
    var buckets: seq<seq<Ref>>
    var elems: nat

    /** The map the table stands for. */
    ghost var m: map<Key, nat>

    ghost predicate Core()
      reads this
    {
      Represents(buckets, m, hash) && elems == |m| && Doubled(|buckets|)
    }

    /** There are never more elements than buckets. */
    ghost predicate Valid()
      reads this
    {
      Core() && elems <= |buckets|
    }

    constructor (hash: Hash)
      ensures Valid() && m == map[] && this.hash == hash
    {
      this.hash, buckets, elems, m := hash, seq(4, i => []), 0, map[];
    }

    /** `FindPointer`: the slot of the matching entry, or the trailing slot of its chain. */
    method FindPointer(k: Key) returns (b: nat, j: nat)
      requires Valid()
      ensures b == BucketOf(hash, |buckets|, k) < |buckets| && j <= |buckets[b]|
      ensures k in m <==> j < |buckets[b]|
      ensures j < |buckets[b]| ==> buckets[b][j] == Ref(m[k], k)
    {
      hide DistinctKeys;
      b, j := BucketOf(hash, |buckets|, k), 0;
      while j < |buckets[b]| && buckets[b][j].key != k
        invariant j <= |buckets[b]| && forall i | 0 <= i < j :: buckets[b][i].key != k
      {
        j := j + 1;
      }
      if j < |buckets[b]| { assert buckets[b][j] in buckets[b]; }
    }

    method Lookup(k: Key) returns (r: Option<nat>)
      requires Valid()
      ensures r == if k in m then Some(m[k]) else None
    {
      var b, j := FindPointer(k);
      r := if j < |buckets[b]| then Some(buckets[b][j].id) else None;
    }

    /** The new entry takes the place of an old one with the same key, which is returned. */
    method Insert(r: Ref) returns (old': Option<nat>)
      requires Valid()
      modifies this
      ensures Valid() && m == old(m)[r.key := r.id]
      ensures old' == if r.key in old(m) then Some(old(m)[r.key]) else None
      ensures |buckets| == |old(buckets)| || |m| == |old(buckets)| + 1 < |buckets|
    {
      var b, j := FindPointer(r.key);
      var chain := buckets[b];
      hide Represents;
      if j < |chain| {
        old' := Some(chain[j].id);
        ReplaceRepresents(buckets, m, hash, b, j, r);
        buckets, m := buckets[b := chain[j := r]], m[r.key := r.id];
        SameSize(old(m), r.key, r.id);
      } else {
        old' := None;
        AppendRepresents(buckets, m, hash, b, r);
        buckets, m := buckets[b := chain + [r]], m[r.key := r.id];
        elems := elems + 1;
        if elems > |buckets| {
          Resize();
        }
      }
    }

    method Remove(k: Key) returns (r: Option<nat>)
      requires Valid()
      modifies this
      ensures Valid() && m == old(m) - {k}
      ensures r == if k in old(m) then Some(old(m)[k]) else None
    {
      var b, j := FindPointer(k);
      var chain := buckets[b];
      if j < |chain| {
        r := Some(chain[j].id);
        RemoveKeeps(chain, j);
        ChainChanged(buckets, m, hash, k, chain[..j] + chain[j + 1..], m - {k});
        buckets, m := buckets[b := chain[..j] + chain[j + 1..]], m - {k};
        elems := elems - 1;
        OneLess(old(m), k);
      } else {
        r := None;
        assert m - {k} == m;
      }
    }

    /** `Resize`: twice as many buckets until there is one per element; every entry moves over. */
    method Resize()
      requires Core()
      modifies this
      ensures Valid() && m == old(m) && elems == old(elems) && (|buckets| == 4 || |buckets| < 2 * elems)
    {
      hide DistinctKeys, Represents;
      var length := 4;
      while length < elems
        decreases elems - length
        invariant length >= 4 && Doubled(length) && (length == 4 || length < 2 * elems)
      {
        length := 2 * length;
      }
      var list: seq<seq<Ref>> := seq(length, i => []);
      ghost var moved: map<Key, nat> := map[];
      NothingMoved(list, hash, buckets, m);
      for i := 0 to |buckets|
        invariant Represents(list, moved, hash) && |list| == length && Moved(buckets, m, moved, i, 0)
        invariant unchanged(this)
      {
        var chain := buckets[i];
        for j := 0 to |chain|
          invariant Represents(list, moved, hash) && |list| == length && Moved(buckets, m, moved, i, j)
          invariant unchanged(this)
        {
          var r := chain[j];
          MoveOne(buckets, m, hash, moved, i, j);
          PushKeeps(list, moved, hash, r);
          var b := BucketOf(hash, length, r.key);
          list := list[b := [r] + list[b]];
          moved := moved[r.key := r.id];
        }
        NextBucket(buckets, m, moved, i);
      }
      AllMoved(buckets, m, hash, moved);
      buckets := list;
    }
  }

  // ----- Chains -----

  lemma ReplaceKeeps(chain: seq<Ref>, j: nat, r: Ref)
    requires DistinctKeys(chain) && j < |chain| && chain[j].key == r.key
    ensures DistinctKeys(chain[j := r])
    ensures forall x | x in chain && x.key != r.key :: x in chain[j := r]
    ensures forall x | x in chain[j := r] :: if x.key == r.key then x == r else x in chain
  {
    forall x | x in chain && x.key != r.key ensures x in chain[j := r] {
      var i :| 0 <= i < |chain| && chain[i] == x;
      assert chain[j := r][i] == x;
    }
    forall x | x in chain[j := r] ensures if x.key == r.key then x == r else x in chain {
      var i :| 0 <= i < |chain| && chain[j := r][i] == x;
      if i != j { assert chain[i] in chain; }
    }
  }

  lemma ReplaceRepresents(buckets: seq<seq<Ref>>, m: map<Key, nat>, hash: Hash, b: nat, j: nat, r: Ref)
    requires Represents(buckets, m, hash) && b == BucketOf(hash, |buckets|, r.key)
    requires j < |buckets[b]| && buckets[b][j].key == r.key
    ensures Represents(buckets[b := buckets[b][j := r]], m[r.key := r.id], hash)
  {
    hide DistinctKeys;
    var chain := buckets[b];
    ReplaceKeeps(chain, j, r);
    assert chain[j := r][j] == r;
    ChainChanged(buckets, m, hash, r.key, chain[j := r], m[r.key := r.id]);
  }

  lemma AppendRepresents(buckets: seq<seq<Ref>>, m: map<Key, nat>, hash: Hash, b: nat, r: Ref)
    requires Represents(buckets, m, hash) && b == BucketOf(hash, |buckets|, r.key) && r.key !in m
    ensures Represents(buckets[b := buckets[b] + [r]], m[r.key := r.id], hash)
  {
    hide DistinctKeys;
    var chain := buckets[b];
    AppendKeeps(chain, r, m, hash, buckets, b);
    assert (chain + [r])[|chain|] == r;
    ChainChanged(buckets, m, hash, r.key, chain + [r], m[r.key := r.id]);
  }

  lemma AppendKeeps(chain: seq<Ref>, r: Ref, m: map<Key, nat>, hash: Hash, buckets: seq<seq<Ref>>, b: nat)
    requires Represents(buckets, m, hash) && b < |buckets| && chain == buckets[b] && r.key !in m
    ensures DistinctKeys(chain + [r]) && forall x | x in chain :: x.key != r.key
  {
    forall x | x in chain ensures x.key != r.key {}
    assert forall i | 0 <= i < |chain| :: chain[i] in chain;
  }

  lemma RemoveKeeps(chain: seq<Ref>, j: nat)
    requires DistinctKeys(chain) && j < |chain|
    ensures DistinctKeys(chain[..j] + chain[j + 1..])
    ensures forall x :: x in chain[..j] + chain[j + 1..] <==> x in chain && x.key != chain[j].key
  {
    var r := chain[..j] + chain[j + 1..];
    assert forall i | 0 <= i < |r| :: r[i] == if i < j then chain[i] else chain[i + 1];
    forall x ensures x in r <==> x in chain && x.key != chain[j].key {
      if x in chain && x.key != chain[j].key {
        var i :| 0 <= i < |chain| && chain[i] == x;
        assert r[if i < j then i else i - 1] == x;
      }
      if x in r {
        var i :| 0 <= i < |r| && r[i] == x;
        assert chain[if i < j then i else i + 1] == x;
      }
    }
  }

  lemma SameSize(m: map<Key, nat>, k: Key, id: nat)
    requires k in m
    ensures |m[k := id]| == |m|
  {
    assert m[k := id].Keys == m.Keys;
  }

  lemma OneLess(m: map<Key, nat>, k: Key)
    requires k in m
    ensures |m - {k}| == |m| - 1
  {
    assert (m - {k}).Keys == m.Keys - {k};
  }

  // ----- Moving to a larger table -----

  /** Everything before bucket `i`, and before position `j` in it, has been moved; nothing else has. */
  ghost predicate Moved(buckets: seq<seq<Ref>>, m: map<Key, nat>, moved: map<Key, nat>, i: nat, j: nat) {
    && (forall k | k in moved :: k in m && moved[k] == m[k])
    && (forall b, r | 0 <= b < i && b < |buckets| && r in buckets[b] :: r.key in moved)
    && (forall b, r | i < b < |buckets| && r in buckets[b] :: r.key !in moved)
    && (i < |buckets| ==> forall n | 0 <= n < |buckets[i]| :: buckets[i][n].key in moved <==> n < j)
  }

  lemma NothingMoved(list: seq<seq<Ref>>, hash: Hash, buckets: seq<seq<Ref>>, m: map<Key, nat>)
    requires |list| > 0 && forall b | 0 <= b < |list| :: list[b] == []
    ensures Represents(list, map[], hash) && Moved(buckets, m, map[], 0, 0)
  {
  }

  lemma MoveOne(buckets: seq<seq<Ref>>, m: map<Key, nat>, hash: Hash, moved: map<Key, nat>, i: nat, j: nat)
    requires Represents(buckets, m, hash) && Moved(buckets, m, moved, i, j) && i < |buckets| && j < |buckets[i]|
    ensures var r := buckets[i][j]; r.key !in moved && Moved(buckets, m, moved[r.key := r.id], i, j + 1)
  {
    var r := buckets[i][j];
    assert r in buckets[i];
    forall b, x | i < b < |buckets| && x in buckets[b] ensures x.key != r.key {}
    forall n | 0 <= n < |buckets[i]| && n != j ensures buckets[i][n].key != r.key {
      assert DistinctKeys(buckets[i]);
    }
  }

  lemma NextBucket(buckets: seq<seq<Ref>>, m: map<Key, nat>, moved: map<Key, nat>, i: nat)
    requires i < |buckets| && Moved(buckets, m, moved, i, |buckets[i]|)
    ensures Moved(buckets, m, moved, i + 1, 0)
  {
    forall r | r in buckets[i] ensures r.key in moved {
      var n :| 0 <= n < |buckets[i]| && buckets[i][n] == r;
    }
  }

  lemma AllMoved(buckets: seq<seq<Ref>>, m: map<Key, nat>, hash: Hash, moved: map<Key, nat>)
    requires Represents(buckets, m, hash) && Moved(buckets, m, moved, |buckets|, 0)
    ensures moved == m
  {
    forall k | k in m ensures k in moved {
      var r, b := Ref(m[k], k), BucketOf(hash, |buckets|, k);
      assert r in buckets[b] && r.key == k;
    }
    assert forall k | k in moved :: k in m && moved[k] == m[k];
    assert forall k :: k in moved <==> k in m;
  }

  lemma PushKeeps(list: seq<seq<Ref>>, moved: map<Key, nat>, hash: Hash, r: Ref)
    requires Represents(list, moved, hash) && r.key !in moved
    ensures var b := BucketOf(hash, |list|, r.key);
            Represents(list[b := [r] + list[b]], moved[r.key := r.id], hash)
  {
    var b := BucketOf(hash, |list|, r.key);
    var chain := [r] + list[b];
    forall x | x in list[b] ensures x.key != r.key {}
    assert forall i | 0 <= i < |list[b]| :: list[b][i] in list[b];
    ChainChanged(list, moved, hash, r.key, chain, moved[r.key := r.id]);
  }
}
