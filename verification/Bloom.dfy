/** The Bloom filter: bits set for every key at creation are found again at lookup. */
module Bloom {
  import opened Coding
  import opened Entries

  /** Some 32-bit hash of a user key. */
  type Hash = Key -> nat

  function Rotate17(h: nat): nat {
    (h / 0x2_0000 + h % 0x2_0000 * 0x8000) % WORD32
  }

  /** The `j`-th probe: double hashing in 32-bit arithmetic. */
  function Probe(h: nat, j: nat): nat {
    if j == 0 then h % WORD32 else (Probe(h, j - 1) + Rotate17(h % WORD32)) % WORD32
  }

  /** Rotating by 17 bits: the low 17 go in front of the high 15, and nothing is lost. */
  lemma RotateBack(h: nat)
    requires h < WORD32
    ensures var r := Rotate17(h);
            r < WORD32 && r % 0x8000 == h / 0x2_0000 && r / 0x8000 == h % 0x2_0000
  {
  }

  /** Probes go up in equal steps, modulo 2^32. */
  lemma {:induction false} ProbeIs(h: nat, j: nat)
    ensures Probe(h, j) == (h + j * Rotate17(h % WORD32)) % WORD32
  {
    hide Rotate17;
    var d := Rotate17(h % WORD32);
    if j > 0 {
      ProbeIs(h, j - 1);
      assert h + j * d == h + (j - 1) * d + d;
      AddModulo(h + (j - 1) * d, d);
    }
  }

  lemma AddModulo(a: nat, d: nat)
    ensures (a % WORD32 + d) % WORD32 == (a + d) % WORD32
  {
  }

  function Mask(p: nat): bv8 {
    1 << (p % 8)
  }

  predicate HasBit(b: bv8, p: nat) {
    b & Mask(p) != 0
  }

  predicate IsSet(bytes: seq<bv8>, p: nat) {
    p / 8 < |bytes| && HasBit(bytes[p / 8], p)
  }

  function WithBit(b: bv8, p: nat): bv8 {
    b | Mask(p)
  }

  function SetBit(bytes: seq<bv8>, p: nat): (r: seq<bv8>)
    requires p / 8 < |bytes|
    ensures |r| == |bytes|
  {
    bytes[p / 8 := WithBit(bytes[p / 8], p)]
  }

  lemma MaskNonZero(p: nat)
    ensures Mask(p) != 0
  {
    var s := p % 8;
    assert s == 0 || s == 1 || s == 2 || s == 3 || s == 4 || s == 5 || s == 6 || s == 7;
  }

  lemma OrKeeps(a: bv8, b: bv8, c: bv8)
    ensures a & c != 0 ==> (a | b) & c != 0
    ensures c != 0 ==> (a | c) & c != 0
  {
  }

  lemma BitStays(b: bv8, p: nat, q: nat)
    ensures HasBit(WithBit(b, p), p) && (HasBit(b, q) ==> HasBit(WithBit(b, p), q))
  {
    MaskNonZero(p);
    OrKeeps(b, Mask(p), Mask(p));
    OrKeeps(b, Mask(p), Mask(q));
  }

  lemma MasksApart(p: nat, q: nat)
    requires p % 8 != q % 8
    ensures Mask(p) & Mask(q) == 0
  {
    var s, t := p % 8, q % 8;
    assert s == 0 || s == 1 || s == 2 || s == 3 || s == 4 || s == 5 || s == 6 || s == 7;
    assert t == 0 || t == 1 || t == 2 || t == 3 || t == 4 || t == 5 || t == 6 || t == 7;
  }

  lemma OrApart(a: bv8, b: bv8, c: bv8)
    requires b & c == 0
    ensures (a | b) & c == a & c
  {
  }

  lemma NoOtherBit(b: bv8, p: nat, q: nat)
    requires p % 8 != q % 8
    ensures HasBit(WithBit(b, p), q) == HasBit(b, q)
  {
    MasksApart(p, q);
    OrApart(b, Mask(p), Mask(q));
  }

  /** Setting a bit sets it and no other, and clears none. */
  lemma SetBitSets(bytes: seq<bv8>, p: nat, q: nat)
    requires p / 8 < |bytes|
    ensures IsSet(SetBit(bytes, p), p)
    ensures IsSet(SetBit(bytes, p), q) <==> q == p || IsSet(bytes, q)
  {
    hide HasBit, WithBit, Mask;
    BitStays(bytes[p / 8], p, q);
    if p % 8 != q % 8 { NoOtherBit(bytes[p / 8], p, q); }
  }

  /** Every bit that is set is there for one of the keys. */
  ghost predicate OnlyProbed(bytes: seq<bv8>, keys: seq<Key>, hash: Hash, k: nat) {
    forall p: nat | IsSet(bytes, p) :: exists i | 0 <= i < |keys| :: Probed(hash(keys[i]), k, 8 * |bytes|, p)
  }

  /** One of the first `k` probes of a hash falls on bit `p`. */
  ghost predicate Probed(h: nat, k: nat, bits: nat, p: nat) {
    bits > 0 && exists j | 0 <= j < k :: p == Probe(h, j) % bits
  }

  /** Every probed bit of a hash is set. */
  ghost predicate AllSet(bytes: seq<bv8>, h: nat, k: nat) {
    |bytes| > 0 && forall j | 0 <= j < k :: IsSet(bytes, Probe(h, j) % (8 * |bytes|))
  }

  const MAX_PROBES := 30

  /** A filter: the bit bytes, and the number of probes in its last byte. */
  ghost predicate Covers(filter: seq<bv8>, hash: Hash, key: Key) {
    && |filter| >= 2 && filter[|filter| - 1] as nat <= MAX_PROBES
    && AllSet(filter[..|filter| - 1], hash(key), filter[|filter| - 1] as nat)
  }

  /** No more bytes than `bits` need, but at least eight, and the number of probes behind them. */
  ghost predicate SizedFor(filter: seq<bv8>, bits: nat, k: nat) {
    && |filter| >= 9 && 8 * (|filter| - 1) >= bits && (|filter| == 9 || 8 * (|filter| - 1) < bits + 8)
    && filter[|filter| - 1] as nat == k
  }

  /** Bytes for that many bits, and at least eight. */
  method FilterSize(bits: nat) returns (size: nat)
    ensures size >= 8 && bits <= 8 * size && (8 * size < bits + 8 || size == 8)
    ensures size <= bits + 8
  {
    size := ((if bits < 64 then 64 else bits) + 7) / 8;
  }

  class BloomFilterPolicy {
    const bitsPerKey: nat
    const k: nat

    /** `k` is `0.69 * bits_per_key` rounded down, between one and thirty. */
    constructor (bitsPerKey: nat)
      ensures 1 <= k <= MAX_PROBES && this.bitsPerKey == bitsPerKey
      ensures 100 * k <= 69 * bitsPerKey < 100 * (k + 1)
           || (k == 1 && 69 * bitsPerKey < 100) || (k == MAX_PROBES && 69 * bitsPerKey >= 100 * MAX_PROBES)
    {
      this.bitsPerKey := bitsPerKey;
      var n := bitsPerKey * 69 / 100;
      k := if n < 1 then 1 else if n > MAX_PROBES then MAX_PROBES else n;
    }

    method CreateFilter(keys: seq<Key>, hash: Hash) returns (filter: seq<bv8>)
      requires 1 <= k <= MAX_PROBES
      ensures forall i | 0 <= i < |keys| :: Covers(filter, hash, keys[i])
      ensures SizedFor(filter, |keys| * bitsPerKey, k) && |filter| <= |keys| * bitsPerKey + 9
      ensures OnlyProbed(filter[..|filter| - 1], keys, hash, k)
    {
      hide AllSet, Covers, OnlyProbed;
      var size := FilterSize(|keys| * bitsPerKey);
      var bytes := AddKeys(keys, hash, size);
      filter := bytes + [k as bv8];
      assert filter[..|filter| - 1] == bytes;
      forall i | 0 <= i < |keys| ensures Covers(filter, hash, keys[i]) {
        MakesFilter(bytes, k, hash, keys[i]);
      }
    }

    /** Empty bytes with the probed bits of all keys set. */
    method AddKeys(keys: seq<Key>, hash: Hash, size: nat) returns (bytes: seq<bv8>)
      requires size > 0
      ensures |bytes| == size && OnlyProbed(bytes, keys, hash, k)
      ensures forall i | 0 <= i < |keys| :: AllSet(bytes, hash(keys[i]), k)
    {
      hide IsSet, Probe, SetBit, AllSet, Probed;
      bytes := seq(size, i => 0);
      NothingSet(bytes);
      for i := 0 to |keys|
        invariant |bytes| == size
        invariant forall m | 0 <= m < i :: AllSet(bytes, hash(keys[m]), k)
        invariant OnlyProbed(bytes, keys[..i], hash, k)
      {
        ghost var was := bytes;
        bytes := AddHash(bytes, hash(keys[i]), k, hash, keys[..i]);
        assert forall m | 0 <= m < i :: keys[..i][m] == keys[m];
        ProbedToo(was, bytes, keys, i, hash, k);
      }
      assert keys[..|keys|] == keys;
    }

    /** Set the probed bits of one hash. */
    method AddHash(bits0: seq<bv8>, h: nat, k: nat, ghost hash: Hash, ghost others: seq<Key>)
      returns (bytes: seq<bv8>)
      requires |bits0| > 0 && forall m | 0 <= m < |others| :: AllSet(bits0, hash(others[m]), k)
      ensures |bytes| == |bits0| && AllSet(bytes, h, k)
      ensures forall m | 0 <= m < |others| :: AllSet(bytes, hash(others[m]), k)
      ensures forall p: nat | IsSet(bytes, p) :: IsSet(bits0, p) || Probed(h, k, 8 * |bits0|, p)
    {
      hide IsSet, SetBit;
      bytes := bits0;
      var x := h % WORD32;
      var delta := Rotate17(x);
      for j := 0 to k
        invariant |bytes| == |bits0| && x == Probe(h, j)
        invariant AllSet(bytes, h, j)
        invariant forall m | 0 <= m < |others| :: AllSet(bytes, hash(others[m]), k)
        invariant forall p: nat | IsSet(bytes, p) :: IsSet(bits0, p) || Probed(h, j, 8 * |bits0|, p)
      {
        var p := x % (8 * |bytes|);
        assert p / 8 < |bytes|;
        ghost var was := bytes;
        bytes := SetBit(bytes, p);
        SetBitSets(was, p, p);
        KeepAll(was, p, h, j);
        forall q: nat | IsSet(bytes, q) ensures IsSet(bits0, q) || Probed(h, j + 1, 8 * |bits0|, q) {
          SetBitSets(was, p, q);
          ProbedLater(h, j, 8 * |bits0|, q);
        }
        forall m | 0 <= m < |others| ensures AllSet(bytes, hash(others[m]), k) {
          KeepAll(was, p, hash(others[m]), k);
        }
        x := (x + delta) % WORD32;
      }
    }

    method KeyMayMatch(key: Key, hash: Hash, filter: seq<bv8>) returns (r: bool)
      ensures |filter| < 2 ==> !r
      ensures |filter| >= 2 ==> (r <==> filter[|filter| - 1] as nat > MAX_PROBES || Covers(filter, hash, key))
    {
      var len := |filter|;
      if len < 2 {
        return false;
      }
      var bytes, n := filter[..len - 1], filter[len - 1] as nat;
      if n > MAX_PROBES {
        return true;
      }
      hide AllSet;
      r := AllProbesSet(bytes, hash(key), n);
    }

    method AllProbesSet(bytes: seq<bv8>, h: nat, n: nat) returns (r: bool)
      requires |bytes| > 0
      ensures r <==> AllSet(bytes, h, n)
    {
      hide IsSet;
      var x := h % WORD32;
      var delta := Rotate17(x);
      for j := 0 to n
        invariant x == Probe(h, j) && AllSet(bytes, h, j)
      {
        if !IsSet(bytes, x % (8 * |bytes|)) {
          return false;
        }
        x := (x + delta) % WORD32;
      }
      return true;
    }
  }

  lemma NothingSet(bytes: seq<bv8>)
    requires forall i | 0 <= i < |bytes| :: bytes[i] == 0
    ensures forall p: nat :: !IsSet(bytes, p)
  {
    forall p: nat ensures !IsSet(bytes, p) {
      if p / 8 < |bytes| { ZeroHasNone(p); }
    }
  }

  lemma ZeroHasNone(p: nat)
    ensures !HasBit(0, p)
  {
    NoBits(Mask(p));
  }

  lemma NoBits(m: bv8)
    ensures 0 & m == 0
  {
  }

  lemma ProbedLater(h: nat, k: nat, bits: nat, p: nat)
    requires bits > 0
    ensures Probed(h, k, bits, p) ==> Probed(h, k + 1, bits, p)
    ensures p == Probe(h, k) % bits ==> Probed(h, k + 1, bits, p)
  {
    hide Probe;
  }

  lemma ProbedToo(was: seq<bv8>, bytes: seq<bv8>, keys: seq<Key>, i: nat, hash: Hash, k: nat)
    requires i < |keys| && |bytes| == |was| && OnlyProbed(was, keys[..i], hash, k)
    requires forall p: nat | IsSet(bytes, p) :: IsSet(was, p) || Probed(hash(keys[i]), k, 8 * |was|, p)
    ensures OnlyProbed(bytes, keys[..i + 1], hash, k)
  {
    hide IsSet, Probed;
    var before, ks := keys[..i], keys[..i + 1];
    forall p: nat | IsSet(bytes, p)
      ensures exists m | 0 <= m < |ks| :: Probed(hash(ks[m]), k, 8 * |bytes|, p)
    {
      if IsSet(was, p) {
        var m :| 0 <= m < |before| && Probed(hash(before[m]), k, 8 * |was|, p);
        assert ks[m] == before[m];
      } else {
        assert ks[i] == keys[i];
      }
    }
  }

  lemma MakesFilter(bytes: seq<bv8>, k: nat, hash: Hash, key: Key)
    requires |bytes| > 0 && k <= MAX_PROBES && AllSet(bytes, hash(key), k)
    ensures Covers(bytes + [k as bv8], hash, key)
  {
    hide AllSet;
    var filter := bytes + [k as bv8];
    assert filter[..|filter| - 1] == bytes;
  }

  lemma KeepAll(bytes: seq<bv8>, p: nat, h: nat, k: nat)
    requires p / 8 < |bytes| && AllSet(bytes, h, k)
    ensures AllSet(SetBit(bytes, p), h, k)
  {
    hide IsSet, SetBit, Probe;
    forall j | 0 <= j < k ensures IsSet(SetBit(bytes, p), Probe(h, j) % (8 * |bytes|)) {
      SetBitSets(bytes, p, Probe(h, j) % (8 * |bytes|));
    }
  }
}
