/** `Block::Iter`: a cursor over the entries the block was built from. */
module BlockIter {
  import opened Wrappers
  import opened Coding
  import opened BlockFormat
  import opened Block
  import opened Cursors

  ghost predicate Increasing(es: seq<Pair>, rank: Ranking) {
    forall i, j | 0 <= i < j < |es| :: rank(es[i].key) < rank(es[j].key)
  }

  /** Index of the first entry whose key is not before `target`, or the length. */
  ghost function FirstFrom(es: seq<Pair>, rank: Ranking, target: seq<Byte>): (p: nat)
    ensures p <= |es|
    ensures p < |es| ==> rank(es[p].key) >= rank(target)
    ensures forall q | 0 <= q < p :: rank(es[q].key) < rank(target)
  {
    if es == [] || rank(es[0].key) >= rank(target) then 0 else 1 + FirstFrom(es[1..], rank, target)
  }

  /** Entries up to the restart array are the code of the entries. */
  lemma BodyIs(data: seq<Byte>, l: Layout)
    requires IsBlock(data, l)
    ensures |Body(l)| <= |data| && data[..|Body(l)|] == Body(l)
  {
  }

  /** The restart array holds the offsets of the restart entries. */
  lemma RestartAt(data: seq<Byte>, l: Layout, j: nat)
    requires IsBlock(data, l) && j < |l.starts|
    ensures var p := |Body(l)| + 4 * j;
            p + 4 <= |data| && Word(data[p..p + 4]) == At0(l, l.starts[j])
  {
    hide Words, Fixed, Word, Body, RestartOffsets, Laid;
    var ws := RestartOffsets(l);
    var n, all := |Body(l)|, Words(ws);
    assert data == Body(l) + all + Fixed(|l.starts|, 4);
    assert data[n..n + |all|] == all;
    SliceOfSlice(data, n, n + |all|, 4 * j, 4 * j + 4);
    StartInRange(l, j);
    AtBelow(data, l, l.starts[j]);
    WordsAt(ws, j);
  }

  lemma StartInRange(l: Layout, j: nat)
    requires Laid(l) && j < |l.starts|
    ensures l.starts[j] <= |l.es|
  {
  }

  lemma AtBelow(data: seq<Byte>, l: Layout, i: nat)
    requires IsBlock(data, l) && i <= |l.es|
    ensures At0(l, i) <= |Body(l)| < WORD32
  {
    OffsetsGrow(l.es, l.shares, i, |l.es|);
  }

  lemma AtGrows(l: Layout, i: nat, j: nat)
    requires Laid(l) && i <= |l.es| && j <= |l.es|
    ensures At0(l, i) < At0(l, j) <==> i < j
  {
    if i < j {
      OffsetsGrow(l.es, l.shares, i, j);
    } else {
      OffsetsGrow(l.es, l.shares, j, i);
    }
  }

  class Iter {
    const data: seq<Byte>
    const limit: nat
    const num: nat
    const rank: Ranking
    ghost const l: Layout
    var current: nat
    var restartIndex: nat
    var key: seq<Byte>
    var valueAt: nat
    var valueLength: nat

    /** The index of the current entry. */
    ghost var at: Option<nat>

    ghost predicate Good() {
      IsBlock(data, l) && limit == |Body(l)| && num == |l.starts| && Increasing(l.es, rank)
    }

    /** Positioned so that the next entry read is entry `j`. */
    ghost predicate Before(j: nat)
      requires Good()
      reads this
    {
      && j <= |l.es| && valueAt + valueLength == At0(l, j)
      && restartIndex < num && l.starts[restartIndex] <= j
      && (j < |l.es| ==> l.shares[j] <= |key| && key[..l.shares[j]] == l.es[j].key[..l.shares[j]])
    }

    ghost predicate Here(i: nat)
      requires Good()
      reads this
    {
      && i < |l.es| && current == At0(l, i) && key == l.es[i].key
      && valueAt + valueLength == At0(l, i + 1) <= |data| && data[valueAt..valueAt + valueLength] == l.es[i].value
      && restartIndex < num && l.starts[restartIndex] <= i
    }

    ghost predicate Valid()
      reads this
    {
      && Good()
      && (at.None? ==> current == limit)
      && (at.Some? ==> Here(at.value) && current < limit)
    }

    /** `NewIterator` on finished contents; the layout is the one the block was built with. */
    constructor (data: seq<Byte>, rank: Ranking, ghost l: Layout)
      requires IsBlock(data, l) && Increasing(l.es, rank)
      ensures Valid() && this.data == data && this.l == l && this.rank == rank && at == None
    {
      CountAt(data, l);
      this.data, this.rank, this.l := data, rank, l;
      var n := Word(data[|data| - 4..]);
      num := n;
      limit := |data| - (1 + n) * 4;
      current := |data| - (1 + n) * 4;
      restartIndex, key, valueAt, valueLength, at := n, [], 0, 0, None;
    }

    /** `key()` and `value()`. */
    method Current() returns (e: Pair)
      requires Valid() && current < limit
      ensures at.Some? && e == l.es[at.value]
    {
      e := Pair(key, data[valueAt..valueAt + valueLength]);
    }

    method GetRestartPoint(j: nat) returns (r: nat)
      requires Good() && j < num
      ensures Laid(l) && l.starts[j] <= |l.es| && r == At0(l, l.starts[j])
    {
      hide Word, IsBlock;
      IsLaid(data, l);
      StartInRange(l, j);
      RestartAt(data, l, j);
      r := Word(data[limit + 4 * j..limit + 4 * j + 4]);
    }

    method SeekToRestartPoint(j: nat)
      requires Good() && j < num
      modifies this
      ensures Before(l.starts[j]) && restartIndex == j
    {
      key, restartIndex := [], j;
      var offset := GetRestartPoint(j);
      valueAt, valueLength := offset, 0;
    }

    /** No further entry. */
    method Finish()
      requires Good()
      modifies `current, `restartIndex, `at
      ensures Valid() && at == None
    {
      current, restartIndex, at := limit, num, None;
    }

    method ParseNextKey(ghost j: nat) returns (ok: bool)
      requires Good() && Before(j)
      modifies this
      ensures Valid() && (ok <==> j < |l.es|)
      ensures at == if ok then Some(j) else None
    {
      hide IsBlock, Body, Laid, Increasing, DecodeHeader, At0;
      IsLaid(data, l);
      current := valueAt + valueLength;
      AtBelow(data, l, j);
      AtEnd(l);
      AtGrows(l, j, |l.es|);
      if current >= limit {
        Finish();
        return false;
      }
      ReadEntry(data, l, j);
      var h := DecodeEntry(data[current..limit]);
      var (shared, delta, value, size) := h.value;
      var p := current + size;
      assert l.es[j].key == l.es[j].key[..shared] + l.es[j].key[shared..];
      key := key[..shared] + data[p..p + delta];
      valueAt, valueLength := p + delta, value;
      at := Some(j);
      CatchUp(j);
      ok := true;
    }

    /** Keep the restart index at the last restart point before the current entry. */
    method CatchUp(ghost j: nat)
      requires Good() && at == Some(j) && Here(j) && current < limit
      modifies `restartIndex
      ensures Valid()
    {
      hide IsBlock, Body, Increasing;
      while restartIndex + 1 < num
        invariant restartIndex < num && l.starts[restartIndex] <= j
        decreases num - restartIndex
      {
        var r := GetRestartPoint(restartIndex + 1);
        if r >= current {
          return;
        }
        AtGrows(l, l.starts[restartIndex + 1], j);
        restartIndex := restartIndex + 1;
      }
    }

    method SeekToFirst()
      requires Valid()
      modifies this
      ensures Valid() && at == At(0, |l.es|)
    {
      hide IsBlock, Increasing;
      IsLaid(data, l);
      SeekToRestartPoint(0);
      var ok := ParseNextKey(0);
    }

    /** Read on from entry `from` until the next entry starts at or after `stop`. */
    method ReadUpTo(ghost from: nat, ghost upto: nat, stop: nat)
      requires Good() && Before(from) && (from < upto || from == |l.es|) && upto <= |l.es| && stop == At0(l, upto)
      modifies this
      ensures Valid() && at == if from < upto then Some(upto - 1) else None
    {
      hide IsBlock, Increasing, Body, At0;
      IsLaid(data, l);
      var ok := ParseNextKey(from);
      if !ok {
        return;
      }
      ghost var j := from;
      while valueAt + valueLength < stop
        invariant from <= j < upto && Valid() && at == Some(j)
        decreases upto - j
      {
        AtGrows(l, j + 1, upto);
        ReadyForNext(j);
        ok := ParseNextKey(j + 1);
        j := j + 1;
      }
      AtGrows(l, j + 1, upto);
    }

    lemma InRange()
      requires Valid() && at.Some?
      ensures at.value < |l.es|
    {
    }

    /** The current key carries what the next entry shares with it. */
    lemma ReadyForNext(i: nat)
      requires Valid() && at == Some(i)
      ensures Before(i + 1)
    {
      hide Codes, Body, Increasing;
    }

    method SeekToLast()
      requires Valid()
      modifies this
      ensures Valid() && at == LastOf(|l.es|)
    {
      hide IsBlock, Increasing, Body;
      IsLaid(data, l);
      AtEnd(l);
      SeekToRestartPoint(num - 1);
      LastStart(l);
      ReadUpTo(l.starts[num - 1], |l.es|, limit);
    }

    method Next()
      requires Valid() && current < limit
      modifies this
      ensures Valid() && at == After(old(at), |l.es|)
    {
      hide IsBlock, Increasing, Body, At0, Before, Here;
      ghost var i := at.value;
      InRange();
      ReadyForNext(i);
      var ok := ParseNextKey(i + 1);
    }

    method Prev()
      requires Valid() && current < limit
      modifies this
      ensures Valid() && at == BeforePos(old(at))
    {
      hide IsBlock, Increasing, Body, At0;
      IsLaid(data, l);
      ghost var i := at.value;
      var original := current;
      while true
        invariant restartIndex < num && l.starts[restartIndex] <= i
        invariant original == At0(l, i) && i < |l.es|
        decreases restartIndex
      {
        var r := GetRestartPoint(restartIndex);
        AtGrows(l, l.starts[restartIndex], i);
        if r < original {
          break;
        }
        if restartIndex == 0 {
          Finish();
          return;
        }
        StartsGrow(l, restartIndex - 1, restartIndex);
        restartIndex := restartIndex - 1;
      }
      ghost var from := l.starts[restartIndex];
      SeekToRestartPoint(restartIndex);
      ReadUpTo(from, i, original);
    }

    /** The key stored in full at a restart point. */
    method RestartKey(j: nat) returns (k: seq<Byte>)
      requires Good() && 0 < j < num
      ensures Laid(l) && l.starts[j] < |l.es| && k == l.es[l.starts[j]].key
    {
      hide IsBlock, Body, Increasing, DecodeHeader, At0;
      IsLaid(data, l);
      RestartStarts(l, j);
      var p := GetRestartPoint(j);
      ReadEntry(data, l, l.starts[j]);
      var h := DecodeEntry(data[p..limit]);
      var (shared, delta, value, size) := h.value;
      assert l.es[l.starts[j]].key[0..] == l.es[l.starts[j]].key;
      k := data[p + size..p + size + delta];
    }

    /** Binary search: the last restart point whose key is before `target`, or the first one. */
    method FindRestart(target: seq<Byte>) returns (left: nat)
      requires Good()
      ensures left < num && Laid(l)
      ensures left > 0 ==> l.starts[left] < |l.es| && rank(l.es[l.starts[left]].key) < rank(target)
    {
      hide IsBlock, Body, Increasing;
      IsLaid(data, l);
      left := 0;
      var right := num - 1;
      while left < right
        invariant left <= right < num
        invariant left > 0 ==> l.starts[left] < |l.es| && rank(l.es[l.starts[left]].key) < rank(target)
      {
        var mid := (left + right + 1) / 2;
        var k := RestartKey(mid);
        if rank(k) < rank(target) {
          left := mid;
        } else {
          right := mid - 1;
        }
      }
    }

    /** The first entry whose key is not before `target`. */
    method Seek(target: seq<Byte>)
      requires Valid()
      modifies this
      ensures Valid() && at == At(FirstFrom(l.es, rank, target), |l.es|)
    {
      hide IsBlock, Body, FirstFrom, At0;
      var left := FindRestart(target);
      SeekToRestartPoint(left);
      ghost var j := l.starts[left];
      assert forall q | 0 <= q < j :: rank(l.es[q].key) < rank(target);
      hide Increasing;
      while true
        invariant Good() && Before(j)
        invariant forall q | 0 <= q < j :: rank(l.es[q].key) < rank(target)
        decreases |l.es| - j
      {
        var ok := ParseNextKey(j);
        if !ok || rank(key) >= rank(target) {
          FirstFromIs(l.es, rank, target, j);
          return;
        }
        ReadyForNext(j);
        j := j + 1;
      }
    }
  }

  lemma FirstFromIs(es: seq<Pair>, rank: Ranking, target: seq<Byte>, p: nat)
    requires p <= |es| && (p < |es| ==> rank(es[p].key) >= rank(target))
    requires forall q | 0 <= q < p :: rank(es[q].key) < rank(target)
    ensures FirstFrom(es, rank, target) == p
  {
    hide FirstFrom;
  }

  lemma RestartStarts(l: Layout, j: nat)
    requires Laid(l) && 0 < j < |l.starts|
    ensures l.starts[j] < |l.es| && l.shares[l.starts[j]] == 0
  {
  }

  lemma LastStart(l: Layout)
    requires Laid(l)
    ensures l.starts[|l.starts| - 1] < |l.es| || l.es == []
  {
  }

  lemma StartsGrow(l: Layout, j: nat, k: nat)
    requires Laid(l) && j < k < |l.starts|
    ensures l.starts[j] < l.starts[k]
  {
  }

  lemma IsLaid(data: seq<Byte>, l: Layout)
    requires IsBlock(data, l)
    ensures Laid(l)
  {
  }

  lemma AtEnd(l: Layout)
    requires Laid(l)
    ensures At0(l, |l.es|) == |Body(l)|
  {
  }

  /** The count in the last word locates the restart array. */
  lemma CountAt(data: seq<Byte>, l: Layout)
    requires IsBlock(data, l)
    ensures |data| >= 4 && Word(data[|data| - 4..]) == |l.starts|
    ensures |Body(l)| == |data| - (1 + |l.starts|) * 4
  {
    hide Words, Fixed, Word, Body, RestartOffsets;
    var n := |l.starts|;
    var tail := Fixed(n, 4);
    assert data == Body(l) + Words(RestartOffsets(l)) + tail;
    assert data[|data| - 4..] == tail;
    Powers();
    WordOfFixed(n, 4);
  }

  /** Entry `j` read from the block's bytes. */
  lemma ReadEntry(data: seq<Byte>, l: Layout, j: nat)
    requires IsBlock(data, l) && j < |l.es|
    ensures var p, n := At0(l, j), |Body(l)|;
            && p < n <= |data| && l.shares[j] <= |l.es[j].key|
            && var h := DecodeHeader(data[p..n]);
            && h.Some?
            && h.value.0 == l.shares[j] && h.value.1 == |l.es[j].key| - l.shares[j] && h.value.2 == |l.es[j].value|
            && p + h.value.3 + h.value.1 + h.value.2 == At0(l, j + 1) <= n
            && data[p + h.value.3..p + h.value.3 + h.value.1] == l.es[j].key[l.shares[j]..]
            && data[p + h.value.3 + h.value.1..At0(l, j + 1)] == l.es[j].value
  {
    hide DecodeHeader, Codes, Words, Fixed, Header;
    BodyIs(data, l);
    AtBelow(data, l, j);
    ReadsHeader(l.es, l.shares, j);
    ReadsBytes(l.es, l.shares, j);
    EntryBounds(l.es, l.shares, j);
    var p, n, b := At0(l, j), |Body(l)|, Body(l);
    assert data[p..n] == b[p..];
    var k, v, q := KeyStart(l.es, l.shares, j), ValueStart(l.es, l.shares, j), At0(l, j + 1);
    assert data[k..v] == data[..n][k..v] && data[v..q] == data[..n][v..q];
  }

  // ----- Building and reading -----

  /** More than the bytes any block of these entries takes. */
  function Room(es: seq<Pair>): nat {
    if es == [] then 8
    else
      var e := es[|es| - 1];
      Room(es[..|es| - 1]) + 2 * (|e.key| + |e.value|) + 7
  }

  lemma {:induction false} VarintShort(v: nat)
    ensures |EncodeVarint(v)| <= v + 1
  {
    if v >= 128 { VarintShort(v / 128); }
  }

  lemma {:induction false} CodesFit(es: seq<Pair>, shares: seq<nat>, n: nat)
    requires Shares(es, shares) && n <= |es|
    ensures |Codes(es, shares, n)| + 4 * n + 8 <= Room(es[..n])
  {
    if n > 0 {
      hide EncodeVarint;
      CodesFit(es, shares, n - 1);
      assert es[..n][..n - 1] == es[..n - 1];
      var e, shared := es[n - 1], shares[n - 1];
      VarintShort(shared);
      VarintShort(|e.key| - shared);
      VarintShort(|e.value|);
    }
  }

  lemma {:induction false} StartsBelow(l: Layout, j: nat)
    requires Laid(l) && j < |l.starts|
    ensures j <= l.starts[j]
  {
    if j > 0 { StartsBelow(l, j - 1); }
  }

  lemma LayoutFits(l: Layout)
    requires Laid(l)
    ensures |Body(l)| + 4 * |RestartOffsets(l)| + 4 <= Room(l.es)
  {
    CodesFit(l.es, l.shares, |l.es|);
    assert l.es[..|l.es|] == l.es;
    StartsBelow(l, |l.starts| - 1);
  }

  /** Build a block.  Offsets are 32-bit, so very large contents do not fit. */
  method Build(es: seq<Pair>, interval: nat) returns (fits: bool, data: seq<Byte>, ghost l: Layout)
    requires interval >= 1
    ensures fits ==> IsBlock(data, l) && l.es == es && Packed(l, interval)
    ensures Room(es) < WORD32 ==> fits
  {
    hide IsBlock, Laid, Body, RestartOffsets, Room, Packed;
    var b := new BlockBuilder(interval);
    for i := 0 to |es|
      invariant fresh(b) && b.Valid() && b.layout.es == es[..i] && b.interval == interval
    {
      b.Add(es[i].key, es[i].value);
      assert es[..i + 1] == es[..i] + [es[i]];
    }
    assert es[..|es|] == es;
    LayoutFits(b.layout);
    fits, data, l := |b.buffer| + 4 * |b.restarts| + 4 < WORD32, [], b.layout;
    if fits {
      data := b.Finish();
    }
  }

  /** Build a block and iterate over it: the same entries, for every restart interval. */
  method RoundTrip(es: seq<Pair>, interval: nat, rank: Ranking) returns (fits: bool, result: seq<Pair>)
    requires interval >= 1 && Increasing(es, rank)
    ensures fits ==> result == es
    ensures Room(es) < WORD32 ==> fits
  {
    hide IsBlock, Increasing, Room;
    var data;
    ghost var l;
    fits, data, l := Build(es, interval);
    result := [];
    if fits {
      result := ReadBlock(data, rank, l);
    }
  }

  /** Read a block from front to end. */
  method ReadBlock(data: seq<Byte>, rank: Ranking, ghost l: Layout) returns (result: seq<Pair>)
    requires IsBlock(data, l) && Increasing(l.es, rank)
    ensures result == l.es
  {
    hide IsBlock, Increasing, Laid, Body, At0;
    var it := new Iter(data, rank, l);
    it.SeekToFirst();
    result := [];
    ghost var n: nat := 0;
    while it.current < it.limit
      invariant it.Valid() && it.l == l && n <= |l.es| && result == l.es[..n]
      invariant it.at == At(n, |l.es|)
      decreases |l.es| - n
    {
      var e := it.Current();
      assert l.es[..n + 1] == l.es[..n] + [l.es[n]];
      result, n := result + [e], n + 1;
      it.Next();
    }
  }
}
