/** Building a block and iterating over it in both directions. */
module Block {
  import opened Coding
  import opened BlockFormat

  // ----- Restart points -----

  /** A block's entries, how much each shares, and which entries are restart points. */
  datatype Layout = Layout(es: seq<Pair>, shares: seq<nat>, starts: seq<nat>)

  ghost predicate Laid(l: Layout) {
    && Shares(l.es, l.shares)
    && |l.starts| > 0 && l.starts[0] == 0
    && (forall j, k | 0 <= j < k < |l.starts| :: l.starts[j] < l.starts[k])
    && (forall j | 0 <= j < |l.starts| :: l.starts[j] < |l.es| || (j == 0 && l.es == []))
    && (forall j | 0 <= j < |l.starts| && l.starts[j] < |l.es| :: l.shares[l.starts[j]] == 0)
  }

  ghost function At0(l: Layout, i: nat): nat
    requires Laid(l) && i <= |l.es|
  {
    Offset(l.es, l.shares, i)
  }

  ghost function RestartOffsets(l: Layout): (r: seq<nat>)
    requires Laid(l)
    ensures |r| == |l.starts| && forall j | 0 <= j < |r| :: r[j] == At0(l, l.starts[j])
  {
    seq(|l.starts|, j requires 0 <= j < |l.starts| => At0(l, l.starts[j]))
  }

  function Words(ws: seq<nat>): (r: seq<Byte>)
    ensures |r| == 4 * |ws|
  {
    if ws == [] then [] else Words(ws[..|ws| - 1]) + Fixed(ws[|ws| - 1], 4)
  }

  lemma {:induction false} WordsAt(ws: seq<nat>, j: nat)
    requires j < |ws| && ws[j] < WORD32
    ensures Word(Words(ws)[4 * j..4 * j + 4]) == ws[j]
  {
    hide Fixed, Word;
    var n := |ws| - 1;
    var all := Words(ws);
    if j < n {
      WordsAt(ws[..n], j);
      assert all[4 * j..4 * j + 4] == Words(ws[..n])[4 * j..4 * j + 4];
    } else {
      assert all[4 * j..4 * j + 4] == Fixed(ws[n], 4);
      Powers();
      WordOfFixed(ws[n], 4);
    }
  }

  ghost function Body(l: Layout): seq<Byte>
    requires Laid(l)
  {
    Codes(l.es, l.shares, |l.es|)
  }

  /** The finished block: entries, restart array, restart count. */
  ghost predicate IsBlock(data: seq<Byte>, l: Layout) {
    && Laid(l) && |data| < WORD32
    && data == Body(l) + (Words(RestartOffsets(l)) + Fixed(|l.starts|, 4))
  }

  /** The keys have `n` bytes in common at the front, and no more. */
  ghost predicate SharesMost(a: seq<Byte>, b: seq<Byte>, n: nat) {
    n <= |a| && n <= |b| && a[..n] == b[..n] && (n < |a| && n < |b| ==> a[n] != b[n])
  }

  /** Every `interval`-th entry is a restart point, and every other one shares all it can with the one before. */
  ghost predicate Packed(l: Layout, interval: nat) {
    && |l.starts| > 0 && |l.shares| == |l.es| <= l.starts[|l.starts| - 1] + interval
    && (forall j | 0 < j < |l.starts| :: l.starts[j] == l.starts[j - 1] + interval)
    && forall i | 0 < i < |l.es| && i !in l.starts :: SharesMost(l.es[i - 1].key, l.es[i].key, l.shares[i])
  }

  // ----- The builder -----

  /** The length of the common prefix. */
  method SharedPrefix(a: seq<Byte>, b: seq<Byte>) returns (n: nat)
    ensures n <= |a| && n <= |b| && a[..n] == b[..n]
    ensures n < |a| && n < |b| ==> a[n] != b[n]
  {
    n := 0;
    while n < |a| && n < |b| && a[n] == b[n]
      invariant n <= |a| && n <= |b| && a[..n] == b[..n]
    {
      assert a[..n + 1] == a[..n] + [a[n]] && b[..n + 1] == b[..n] + [b[n]];
      n := n + 1;
    }
  }

  /** The builder's fields stand for the layout. */
  ghost predicate Built(l: Layout, interval: nat, buffer: seq<Byte>, restarts: seq<nat>, counter: nat,
                        lastKey: seq<Byte>) {
    && interval >= 1 && Laid(l) && Packed(l, interval)
    && buffer == Body(l) && restarts == RestartOffsets(l)
    && counter == |l.es| - l.starts[|l.starts| - 1] <= interval
    && lastKey == (if l.es == [] then [] else l.es[|l.es| - 1].key)
  }

  lemma BuiltMore(l: Layout, interval: nat, buffer: seq<Byte>, restarts: seq<nat>, counter: nat, lastKey: seq<Byte>,
                  e: Pair, shared: nat, again: bool)
    requires Built(l, interval, buffer, restarts, counter, lastKey)
    requires if again then counter == interval && shared == 0 && l.es != []
             else counter < interval && SharesMost(lastKey, e.key, shared)
    ensures shared <= |e.key| && shared <= |lastKey| && lastKey[..shared] + e.key[shared..] == e.key
    ensures Built(Extended(l, e, shared, again), interval,
                  buffer + (Header(shared, |e.key| - shared, |e.value|) + e.key[shared..] + e.value),
                  restarts + (if again then [|buffer|] else []), (if again then 0 else counter) + 1, e.key)
  {
    hide Laid, Body, RestartOffsets, EntryCode, Header, Packed;
    assert e.key[..0] == [] == lastKey[..0];
    KeyBack(e.key, lastKey, shared);
    CodeOf(shared, e);
    NextLayout(l, e, shared, again);
    hide SharesMost;
    StaysPacked(l, e, shared, again, interval);
    EndsWith(l.es, e);
  }

  class BlockBuilder {
    const interval: nat
    var buffer: seq<Byte>
    var restarts: seq<nat>
    var counter: nat
    var lastKey: seq<Byte>
    ghost var layout: Layout

    ghost predicate Valid()
      reads this
    {
      Built(layout, interval, buffer, restarts, counter, lastKey)
    }

    constructor (interval: nat)
      requires interval >= 1
      ensures Valid() && layout.es == [] && this.interval == interval
    {
      this.interval, buffer, restarts, counter, lastKey := interval, [], [0], 0, [];
      layout := Layout([], [], [0]);
    }

    /** Share with the last key, or start afresh after `interval` entries. */
    method ShareOrRestart(key: seq<Byte>) returns (shared: nat, ghost again: bool)
      requires Valid()
      modifies `restarts, `counter
      ensures shared <= |key| && shared <= |lastKey| && key[..shared] == lastKey[..shared]
      ensures again ==> shared == 0 && layout.es != [] && old(counter) == interval
      ensures !again ==> SharesMost(lastKey, key, shared)
      ensures restarts == old(restarts) + if again then [|buffer|] else []
      ensures counter == (if again then 0 else old(counter)) && counter < interval
    {
      again := counter == interval;
      shared := 0;
      assert key[..0] == [] && lastKey[..0] == [];
      if counter < interval {
        shared := SharedPrefix(lastKey, key);
      } else {
        restarts := restarts + [|buffer|];
        counter := 0;
      }
    }

    method Add(key: seq<Byte>, value: seq<Byte>)
      requires Valid()
      modifies this
      ensures Valid() && layout.es == old(layout.es) + [Pair(key, value)]
    {
      hide Built, Header;
      ghost var e := Pair(key, value);
      var shared: nat;
      ghost var again;
      shared, again := ShareOrRestart(key);
      BuiltMore(layout, interval, buffer, old(restarts), old(counter), lastKey, e, shared, again);
      var code := Header(shared, |key| - shared, |value|) + key[shared..] + value;
      layout := Extended(layout, e, shared, again);
      buffer, lastKey, counter := buffer + code, lastKey[..shared] + key[shared..], counter + 1;
    }

    /** The restart array and its length go behind the entries. */
    method Finish() returns (data: seq<Byte>)
      requires Valid() && |buffer| + 4 * |restarts| + 4 < WORD32
      modifies this
      ensures IsBlock(data, layout) && layout == old(layout) && Packed(layout, interval)
    {
      hide Packed, Laid, Body, RestartOffsets, Fixed, Words, IsBlock;
      ghost var entries := buffer;
      FinishedIsBlock(layout);
      WordsStart(restarts);
      for i := 0 to |restarts|
        invariant restarts == old(restarts) && layout == old(layout)
        invariant buffer == entries + Words(restarts[..i])
      {
        WordsStep(restarts, i);
        buffer := buffer + Fixed(restarts[i], 4);
      }
      assert restarts[..|restarts|] == restarts;
      buffer := buffer + Fixed(|restarts|, 4);
      data := buffer;
    }
  }

  lemma KeyBack(key: seq<Byte>, last: seq<Byte>, shared: nat)
    requires shared <= |key| && shared <= |last| && key[..shared] == last[..shared]
    ensures last[..shared] + key[shared..] == key
  {
  }

  lemma EndsWith(es: seq<Pair>, e: Pair)
    ensures es + [e] != [] && (es + [e])[|es + [e]| - 1] == e
  {
  }

  lemma FinishedIsBlock(l: Layout)
    requires Laid(l) && |Body(l)| + 4 * |RestartOffsets(l)| + 4 < WORD32
    ensures IsBlock(Body(l) + Words(RestartOffsets(l)) + Fixed(|RestartOffsets(l)|, 4), l)
  {
    hide Laid, Body, Fixed, Words;
  }

  lemma CodeOf(shared: nat, e: Pair)
    requires shared <= |e.key|
    ensures EntryCode(shared, e) == Header(shared, |e.key| - shared, |e.value|) + e.key[shared..] + e.value
  {
  }

  lemma WordsMore(ws: seq<nat>, w: nat)
    ensures Words(ws + [w]) == Words(ws) + Fixed(w, 4)
  {
    assert (ws + [w])[..|ws|] == ws;
  }

  lemma WordsStart(ws: seq<nat>)
    ensures Words(ws[..0]) == []
  {
  }

  lemma WordsStep(ws: seq<nat>, i: nat)
    requires i < |ws|
    ensures Words(ws[..i + 1]) == Words(ws[..i]) + Fixed(ws[i], 4)
  {
    assert ws[..i + 1] == ws[..i] + [ws[i]];
    WordsMore(ws[..i], ws[i]);
  }

  /** One more entry at the end, `again` as a new restart point. */
  ghost function Extended(l: Layout, e: Pair, shared: nat, again: bool): Layout {
    Layout(l.es + [e], l.shares + [shared], if again then l.starts + [|l.es|] else l.starts)
  }

  lemma NextLayout(l: Layout, e: Pair, shared: nat, again: bool)
    requires Laid(l) && shared <= |e.key| && (again ==> shared == 0 && l.es != [])
    requires var last := if l.es == [] then [] else l.es[|l.es| - 1].key;
             shared <= |last| && e.key[..shared] == last[..shared]
    ensures var now := Extended(l, e, shared, again);
            && Laid(now) && Body(now) == Body(l) + EntryCode(shared, e)
            && |now.es| - now.starts[|now.starts| - 1] == 1 + (if again then 0 else |l.es| - l.starts[|l.starts| - 1])
            && now.es == l.es + [e]
            && RestartOffsets(now) == RestartOffsets(l) + if again then [|Body(l)|] else []
  {
    hide EntryCode, RestartOffsets;
    var now := Extended(l, e, shared, again);
    ExtendedLaid(l, e, shared, again);
    forall i | 0 <= i <= |l.es| ensures Codes(now.es, now.shares, i) == Codes(l.es, l.shares, i) {
      SameCodes(l.es, l.shares, now.es, now.shares, i);
    }
  }

  lemma ExtendedLaid(l: Layout, e: Pair, shared: nat, again: bool)
    requires Laid(l) && shared <= |e.key| && (again ==> shared == 0 && l.es != [])
    requires var last := if l.es == [] then [] else l.es[|l.es| - 1].key;
             shared <= |last| && e.key[..shared] == last[..shared]
    ensures Laid(Extended(l, e, shared, again))
  {
    var now := Extended(l, e, shared, again);
    assert |l.shares| == |l.es|;
    ExtendedShares(l.es, l.shares, e, shared);
    hide Shares;
    var n := |l.starts|;
    forall j | 0 <= j < |now.starts| ensures now.starts[j] == if j < n then l.starts[j] else |l.es| {}
    forall j, k | 0 <= j < k < |now.starts| ensures now.starts[j] < now.starts[k] {}
    forall j | 0 <= j < |now.starts| ensures now.starts[j] < |now.es| && now.shares[now.starts[j]] == 0 {}
  }

  lemma StaysPacked(l: Layout, e: Pair, shared: nat, again: bool, interval: nat)
    requires Laid(l) && Packed(l, interval) && interval >= 1 && (again ==> l.es != [])
    requires var last, n := if l.es == [] then [] else l.es[|l.es| - 1].key, |l.es| - l.starts[|l.starts| - 1];
             if again then n == interval else n < interval && SharesMost(last, e.key, shared)
    ensures Packed(Extended(l, e, shared, again), interval)
  {
    hide SharesMost, Laid;
    var now := Extended(l, e, shared, again);
    forall i | 0 < i < |now.es| && i !in now.starts
      ensures SharesMost(now.es[i - 1].key, now.es[i].key, now.shares[i])
    {
      if i < |l.es| { assert i !in l.starts; }
    }
  }

  lemma ExtendedShares(es: seq<Pair>, shares: seq<nat>, e: Pair, shared: nat)
    requires Shares(es, shares) && shared <= |e.key|
    requires var last := if es == [] then [] else es[|es| - 1].key;
             shared <= |last| && e.key[..shared] == last[..shared]
    ensures Shares(es + [e], shares + [shared])
  {
    var es', shares' := es + [e], shares + [shared];
    forall i | 0 < i < |es'|
      ensures shares'[i] <= |es'[i - 1].key| && es'[i].key[..shares'[i]] == es'[i - 1].key[..shares'[i]]
    {
      if i < |es| { assert es'[i] == es[i] && es'[i - 1] == es[i - 1]; }
    }
  }

  lemma {:induction false} SameCodes(es: seq<Pair>, shares: seq<nat>, es': seq<Pair>, shares': seq<nat>, n: nat)
    requires Shares(es, shares) && Shares(es', shares') && n <= |es| <= |es'| && es'[..|es|] == es
             && shares'[..|es|] == shares
    ensures Codes(es', shares', n) == Codes(es, shares, n)
  {
    if n > 0 {
      SameCodes(es, shares, es', shares', n - 1);
      assert es'[..|es|][n - 1] == es[n - 1] && shares'[..|es|][n - 1] == shares[n - 1];
    }
  }
}
