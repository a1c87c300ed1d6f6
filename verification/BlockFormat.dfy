/** The prefix-compressed block: entries, restart points, and how one entry is read back. */
module BlockFormat {
  import opened Wrappers
  import opened Coding

  datatype Pair = Pair(key: seq<Byte>, value: seq<Byte>)

  /** Keys are compared by some ranking of byte strings. */
  type Ranking = seq<Byte> -> real

  // ----- One entry -----

  function Header(shared: nat, delta: nat, value: nat): (r: seq<Byte>)
    ensures |r| >= 3
  {
    EncodeVarint(shared) + EncodeVarint(delta) + EncodeVarint(value)
  }

  /** An entry that keeps `shared` bytes of the key before it. */
  function EntryCode(shared: nat, e: Pair): (r: seq<Byte>)
    requires shared <= |e.key|
    ensures |r| >= 3
  {
    Header(shared, |e.key| - shared, |e.value|) + e.key[shared..] + e.value
  }

  /** The three lengths at the front of `s` and the size of their encoding; nothing when they or the
      bytes they announce do not fit.  The announced sizes are added in 32 bits. */
  function DecodeHeader(s: seq<Byte>): (r: Option<(nat, nat, nat, nat)>)
    ensures r.Some? ==> r.value.3 <= |s| && |s| - r.value.3 >= (r.value.1 + r.value.2) % WORD32
  {
    if |s| < 3 then None
    else
      match DecodeVarint(s, 5)
      case None => None
      case Some((a, i)) =>
        match DecodeVarint(s[i..], 5)
        case None => None
        case Some((b, j)) =>
          match DecodeVarint(s[i + j..], 5)
          case None => None
          case Some((c, k)) =>
            var shared, delta, value := a % WORD32, b % WORD32, c % WORD32;
            if |s| - (i + j + k) < (delta + value) % WORD32 then None
            else Some((shared, delta, value, i + j + k))
  }

  lemma HeaderRoundTrip(shared: nat, delta: nat, value: nat, rest: seq<Byte>)
    requires shared < WORD32 && delta + value < WORD32 && |rest| >= delta + value
    ensures DecodeHeader(Header(shared, delta, value) + rest)
         == Some((shared, delta, value, |Header(shared, delta, value)|))
  {
    hide EncodeVarint, DecodeVarint, Power;
    FiveGroups();
    var a, b, c := EncodeVarint(shared), EncodeVarint(delta), EncodeVarint(value);
    var s := Header(shared, delta, value) + rest;
    assert s == a + (b + c + rest);
    VarintRoundTrip(shared, 5, b + c + rest);
    assert s[|a|..] == b + (c + rest);
    VarintRoundTrip(delta, 5, c + rest);
    assert s[|a| + |b|..] == c + rest;
    VarintRoundTrip(value, 5, rest);
    ModSmall(shared, WORD32);
    ModSmall(delta, WORD32);
    ModSmall(value, WORD32);
    ModSmall(delta + value, WORD32);
  }

  /** The one-byte-each fast path reads the same three lengths. */
  lemma ShortHeader(s: seq<Byte>)
    requires |s| >= 3 && s[0] < 128 && s[1] < 128 && s[2] < 128
    ensures DecodeHeader(s) == if |s| - 3 < s[1] + s[2] then None else Some((s[0], s[1], s[2], 3))
  {
    hide DecodeVarint;
    ShortVarint(s);
    ShortVarint(s[1..]);
    ShortVarint(s[2..]);
    ModSmall(s[0], WORD32);
    ModSmall(s[1], WORD32);
    ModSmall(s[2], WORD32);
    SmallSum(s[1], s[2]);
  }

  lemma ShortVarint(s: seq<Byte>)
    requires s != [] && s[0] < 128
    ensures DecodeVarint(s, 5) == Some((s[0], 1))
  {
  }

  lemma SmallSum(a: nat, b: nat)
    requires a < 128 && b < 128
    ensures (a + b) % WORD32 == a + b
  {
  }

  /** `DecodeEntry`. */
  method DecodeEntry(s: seq<Byte>) returns (r: Option<(nat, nat, nat, nat)>)
    ensures r == DecodeHeader(s)
  {
    hide DecodeVarint;
    if |s| < 3 {
      return None;
    }
    var shared, delta, value, at := s[0], s[1], s[2], 3;
    if shared < 128 && delta < 128 && value < 128 {
      ShortHeader(s);
      if |s| - at < (delta + value) % WORD32 {
        return None;
      }
      return Some((shared, delta, value, at));
    }
    var a := GetVarint32(s);
    if a.None? {
      return None;
    }
    var b := GetVarint32(s[a.value.1..]);
    if b.None? {
      return None;
    }
    var c := GetVarint32(s[a.value.1 + b.value.1..]);
    if c.None? {
      return None;
    }
    at := a.value.1 + b.value.1 + c.value.1;
    if |s| - at < (b.value.0 + c.value.0) % WORD32 {
      return None;
    }
    r := Some((a.value.0, b.value.0, c.value.0, at));
  }

  // ----- All entries -----

  /** Each entry's key starts with `shares[i]` bytes of the key before it. */
  ghost predicate Shares(es: seq<Pair>, shares: seq<nat>) {
    && |shares| == |es|
    && (forall i | 0 <= i < |es| :: shares[i] <= |es[i].key|)
    && (forall i | 0 <= i < |es| && shares[i] > 0 :: i > 0)
    && (forall i | 0 < i < |es| :: shares[i] <= |es[i - 1].key| && es[i].key[..shares[i]] == es[i - 1].key[..shares[i]])
  }

  ghost function Codes(es: seq<Pair>, shares: seq<nat>, n: nat): seq<Byte>
    requires Shares(es, shares) && n <= |es|
  {
    if n == 0 then [] else Codes(es, shares, n - 1) + EntryCode(shares[n - 1], es[n - 1])
  }

  /** Where entry `i` starts. */
  ghost function Offset(es: seq<Pair>, shares: seq<nat>, i: nat): nat
    requires Shares(es, shares) && i <= |es|
  {
    |Codes(es, shares, i)|
  }

  lemma {:induction false} OffsetsGrow(es: seq<Pair>, shares: seq<nat>, i: nat, j: nat)
    requires Shares(es, shares) && i <= j <= |es|
    ensures Offset(es, shares, i) + 3 * (j - i) <= Offset(es, shares, j)
    ensures Codes(es, shares, i) <= Codes(es, shares, j)
  {
    if i < j { OffsetsGrow(es, shares, i, j - 1); }
  }

  /** The bytes at entry `i`'s offset are its code. */
  lemma CodeAt(es: seq<Pair>, shares: seq<nat>, i: nat)
    requires Shares(es, shares) && i < |es|
    ensures var p, q := Offset(es, shares, i), Offset(es, shares, i + 1);
            p < q <= Offset(es, shares, |es|) && Codes(es, shares, |es|)[p..q] == EntryCode(shares[i], es[i])
  {
    hide EntryCode;
    OffsetsGrow(es, shares, i, i + 1);
    OffsetsGrow(es, shares, i + 1, |es|);
    var p, q := Offset(es, shares, i), Offset(es, shares, i + 1);
    var all, front := Codes(es, shares, |es|), Codes(es, shares, i + 1);
    assert front == Codes(es, shares, i) + EntryCode(shares[i], es[i]);
    assert all[..q] == front;
    assert all[p..q] == all[..q][p..];
  }

  ghost function KeyStart(es: seq<Pair>, shares: seq<nat>, i: nat): nat
    requires Shares(es, shares) && i < |es|
  {
    Offset(es, shares, i) + |Header(shares[i], |es[i].key| - shares[i], |es[i].value|)|
  }

  ghost function ValueStart(es: seq<Pair>, shares: seq<nat>, i: nat): nat
    requires Shares(es, shares) && i < |es|
  {
    KeyStart(es, shares, i) + (|es[i].key| - shares[i])
  }

  lemma EntryBounds(es: seq<Pair>, shares: seq<nat>, i: nat)
    requires Shares(es, shares) && i < |es|
    ensures Offset(es, shares, i) < KeyStart(es, shares, i) <= ValueStart(es, shares, i)
    ensures ValueStart(es, shares, i) + |es[i].value| == Offset(es, shares, i + 1) <= Offset(es, shares, |es|)
  {
    hide Header;
    OffsetsGrow(es, shares, i + 1, |es|);
  }

  lemma {:induction false} KeyShort(es: seq<Pair>, shares: seq<nat>, i: nat)
    requires Shares(es, shares) && i < |es|
    ensures |es[i].key| <= Offset(es, shares, i + 1)
  {
    hide Header;
    if i > 0 { KeyShort(es, shares, i - 1); }
  }

  /** Reading at entry `i`'s offset gives its three lengths. */
  lemma ReadsHeader(es: seq<Pair>, shares: seq<nat>, i: nat)
    requires Shares(es, shares) && i < |es| && Offset(es, shares, |es|) < WORD32
    ensures var p := Offset(es, shares, i);
            && p < Offset(es, shares, |es|)
            && DecodeHeader(Codes(es, shares, |es|)[p..])
            == Some((shares[i], |es[i].key| - shares[i], |es[i].value|, KeyStart(es, shares, i) - p))
  {
    hide DecodeHeader, Header, Codes;
    var all, p, q, e := Codes(es, shares, |es|), Offset(es, shares, i), Offset(es, shares, i + 1), es[i];
    CodeAt(es, shares, i);
    EntryBounds(es, shares, i);
    if i > 0 {
      KeyShort(es, shares, i - 1);
      OffsetsGrow(es, shares, i, |es|);
    }
    var head, delta := Header(shares[i], |e.key| - shares[i], |e.value|), e.key[shares[i]..];
    EntryParts(all, p, q, head, delta, e.value);
    HeaderRoundTrip(shares[i], |delta|, |e.value|, delta + e.value + all[q..]);
  }

  /** The bytes behind the lengths are the rest of the key and the value. */
  lemma ReadsBytes(es: seq<Pair>, shares: seq<nat>, i: nat)
    requires Shares(es, shares) && i < |es|
    ensures var all := Codes(es, shares, |es|);
            && KeyStart(es, shares, i) <= ValueStart(es, shares, i) <= Offset(es, shares, i + 1) <= |all|
            && all[KeyStart(es, shares, i)..ValueStart(es, shares, i)] == es[i].key[shares[i]..]
            && all[ValueStart(es, shares, i)..Offset(es, shares, i + 1)] == es[i].value
  {
    hide Header, Codes;
    var all, p, q, e := Codes(es, shares, |es|), Offset(es, shares, i), Offset(es, shares, i + 1), es[i];
    CodeAt(es, shares, i);
    EntryBounds(es, shares, i);
    EntryParts(all, p, q, Header(shares[i], |e.key| - shares[i], |e.value|), e.key[shares[i]..], e.value);
  }

  lemma EntryParts(all: seq<Byte>, p: nat, q: nat, head: seq<Byte>, delta: seq<Byte>, value: seq<Byte>)
    requires p <= q <= |all| && all[p..q] == head + delta + value
    ensures all[p..] == head + (delta + value + all[q..])
    ensures all[p + |head|..p + |head| + |delta|] == delta && all[p + |head| + |delta|..q] == value
  {
    assert all[p..] == all[p..q] + all[q..];
    var m, n := |head|, |head| + |delta|;
    SliceOfSlice(all, p, q, m, n);
    SliceOfSlice(all, p, q, n, q - p);
  }
}
