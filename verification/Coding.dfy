/** Bytes, little-endian words, varints and length-prefixed strings. */
module Coding {
  import opened Wrappers

  type Byte = b: nat | b < 256

  const WORD32: nat := 0x1_0000_0000
  const WORD64: nat := 0x1_0000_0000_0000_0000

  function Power(base: nat, n: nat): nat {
    if n == 0 then 1 else base * Power(base, n - 1)
  }

  lemma SliceOfSlice<T>(s: seq<T>, from: nat, to: nat, p: nat, q: nat)
    requires from <= to <= |s| && p <= q <= to - from
    ensures s[from..to][p..q] == s[from + p..from + q]
  {
    var a, b := s[from..to][p..q], s[from + p..from + q];
    forall i | 0 <= i < q - p ensures a[i] == b[i] {
      assert s[from..to][p + i] == s[from + (p + i)];
    }
  }

  // ----- Little-endian words -----

  /** `n` in `k` bytes, least significant first; higher bits are lost. */
  function Fixed(n: nat, k: nat): (r: seq<Byte>)
    ensures |r| == k
  {
    if k == 0 then [] else [n % 256] + Fixed(n / 256, k - 1)
  }

  function Word(s: seq<Byte>): nat {
    if s == [] then 0 else s[0] + 256 * Word(s[1..])
  }

  lemma {:induction false} WordOfFixed(n: nat, k: nat)
    ensures n < Power(256, k) ==> Word(Fixed(n, k)) == n
  {
    if k > 0 {
      if n < Power(256, k) { assert n / 256 < Power(256, k - 1); }
      WordOfFixed(n / 256, k - 1);
      assert Fixed(n, k)[1..] == Fixed(n / 256, k - 1);
    }
  }

  lemma {:induction false} FixedOfWord(s: seq<Byte>)
    ensures Fixed(Word(s), |s|) == s
  {
    if s != [] {
      FixedOfWord(s[1..]);
      assert Word(s) / 256 == Word(s[1..]) && Word(s) % 256 == s[0];
      assert s == [s[0]] + s[1..];
    }
  }

  lemma Powers()
    ensures Power(256, 1) == 0x100 && Power(256, 2) == 0x1_0000 && Power(256, 3) == 0x100_0000
    ensures Power(256, 4) == WORD32 && Power(256, 8) == WORD64
  {
    assert Power(256, 2) == 256 * Power(256, 1);
    assert Power(256, 3) == 256 * Power(256, 2);
    assert Power(256, 4) == 256 * Power(256, 3);
    assert Power(256, 5) == 256 * Power(256, 4);
    assert Power(256, 6) == 256 * Power(256, 5);
    assert Power(256, 7) == 256 * Power(256, 6);
    assert Power(256, 8) == 256 * Power(256, 7);
  }

  // ----- Varints -----

  function EncodeVarint(v: nat): (r: seq<Byte>)
    ensures |r| > 0
  {
    if v < 128 then [v] else [v % 128 + 128] + EncodeVarint(v / 128)
  }

  /** A varint of at most `k` bytes at the front of `s`: its untruncated value and its size. */
  function DecodeVarint(s: seq<Byte>, k: nat): (r: Option<(nat, nat)>)
    ensures r.Some? ==> 0 < r.value.1 <= |s| && r.value.1 <= k
  {
    if k == 0 || s == [] then None
    else if s[0] < 128 then Some((s[0], 1))
    else
      match DecodeVarint(s[1..], k - 1)
      case None => None
      case Some((v, n)) => Some((s[0] - 128 + 128 * v, n + 1))
  }

  lemma {:induction false} VarintRoundTrip(v: nat, k: nat, rest: seq<Byte>)
    requires k > 0 && v < Power(128, k)
    ensures DecodeVarint(EncodeVarint(v) + rest, k) == Some((v, |EncodeVarint(v)|))
  {
    var s := EncodeVarint(v) + rest;
    if v >= 128 {
      assert v / 128 < Power(128, k - 1);
      VarintRoundTrip(v / 128, k - 1, rest);
      assert s[1..] == EncodeVarint(v / 128) + rest;
    }
  }

  /** What `|=` with a shifted group does when the groups do not overlap. */
  method GetVarint32(s: seq<Byte>) returns (r: Option<(nat, nat)>)
    ensures r == match DecodeVarint(s, 5)
                 case None => None
                 case Some((v, n)) => Some((v % WORD32, n))
  {
    var result, i, scale := 0, 0, 1;
    while i < 5 && i < |s|
      invariant i <= 5 && i <= |s|
      invariant result == Gathered(s, i) % WORD32 && scale == Power(128, i)
      invariant forall j | 0 <= j < i :: s[j] >= 128
    {
      var group := s[i] % 128;
      assert Gathered(s, i + 1) == Gathered(s, i) + group * scale;
      ModAdd(Gathered(s, i), group * scale);
      result := (result + group * scale) % WORD32;
      if s[i] < 128 {
        Gathers(s, i, 5);
        return Some((result, i + 1));
      }
      i, scale := i + 1, 128 * scale;
    }
    Unended(s, i, 5);
    r := None;
  }

  lemma ModSmall(n: nat, word: nat)
    requires n < word
    ensures n % word == n
  {
  }

  lemma ModAdd(a: nat, b: nat)
    ensures (a % WORD32 + b) % WORD32 == (a + b) % WORD32
  {
  }

  /** The value of the first `i` seven-bit groups. */
  ghost function Gathered(s: seq<Byte>, i: nat): nat
    requires i <= |s|
  {
    if i == 0 then 0 else Gathered(s, i - 1) + (s[i - 1] % 128) * Power(128, i - 1)
  }

  lemma {:induction false} GatheredTail(s: seq<Byte>, i: nat)
    requires 0 < i <= |s|
    ensures Gathered(s, i) == s[0] % 128 + 128 * Gathered(s[1..], i - 1)
  {
    if i > 1 {
      GatheredTail(s, i - 1);
      assert Power(128, i - 1) == 128 * Power(128, i - 2);
      Regroup(s[i - 1] % 128, Power(128, i - 2));
      assert s[1..][i - 2] == s[i - 1];
      assert Gathered(s[1..], i - 1) == Gathered(s[1..], i - 2) + (s[i - 1] % 128) * Power(128, i - 2);
    }
  }

  lemma Regroup(g: nat, p: nat)
    ensures g * (128 * p) == 128 * (g * p)
  {
  }

  lemma {:induction false} Gathers(s: seq<Byte>, i: nat, k: nat)
    requires i < |s| && i < k && s[i] < 128 && forall j | 0 <= j < i :: s[j] >= 128
    ensures DecodeVarint(s, k) == Some((Gathered(s, i + 1), i + 1))
  {
    GatheredTail(s, i + 1);
    if i > 0 {
      Gathers(s[1..], i - 1, k - 1);
    }
  }

  lemma {:induction false} Unended(s: seq<Byte>, i: nat, k: nat)
    requires i <= |s| && i <= k && (i == k || i == |s|) && forall j | 0 <= j < i :: s[j] >= 128
    ensures DecodeVarint(s, k).None?
  {
    if i > 0 { Unended(s[1..], i - 1, k - 1); }
  }

  // ----- Length-prefixed strings -----

  function PutLengthPrefixed(s: seq<Byte>): seq<Byte> {
    EncodeVarint(|s|) + s
  }

  /** The string at the front and what follows it. */
  function GetLengthPrefixed(s: seq<Byte>): (r: Option<(seq<Byte>, seq<Byte>)>)
    ensures r.Some? ==> |r.value.1| < |s|
  {
    match DecodeVarint(s, 5)
    case None => None
    case Some((v, n)) =>
      var len := v % WORD32;
      if |s| - n < len then None else Some((s[n..n + len], s[n + len..]))
  }

  lemma LengthPrefixedRoundTrip(s: seq<Byte>, rest: seq<Byte>)
    requires |s| < WORD32
    ensures GetLengthPrefixed(PutLengthPrefixed(s) + rest) == Some((s, rest))
  {
    var all := PutLengthPrefixed(s) + rest;
    assert all == EncodeVarint(|s|) + (s + rest);
    FiveGroups();
    VarintRoundTrip(|s|, 5, s + rest);
    var n := |EncodeVarint(|s|)|;
    assert all[n..n + |s|] == s && all[n + |s|..] == rest;
  }

  /** A number cut short is refused. */
  lemma {:induction false} VarintCut(v: nat, k: nat, n: nat)
    requires n < |EncodeVarint(v)|
    ensures DecodeVarint(EncodeVarint(v)[..n], k).None?
    decreases n
  {
    if n > 0 && k > 0 {
      VarintCut(v / 128, k - 1, n - 1);
      assert EncodeVarint(v)[..n][1..] == EncodeVarint(v / 128)[..n - 1];
    }
  }

  /** So is a string with its length in front. */
  lemma LengthPrefixedCut(s: seq<Byte>, n: nat)
    requires |s| < WORD32 && n < |PutLengthPrefixed(s)|
    ensures GetLengthPrefixed(PutLengthPrefixed(s)[..n]).None?
  {
    hide EncodeVarint, DecodeVarint, Power;
    var head := EncodeVarint(|s|);
    var cut := PutLengthPrefixed(s)[..n];
    if n < |head| {
      assert cut == head[..n];
      VarintCut(|s|, 5, n);
    } else {
      assert cut == head + s[..n - |head|];
      FiveGroups();
      VarintRoundTrip(|s|, 5, s[..n - |head|]);
    }
  }

  lemma FiveGroups()
    ensures WORD32 <= Power(128, 5) && WORD64 <= Power(128, 10)
  {
    assert Power(128, 1) == 128;
    assert Power(128, 2) == 128 * Power(128, 1);
    assert Power(128, 3) == 128 * Power(128, 2);
    assert Power(128, 4) == 128 * Power(128, 3);
    assert Power(128, 5) == 128 * Power(128, 4);
    assert Power(128, 6) == 128 * Power(128, 5);
    assert Power(128, 7) == 128 * Power(128, 6);
    assert Power(128, 8) == 128 * Power(128, 7);
    assert Power(128, 9) == 128 * Power(128, 8);
    assert Power(128, 10) == 128 * Power(128, 9);
  }
}
