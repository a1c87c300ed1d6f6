/** Why keys may be modelled as reals: the bytewise order on byte strings embeds in the order on
    the reals between zero and one, so what is stated for any given keys holds for any given strings.
    Strings are not dense, so that a key exists is another matter: such statements are made for the keys
    of a set, of which `ByteKeys` is one. */
module KeyOrder {
  import opened Coding

  /** `Slice::compare` < 0. */
  predicate BytewiseLess(a: seq<Byte>, b: seq<Byte>) {
    if b == [] then false
    else if a == [] then true
    else a[0] < b[0] || (a[0] == b[0] && BytewiseLess(a[1..], b[1..]))
  }

  /** A string read as digits one to 256 of a base-257 fraction. */
  function Embed(s: seq<Byte>): (r: real)
    ensures 0.0 <= r < 1.0
    ensures r == 0.0 <==> s == []
  {
    if s == [] then 0.0 else (s[0] as real + 1.0 + Embed(s[1..])) / 257.0
  }

  lemma {:induction false} EmbedMonotone(a: seq<Byte>, b: seq<Byte>)
    ensures BytewiseLess(a, b) <==> Embed(a) < Embed(b)
  {
    if a != [] && b != [] {
      EmbedMonotone(a[1..], b[1..]);
      var x, y := Embed(a[1..]), Embed(b[1..]);
      if a[0] == b[0] {
        assert Embed(a) - Embed(b) == (x - y) / 257.0;
      } else {
        assert Embed(a) - Embed(b) == (a[0] as real - b[0] as real + x - y) / 257.0;
        assert a[0] < b[0] ==> a[0] as real + 1.0 <= b[0] as real;
        assert b[0] < a[0] ==> b[0] as real + 1.0 <= a[0] as real;
      }
    }
  }

  /** Different strings get different reals. */
  lemma {:induction false} EmbedInjective(a: seq<Byte>, b: seq<Byte>)
    requires Embed(a) == Embed(b)
    ensures a == b
  {
    if a != [] && b != [] {
      EmbedMonotone(a, b);
      EmbedMonotone(b, a);
      EmbedMonotone(a[1..], b[1..]);
      EmbedMonotone(b[1..], a[1..]);
      assert a[0] == b[0];
      EmbedInjective(a[1..], b[1..]);
      assert a == [a[0]] + a[1..] && b == [b[0]] + b[1..];
    }
  }

  /** The keys that are byte strings. */
  ghost function ByteKeys(): iset<real> {
    iset s: seq<Byte> :: Embed(s)
  }
}
