/** The separators on byte strings, seen as keys of the tables: they are what a table builder needs. */
module ByteSeparators {
  import opened Wrappers
  import opened Coding
  import opened Entries
  import opened KeyOrder
  import opened Separators
  import opened TableBuilder

  ghost function BytesOf(k: Key): (s: seq<Byte>)
    requires k in ByteKeys()
    ensures Embed(s) == k
  {
    var s: seq<Byte> :| Embed(s) == k;
    s
  }

  lemma BytesBack(s: seq<Byte>)
    ensures Embed(s) in ByteKeys() && BytesOf(Embed(s)) == s
  {
    assert Embed(s) in ByteKeys();
    EmbedInjective(BytesOf(Embed(s)), s);
  }

  ghost function Embedded(s: Option<seq<Byte>>): Option<Key> {
    if s.Some? then Some(Embed(s.value)) else None
  }

  /** `InternalKeyComparator::FindShortestSeparator` on keys; none when the key is kept. */
  ghost function ByteShorten(a: Key, b: Key): Option<Key> {
    if a in ByteKeys() && b in ByteKeys() && a < b then
      Embedded(Shortened(BytesOf(a), Separator(BytesOf(a), BytesOf(b))))
    else None
  }

  /** `InternalKeyComparator::FindShortSuccessor` on keys. */
  ghost function ByteSuccessor(a: Key): Option<Key> {
    if a in ByteKeys() then Embedded(Shortened(BytesOf(a), Successor(BytesOf(a)))) else None
  }

  lemma SeparatorBetween(s: seq<Byte>, t: seq<Byte>)
    requires BytewiseLess(s, t)
    ensures BytewiseLess(Separator(s, t), t)
  {
    var d := CommonPrefix(s, t);
    if RoomAt(s, t, d) {
      var r := Separator(s, t);
      assert r[..d] == s[..d];
      LessAt(r, t, d);
    }
  }

  lemma ShortenBetween(a: Key, b: Key)
    ensures ByteShorten(a, b).Some? ==> a < ByteShorten(a, b).value < b
  {
    hide Separator;
    if ByteShorten(a, b).Some? {
      var s, t := BytesOf(a), BytesOf(b);
      EmbedMonotone(s, t);
      SeparatorBetween(s, t);
      EmbedMonotone(s, Separator(s, t));
      EmbedMonotone(Separator(s, t), t);
    }
  }

  lemma SuccessorAfter(a: Key)
    ensures ByteSuccessor(a).Some? ==> a < ByteSuccessor(a).value
  {
    hide Successor;
    if ByteSuccessor(a).Some? { EmbedMonotone(BytesOf(a), Successor(BytesOf(a))); }
  }

  /** What the comparator does on byte strings is a shortener and a successor as `TableBuilder` needs
      them. */
  lemma BytesShorten()
    ensures IsShortener(ByteShorten) && IsSuccessor(ByteSuccessor)
  {
    forall a, b ensures ByteShorten(a, b).Some? ==> a < ByteShorten(a, b).value < b { ShortenBetween(a, b); }
    forall a ensures ByteSuccessor(a).Some? ==> a < ByteSuccessor(a).value { SuccessorAfter(a); }
  }

  /** And the keys are the ones the methods return. */
  method SeparatorOnBytes(start: InternalKey, limit: InternalKey) returns (r: InternalKey)
    requires InternalLess(start, limit)
    ensures var k := ByteShorten(Embed(start.user), Embed(limit.user));
            if k.Some? then Embed(r.user) == k.value && r.stamp == MAX_SEQUENCE else r == start
  {
    r := InternalShortestSeparator(start, limit);
    BytesBack(start.user);
    BytesBack(limit.user);
    EmbedMonotone(start.user, limit.user);
    LessIsStrict(start.user, start.user);
  }

  method SuccessorOnBytes(key: InternalKey) returns (r: InternalKey)
    ensures var k := ByteSuccessor(Embed(key.user));
            if k.Some? then Embed(r.user) == k.value && r.stamp == MAX_SEQUENCE else r == key
  {
    r := InternalShortSuccessor(key);
    BytesBack(key.user);
  }
}
