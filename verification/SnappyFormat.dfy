/** The compressed format: what a stream of literals and copies means, and what the encoder's
    tags decode to.  See sections 2.1 and 2.2 of the Snappy compressed format description. */
module SnappyFormat {
  import opened Wrappers
  import opened Coding

  datatype Tag = Literal(length: nat) | Copy(offset: nat, length: nat)

  /** Bytes after the tag byte. */
  function ExtraBytes(c: Byte): (r: nat)
    ensures r <= 4
  {
    if c % 4 == 0 then (if c / 4 < 60 then 0 else c / 4 - 59)
    else if c % 4 == 1 then 1 else if c % 4 == 2 then 2 else 4
  }

  /** The tag with first byte `c` whose extra bytes hold `trailer`.  A literal length is computed
      in 32 bits, so the longest one wraps around to zero. */
  function TagOf(c: Byte, trailer: nat): Tag {
    if c % 4 == 0 then
      (if c / 4 < 60 then Literal(c / 4 + 1) else Literal((trailer + 1) % WORD32))
    else if c % 4 == 1 then Copy(c / 32 * 256 + trailer, 4 + c / 4 % 8)
    else Copy(trailer, c / 4 + 1)
  }

  /** The tag at the front of `src`, or nothing when its extra bytes are cut off. */
  function ParseTag(src: seq<Byte>): Option<Tag>
    requires src != []
  {
    var extra := ExtraBytes(src[0]);
    if |src| < 1 + extra then None else Some(TagOf(src[0], Word(src[1..1 + extra])))
  }

  /** Copying one byte at a time, so a copy may read bytes it has just written. */
  function CopyBack(out: seq<Byte>, offset: nat, n: nat): (r: seq<Byte>)
    requires 0 < offset <= |out|
    ensures |r| == |out| + n && r[..|out|] == out
    decreases n
  {
    if n == 0 then out else CopyBack(out + [out[|out| - offset]], offset, n - 1)
  }

  /** What one tag does to the output, given its length limit. */
  function Produce(tag: Tag, lit: seq<Byte>, out: seq<Byte>, limit: nat): (r: Option<seq<Byte>>)
    ensures r.Some? ==> |r.value| == |out| + tag.length <= limit
  {
    if |out| + tag.length > limit then None
    else match tag
    case Literal(n) => if |lit| == n then Some(out + lit) else None
    case Copy(offset, n) => if offset == 0 || offset > |out| then None else Some(CopyBack(out, offset, n))
  }

  /** Size of the tag at the front of `src` together with its literal bytes. */
  function ItemSize(src: seq<Byte>): (r: nat)
    requires src != []
    ensures r > 0
  {
    var size := 1 + ExtraBytes(src[0]);
    match ParseTag(src)
    case Some(Literal(n)) => size + n
    case _ => size
  }

  /** Run the tag at the front of `src`. */
  function Step(src: seq<Byte>, out: seq<Byte>, limit: nat): (r: Option<seq<Byte>>)
    requires src != []
    ensures r.Some? ==> |out| <= |r.value| <= limit
  {
    if ParseTag(src).None? || |src| < ItemSize(src) then None
    else Produce(ParseTag(src).value, src[1 + ExtraBytes(src[0])..ItemSize(src)], out, limit)
  }

  /** Run the tags of `src` after `out`; at most `limit` bytes may be produced. */
  function Decode(src: seq<Byte>, out: seq<Byte>, limit: nat): (r: Option<seq<Byte>>)
    decreases |src|
  {
    if src == [] then Some(out)
    else if Step(src, out, limit).None? then None
    else Decode(src[ItemSize(src)..], Step(src, out, limit).value, limit)
  }

  /** `RawUncompress`: the length, then tags that must produce exactly that many bytes. */
  function Uncompress(src: seq<Byte>): Option<seq<Byte>> {
    match DecodeVarint(src, 5)
    case None => None
    case Some((v, n)) =>
      match Decode(src[n..], [], v % WORD32)
      case None => None
      case Some(out) => if |out| == v % WORD32 then Some(out) else None
  }

  /** More input after a complete tag does not change it. */
  lemma StepAppend(a: seq<Byte>, b: seq<Byte>, out: seq<Byte>, limit: nat)
    requires a != [] && Step(a, out, limit).Some?
    ensures Step(a + b, out, limit) == Step(a, out, limit) && ItemSize(a + b) == ItemSize(a) <= |a|
  {
    hide TagOf, Produce, Word;
    var size, n := 1 + ExtraBytes(a[0]), ItemSize(a);
    assert (a + b)[0] == a[0] && (a + b)[1..size] == a[1..size];
    assert (a + b)[size..n] == a[size..n];
  }

  /** Decoding goes on where a complete prefix left off. */
  lemma {:induction false} DecodeAppend(a: seq<Byte>, b: seq<Byte>, out: seq<Byte>, limit: nat)
    requires Decode(a, out, limit).Some?
    ensures Decode(a + b, out, limit) == Decode(b, Decode(a, out, limit).value, limit)
    decreases |a|
  {
    if a == [] {
      assert a + b == b;
    } else {
      hide Step, ItemSize;
      StepAppend(a, b, out, limit);
      var n := ItemSize(a);
      assert (a + b)[n..] == a[n..] + b;
      DecodeAppend(a[n..], b, Step(a, out, limit).value, limit);
    }
  }

  /** A stream of one item. */
  lemma DecodeOne(src: seq<Byte>, out: seq<Byte>, limit: nat, tag: Tag, lit: seq<Byte>)
    requires src != [] && ParseTag(src) == Some(tag) && src[1 + ExtraBytes(src[0])..] == lit
    requires Produce(tag, lit, out, limit).Some? && (tag.Copy? ==> lit == [])
    ensures Decode(src, out, limit) == Produce(tag, lit, out, limit)
  {
    hide Produce, TagOf, Word;
    var size := 1 + ExtraBytes(src[0]);
    ProducedLiteral(tag, lit, out, limit);
    assert ItemSize(src) == |src|;
    assert src[size..|src|] == lit && src[|src|..] == [];
    assert Step(src, out, limit) == Produce(tag, lit, out, limit);
  }

  lemma ProducedLiteral(tag: Tag, lit: seq<Byte>, out: seq<Byte>, limit: nat)
    requires Produce(tag, lit, out, limit).Some?
    ensures tag.Literal? ==> |lit| == tag.length
  {
  }

  // ----- Literals -----

  /** The bytes of `n`, least significant first, without leading zeros. */
  function Trimmed(n: nat): seq<Byte> {
    if n == 0 then [] else [n % 256] + Trimmed(n / 256)
  }

  lemma {:induction false} WordOfTrimmed(n: nat)
    ensures Word(Trimmed(n)) == n
  {
    if n > 0 {
      WordOfTrimmed(n / 256);
      assert Trimmed(n)[1..] == Trimmed(n / 256);
    }
  }

  lemma TrimmedSize(n: nat)
    requires n < WORD32
    ensures |Trimmed(n)| <= 4
    ensures n < 0x100 ==> |Trimmed(n)| <= 1
    ensures n < 0x1_0000 ==> |Trimmed(n)| <= 2
  {
    var a := n / 256;
    var b := a / 256;
    var c := b / 256;
    assert c / 256 == 0;
    assert |Trimmed(n)| <= 1 + |Trimmed(a)| && |Trimmed(a)| <= 1 + |Trimmed(b)|;
    assert |Trimmed(b)| <= 1 + |Trimmed(c)| && |Trimmed(c)| <= 1;
  }

  /** Tag and length bytes of a literal of `len` bytes. */
  function LiteralHeader(len: nat): (r: seq<Byte>)
    requires 0 < len < WORD32
    ensures 0 < |r| <= 5 && |r| == 1 + ExtraBytes(r[0])
  {
    var n := len - 1;
    if n < 60 then [n * 4]
    else
      TrimmedSize(n);
      [(59 + |Trimmed(n)|) * 4] + Trimmed(n)
  }

  lemma DecodeLiteral(lit: seq<Byte>, out: seq<Byte>, limit: nat)
    requires 0 < |lit| < WORD32 && |out| + |lit| <= limit
    ensures Decode(LiteralHeader(|lit|) + lit, out, limit) == Some(out + lit)
  {
    var n := |lit| - 1;
    var h := LiteralHeader(|lit|);
    var src := h + lit;
    assert src[0] == h[0] && src[1..|h|] == h[1..];
    if n >= 60 {
      TrimmedSize(n);
      WordOfTrimmed(n);
      assert h[1..] == Trimmed(n);
    }
    assert ParseTag(src) == Some(Literal(|lit|));
    assert src[|h|..] == lit;
    DecodeOne(src, out, limit, Literal(|lit|), lit);
  }

  // ----- Copies -----

  /** `EmitCopyLessThan64`. */
  function CopyCode64(offset: nat, len: nat): (r: seq<Byte>)
    requires 0 < offset < 0x1_0000 && 4 <= len <= 64
    ensures 0 < |r| <= 3
  {
    if len < 12 && offset < 2048 then [1 + (len - 4) * 4 + offset / 256 * 32, offset % 256]
    else [2 + (len - 1) * 4] + Fixed(offset, 2)
  }

  /** `EmitCopy`: pieces of 64, then one of 60 if needed so that at least four bytes remain. */
  function CopyCode(offset: nat, len: nat): (r: seq<Byte>)
    requires 0 < offset < 0x1_0000 && 4 <= len
    ensures 0 < |r| && |r| + 1 <= len
    decreases len
  {
    if len >= 68 then CopyCode64(offset, 64) + CopyCode(offset, len - 64)
    else if len > 64 then CopyCode64(offset, 60) + CopyCode64(offset, len - 60)
    else CopyCode64(offset, len)
  }

  lemma DecodeCopy64(offset: nat, len: nat, out: seq<Byte>, limit: nat)
    requires 0 < offset < 0x1_0000 && 4 <= len <= 64 && offset <= |out| && |out| + len <= limit
    ensures Decode(CopyCode64(offset, len), out, limit) == Some(CopyBack(out, offset, len))
  {
    hide CopyBack;
    CopyTag(offset, len);
    DecodeOne(CopyCode64(offset, len), out, limit, Copy(offset, len), []);
  }

  lemma CopyTag(offset: nat, len: nat)
    requires 0 < offset < 0x1_0000 && 4 <= len <= 64
    ensures var src := CopyCode64(offset, len);
            ParseTag(src) == Some(Copy(offset, len)) && 1 + ExtraBytes(src[0]) == |src|
  {
    var src := CopyCode64(offset, len);
    if len < 12 && offset < 2048 {
      ShortTag(offset, len);
      assert src[1..2] == [offset % 256];
      assert Word([offset % 256]) == offset % 256 + 256 * Word([]);
    } else {
      Powers();
      WordOfFixed(offset, 2);
      assert src[1..3] == Fixed(offset, 2);
    }
  }

  lemma ShortTag(offset: nat, len: nat)
    requires 0 < offset < 2048 && 4 <= len < 12
    ensures var c := 1 + (len - 4) * 4 + offset / 256 * 32;
            c < 256 && c % 4 == 1 && c / 32 == offset / 256 && c / 4 % 8 == len - 4
  {
  }

  lemma {:induction false} CopyBackSplit(out: seq<Byte>, offset: nat, a: nat, b: nat)
    requires 0 < offset <= |out|
    ensures CopyBack(CopyBack(out, offset, a), offset, b) == CopyBack(out, offset, a + b)
    decreases a
  {
    if a > 0 { CopyBackSplit(out + [out[|out| - offset]], offset, a - 1, b); }
  }

  lemma {:induction false} DecodeCopy(offset: nat, len: nat, out: seq<Byte>, limit: nat)
    requires 0 < offset < 0x1_0000 && 4 <= len && offset <= |out| && |out| + len <= limit
    ensures Decode(CopyCode(offset, len), out, limit) == Some(CopyBack(out, offset, len))
    decreases len
  {
    hide CopyBack, CopyCode64, Decode;
    var first := if len >= 68 then 64 else if len > 64 then 60 else len;
    DecodeCopy64(offset, first, out, limit);
    if first < len {
      var mid := CopyBack(out, offset, first);
      DecodeCopy(offset, len - first, mid, limit);
      CopyBackSplit(out, offset, first, len - first);
      DecodeAppend(CopyCode64(offset, first), CopyCode(offset, len - first), out, limit);
    }
  }

  /** A copy of a repeating stretch rebuilds it, whether or not source and target overlap. */
  lemma {:induction false} CopyRepeats(whole: seq<Byte>, at: nat, offset: nat, n: nat)
    requires 0 < offset <= at && at + n <= |whole|
    requires whole[at - offset..at - offset + n] == whole[at..at + n]
    ensures CopyBack(whole[..at], offset, n) == whole[..at + n]
    decreases n
  {
    if n > 0 {
      assert whole[at - offset..at - offset + n][0] == whole[at..at + n][0];
      assert whole[..at] + [whole[at]] == whole[..at + 1];
      assert whole[at + 1 - offset..at - offset + n] == whole[at - offset..at - offset + n][1..];
      assert whole[at + 1..at + n] == whole[at..at + n][1..];
      CopyRepeats(whole, at + 1, offset, n - 1);
    }
  }
}
