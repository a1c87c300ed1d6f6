/** The filter block as bytes: the filters, the array of their offsets, where it starts, and the size of
    the file range one filter stands for. */
module FilterBytes {
  import opened Wrappers
  import opened Coding
  import opened Entries
  import opened Block
  import opened Bloom
  import opened FilterBlock

  const BASE_LG: Byte := 11

  function AsBytes(bits: seq<bv8>): (r: seq<Byte>)
    ensures |r| == |bits| && forall i | 0 <= i < |r| :: r[i] == bits[i] as int
  {
    seq(|bits|, i requires 0 <= i < |bits| => bits[i] as int)
  }

  function Bits(b: Byte): bv8 {
    b as bv8
  }

  function AsBits(bytes: seq<Byte>): (r: seq<bv8>)
    ensures |r| == |bytes| && forall i | 0 <= i < |r| :: r[i] == Bits(bytes[i])
  {
    seq(|bytes|, i requires 0 <= i < |bytes| => Bits(bytes[i]))
  }

  lemma BitsBack(bits: seq<bv8>, from: nat, to: nat)
    requires from <= to <= |bits|
    ensures AsBits(AsBytes(bits)[from..to]) == bits[from..to]
  {
    hide Bits;
    var r := AsBits(AsBytes(bits)[from..to]);
    forall i | 0 <= i < |r| ensures r[i] == bits[from + i] { BitBack(bits[from + i]); }
  }

  lemma BitBack(b: bv8)
    ensures Bits(b as int) == b
  {
  }

  /** `n >> lg`. */
  function Shifted(n: nat, lg: nat): nat {
    if lg == 0 then n else Shifted(n, lg - 1) / 2
  }

  lemma BaseIs(n: nat)
    ensures Shifted(n, BASE_LG) == n / FILTER_BASE
  {
    assert Shifted(n, 2) == Shifted(n, 1) / 2 == n / 4;
    assert Shifted(n, 4) == Shifted(n, 3) / 2 == n / 16;
    assert Shifted(n, 6) == Shifted(n, 5) / 2 == n / 64;
    assert Shifted(n, 8) == Shifted(n, 7) / 2 == n / 256;
    assert Shifted(n, 10) == Shifted(n, 9) / 2 == n / 1024;
    assert Shifted(n, 11) == Shifted(n, 10) / 2;
  }

  ghost function Encoded(f: Filters): seq<Byte> {
    AsBytes(f.data) + (Words(f.offsets + [|f.data|]) + [BASE_LG])
  }

  /** The end of `FilterBlockBuilder::Finish`. */
  method AppendOffsets(f: Filters) returns (contents: seq<Byte>)
    ensures contents == Encoded(f)
  {
    hide Words, Fixed;
    var data := AsBytes(f.data);
    contents := data;
    WordsStart(f.offsets);
    for i := 0 to |f.offsets|
      invariant contents == data + Words(f.offsets[..i])
    {
      WordsStep(f.offsets, i);
      contents := contents + Fixed(f.offsets[i], 4);
    }
    assert f.offsets[..|f.offsets|] == f.offsets;
    WordsMore(f.offsets, |f.data|);
    contents := contents + Fixed(|f.data|, 4) + [BASE_LG];
  }

  /** What the bytes of a filter block are read as. */
  lemma EncodedParts(f: Filters)
    requires |f.data| < WORD32
    ensures var c, n := Encoded(f), |Encoded(f)|;
            && n >= 5 && c[n - 1] == BASE_LG && Word(c[n - 5..n - 1]) == |f.data| <= n - 5
            && (n - 5 - |f.data|) / 4 == |f.offsets| && c[..|f.data|] == AsBytes(f.data)
  {
    hide Fixed, Word;
    var ws := f.offsets + [|f.data|];
    var m := |f.offsets|;
    WordsAt(ws, m);
    var c, n := Encoded(f), |Encoded(f)|;
    assert n == |f.data| + 4 * (m + 1) + 1;
    assert c[n - 5..n - 1] == Words(ws)[4 * m..4 * m + 4];
  }

  lemma OffsetAt(f: Filters, i: nat)
    requires |f.data| < WORD32 && i <= |f.offsets| && WellFormed(f)
    ensures var at := |f.data| + 4 * i;
            at + 4 <= |Encoded(f)| && Word(Encoded(f)[at..at + 4]) == (f.offsets + [|f.data|])[i]
  {
    hide Fixed, Word;
    var ws, at := f.offsets + [|f.data|], |f.data| + 4 * i;
    WordsAt(ws, i);
    assert Encoded(f)[at..at + 4] == Words(ws)[4 * i..4 * i + 4];
  }

  /** What a reader finds for a block at `offset`: nothing it can read, an empty filter, or a filter. */
  datatype Found = Unknown | Empty | Filter(bits: seq<bv8>)

  /** The constructor of `FilterBlockReader`: where the offsets start, and how many there are. */
  function Array(contents: seq<Byte>): (r: Option<(nat, nat)>)
    ensures r.Some? ==> r.value.0 + 4 * r.value.1 + 5 <= |contents|
  {
    var n := |contents|;
    if n < 5 || Word(contents[n - 5..n - 1]) > n - 5 then None
    else
      var lastWord := Word(contents[n - 5..n - 1]);
      Some((lastWord, (n - 5 - lastWord) / 4))
  }

  /** The filter with this number, between its offset and the next word. */
  function Slot(contents: seq<Byte>, base: nat, index: nat): Found
    requires base + 4 * index + 8 <= |contents|
  {
    var at := base + 4 * index;
    var start, limit := Word(contents[at..at + 4]), Word(contents[at + 4..at + 8]);
    if start <= limit && limit <= base then Filter(AsBits(contents[start..limit]))
    else if start == limit then Empty
    else Unknown
  }

  /** The first part of `FilterBlockReader::KeyMayMatch`. */
  function FilterFor(contents: seq<Byte>, offset: nat): Found {
    var offsets := Array(contents);
    if offsets.None? then Unknown
    else
      var index := Shifted(offset, contents[|contents| - 1]);
      if index < offsets.value.1 then Slot(contents, offsets.value.0, index) else Unknown
  }

  /** A block made by the builder gives its filters back. */
  lemma EncodedReads(f: Filters, offset: nat)
    requires WellFormed(f) && |f.data| < WORD32
    ensures var i := offset / FILTER_BASE;
            FilterFor(Encoded(f), offset) == if i < |f.offsets| then Filter(FilterAt(f, i)) else Unknown
  {
    hide Fixed, Word, Words, Shifted, Encoded, Slot, WellFormed;
    EncodedParts(f);
    BaseIs(offset);
    var i := offset / FILTER_BASE;
    if i < |f.offsets| { SlotReads(f, i); }
  }

  lemma SlotReads(f: Filters, i: nat)
    requires WellFormed(f) && |f.data| < WORD32 && i < |f.offsets|
    ensures |f.data| + 4 * i + 8 <= |Encoded(f)| && Slot(Encoded(f), |f.data|, i) == Filter(FilterAt(f, i))
  {
    hide Fixed, Word, Words, Encoded, FilterAt, WellFormed;
    EncodedParts(f);
    OffsetAt(f, i);
    OffsetAt(f, i + 1);
    FilterBack(f, i, Encoded(f));
  }

  lemma FilterBack(f: Filters, i: nat, c: seq<Byte>)
    requires WellFormed(f) && i < |f.offsets| && |f.data| <= |c| && c[..|f.data|] == AsBytes(f.data)
    ensures var ws := f.offsets + [|f.data|];
            ws[i] <= ws[i + 1] <= |f.data| && AsBits(c[ws[i]..ws[i + 1]]) == FilterAt(f, i)
  {
    var ws := f.offsets + [|f.data|];
    BitsBack(f.data, ws[i], ws[i + 1]);
    assert c[ws[i]..ws[i + 1]] == c[..|f.data|][ws[i]..ws[i + 1]];
  }

  /** `FilterBlockReader::KeyMayMatch`: what cannot be read rules nothing out, an empty filter everything. */
  method KeyMayMatchBytes(contents: seq<Byte>, policy: BloomFilterPolicy, hash: Hash, offset: nat, key: Key)
    returns (r: bool)
    ensures match FilterFor(contents, offset)
            case Unknown => r
            case Empty => !r
            case Filter(bits) =>
              r <==> |bits| >= 2 && (bits[|bits| - 1] as nat > MAX_PROBES || Covers(bits, hash, key))
  {
    hide Word, Covers, Shifted;
    match FilterFor(contents, offset)
    case Unknown => r := true;
    case Empty => r := false;
    case Filter(bits) => r := policy.KeyMayMatch(key, hash, bits);
  }

  /** No key that a filter of a finished block holds is ruled out by the bytes. */
  lemma HeldIsFound(f: Filters, hash: Hash, offset: nat, key: Key)
    requires Holds(f, hash, offset / FILTER_BASE, key) && |f.data| < WORD32
    ensures var found := FilterFor(Encoded(f), offset);
            found == Unknown || (found.Filter? && Covers(found.bits, hash, key))
  {
    hide Covers, FilterFor, Encoded, FilterAt;
    EncodedReads(f, offset);
  }
}
