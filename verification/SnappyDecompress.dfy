/** The decompressor on a flat output buffer.  Its wide copies write past the bytes they are
    asked for; the contracts say that this never shows and never leaves the buffer's limit. */
module SnappyDecompress {
  import opened Wrappers
  import opened Coding
  import opened SnappyFormat

  /** Ten bytes past the end at most. */
  const MAX_OVERSHOOT := 10

  method StoreWord(buf: array<Byte>, op: nat, word: seq<Byte>)
    requires op + |word| <= buf.Length
    modifies buf
    ensures forall x | 0 <= x < buf.Length :: buf[x] == if op <= x < op + |word| then word[x - op] else old(buf[x])
  {
    for i := 0 to |word|
      invariant forall x | 0 <= x < buf.Length :: buf[x] == if op <= x < op + i then word[x - op] else old(buf[x])
    {
      buf[op + i] := word[i];
    }
  }

  /** One 64-bit load and store on 64-bit platforms, two 32-bit ones elsewhere.  The two differ
      when source and target overlap, but agree on the bytes that do not. */
  method UnalignedCopy64(buf: array<Byte>, src: nat, op: nat, wide: bool)
    requires src < op && op + 8 <= buf.Length
    modifies buf
    ensures forall x | 0 <= x < buf.Length && !(op <= x < op + 8) :: buf[x] == old(buf[x])
    ensures forall x | op <= x < op + 8 && x - (op - src) < op :: buf[x] == old(buf[x - (op - src)])
  {
    if wide {
      StoreWord(buf, op, buf[src..src + 8]);
    } else {
      StoreWord(buf, op, buf[src..src + 4]);
      StoreWord(buf, op + 4, buf[src + 4..src + 8]);
    }
  }

  function Least(a: nat, b: nat): nat {
    if a < b then a else b
  }

  /** `IncrementalCopy`: byte by byte. */
  method IncrementalCopy(buf: array<Byte>, src: nat, op: nat, len: nat, ghost limit: nat)
    requires src < op && op + len <= limit <= buf.Length
    modifies buf
    ensures buf[..op + len] == CopyBack(old(buf[..op]), op - src, len)
    ensures buf[limit..] == old(buf[limit..])
  {
    hide CopyBack;
    ghost var t := CopyBack(old(buf[..op]), op - src, len);
    CopyBackRepeats(old(buf[..op]), op - src, len);
    for i := 0 to len
      invariant forall x | 0 <= x < op + i :: buf[x] == t[x]
      invariant forall x | op + i <= x < buf.Length :: buf[x] == old(buf[x])
    {
      buf[op + i] := buf[src + i];
    }
    assert |t| == op + len;
  }

  // ----- Repeating patterns -----

  /** From `op` on, `t` repeats with the given period. */
  ghost predicate Repeats(t: seq<Byte>, op: nat, period: nat) {
    0 < period <= op <= |t| && forall x | op <= x < |t| :: t[x] == t[x - period]
  }

  lemma {:induction false} CopyBackRepeats(out: seq<Byte>, period: nat, n: nat)
    requires 0 < period <= |out|
    ensures Repeats(CopyBack(out, period, n), |out|, period)
    decreases n
  {
    if n > 0 {
      var out' := out + [out[|out| - period]];
      CopyBackRepeats(out', period, n - 1);
      var t := CopyBack(out', period, n - 1);
      assert t[..|out'|] == out';
      assert t[|out|] == out'[|out|] && t[|out| - period] == out'[|out| - period];
    }
  }

  lemma CopyBackPrefix(out: seq<Byte>, period: nat, m: nat, n: nat)
    requires 0 < period <= |out| && m <= n
    ensures CopyBack(out, period, n)[..|out| + m] == CopyBack(out, period, m)
  {
    CopyBackSplit(out, period, m, n - m);
  }

  /** A multiple of the period is a period. */
  lemma {:induction false} RepeatsMultiple(t: seq<Byte>, op: nat, period: nat, m: nat, d: nat, x: nat)
    requires Repeats(t, op, period) && m > 0 && d == m * period && x < |t| && x >= op + d - period
    ensures t[x] == t[x - d]
    decreases m
  {
    if m > 1 {
      assert d - period == (m - 1) * period;
      RepeatsMultiple(t, op, period, m - 1, d - period, x);
    }
  }

  /** The distance between source and target while the pattern is being expanded. */
  predicate Doubled(d: nat, period: nat) {
    d == period || d == 2 * period || d == 4 * period || d == 8 * period
  }

  /** One wide copy extends the pattern by up to `d` correct bytes. */
  lemma WideCopy(t: seq<Byte>, before: seq<Byte>, after: seq<Byte>, op0: nat, period: nat, d: nat, src: nat, op: nat,
                 good: nat)
    requires Repeats(t, op0, period) && Doubled(d, period) && op == src + d && op0 <= op
    requires src >= op0 - period && op + 8 <= |before| == |after| && op + 8 <= |t|
    requires before[..op] == t[..op]
    requires forall x | 0 <= x < op :: after[x] == before[x]
    requires forall x | op <= x < op + 8 && x - d < op :: after[x] == before[x - d]
    requires good <= 8 && good <= d
    ensures after[..op + good] == t[..op + good]
  {
    forall x | 0 <= x < op + good ensures after[x] == t[x] {
      if x < op {
        assert before[..op][x] == t[..op][x];
      } else {
        var m := if d == period then 1 else if d == 2 * period then 2 else if d == 4 * period then 4 else 8;
        RepeatsMultiple(t, op0, period, m, d, x);
        assert before[..op][x - d] == t[..op][x - d];
      }
    }
  }

  /** A wide copy inside a pattern. */
  method WideStep(buf: array<Byte>, src: nat, op: nat, wide: bool, ghost t: seq<Byte>, ghost op0: nat,
                  ghost period: nat, ghost good: nat)
    requires Repeats(t, op0, period) && op0 <= op && src < op && Doubled(op - src, period) && src >= op0 - period
    requires op + 8 <= buf.Length && op + 8 <= |t| && buf[..op] == t[..op]
    requires good <= 8 && good <= op - src
    modifies buf
    ensures buf[..op + good] == t[..op + good]
    ensures buf[op + 8..] == old(buf[op + 8..])
  {
    hide Repeats, Doubled;
    ghost var before := buf[..];
    UnalignedCopy64(buf, src, op, wide);
    ghost var after := buf[..];
    WideCopy(t, before, after, op0, period, op - src, src, op, good);
    assert buf[..op + good] == after[..op + good];
  }

  lemma StaysClose(d: nat, period: nat)
    requires 0 < period && Doubled(d, period) && d < 8
    ensures d - period <= 3 && Doubled(2 * d, period) && 2 * d - period <= 9
  {
  }

  lemma Undoubled(period: nat)
    ensures Doubled(period, period)
  {
  }

  lemma FurtherTail(a: seq<Byte>, b: seq<Byte>, from: nat, later: nat)
    requires from <= later <= |a| == |b| && a[from..] == b[from..]
    ensures a[later..] == b[later..]
  {
    assert a[later..] == a[from..][later - from..];
    assert b[later..] == b[from..][later - from..];
  }

  /** First loop: double the distance until source and target no longer overlap. */
  method ExpandPattern(buf: array<Byte>, src: nat, op0: nat, wide: bool, ghost t: seq<Byte>) returns (op: nat)
    requires src < op0 && op0 + 11 <= buf.Length && Repeats(t, op0, op0 - src) && op0 + 11 <= |t|
    requires buf[..op0] == t[..op0]
    modifies buf
    ensures op0 <= op <= op0 + 9 && op - src >= 8 && Doubled(op - src, op0 - src)
    ensures buf[..op] == t[..op] && buf[op0 + 11..] == old(buf[op0 + 11..])
  {
    hide Repeats, Doubled;
    op := op0;
    Undoubled(op0 - src);
    while op - src < 8
      invariant op0 <= op <= op0 + 9 && Doubled(op - src, op0 - src)
      invariant buf[..op] == t[..op] && buf[op0 + 11..] == old(buf[op0 + 11..])
      decreases 24 - op + op0
    {
      StaysClose(op - src, op0 - src);
      ghost var before := buf[..];
      WideStep(buf, src, op, wide, t, op0, op0 - src, op - src);
      FurtherTail(before, buf[..], op + 8, op0 + 11);
      op := op + (op - src);
    }
  }

  /** Second loop: whole words. */
  method CopyWords(buf: array<Byte>, src0: nat, op1: nat, end: nat, wide: bool,
                   ghost t: seq<Byte>, ghost op0: nat, ghost period: nat)
    requires src0 < op1 && op1 - src0 >= 8 && Doubled(op1 - src0, period) && Repeats(t, op0, period)
    requires op0 <= op1 && src0 >= op0 - period && end + 7 <= buf.Length && end + 7 <= |t| && op1 <= buf.Length
    requires op1 <= |t| && buf[..op1] == t[..op1]
    modifies buf
    ensures end <= buf.Length && buf[..end] == t[..end]
    ensures buf[end + 7..] == old(buf[end + 7..])
  {
    hide Repeats, Doubled;
    var src, op := src0, op1;
    while op < end
      invariant op - src == op1 - src0 && src0 <= src && op1 <= op <= buf.Length && op <= |t|
      invariant buf[..op] == t[..op] && buf[end + 7..] == old(buf[end + 7..])
    {
      WideStep(buf, src, op, wide, t, op0, period, 8);
      assert buf[end + 7..] == buf[op + 8..][end - op - 1..];
      src, op := src + 8, op + 8;
    }
    assert buf[..end] == buf[..op][..end] == t[..op][..end];
  }

  /** `IncrementalCopyFastPath`. */
  method IncrementalCopyFastPath(buf: array<Byte>, src: nat, op: nat, len: nat, wide: bool, ghost limit: nat)
    requires src < op && 0 < len && op + len + MAX_OVERSHOOT <= limit <= buf.Length
    modifies buf
    ensures buf[..op + len] == CopyBack(old(buf[..op]), op - src, len)
    ensures buf[limit..] == old(buf[limit..])
  {
    hide CopyBack, Repeats;
    ghost var t := CopyBack(old(buf[..op]), op - src, len + 16);
    CopyBackRepeats(old(buf[..op]), op - src, len + 16);
    CopyBackPrefix(old(buf[..op]), op - src, len, len + 16);
    var op1 := ExpandPattern(buf, src, op, wide, t);
    ghost var mid := buf[op + 11..];
    CopyWords(buf, src, op1, op + len, wide, t, op, op - src);
    assert buf[limit..] == buf[op + len + 7..][limit - op - len - 7..] == mid[limit - op - 11..];
    assert old(buf[limit..]) == old(buf[op + 11..])[limit - op - 11..];
  }

  // ----- The output buffer -----

  class SnappyArrayWriter {
    const buf: array<Byte>
    const wide: bool
    var op: nat
    var limit: nat

    ghost predicate Valid()
      reads this
    {
      op <= limit <= buf.Length
    }

    ghost function Out(): seq<Byte>
      requires Valid()
      reads this, buf
    {
      buf[..op]
    }

    constructor (buf: array<Byte>, limit: nat, wide: bool)
      requires limit <= buf.Length
      ensures Valid() && this.buf == buf && this.limit == limit && op == 0 && Out() == []
    {
      this.buf, this.wide, op, this.limit := buf, wide, 0, limit;
    }

    /** Nothing at or after the limit has been touched. */
    twostate predicate Bounded()
      requires old(Valid())
      reads this, buf
    {
      limit == old(limit) && Valid() && buf[limit..] == old(buf[limit..])
    }

    method Append(ip: seq<Byte>) returns (ok: bool)
      requires Valid()
      modifies this, buf
      ensures Bounded()
      ensures ok <==> old(op) + |ip| <= limit
      ensures Out() == if ok then old(Out()) + ip else old(Out())
    {
      ok := limit - op >= |ip|;
      if ok {
        StoreWord(buf, op, ip);
        assert buf[..op + |ip|] == old(buf[..op]) + ip;
        op := op + |ip|;
      }
    }

    /** Sixteen bytes are written for a literal of at most sixteen. */
    method TryFastAppend(src: seq<Byte>, at: nat, len: nat) returns (ok: bool)
      requires Valid() && at <= |src|
      modifies this, buf
      ensures Bounded()
      ensures ok ==> len <= 16 && at + 21 <= |src| && Out() == old(Out()) + src[at..at + len]
      ensures !ok ==> Out() == old(Out())
    {
      ok := len <= 16 && |src| - at >= 21 && limit - op >= 16;
      if ok {
        StoreWord(buf, op, src[at..at + 8]);
        StoreWord(buf, op + 8, src[at + 8..at + 16]);
        ghost var want := old(buf[..op]) + src[at..at + len];
        forall x | 0 <= x < op + len ensures buf[x] == want[x] {
          if x >= op { assert want[x] == src[at..at + len][x - op] == src[at + (x - op)]; }
        }
        assert buf[..op + len] == want;
        op := op + len;
      }
    }

    method AppendFromSelf(offset: nat, len: nat) returns (ok: bool)
      requires Valid() && 0 < len
      modifies this, buf
      ensures Bounded()
      ensures ok <==> Produce(Copy(offset, len), [], old(Out()), limit).Some?
      ensures Out() == if ok then Produce(Copy(offset, len), [], old(Out()), limit).value else old(Out())
    {
      hide CopyBack;
      var space := limit - op;
      if offset == 0 || op < offset {
        return false;
      }
      if len <= 16 && offset >= 8 && space >= 16 {
        CopyTwoWords(offset, len);
      } else if space >= len + MAX_OVERSHOOT {
        IncrementalCopyFastPath(buf, op - offset, op, len, wide, limit);
      } else {
        if space < len {
          return false;
        }
        IncrementalCopy(buf, op - offset, op, len, limit);
      }
      op := op + len;
      ok := true;
    }

    method CopyTwoWords(offset: nat, len: nat)
      requires Valid() && 8 <= offset <= op && 0 < len <= 16 && op + 16 <= limit
      modifies buf
      ensures buf[..op + len] == CopyBack(old(buf[..op]), offset, len)
      ensures buf[limit..] == old(buf[limit..])
    {
      hide CopyBack, Repeats;
      ghost var t := CopyBack(old(buf[..op]), offset, 16);
      CopyBackRepeats(old(buf[..op]), offset, 16);
      CopyBackPrefix(old(buf[..op]), offset, len, 16);
      WideStep(buf, op - offset, op, wide, t, op, offset, 8);
      ghost var mid := buf[op + 8..];
      WideStep(buf, op - offset + 8, op + 8, wide, t, op, offset, 8);
      assert buf[limit..] == buf[op + 16..][limit - op - 16..] == mid[limit - op - 8..];
      assert old(buf[limit..]) == old(buf[op + 8..])[limit - op - 8..];
      assert buf[..op + len] == buf[..op + 16][..op + len];
    }
  }

  // ----- The tag loop -----

  /** What remains of `src` from `at` on, decoded after `out`. */
  ghost function Rest(src: seq<Byte>, at: nat, out: seq<Byte>, limit: nat): Option<seq<Byte>>
    requires at <= |src|
  {
    Decode(src[at..], out, limit)
  }

  /** The tag at `at`, as the loop reads it from the flat input. */
  lemma TagAt(src: seq<Byte>, at: nat)
    requires at < |src|
    ensures var extra := ExtraBytes(src[at]);
            ParseTag(src[at..]) == if |src| - at < 1 + extra then None
                                   else Some(TagOf(src[at], Word(src[at + 1..at + 1 + extra])))
  {
    var extra := ExtraBytes(src[at]);
    if |src| - at >= 1 + extra {
      assert src[at..][1..1 + extra] == src[at + 1..at + 1 + extra];
    }
  }

  /** One literal consumed. */
  lemma LiteralStep(src: seq<Byte>, at: nat, out: seq<Byte>, limit: nat)
    requires at < |src| && ParseTag(src[at..]).Some? && ParseTag(src[at..]).value.Literal?
    ensures var body := at + 1 + ExtraBytes(src[at]);
            var n := ParseTag(src[at..]).value.length;
            Rest(src, at, out, limit) == if body + n <= |src| && |out| + n <= limit
                                         then Rest(src, body + n, out + src[body..body + n], limit) else None
  {
    hide TagOf, Word, Decode;
    DecodeUnfolds(src[at..], out, limit);
    var size := 1 + ExtraBytes(src[at]);
    var n := ParseTag(src[at..]).value.length;
    if at + size + n <= |src| {
      assert src[at..][size..size + n] == src[at + size..at + size + n];
      assert src[at..][size + n..] == src[at + size + n..];
    }
  }

  lemma DecodeUnfolds(src: seq<Byte>, out: seq<Byte>, limit: nat)
    requires src != []
    ensures Decode(src, out, limit) == if Step(src, out, limit).None? then None
                                       else Decode(src[ItemSize(src)..], Step(src, out, limit).value, limit)
  {
  }

  lemma CopyStep(src: seq<Byte>, at: nat, out: seq<Byte>, limit: nat)
    requires at < |src| && ParseTag(src[at..]).Some? && ParseTag(src[at..]).value.Copy?
    ensures var next := at + 1 + ExtraBytes(src[at]);
            var p := Produce(ParseTag(src[at..]).value, [], out, limit);
            next <= |src| && Rest(src, at, out, limit) == if p.Some? then Rest(src, next, p.value, limit) else None
  {
    hide TagOf, Word, Decode, Produce;
    DecodeUnfolds(src[at..], out, limit);
    var size := 1 + ExtraBytes(src[at]);
    assert src[at..][size..size] == [];
    assert src[at..][size..] == src[at + size..];
  }

  lemma BadTag(src: seq<Byte>, at: nat, out: seq<Byte>, limit: nat)
    requires at < |src| && ParseTag(src[at..]).None?
    ensures Rest(src, at, out, limit).None?
  {
  }

  /** `DecompressAllTags`: true when the end of the input was reached without an error. */
  method DecompressAllTags(src: seq<Byte>, start: nat, w: SnappyArrayWriter) returns (eof: bool)
    requires start <= |src| && w.Valid()
    modifies w, w.buf
    ensures w.Bounded()
    ensures eof <==> Rest(src, start, old(w.Out()), w.limit).Some?
    ensures eof ==> Rest(src, start, old(w.Out()), w.limit).value == w.Out()
  {
    hide TagOf, Word, Decode, Produce, Rest;
    ghost var goal := Rest(src, start, w.Out(), w.limit);
    var ip := start;
    while true
      invariant ip <= |src| && w.Bounded() && Rest(src, ip, w.Out(), w.limit) == goal
      decreases |src| - ip
    {
      if ip == |src| {
        AtEnd(src, w.Out(), w.limit);
        return true;
      }
      var c := src[ip];
      var body := ip + 1 + ExtraBytes(c);
      TagAt(src, ip);
      if body > |src| {
        BadTag(src, ip, w.Out(), w.limit);
        return false;
      }
      var tag := TagOf(c, Word(src[ip + 1..body]));
      if c % 4 == 0 {
        LiteralTags(c, Word(src[ip + 1..body]));
        LiteralStep(src, ip, w.Out(), w.limit);
        var fast := w.TryFastAppend(src, ip + 1, c / 4 + 1);
        if !fast {
          var n := Least(tag.length, |src| - body);
          var ok := w.Append(src[body..body + n]);
          if !ok || n < tag.length {
            return false;
          }
        }
        ip := body + tag.length;
      } else {
        CopyTags(c, Word(src[ip + 1..body]));
        CopyStep(src, ip, w.Out(), w.limit);
        var ok := w.AppendFromSelf(tag.offset, tag.length);
        if !ok {
          return false;
        }
        ip := body;
      }
    }
  }

  lemma AtEnd(src: seq<Byte>, out: seq<Byte>, limit: nat)
    ensures Rest(src, |src|, out, limit) == Some(out)
  {
  }

  lemma LiteralTags(c: Byte, trailer: nat)
    requires c % 4 == 0
    ensures TagOf(c, trailer).Literal?
    ensures c / 4 < 16 ==> TagOf(c, trailer).length == c / 4 + 1 && ExtraBytes(c) == 0
  {
  }

  lemma CopyTags(c: Byte, trailer: nat)
    requires c % 4 != 0
    ensures TagOf(c, trailer).Copy? && 0 < TagOf(c, trailer).length <= 64
  {
  }

  /** `RawUncompress`: refines the format, whatever copies were fast. */
  method RawUncompress(src: seq<Byte>, buf: array<Byte>, wide: bool) returns (ok: bool)
    requires DecodeVarint(src, 5).Some? ==> DecodeVarint(src, 5).value.0 % WORD32 <= buf.Length
    modifies buf
    ensures ok <==> Uncompress(src).Some?
    ensures ok ==> |Uncompress(src).value| <= buf.Length && buf[..|Uncompress(src).value|] == Uncompress(src).value
    ensures ok ==> buf[|Uncompress(src).value|..] == old(buf[|Uncompress(src).value|..])
  {
    hide Decode, Rest;
    var header := GetVarint32(src);
    if header.None? {
      return false;
    }
    var (n, size) := header.value;
    var w := new SnappyArrayWriter(buf, n, wide);
    var eof := DecompressAllTags(src, size, w);
    RestIs(src, size, [], n);
    ok := eof && w.op == w.limit;
  }

  lemma RestIs(src: seq<Byte>, at: nat, out: seq<Byte>, limit: nat)
    requires at <= |src|
    ensures Rest(src, at, out, limit) == Decode(src[at..], out, limit)
  {
  }

  // ----- Validation without output -----

  class SnappyDecompressionValidator {
    const expected: nat
    var produced: nat

    constructor (expected: nat)
      ensures this.expected == expected && produced == 0
    {
      this.expected, produced := expected, 0;
    }

    /** The count grows even when the answer is no. */
    method Append(len: nat) returns (ok: bool)
      modifies this
      ensures produced == old(produced) + len && ok == (produced <= expected)
    {
      produced := produced + len;
      ok := produced <= expected;
    }

    method AppendFromSelf(offset: nat, len: nat) returns (ok: bool)
      modifies this
      ensures ok <==> 0 < offset <= old(produced) && old(produced) + len <= expected
      ensures ok ==> produced == old(produced) + len
    {
      if offset == 0 || produced < offset {
        return false;
      }
      produced := produced + len;
      ok := produced <= expected;
    }
  }

  method ValidateAllTags(src: seq<Byte>, start: nat, v: SnappyDecompressionValidator) returns (eof: bool)
    requires start <= |src| && v.produced == 0
    modifies v
    ensures eof <==> Rest(src, start, [], v.expected).Some?
    ensures eof ==> |Rest(src, start, [], v.expected).value| == v.produced
  {
    hide TagOf, Word, Decode, Rest;
    ghost var out: seq<Byte> := [];
    var ip := start;
    while true
      invariant ip <= |src| && |out| == v.produced && Rest(src, ip, out, v.expected) == Rest(src, start, [], v.expected)
      decreases |src| - ip
    {
      if ip == |src| {
        AtEnd(src, out, v.expected);
        return true;
      }
      var c := src[ip];
      var body := ip + 1 + ExtraBytes(c);
      TagAt(src, ip);
      if body > |src| {
        BadTag(src, ip, out, v.expected);
        return false;
      }
      var tag := TagOf(c, Word(src[ip + 1..body]));
      if c % 4 == 0 {
        LiteralTags(c, Word(src[ip + 1..body]));
        LiteralStep(src, ip, out, v.expected);
        var n := Least(tag.length, |src| - body);
        var ok := v.Append(n);
        if !ok || n < tag.length {
          return false;
        }
        out := out + src[body..body + n];
        ip := body + n;
      } else {
        CopyTags(c, Word(src[ip + 1..body]));
        CopyStep(src, ip, out, v.expected);
        ghost var made := Produce(tag, [], out, v.expected);
        var ok := v.AppendFromSelf(tag.offset, tag.length);
        if !ok {
          return false;
        }
        out := made.value;
        ip := body;
      }
    }
  }

  /** `IsValidCompressedBuffer` accepts exactly what `RawUncompress` accepts. */
  method IsValidCompressedBuffer(src: seq<Byte>) returns (ok: bool)
    ensures ok <==> Uncompress(src).Some?
  {
    hide Decode, Rest;
    var header := GetVarint32(src);
    if header.None? {
      return false;
    }
    var (n, size) := header.value;
    var v := new SnappyDecompressionValidator(n);
    var eof := ValidateAllTags(src, size, v);
    RestIs(src, size, [], n);
    ok := eof && v.produced == v.expected;
  }
}
