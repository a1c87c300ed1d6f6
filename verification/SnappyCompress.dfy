/** The compressor.  It writes through a cursor into a buffer of `MaxCompressedLength` bytes;
    every store below, including the fast path's extra bytes, is proved to stay inside it. */
module SnappyCompress {
  import opened Wrappers
  import opened Coding
  import opened SnappyFormat
  import opened SnappyDecompress
  import opened SnappyMatching

  /** Hash table slots hold offsets into a fragment. */
  type Word16 = n: nat | n < 0x1_0000

  function MaxCompressedLength(n: nat): nat {
    32 + n + n / 6
  }

  // ----- What a piece of output stands for -----

  /** Decoding `code` appends `text`, whatever came before. */
  ghost predicate Encodes(code: seq<Byte>, text: seq<Byte>) {
    forall out: seq<Byte>, limit: nat | |out| + |text| <= limit :: Decode(code, out, limit) == Some(out + text)
  }

  lemma EncodesNothing()
    ensures Encodes([], [])
  {
    forall out: seq<Byte>, limit: nat | |out| <= limit ensures Decode([], out, limit) == Some(out + []) {
      assert out + [] == out;
    }
  }

  lemma EncodesBoth(a: seq<Byte>, x: seq<Byte>, b: seq<Byte>, y: seq<Byte>)
    requires Encodes(a, x) && Encodes(b, y)
    ensures Encodes(a + b, x + y)
  {
    hide Decode;
    forall out: seq<Byte>, limit: nat | |out| + |x + y| <= limit
      ensures Decode(a + b, out, limit) == Some(out + (x + y))
    {
      DecodeAppend(a, b, out, limit);
      assert Decode(b, out + x, limit) == Some(out + x + y);
      assert out + x + y == out + (x + y);
    }
  }

  lemma EncodesLiteral(lit: seq<Byte>)
    requires 0 < |lit| < WORD32
    ensures Encodes(LiteralHeader(|lit|) + lit, lit)
  {
    hide Decode;
    forall out: seq<Byte>, limit: nat | |out| + |lit| <= limit
      ensures Decode(LiteralHeader(|lit|) + lit, out, limit) == Some(out + lit)
    {
      DecodeLiteral(lit, out, limit);
    }
  }

  /** A literal after the first `at` bytes. */
  lemma LiteralNext(input: seq<Byte>, code: seq<Byte>, at: nat, end: nat)
    requires at < end <= |input| < WORD32 && Encodes(code, input[..at])
    ensures Encodes(code + (LiteralHeader(end - at) + input[at..end]), input[..end])
  {
    hide Encodes;
    EncodesLiteral(input[at..end]);
    EncodesBoth(code, input[..at], LiteralHeader(end - at) + input[at..end], input[at..end]);
    assert input[..at] + input[at..end] == input[..end];
  }

  /** A copy after the first `at` bytes. */
  lemma CopyNext(input: seq<Byte>, code: seq<Byte>, at: nat, from: nat, len: nat)
    requires from < at && at - from < BLOCK_SIZE && 4 <= len
    requires SameAt(input, from, at, len) && Encodes(code, input[..at])
    ensures Encodes(code + CopyCode(at - from, len), input[..at + len])
  {
    hide Decode, CopyBack, CopyCode;
    var offset := at - from;
    forall out: seq<Byte>, limit: nat | |out| + |input[..at + len]| <= limit
      ensures Decode(code + CopyCode(offset, len), out, limit) == Some(out + input[..at + len])
    {
      DecodeAppend(code, CopyCode(offset, len), out, limit);
      var whole := out + input;
      assert out + input[..at] == whole[..|out| + at];
      DecodeCopy(offset, len, out + input[..at], limit);
      Shifted(out, input, from, len);
      Shifted(out, input, at, len);
      CopyRepeats(whole, |out| + at, offset, len);
      assert whole[..|out| + at + len] == out + input[..at + len];
    }
  }

  lemma Shifted(out: seq<Byte>, input: seq<Byte>, p: nat, n: nat)
    requires p + n <= |input|
    ensures (out + input)[|out| + p..|out| + p + n] == input[p..p + n]
  {
    var whole := out + input;
    assert whole[|out|..] == input;
    assert whole[|out| + p..|out| + p + n] == whole[|out|..][p..p + n];
  }

  // ----- Emitting -----

  /** Bytes a literal of `len` bytes may touch. */
  function LiteralRoom(len: nat, fast: bool): nat
    requires 0 < len < WORD32
  {
    |LiteralHeader(len)| + if fast && len <= 16 then 16 else len
  }

  lemma TrimmedStep(n: nat)
    requires n > 0
    ensures Trimmed(n) == [n % 256] + Trimmed(n / 256)
  {
  }

  /** Store the bytes of `n`, least significant first. */
  method StoreTrimmed(dst: array<Byte>, op0: nat, n0: nat) returns (op: nat)
    requires op0 + |Trimmed(n0)| <= dst.Length
    modifies dst
    ensures op == op0 + |Trimmed(n0)| && dst[op0..op] == Trimmed(n0)
    ensures forall x | 0 <= x < op0 :: dst[x] == old(dst[x])
  {
    op := op0;
    var n := n0;
    ghost var done: seq<Byte> := [];
    assert Trimmed(0) == [];
    hide Trimmed;
    while n > 0
      invariant Trimmed(n0) == done + Trimmed(n) && op == op0 + |done|
      invariant dst[op0..op] == done
      invariant forall x | 0 <= x < op0 :: dst[x] == old(dst[x])
    {
      ghost var was := dst[op0..op];
      TrimmedStep(n);
      dst[op] := n % 256;
      assert dst[op0..op + 1] == was + [n % 256];
      assert done + Trimmed(n) == (done + [n % 256]) + Trimmed(n / 256);
      done := done + [n % 256];
      op, n := op + 1, n / 256;
    }
  }

  method EmitHeader(dst: array<Byte>, op0: nat, len: nat) returns (op: nat)
    requires 0 < len < WORD32 && op0 + |LiteralHeader(len)| <= dst.Length
    modifies dst
    ensures op == op0 + |LiteralHeader(len)| && dst[..op] == old(dst[..op0]) + LiteralHeader(len)
  {
    hide Trimmed;
    var n := len - 1;
    op := op0;
    if n < 60 {
      dst[op] := n * 4;
      op := op + 1;
    } else {
      TrimmedSize(n);
      op := StoreTrimmed(dst, op0 + 1, n);
      ghost var tail := dst[op0 + 1..op];
      dst[op0] := (59 + (op - op0 - 1)) * 4;
      assert dst[op0 + 1..op] == tail;
      assert dst[op0..op] == [dst[op0]] + dst[op0 + 1..op];
    }
    assert dst[op0..op] == LiteralHeader(len);
    assert dst[..op] == old(dst[..op0]) + dst[op0..op];
  }

  method EmitLiteral(dst: array<Byte>, op0: nat, input: seq<Byte>, from: nat, len: nat, fast: bool) returns (op: nat)
    requires 0 < len < WORD32 && from + len <= |input|
    requires fast ==> from + 16 <= |input|
    requires op0 + LiteralRoom(len, fast) <= dst.Length
    modifies dst
    ensures op == op0 + |LiteralHeader(len)| + len <= dst.Length
    ensures dst[..op] == old(dst[..op0]) + (LiteralHeader(len) + input[from..from + len])
  {
    hide LiteralHeader;
    op := EmitHeader(dst, op0, len);
    ghost var head := dst[..op];
    if fast && len <= 16 {
      op := StoreShort(dst, op, input, from, len);
    } else {
      StoreWord(dst, op, input[from..from + len]);
      assert dst[..op + len] == head + input[from..from + len];
      op := op + len;
    }
    assert head + input[from..from + len] == old(dst[..op0]) + (LiteralHeader(len) + input[from..from + len]);
  }

  /** Two 64-bit stores; only the first `len` bytes count. */
  method StoreShort(dst: array<Byte>, op0: nat, input: seq<Byte>, from: nat, len: nat) returns (op: nat)
    requires len <= 16 && from + 16 <= |input| && op0 + 16 <= dst.Length
    modifies dst
    ensures op == op0 + len && dst[..op] == old(dst[..op0]) + input[from..from + len]
  {
    StoreWord(dst, op0, input[from..from + 8]);
    StoreWord(dst, op0 + 8, input[from + 8..from + 16]);
    op := op0 + len;
    ghost var want := old(dst[..op0]) + input[from..from + len];
    forall x | 0 <= x < op ensures dst[x] == want[x] {
      if x >= op0 { assert want[x] == input[from + (x - op0)]; }
    }
  }

  method EmitCopyLessThan64(dst: array<Byte>, op0: nat, offset: nat, len: nat) returns (op: nat)
    requires 0 < offset < BLOCK_SIZE && 4 <= len <= 64 && op0 + |CopyCode64(offset, len)| <= dst.Length
    modifies dst
    ensures op == op0 + |CopyCode64(offset, len)| && dst[..op] == old(dst[..op0]) + CopyCode64(offset, len)
  {
    op := op0;
    if len < 12 && offset < 2048 {
      ShortTag(offset, len);
      dst[op] := 1 + (len - 4) * 4 + offset / 256 * 32;
      dst[op + 1] := offset % 256;
      op := op + 2;
    } else {
      dst[op] := 2 + (len - 1) * 4;
      var word := Fixed(offset, 2);
      dst[op + 1] := word[0];
      dst[op + 2] := word[1];
      op := op + 3;
    }
    assert dst[..op] == old(dst[..op0]) + CopyCode64(offset, len);
  }

  lemma CopyCodeIs(offset: nat, len: nat)
    requires 0 < offset < BLOCK_SIZE && 4 <= len
    ensures len >= 68 ==> CopyCode(offset, len) == CopyCode64(offset, 64) + CopyCode(offset, len - 64)
    ensures 64 < len < 68 ==> CopyCode(offset, len) == CopyCode64(offset, 60) + CopyCode(offset, len - 60)
    ensures len <= 64 ==> CopyCode(offset, len) == CopyCode64(offset, len)
  {
  }

  method EmitCopy(dst: array<Byte>, op0: nat, offset: nat, len0: nat) returns (op: nat)
    requires 0 < offset < BLOCK_SIZE && 4 <= len0 && op0 + |CopyCode(offset, len0)| <= dst.Length
    modifies dst
    ensures op == op0 + |CopyCode(offset, len0)| && dst[..op] == old(dst[..op0]) + CopyCode(offset, len0)
  {
    hide CopyCode64, CopyCode;
    op := op0;
    var len := len0;
    ghost var done: seq<Byte> := [];
    while len >= 68
      invariant 4 <= len && CopyCode(offset, len0) == done + CopyCode(offset, len)
      invariant op == op0 + |done| && dst[..op] == old(dst[..op0]) + done
    {
      CopyCodeIs(offset, len);
      op := EmitCopyLessThan64(dst, op, offset, 64);
      Regrouped(done, CopyCode64(offset, 64), CopyCode(offset, len - 64));
      Regrouped(old(dst[..op0]), done, CopyCode64(offset, 64));
      done, len := done + CopyCode64(offset, 64), len - 64;
    }
    CopyCodeIs(offset, len);
    if len > 64 {
      op := EmitCopyLessThan64(dst, op, offset, 60);
      Regrouped(done, CopyCode64(offset, 60), CopyCode(offset, len - 60));
      Regrouped(old(dst[..op0]), done, CopyCode64(offset, 60));
      done, len := done + CopyCode64(offset, 60), len - 60;
      CopyCodeIs(offset, len);
    }
    op := EmitCopyLessThan64(dst, op, offset, len);
    Regrouped(old(dst[..op0]), done, CopyCode64(offset, len));
  }

  lemma Regrouped(a: seq<Byte>, b: seq<Byte>, c: seq<Byte>)
    ensures a + (b + c) == a + b + c
  {
  }

  // ----- Matching -----

  /** How far two words agree. */
  function Agreement(a: seq<Byte>, b: seq<Byte>): (n: nat)
    requires |a| == |b|
    ensures n <= |a| && a[..n] == b[..n]
    ensures n < |a| ==> a[n] != b[n]
  {
    if a == [] || a[0] != b[0] then 0
    else
      var n := Agreement(a[1..], b[1..]);
      assert a[..n + 1] == [a[0]] + a[1..][..n];
      assert b[..n + 1] == [b[0]] + b[1..][..n];
      n + 1
  }

  lemma NothingSame(s: seq<Byte>, p: nat, q: nat)
    requires p <= q <= |s|
    ensures SameAt(s, p, q, 0)
  {
  }

  lemma OneSame(s: seq<Byte>, p: nat, q: nat)
    requires p <= q < |s| && s[p] == s[q]
    ensures SameAt(s, p, q, 1)
  {
  }

  /** `FindMatchLength`: eight bytes at a time, then byte by byte; the longest match. */
  method FindMatchLength(s: seq<Byte>, s1: nat, s2: nat) returns (matched: nat)
    requires s1 <= s2 <= |s|
    ensures SameAt(s, s1, s2, matched)
    ensures s2 + matched < |s| ==> s[s1 + matched] != s[s2 + matched]
  {
    hide SameAt;
    var decided;
    matched, decided := MatchWords(s, s1, s2);
    while !decided && s2 + matched < |s| && s[s1 + matched] == s[s2 + matched]
      invariant s2 + matched <= |s| && SameAt(s, s1, s2, matched)
      invariant decided ==> s2 + matched < |s| && s[s1 + matched] != s[s2 + matched]
    {
      OneSame(s, s1 + matched, s2 + matched);
      MatchGrows(s, s1, s2, matched, 1);
      matched := matched + 1;
    }
  }

  /** The part that compares whole words; `decided` when it found the difference. */
  method MatchWords(s: seq<Byte>, s1: nat, s2: nat) returns (matched: nat, decided: bool)
    requires s1 <= s2 <= |s|
    ensures s2 + matched <= |s| && SameAt(s, s1, s2, matched)
    ensures decided ==> s2 + matched < |s| && s[s1 + matched] != s[s2 + matched]
  {
    hide Agreement, SameAt;
    matched := 0;
    NothingSame(s, s1, s2);
    while s2 + matched + 8 <= |s|
      invariant s2 + matched <= |s| && SameAt(s, s1, s2, matched)
    {
      var a, b := s[s1 + matched..s1 + matched + 8], s[s2 + matched..s2 + matched + 8];
      WordsAgree(s, s1 + matched, s2 + matched);
      MatchGrows(s, s1, s2, matched, Agreement(a, b));
      if a == b {
        matched := matched + 8;
      } else {
        return matched + Agreement(a, b), true;
      }
    }
    decided := false;
  }

  lemma WordsAgree(s: seq<Byte>, p: nat, q: nat)
    requires p <= q && q + 8 <= |s|
    ensures var a, b := s[p..p + 8], s[q..q + 8];
            var n := Agreement(a, b);
            && (a == b <==> n == 8)
            && SameAt(s, p, q, n)
            && (n < 8 ==> s[p + n] != s[q + n])
  {
    hide Agreement;
    var a, b := s[p..p + 8], s[q..q + 8];
    var n := Agreement(a, b);
    assert s[p..p + n] == a[..n] && s[q..q + n] == b[..n];
    assert a[..8] == a && b[..8] == b;
  }

  lemma MatchGrows(s: seq<Byte>, s1: nat, s2: nat, m: nat, n: nat)
    requires SameAt(s, s1, s2, m) && SameAt(s, s1 + m, s2 + m, n)
    ensures SameAt(s, s1, s2, m + n)
  {
    assert s[s1..s1 + m + n] == s[s1..s1 + m] + s[s1 + m..s1 + m + n];
    assert s[s2..s2 + m + n] == s[s2..s2 + m] + s[s2 + m..s2 + m + n];
  }

  // ----- Compressing one fragment -----

  /** Output so far: `code`, standing for the first `at` bytes, with at most `slack` sixtieths
      more than its share of 61 bytes out for 60 bytes in. */
  ghost predicate Emitted(input: seq<Byte>, at: nat, code: seq<Byte>, slack: nat) {
    at <= |input| && Encodes(code, input[..at]) && 60 * |code| <= 61 * at + slack
  }

  ghost predicate Wrote(dst: array<Byte>, base: seq<Byte>, code: seq<Byte>, op: nat)
    reads dst
  {
    op == |base| + |code| && op <= dst.Length && dst[..op] == base + code
  }

  /** Room for a fragment of `n` bytes behind `used` bytes of output. */
  predicate Room(used: nat, n: nat, capacity: nat) {
    60 * used + 70 * n + 1570 <= 60 * capacity
  }

  lemma HeaderSize(len: nat)
    requires 0 < len <= BLOCK_SIZE
    ensures |LiteralHeader(len)| == 1 || (len > 60 && |LiteralHeader(len)| == 2)
            || (len > 256 && |LiteralHeader(len)| == 3)
  {
    TrimmedSize(len - 1);
  }

  /** The pending bytes go out as one literal. */
  method AddLiteral(input: seq<Byte>, dst: array<Byte>, op0: nat, at: nat, end: nat, fast: bool,
                    ghost base: seq<Byte>, ghost code: seq<Byte>) returns (op: nat, ghost code': seq<Byte>)
    requires at < end <= |input| <= BLOCK_SIZE && (fast ==> at + 16 <= |input|)
    requires Emitted(input, at, code, 0) && Wrote(dst, base, code, op0) && Room(|base|, |input|, dst.Length)
    modifies dst
    ensures Emitted(input, end, code', 59) && Wrote(dst, base, code', op)
    ensures code' == code + PieceCode(input, Lit(at, end))
  {
    hide LiteralHeader, Encodes;
    HeaderSize(end - at);
    op := EmitLiteral(dst, op0, input, at, end - at, fast);
    code' := code + (LiteralHeader(end - at) + input[at..end]);
    LiteralNext(input, code, at, end);
    Regrouped(base, code, LiteralHeader(end - at) + input[at..end]);
  }

  /** A match goes out as copies; every copy is shorter than what it stands for. */
  method AddCopy(input: seq<Byte>, dst: array<Byte>, op0: nat, at: nat, from: nat, len: nat,
                 ghost base: seq<Byte>, ghost code: seq<Byte>) returns (op: nat, ghost code': seq<Byte>)
    requires |input| <= BLOCK_SIZE && from < at && 4 <= len && SameAt(input, from, at, len)
    requires Emitted(input, at, code, 59) && Wrote(dst, base, code, op0) && Room(|base|, |input|, dst.Length)
    modifies dst
    ensures Emitted(input, at + len, code', 0) && Wrote(dst, base, code', op)
    ensures code' == code + PieceCode(input, Match(at, from, len))
  {
    hide CopyCode, Encodes;
    op := EmitCopy(dst, op0, at - from, len);
    code' := code + CopyCode(at - from, len);
    CopyNext(input, code, at, from, len);
    Regrouped(base, code, CopyCode(at - from, len));
  }

  ghost predicate Below(table: array<Word16>, bound: nat)
    reads table
  {
    table.Length > 0 && forall h | 0 <= h < table.Length :: table[h] < bound
  }

  /** The scan for a four-byte match: it slows down by one byte for every 32 misses. */
  method FindMatch(input: seq<Byte>, table: array<Word16>, hash: seq<Byte> -> nat, ip0: nat, ghost seen0: seq<nat>)
    returns (found: bool, ip: nat, candidate: nat, ghost k: nat)
    requires INPUT_MARGIN <= |input| <= BLOCK_SIZE && ip0 <= |input| - INPUT_MARGIN + 1 && Below(table, ip0)
    requires Tabled(Fragment(input, hash, table.Length), table[..], seen0)
    modifies table
    ensures found ==> ip0 <= ip < |input| - INPUT_MARGIN && candidate < ip && SameAt(input, candidate, ip, 4)
    ensures found ==> Below(table, ip + 1)
    ensures var frag := Fragment(input, hash, table.Length);
            if found then
              && Finds(frag, seen0, ip0, k) && ip == Probe(ip0, k)
              && candidate == Candidate(frag, seen0 + Probes(ip0, k), ip)
              && Tabled(frag, table[..], seen0 + Probes(ip0, k + 1))
            else GivesUp(frag, seen0, ip0, k)
  {
    hide Tabled, Hit, Candidate, Slot, Misses, Probe, Probes, SameAt;
    ghost var frag := Fragment(input, hash, table.Length);
    var limit := |input| - INPUT_MARGIN;
    var skip, next := 32, ip0;
    candidate, k := 0, 0;
    NoProbes(frag, seen0, ip0);
    while true
      invariant skip == 32 + k && next == Probe(ip0, k) && ip0 <= next <= limit + 1 && Below(table, next)
      invariant Tabled(frag, table[..], seen0 + Probes(ip0, k)) && Misses(frag, seen0, ip0, k)
      decreases limit + 1 - next
    {
      ip := next;
      OneProbe(frag, seen0, ip0, k);
      next := ip + skip / 32;
      skip := skip + 1;
      if next > limit {
        return false, ip, 0, k;
      }
      var h;
      h, candidate := Swap(input, table, hash, ip, seen0 + Probes(ip0, k));
      HitIs(frag, seen0 + Probes(ip0, k), ip);
      if input[ip..ip + 4] == input[candidate..candidate + 4] {
        FourSame(input, candidate, ip);
        return true, ip, candidate, k;
      }
      k := k + 1;
    }
  }

  /** Look up the slot of the four bytes at `ip`, and put `ip` into it. */
  method Swap(input: seq<Byte>, table: array<Word16>, hash: seq<Byte> -> nat, ip: nat, ghost seen: seq<nat>)
    returns (h: nat, candidate: nat)
    requires ip + 4 <= |input| <= BLOCK_SIZE && Below(table, ip)
    requires Tabled(Fragment(input, hash, table.Length), table[..], seen)
    modifies table
    ensures candidate < ip && Below(table, ip + 1)
    ensures var frag := Fragment(input, hash, table.Length);
            candidate == Candidate(frag, seen, ip) && Tabled(frag, table[..], seen + [ip])
  {
    h := hash(input[ip..ip + 4]) % table.Length;
    candidate := table[h];
    ghost var frag := Fragment(input, hash, table.Length);
    ghost var was: seq<nat> := table[..];
    assert h == Slot(frag, ip);
    PutIn(frag, was, seen, ip);
    table[h] := ip;
    assert table[..] == was[h := ip];
  }

  lemma NoProbes(frag: Fragment, seen: seq<nat>, ip: nat)
    ensures Probe(ip, 0) == ip && seen + Probes(ip, 0) == seen && Misses(frag, seen, ip, 0)
  {
  }

  lemma OneProbe(frag: Fragment, seen: seq<nat>, ip: nat, k: nat)
    ensures Probe(ip, k + 1) == Probe(ip, k) + (32 + k) / 32 > Probe(ip, k)
    ensures seen + Probes(ip, k + 1) == seen + Probes(ip, k) + [Probe(ip, k)]
    ensures Misses(frag, seen, ip, k) && !Hit(frag, seen + Probes(ip, k), Probe(ip, k)) ==>
              Misses(frag, seen, ip, k + 1)
  {
    hide Hit;
  }

  lemma HitIs(frag: Fragment, seen: seq<nat>, p: nat)
    requires p + 4 <= |frag.input| && Candidate(frag, seen, p) < p
    ensures var c := Candidate(frag, seen, p); Hit(frag, seen, p) <==> frag.input[p..p + 4] == frag.input[c..c + 4]
  {
  }

  /** The last byte of the copy and the byte behind it go into the table. */
  method Restock(input: seq<Byte>, table: array<Word16>, hash: seq<Byte> -> nat, ip: nat, ghost seen: seq<nat>)
    returns (candidate: nat)
    requires 0 < ip && ip + 4 <= |input| <= BLOCK_SIZE && Below(table, ip)
    requires Tabled(Fragment(input, hash, table.Length), table[..], seen)
    modifies table
    ensures candidate < ip && Below(table, ip + 1)
    ensures var frag := Fragment(input, hash, table.Length);
            && candidate == Candidate(frag, seen + [ip - 1], ip)
            && Tabled(frag, table[..], seen + [ip - 1] + [ip])
  {
    hide Tabled, Candidate;
    var h := hash(input[ip - 1..ip + 3]) % table.Length;
    ghost var frag := Fragment(input, hash, table.Length);
    ghost var was: seq<nat> := table[..];
    assert h == Slot(frag, ip - 1);
    PutIn(frag, was, seen, ip - 1);
    table[h] := ip - 1;
    assert table[..] == was[h := ip - 1];
    h, candidate := Swap(input, table, hash, ip, seen + [ip - 1]);
  }

  /** The pieces so far stand for the first `at` bytes, and the table holds what was put into it on the way. */
  ghost predicate Standing(frag: Fragment, table: seq<nat>, pieces: seq<Piece>, points: seq<Point>, at: nat,
                           candidate: Option<nat>) {
    && Traced(frag, pieces, points)
    && var p := points[|points| - 1];
       p.at == at && p.candidate == candidate && Tabled(frag, table, p.seen)
  }

  lemma CopyTraced(frag: Fragment, table: seq<nat>, pieces: seq<Piece>, points: seq<Point>, ip: nat, candidate: nat,
                   len: nat) returns (pieces': seq<Piece>, points': seq<Point>)
    requires Standing(frag, table, pieces, points, ip, Some(candidate))
    requires len >= 4 && Longest(frag.input, candidate, ip, len)
    ensures pieces' == pieces + [Match(ip, candidate, len)] && Traced(frag, pieces', points')
    ensures points != [] && points'[|points'| - 1] == BehindMatch(frag, points[|points| - 1].seen, ip + len)
    ensures Tabled(frag, table, points[|points| - 1].seen)
  {
    hide Longest, Tabled, BehindMatch;
    var a := points[|points| - 1];
    var b := BehindMatch(frag, a.seen, ip + len);
    TracedMore(frag, pieces, points, Match(ip, candidate, len), b);
    pieces', points' := pieces + [Match(ip, candidate, len)], points + [b];
  }

  lemma LitTraced(frag: Fragment, pieces: seq<Piece>, points: seq<Point>, to: nat, b: Point)
    returns (pieces': seq<Piece>, points': seq<Point>)
    requires Traced(frag, pieces, points) && LitStep(frag, points[|points| - 1], to, b)
    ensures pieces' == pieces + [Lit(points[|points| - 1].at, to)] && Traced(frag, pieces', points')
    ensures points' == points + [b]
  {
    hide LitStep;
    TracedMore(frag, pieces, points, Lit(points[|points| - 1].at, to), b);
    pieces', points' := pieces + [Lit(points[|points| - 1].at, to)], points + [b];
  }

  lemma BehindEnd(frag: Fragment, seen: seq<nat>, q: nat)
    requires q > 0 && q + INPUT_MARGIN >= |frag.input|
    ensures BehindMatch(frag, seen, q) == Point(q, seen, None)
  {
  }

  lemma Restocked(frag: Fragment, table: seq<nat>, pieces: seq<Piece>, points: seq<Point>, seen: seq<nat>, ip: nat,
                  candidate: nat)
    requires Traced(frag, pieces, points) && 0 < ip && ip + INPUT_MARGIN < |frag.input|
    requires points[|points| - 1] == BehindMatch(frag, seen, ip)
    requires candidate == Candidate(frag, seen + [ip - 1], ip) < ip && Tabled(frag, table, seen + [ip - 1] + [ip])
    ensures Standing(frag, table, pieces, points, ip,
                     if frag.input[ip..ip + 4] == frag.input[candidate..candidate + 4] then Some(candidate) else None)
    ensures points[|points| - 1].at == ip
    ensures frag.input[ip..ip + 4] != frag.input[candidate..candidate + 4] ==> points[|points| - 1].candidate == None
  {
    hide Traced, Tabled, Candidate, Hit;
    assert points != [] by { TracedSome(frag, pieces, points); }
    HitIs(frag, seen + [ip - 1], ip);
  }

  lemma TracedSome(frag: Fragment, pieces: seq<Piece>, points: seq<Point>)
    requires Traced(frag, pieces, points)
    ensures points != []
  {
  }

  /** Copies as long as the input right behind the last one matches again. */
  method EmitCopies(input: seq<Byte>, dst: array<Byte>, table: array<Word16>, hash: seq<Byte> -> nat,
                    op0: nat, ip0: nat, candidate0: nat, ghost base: seq<Byte>, ghost pieces0: seq<Piece>,
                    ghost points0: seq<Point>)
    returns (op: nat, ip: nat, more: bool, ghost pieces: seq<Piece>, ghost points: seq<Point>)
    requires INPUT_MARGIN <= |input| <= BLOCK_SIZE && ip0 < |input| - INPUT_MARGIN
    requires candidate0 < ip0 && SameAt(input, candidate0, ip0, 4)
    requires Emitted(input, ip0, CodeOf(input, pieces0), 59) && Wrote(dst, base, CodeOf(input, pieces0), op0)
    requires Room(|base|, |input|, dst.Length) && Below(table, ip0 + 1)
    requires var frag := Fragment(input, hash, table.Length);
             Standing(frag, table[..], pieces0, points0, ip0, Some(candidate0))
    modifies dst, table
    ensures Emitted(input, ip, CodeOf(input, pieces), 0) && Wrote(dst, base, CodeOf(input, pieces), op)
    ensures ip0 < ip <= |input| && (more ==> ip < |input| - INPUT_MARGIN && Below(table, ip + 1))
    ensures var frag := Fragment(input, hash, table.Length);
            && Traced(frag, pieces, points) && points[|points| - 1].at == ip && points[|points| - 1].candidate == None
            && (more ==> Standing(frag, table[..], pieces, points, ip, None))
            && (!more ==> ip + INPUT_MARGIN >= |input|)
  {
    hide Encodes, Emitted, Wrote, SameAt, Room, Traced, Tabled, Standing, CodeOf, BehindMatch, Candidate, Hit;
    var limit := |input| - INPUT_MARGIN;
    op, ip, pieces, points := op0, ip0, pieces0, points0;
    ghost var frag := Fragment(input, hash, table.Length);
    var candidate: nat := candidate0;
    while true
      invariant ip0 <= ip < limit && candidate < ip && SameAt(input, candidate, ip, 4)
      invariant Emitted(input, ip, CodeOf(input, pieces), 59) && Wrote(dst, base, CodeOf(input, pieces), op)
      invariant Below(table, ip + 1) && Standing(frag, table[..], pieces, points, ip, Some(candidate))
      decreases limit - ip
    {
      var len := 4;
      var tail := FindMatchLength(input, candidate + 4, ip + 4);
      MatchGrows(input, candidate, ip, 4, tail);
      len := 4 + tail;
      ghost var code;
      op, code := AddCopy(input, dst, op, ip, candidate, len, base, CodeOf(input, pieces));
      CodeMore(input, pieces, Match(ip, candidate, len));
      StandingTable(frag, table[..], pieces, points, ip, Some(candidate));
      ghost var was, seen := table[..], points[|points| - 1].seen;
      pieces, points := CopyTraced(frag, was, pieces, points, ip, candidate, len);
      ip := ip + len;
      if ip >= limit {
        BehindEnd(frag, seen, ip);
        more := false;
        return;
      }
      candidate := Restock(input, table, hash, ip, seen);
      Restocked(frag, table[..], pieces, points, seen, ip, candidate);
      if input[ip..ip + 4] != input[candidate..candidate + 4] {
        more := true;
        return;
      }
      FourSame(input, candidate, ip);
      MoreSlack(input, ip, CodeOf(input, pieces));
    }
  }

  lemma MoreSlack(input: seq<Byte>, at: nat, code: seq<Byte>)
    requires Emitted(input, at, code, 0)
    ensures Emitted(input, at, code, 59)
  {
  }

  lemma FourSame(s: seq<Byte>, p: nat, q: nat)
    requires p <= q && q + 4 <= |s| && s[q..q + 4] == s[p..p + 4]
    ensures SameAt(s, p, q, 4)
  {
  }

  /** `CompressFragment`, for any hash function and any table size: the pieces are those the probes of the table
      determine, and their code is what is written. */
  method CompressFragment(input: seq<Byte>, dst: array<Byte>, op0: nat, table: array<Word16>, hash: seq<Byte> -> nat)
    returns (op: nat, ghost pieces: seq<Piece>)
    requires |input| <= BLOCK_SIZE && op0 <= dst.Length && Room(op0, |input|, dst.Length)
    requires Below(table, 1)
    modifies dst, table
    ensures var code := CodeOf(input, pieces);
            Wrote(dst, old(dst[..op0]), code, op) && Emitted(input, |input|, code, 59)
    ensures Greedy(Fragment(input, hash, table.Length), pieces)
    ensures AllSame(input) && |input| >= INPUT_MARGIN + 2 ==> op - op0 <= 2 + 3 * (|input| / 60 + 1)
  {
    hide Encodes, Emitted, Wrote, Room, Traced, CodeOf, Standing, Tabled, Finds, GivesUp, Candidate, LitStep, Lost,
         PieceCode, Greedy, AllSame;
    ghost var base := dst[..op0];
    ghost var frag := Fragment(input, hash, table.Length);
    ghost var points := [Point(0, [], None)];
    op, pieces := op0, [];
    NothingYet(input, dst, base, op0);
    Cleared(frag, table[..]);
    AtStart(frag, table[..]);
    var emitted: nat := 0;
    if |input| >= INPUT_MARGIN {
      op, emitted, pieces, points := CompressMost(input, dst, op0, table, hash, base);
    } else {
      LostAtEnd(frag, [], 0);
    }
    if emitted < |input| {
      CodeMore(input, pieces, Lit(emitted, |input|));
      ghost var code;
      op, code := AddLiteral(input, dst, op, emitted, |input|, false, base, CodeOf(input, pieces));
      ghost var b := Point(|input|, [], None);
      TracedSome(frag, pieces, points);
      RestIsLit(frag, points[|points| - 1], b);
      pieces, points := LitTraced(frag, pieces, points, |input|, b);
    } else {
      MoreSlack(input, emitted, CodeOf(input, pieces));
    }
    AllTraced(frag, pieces, points);
    WroteSize(dst, base, CodeOf(input, pieces), op);
    if AllSame(input) && |input| >= INPUT_MARGIN + 2 { RunShrinks(frag, pieces); }
  }

  lemma WroteSize(dst: array<Byte>, base: seq<Byte>, code: seq<Byte>, op: nat)
    requires Wrote(dst, base, code, op)
    ensures op == |base| + |code|
  {
  }

  lemma AllTraced(frag: Fragment, pieces: seq<Piece>, points: seq<Point>)
    requires Traced(frag, pieces, points) && points[|points| - 1].at == |frag.input|
    ensures Greedy(frag, pieces)
  {
    hide SnappyMatching.Step;
  }

  /** Everything up to the last literal. */
  method CompressMost(input: seq<Byte>, dst: array<Byte>, op0: nat, table: array<Word16>, hash: seq<Byte> -> nat,
                      ghost base: seq<Byte>)
    returns (op: nat, emitted: nat, ghost pieces: seq<Piece>, ghost points: seq<Point>)
    requires INPUT_MARGIN <= |input| <= BLOCK_SIZE && Room(|base|, |input|, dst.Length) && Below(table, 1)
    requires Emitted(input, 0, CodeOf(input, []), 0) && Wrote(dst, base, CodeOf(input, []), op0)
    requires Tabled(Fragment(input, hash, table.Length), table[..], [])
    modifies dst, table
    ensures emitted <= |input|
    ensures Emitted(input, emitted, CodeOf(input, pieces), 0) && Wrote(dst, base, CodeOf(input, pieces), op)
    ensures var frag := Fragment(input, hash, table.Length);
            && Traced(frag, pieces, points) && points[|points| - 1].at == emitted
            && points[|points| - 1].candidate == None && Lost(frag, points[|points| - 1].seen, emitted + 1)
  {
    hide Encodes, Emitted, Wrote, Room, Traced, CodeOf, Standing, Tabled, Finds, GivesUp, Candidate, LitStep, Lost,
         PieceCode;
    ghost var frag := Fragment(input, hash, table.Length);
    op, emitted, pieces, points := op0, 0, [], [Point(0, [], None)];
    AtStart(frag, table[..]);
    var ip, more := 1, true;
    while more
      invariant emitted <= |input| && emitted + 1 == ip
      invariant Emitted(input, emitted, CodeOf(input, pieces), 0) && Wrote(dst, base, CodeOf(input, pieces), op)
      invariant Traced(frag, pieces, points) && |points| > 0 && points[|points| - 1].at == emitted
      invariant points[|points| - 1].candidate == None
      invariant more ==> ip <= |input| - INPUT_MARGIN + 1 && Below(table, ip)
      invariant more ==> Standing(frag, table[..], pieces, points, emitted, None)
      invariant !more ==> Lost(frag, points[|points| - 1].seen, emitted + 1)
      decreases more, |input| - ip
    {
      ghost var a := points[|points| - 1];
      StandingTable(frag, table[..], pieces, points, emitted, None);
      var found, at, candidate;
      ghost var k;
      found, at, candidate, k := FindMatch(input, table, hash, ip, a.seen);
      if !found {
        LostWith(frag, a.seen, ip, k);
        more := false;
      } else {
        ghost var code, b := CodeOf(input, pieces), FoundPoint(frag, a.seen, ip, k);
        CodeMore(input, pieces, Lit(emitted, at));
        op, code := AddLiteral(input, dst, op, emitted, at, true, base, CodeOf(input, pieces));
        FoundIsLit(frag, a, k, at);
        pieces, points := LitTraced(frag, pieces, points, at, b);
        StandingAt(frag, table[..], pieces, points, at, candidate);
        op, emitted, more, pieces, points :=
          EmitCopies(input, dst, table, hash, op, at, candidate, base, pieces, points);
        TracedSome(frag, pieces, points);
        ip := emitted + 1;
        if !more { LostAtEnd(frag, points[|points| - 1].seen, emitted); }
      }
    }
  }

  lemma NothingYet(input: seq<Byte>, dst: array<Byte>, base: seq<Byte>, op0: nat)
    requires op0 <= dst.Length && base == dst[..op0]
    ensures Emitted(input, 0, CodeOf(input, []), 0) && Wrote(dst, base, CodeOf(input, []), op0)
  {
    EncodesNothing();
    assert input[..0] == [] && base + [] == base;
  }

  lemma AtStart(frag: Fragment, table: seq<nat>)
    requires Tabled(frag, table, [])
    ensures Traced(frag, [], [Point(0, [], None)]) && Standing(frag, table, [], [Point(0, [], None)], 0, None)
  {
    hide Tabled;
  }

  lemma StandingTable(frag: Fragment, table: seq<nat>, pieces: seq<Piece>, points: seq<Point>, at: nat,
                      candidate: Option<nat>)
    requires Standing(frag, table, pieces, points, at, candidate)
    ensures points != [] && Tabled(frag, table, points[|points| - 1].seen)
  {
  }

  lemma StandingAt(frag: Fragment, table: seq<nat>, pieces: seq<Piece>, points: seq<Point>, at: nat, candidate: nat)
    requires Traced(frag, pieces, points)
    requires var b := points[|points| - 1];
             b.at == at && b.candidate == Some(candidate) && Tabled(frag, table, b.seen)
    ensures Standing(frag, table, pieces, points, at, Some(candidate))
  {
  }

  lemma LostWith(frag: Fragment, seen: seq<nat>, ip: nat, k: nat)
    requires GivesUp(frag, seen, ip, k)
    ensures Lost(frag, seen, ip)
  {
  }

  lemma LostAtEnd(frag: Fragment, seen: seq<nat>, at: nat)
    requires at + INPUT_MARGIN >= |frag.input|
    ensures Lost(frag, seen, at + 1)
  {
    assert Probe(at + 1, 1) == at + 2;
    assert GivesUp(frag, seen, at + 1, 0);
  }

  lemma FoundIsLit(frag: Fragment, a: Point, k: nat, at: nat)
    requires a.candidate.None? && Finds(frag, a.seen, a.at + 1, k) && at == Probe(a.at + 1, k) <= |frag.input|
    ensures LitStep(frag, a, at, FoundPoint(frag, a.seen, a.at + 1, k))
  {
    hide Finds;
    assert Found(frag, a.seen, a.at + 1, FoundPoint(frag, a.seen, a.at + 1, k));
  }

  lemma RestIsLit(frag: Fragment, a: Point, b: Point)
    requires a.candidate.None? && a.at < |frag.input| == b.at && b.candidate.None? && Lost(frag, a.seen, a.at + 1)
    ensures LitStep(frag, a, |frag.input|, b)
  {
    hide Lost;
  }

  // ----- Whole inputs -----

  /** The power of two from 256 to 16384 that is large enough for the input, if there is one. */
  function TableSize(n: nat): nat {
    if n <= 0x100 then 0x100 else if n <= 0x200 then 0x200 else if n <= 0x400 then 0x400
    else if n <= 0x800 then 0x800 else if n <= 0x1000 then 0x1000 else if n <= 0x2000 then 0x2000 else 0x4000
  }

  /** `GetHashTable`: a cleared table, smaller for short inputs. */
  method GetHashTable(inputSize: nat) returns (table: array<Word16>)
    ensures fresh(table) && Below(table, 1) && table.Length == TableSize(inputSize)
  {
    var size := 256;
    while size < 0x4000 && size < inputSize
      invariant size == 0x100 || size == 0x200 || size == 0x400 || size == 0x800
                || size == 0x1000 || size == 0x2000 || size == 0x4000
      invariant size <= TableSize(inputSize)
      decreases 0x4000 - size
    {
      size := 2 * size;
    }
    table := new Word16[size](i => 0);
  }

  lemma VarintSize(v: nat)
    requires v < WORD32
    ensures |EncodeVarint(v)| <= 5
  {
    FiveGroups();
    VarintRoundTrip(v, 5, []);
  }

  /** The share of 70 bytes out for 60 bytes in that whole fragments keep. */
  ghost predicate Frugal(size: nat, done: nat, last: bool) {
    60 * size <= 70 * done + if last then 59 else 0
  }

  lemma RoomLeft(header: nat, size: nat, done: nat, n: nat, total: nat, capacity: nat)
    requires header <= 5 && Frugal(size, done, false) && done + n <= total && MaxCompressedLength(total) <= capacity
    ensures Room(header + size, n, capacity)
  {
  }

  /** Where fragment `i` starts. */
  ghost function CutAt(input: seq<Byte>, i: nat): nat {
    if BLOCK_SIZE * i < |input| then BLOCK_SIZE * i else |input|
  }

  ghost function Chunk(input: seq<Byte>, i: nat): seq<Byte> {
    input[CutAt(input, i)..CutAt(input, i + 1)]
  }

  /** The pieces of every fragment are those its probes determine. */
  ghost predicate AllGreedy(input: seq<Byte>, hash: seq<Byte> -> nat, plans: seq<seq<Piece>>) {
    forall i | 0 <= i < |plans| ::
      var chunk := Chunk(input, i); Greedy(Fragment(chunk, hash, TableSize(|chunk|)), plans[i])
  }

  ghost function CodesOf(input: seq<Byte>, plans: seq<seq<Piece>>): seq<Byte> {
    if plans == [] then []
    else
      var n := |plans| - 1;
      CodesOf(input, plans[..n]) + CodeOf(Chunk(input, n), plans[n])
  }

  lemma OnePlanMore(input: seq<Byte>, hash: seq<Byte> -> nat, plans: seq<seq<Piece>>, pieces: seq<Piece>)
    requires AllGreedy(input, hash, plans)
    requires var chunk := Chunk(input, |plans|); Greedy(Fragment(chunk, hash, TableSize(|chunk|)), pieces)
    ensures AllGreedy(input, hash, plans + [pieces])
    ensures CodesOf(input, plans + [pieces]) == CodesOf(input, plans) + CodeOf(Chunk(input, |plans|), pieces)
  {
    hide Greedy, Chunk, CodeOf;
    assert (plans + [pieces])[..|plans|] == plans;
  }

  /** One more fragment. */
  method AddFragment(input: seq<Byte>, done: nat, size: nat, dst: array<Byte>, op0: nat, hash: seq<Byte> -> nat,
                     ghost header: seq<Byte>, ghost plans: seq<seq<Piece>>)
    returns (op: nat, ghost plans': seq<seq<Piece>>)
    requires done == CutAt(input, |plans|) && done + size == CutAt(input, |plans| + 1)
    requires MaxCompressedLength(|input|) <= dst.Length && AllGreedy(input, hash, plans)
    requires Encodes(CodesOf(input, plans), input[..done]) && Wrote(dst, header, CodesOf(input, plans), op0)
    requires |header| <= 5 && Frugal(|CodesOf(input, plans)|, done, false)
    modifies dst
    ensures var code := CodesOf(input, plans');
            Encodes(code, input[..done + size]) && Wrote(dst, header, code, op)
            && Frugal(|code|, done + size, size < BLOCK_SIZE)
    ensures AllGreedy(input, hash, plans') && |plans'| == |plans| + 1
  {
    hide Encodes, Greedy, AllGreedy, CodesOf, CodeOf;
    var table := GetHashTable(size);
    ghost var code := CodesOf(input, plans);
    RoomLeft(|header|, |code|, done, size, |input|, dst.Length);
    var fragment := input[done..done + size];
    ghost var pieces;
    op, pieces := CompressFragment(fragment, dst, op0, table, hash);
    ghost var piece := CodeOf(fragment, pieces);
    OnePlanMore(input, hash, plans, pieces);
    plans' := plans + [pieces];
    assert fragment[..size] == fragment;
    EncodesBoth(code, input[..done], piece, fragment);
    assert input[..done] + fragment == input[..done + size];
    Regrouped(header, code, piece);
  }

  /** `RawCompress`: the output is the length and the code of the pieces of all fragments; it decodes to the input
      and fits, whatever the hash function finds. */
  method RawCompress(input: seq<Byte>, dst: array<Byte>, hash: seq<Byte> -> nat)
    returns (op: nat, ghost plans: seq<seq<Piece>>)
    requires |input| < WORD32 && MaxCompressedLength(|input|) <= dst.Length
    modifies dst
    ensures op <= MaxCompressedLength(|input|)
    ensures Uncompress(dst[..op]) == Some(input)
    ensures dst[..op] == EncodeVarint(|input|) + CodesOf(input, plans) && AllGreedy(input, hash, plans)
    ensures |plans| == (|input| + BLOCK_SIZE - 1) / BLOCK_SIZE
  {
    hide Encodes, EncodeVarint, AllGreedy, CodesOf;
    var header := EncodeVarint(|input|);
    VarintSize(|input|);
    StoreWord(dst, 0, header);
    op := |header|;
    assert dst[..op] == header;
    var done := 0;
    plans := [];
    NoPlans(input, hash);
    assert input[..0] == [] && header + [] == header;
    while done < |input|
      invariant done == CutAt(input, |plans|) && AllGreedy(input, hash, plans)
      invariant BLOCK_SIZE * |plans| < |input| + BLOCK_SIZE
      invariant Encodes(CodesOf(input, plans), input[..done]) && Wrote(dst, header, CodesOf(input, plans), op)
      invariant Frugal(|CodesOf(input, plans)|, done, done == |input|)
    {
      var size := if |input| - done < BLOCK_SIZE then |input| - done else BLOCK_SIZE;
      op, plans := AddFragment(input, done, size, dst, op, hash, header, plans);
      done := done + size;
    }
    assert input[..|input|] == input;
    WholeDecodes(input, CodesOf(input, plans));
  }

  lemma NoPlans(input: seq<Byte>, hash: seq<Byte> -> nat)
    ensures AllGreedy(input, hash, []) && CodesOf(input, []) == [] && Encodes([], [])
  {
    EncodesNothing();
  }

  lemma WholeDecodes(input: seq<Byte>, code: seq<Byte>)
    requires |input| < WORD32 && Encodes(code, input)
    ensures Uncompress(EncodeVarint(|input|) + code) == Some(input)
  {
    hide Decode, EncodeVarint, DecodeVarint, Power, Encodes;
    var header := EncodeVarint(|input|);
    FiveGroups();
    VarintRoundTrip(|input|, 5, code);
    EncodesAlone(input, code);
    assert (header + code)[|header|..] == code;
  }

  lemma EncodesAlone(input: seq<Byte>, code: seq<Byte>)
    requires Encodes(code, input)
    ensures Decode(code, [], |input|) == Some(input)
  {
    hide Decode;
    assert Decode(code, [], |input|) == Some([] + input);
    assert [] + input == input;
  }

  /** Compressing and uncompressing gives the input back; the validator agrees. */
  method RoundTrip(input: seq<Byte>, hash: seq<Byte> -> nat, wide: bool)
    returns (valid: bool, ok: bool, output: seq<Byte>)
    requires |input| < WORD32
    ensures valid && ok && output == input
  {
    hide Uncompress;
    var dst := new Byte[MaxCompressedLength(|input|)](i => 0);
    ghost var plans;
    var n;
    n, plans := RawCompress(input, dst, hash);
    var compressed := dst[..n];
    valid := IsValidCompressedBuffer(compressed);
    UncompressedLength(compressed);
    var buf := new Byte[|input|](i => 0);
    ok := RawUncompress(compressed, buf, wide);
    output := buf[..];
  }

  lemma UncompressedLength(src: seq<Byte>)
    requires Uncompress(src).Some?
    ensures DecodeVarint(src, 5).Some? && DecodeVarint(src, 5).value.0 % WORD32 == |Uncompress(src).value|
  {
    hide Decode;
  }
}
