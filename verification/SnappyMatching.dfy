/** What the compressor looks for: the pieces it cuts a fragment into are determined by where it probes its hash
    table and what it finds there. */
module SnappyMatching {
  import opened Wrappers
  import opened Coding
  import opened SnappyFormat

  const BLOCK_SIZE: nat := 0x1_0000
  const INPUT_MARGIN: nat := 15

  /** The `n` bytes at `p` and at `q` are the same. */
  ghost predicate SameAt(s: seq<Byte>, p: nat, q: nat, n: nat) {
    p <= q && q + n <= |s| && s[p..p + n] == s[q..q + n]
  }

  // ----- The hash table, as the positions put into it -----

  /** A fragment, the hash function and the size of the table. */
  datatype Fragment = Fragment(input: seq<Byte>, hash: seq<Byte> -> nat, size: nat)

  function Four(frag: Fragment, p: nat): seq<Byte> {
    if p + 4 <= |frag.input| then frag.input[p..p + 4] else []
  }

  function Slot(frag: Fragment, p: nat): nat {
    if frag.size > 0 then frag.hash(Four(frag, p)) % frag.size else 0
  }

  /** The last position put into the slot; zero in a cleared table. */
  ghost function LastIn(frag: Fragment, seen: seq<nat>, slot: nat): nat {
    if seen == [] then 0
    else if Slot(frag, seen[|seen| - 1]) == slot then seen[|seen| - 1]
    else LastIn(frag, seen[..|seen| - 1], slot)
  }

  ghost function Candidate(frag: Fragment, seen: seq<nat>, p: nat): nat {
    LastIn(frag, seen, Slot(frag, p))
  }

  /** The four bytes at `p` are those at its candidate. */
  ghost predicate Hit(frag: Fragment, seen: seq<nat>, p: nat) {
    Four(frag, p) == Four(frag, Candidate(frag, seen, p))
  }

  ghost predicate Tabled(frag: Fragment, table: seq<nat>, seen: seq<nat>) {
    |table| == frag.size > 0 && forall h | 0 <= h < |table| :: table[h] == LastIn(frag, seen, h)
  }

  lemma Cleared(frag: Fragment, table: seq<nat>)
    requires |table| == frag.size > 0 && forall h | 0 <= h < |table| :: table[h] == 0
    ensures Tabled(frag, table, [])
  {
  }

  lemma PutIn(frag: Fragment, table: seq<nat>, seen: seq<nat>, p: nat)
    requires Tabled(frag, table, seen)
    ensures Slot(frag, p) < |table| && Tabled(frag, table[Slot(frag, p) := p], seen + [p])
  {
    assert (seen + [p])[..|seen|] == seen;
  }

  // ----- The scan -----

  /** The `k`-th position a scan from `ip` probes: every byte, after 32 misses every other one, and so on. */
  ghost function Probe(ip: nat, k: nat): (p: nat)
    ensures p >= ip + k
  {
    if k == 0 then ip else Probe(ip, k - 1) + (32 + (k - 1)) / 32
  }

  /** The first `k` of them. */
  ghost function Probes(ip: nat, k: nat): seq<nat> {
    if k == 0 then [] else Probes(ip, k - 1) + [Probe(ip, k - 1)]
  }

  ghost predicate Misses(frag: Fragment, seen: seq<nat>, ip: nat, k: nat) {
    forall j: nat | j < k :: !Hit(frag, seen + Probes(ip, j), Probe(ip, j))
  }

  /** The next probe would be within the margin. */
  ghost predicate Past(frag: Fragment, p: nat) {
    p + INPUT_MARGIN > |frag.input|
  }

  /** The scan finds its first match with its probe `k`. */
  ghost predicate Finds(frag: Fragment, seen: seq<nat>, ip: nat, k: nat) {
    Misses(frag, seen, ip, k) && !Past(frag, Probe(ip, k + 1)) && Hit(frag, seen + Probes(ip, k), Probe(ip, k))
  }

  /** The scan gets to the end of the fragment without one. */
  ghost predicate GivesUp(frag: Fragment, seen: seq<nat>, ip: nat, k: nat) {
    Misses(frag, seen, ip, k) && Past(frag, Probe(ip, k + 1))
  }

  // ----- The pieces -----

  datatype Piece = Lit(from: nat, to: nat) | Match(at: nat, from: nat, len: nat)

  /** How far the output stands for the input, what is in the table, and the candidate for a copy that comes next. */
  datatype Point = Point(at: nat, seen: seq<nat>, candidate: Option<nat>)

  /** The copy goes on as long as the bytes are the same. */
  ghost predicate Longest(s: seq<Byte>, from: nat, at: nat, len: nat) {
    SameAt(s, from, at, len) && (at + len == |s| || s[from + len] != s[at + len])
  }

  /** A literal ends at the first probe that hits, or with the fragment. */
  ghost predicate LitStep(frag: Fragment, a: Point, to: nat, b: Point) {
    && a.candidate.None? && a.at < to <= |frag.input| && b.at == to
    && (Found(frag, a.seen, a.at + 1, b) || (to == |frag.input| && b.candidate.None? && Lost(frag, a.seen, a.at + 1)))
  }

  ghost predicate Found(frag: Fragment, seen: seq<nat>, ip: nat, b: Point) {
    exists k: nat :: Finds(frag, seen, ip, k) && b == FoundPoint(frag, seen, ip, k)
  }

  ghost predicate Lost(frag: Fragment, seen: seq<nat>, ip: nat) {
    exists k: nat :: GivesUp(frag, seen, ip, k)
  }

  ghost function FoundPoint(frag: Fragment, seen: seq<nat>, ip: nat, k: nat): Point {
    var p := Probe(ip, k);
    Point(p, seen + Probes(ip, k + 1), Some(Candidate(frag, seen + Probes(ip, k), p)))
  }

  /** A copy is from the candidate and as long as can be; another follows when the next four bytes hit. */
  ghost predicate MatchStep(frag: Fragment, a: Point, len: nat, b: Point) {
    && a.candidate.Some? && len >= 4 && Longest(frag.input, a.candidate.value, a.at, len)
    && b == BehindMatch(frag, a.seen, a.at + len)
  }

  ghost function BehindMatch(frag: Fragment, seen: seq<nat>, q: nat): Point
    requires q > 0
  {
    if q + INPUT_MARGIN >= |frag.input| then Point(q, seen, None)
    else
      var seen': seq<nat> := seen + [q - 1];
      Point(q, seen' + [q], if Hit(frag, seen', q) then Some(Candidate(frag, seen', q)) else None)
  }

  ghost predicate Step(frag: Fragment, a: Point, piece: Piece, b: Point) {
    match piece
    case Lit(from, to) => from == a.at && LitStep(frag, a, to, b)
    case Match(at, from, len) => at == a.at && a.candidate == Some(from) && MatchStep(frag, a, len, b)
  }

  /** Pieces as the compressor makes them, from the start of the fragment. */
  ghost predicate Traced(frag: Fragment, pieces: seq<Piece>, points: seq<Point>) {
    && |points| == |pieces| + 1 && points[0] == Point(0, [], None)
    && forall i | 0 <= i < |pieces| :: Step(frag, points[i], pieces[i], points[i + 1])
  }

  lemma TracedMore(frag: Fragment, pieces: seq<Piece>, points: seq<Point>, piece: Piece, point: Point)
    requires Traced(frag, pieces, points) && Step(frag, points[|points| - 1], piece, point)
    ensures Traced(frag, pieces + [piece], points + [point])
  {
    hide Step;
    var pieces', points' := pieces + [piece], points + [point];
    forall i | 0 <= i < |pieces'| ensures Step(frag, points'[i], pieces'[i], points'[i + 1]) {
      if i < |pieces| { assert Step(frag, points[i], pieces[i], points[i + 1]); }
    }
  }

  /** The pieces of the whole fragment. */
  ghost predicate Greedy(frag: Fragment, pieces: seq<Piece>) {
    exists points: seq<Point> :: Traced(frag, pieces, points) && points[|points| - 1].at == |frag.input|
  }

  /** What a piece is written as. */
  ghost function PieceCode(input: seq<Byte>, piece: Piece): seq<Byte> {
    match piece
    case Lit(from, to) =>
      if from < to <= |input| < WORD32 then LiteralHeader(to - from) + input[from..to] else []
    case Match(at, from, len) =>
      if from < at && at - from < BLOCK_SIZE && len >= 4 then CopyCode(at - from, len) else []
  }

  ghost function CodeOf(input: seq<Byte>, pieces: seq<Piece>): seq<Byte> {
    if pieces == [] then [] else CodeOf(input, pieces[..|pieces| - 1]) + PieceCode(input, pieces[|pieces| - 1])
  }

  lemma CodeMore(input: seq<Byte>, pieces: seq<Piece>, piece: Piece)
    ensures CodeOf(input, pieces + [piece]) == CodeOf(input, pieces) + PieceCode(input, piece)
  {
    assert (pieces + [piece])[..|pieces|] == pieces;
  }

  // ----- There is one such list of pieces -----

  lemma {:induction false} ProbesAdvance(ip: nat, j: nat, k: nat)
    requires j <= k
    ensures Probe(ip, j) <= Probe(ip, k)
    decreases k - j
  {
    if j < k { ProbesAdvance(ip, j, k - 1); }
  }

  lemma FindsOnce(frag: Fragment, seen: seq<nat>, ip: nat, j: nat, k: nat)
    requires Finds(frag, seen, ip, j)
    ensures Finds(frag, seen, ip, k) ==> j == k
    ensures !GivesUp(frag, seen, ip, k)
  {
    hide Hit, Probe, Probes;
    if k <= j { ProbesAdvance(ip, k + 1, j + 1); }
  }

  lemma LongestOnce(s: seq<Byte>, from: nat, at: nat, m: nat, n: nat)
    requires Longest(s, from, at, m) && Longest(s, from, at, n)
    ensures m == n
  {
    if m < n { SameThrough(s, from, at, n, m); }
    if n < m { SameThrough(s, from, at, m, n); }
  }

  lemma SameThrough(s: seq<Byte>, from: nat, at: nat, n: nat, i: nat)
    requires SameAt(s, from, at, n) && i < n
    ensures s[from + i] == s[at + i]
  {
    assert s[from..from + n][i] == s[from + i] && s[at..at + n][i] == s[at + i];
  }

  /** A point in the middle of the fragment determines the next piece and the next point. */
  lemma StepOnce(frag: Fragment, a: Point, p: Piece, b: Point, q: Piece, c: Point)
    requires Step(frag, a, p, b) && Step(frag, a, q, c)
    ensures p == q && b.at == c.at && b.candidate == c.candidate && (b.at < |frag.input| ==> b == c)
  {
    hide Longest, BehindMatch, FoundPoint, Finds, GivesUp;
    if p.Lit? {
      LitOnce(frag, a, p.to, b, q.to, c);
    } else {
      LongestOnce(frag.input, p.from, a.at, p.len, q.len);
    }
  }

  lemma LitOnce(frag: Fragment, a: Point, m: nat, b: Point, n: nat, c: Point)
    requires LitStep(frag, a, m, b) && LitStep(frag, a, n, c)
    ensures m == n && b.candidate == c.candidate && (m < |frag.input| ==> b == c)
  {
    hide FoundPoint, Finds, GivesUp;
    var ip := a.at + 1;
    if Found(frag, a.seen, ip, b) {
      var j: nat :| Finds(frag, a.seen, ip, j) && b == FoundPoint(frag, a.seen, ip, j);
      forall k: nat ensures (Finds(frag, a.seen, ip, k) ==> j == k) && !GivesUp(frag, a.seen, ip, k) {
        FindsOnce(frag, a.seen, ip, j, k);
      }
    } else {
      forall j: nat, k: nat ensures !(GivesUp(frag, a.seen, ip, j) && Finds(frag, a.seen, ip, k)) {
        if Finds(frag, a.seen, ip, k) { FindsOnce(frag, a.seen, ip, k, j); }
      }
    }
  }

  lemma {:induction false} TraceOnce(frag: Fragment, p: seq<Piece>, a: seq<Point>, q: seq<Piece>, b: seq<Point>, i: nat)
    requires Traced(frag, p, a) && Traced(frag, q, b) && i <= |p| && i <= |q|
    ensures p[..i] == q[..i] && a[i].at == b[i].at && a[i].candidate == b[i].candidate
    ensures a[i].at < |frag.input| ==> a[i] == b[i]
    ensures a[i].at >= |frag.input| ==> a[i].candidate.None?
  {
    hide Step;
    if i > 0 {
      TraceOnce(frag, p, a, q, b, i - 1);
      StepOn(frag, a[i - 1], p[i - 1], a[i]);
      StepOnce(frag, a[i - 1], p[i - 1], a[i], q[i - 1], b[i]);
      assert p[..i] == p[..i - 1] + [p[i - 1]] && q[..i] == q[..i - 1] + [q[i - 1]];
    }
  }

  /** Every step starts within the fragment, and none waits for a copy at its end. */
  lemma StepOn(frag: Fragment, a: Point, piece: Piece, b: Point)
    requires Step(frag, a, piece, b)
    ensures a.at < |frag.input| && (b.at >= |frag.input| ==> b.candidate.None?)
  {
    hide Candidate, Hit, Misses;
    if piece.Lit? && Found(frag, a.seen, a.at + 1, b) {
      var k: nat :| Finds(frag, a.seen, a.at + 1, k) && b == FoundPoint(frag, a.seen, a.at + 1, k);
      ProbesAdvance(a.at + 1, k, k + 1);
    }
  }

  /** Input, hash function and table size determine the pieces. */
  lemma PiecesDetermined(frag: Fragment, p: seq<Piece>, q: seq<Piece>)
    requires Greedy(frag, p) && Greedy(frag, q)
    ensures p == q
  {
    hide Step;
    var a: seq<Point> :| Traced(frag, p, a) && a[|a| - 1].at == |frag.input|;
    var b: seq<Point> :| Traced(frag, q, b) && b[|b| - 1].at == |frag.input|;
    var n := if |p| < |q| then |p| else |q|;
    TraceOnce(frag, p, a, q, b, n);
    if n < |p| { StepOn(frag, a[n], p[n], a[n + 1]); }
    if n < |q| { StepOn(frag, b[n], q[n], b[n + 1]); }
    assert p[..|p|] == p && q[..|q|] == q;
  }

  // ----- A run of equal bytes -----

  ghost predicate AllSame(s: seq<Byte>) {
    forall i, j | 0 <= i < |s| && 0 <= j < |s| :: s[i] == s[j]
  }

  lemma RunHits(frag: Fragment)
    requires AllSame(frag.input) && |frag.input| >= 5
    ensures Hit(frag, [], 1) && Candidate(frag, [], 1) == 0
  {
    assert frag.input[1..5] == frag.input[0..4];
  }

  /** The first piece of a run is a literal of one byte, whatever the hash function. */
  lemma RunStarts(frag: Fragment, piece: Piece, b: Point)
    requires AllSame(frag.input) && |frag.input| >= INPUT_MARGIN + 2 && Step(frag, Point(0, [], None), piece, b)
    ensures piece == Lit(0, 1) && b.at == 1 && b.candidate == Some(0)
  {
    hide Candidate, Hit;
    RunHits(frag);
    assert [] + Probes(1, 0) == [] && Probe(1, 0) == 1 && Probe(1, 1) == 2;
    assert forall k: nat | k > 0 :: !Misses(frag, [], 1, k) by {
      forall k: nat | k > 0 ensures !Misses(frag, [], 1, k) { assert Hit(frag, [] + Probes(1, 0), Probe(1, 0)); }
    }
  }

  lemma RunCopies(frag: Fragment, a: Point, piece: Piece, b: Point)
    requires AllSame(frag.input) && a.at == 1 && a.candidate == Some(0) && Step(frag, a, piece, b)
    ensures piece == Match(1, 0, |frag.input| - 1) && b.at == |frag.input| && b.candidate.None?
  {
  }

  lemma CopySize(offset: nat, len: nat)
    requires 0 < offset < 0x1_0000 && 4 <= len
    ensures |CopyCode(offset, len)| <= 3 * (len / 60 + 1)
    decreases len
  {
    if len >= 68 { CopySize(offset, len - 64); }
  }

  /** A run of equal bytes goes out as a literal of one byte and copies of it. */
  lemma RunShrinks(frag: Fragment, pieces: seq<Piece>)
    requires AllSame(frag.input) && INPUT_MARGIN + 2 <= |frag.input| <= BLOCK_SIZE && Greedy(frag, pieces)
    ensures pieces == [Lit(0, 1), Match(1, 0, |frag.input| - 1)]
    ensures |CodeOf(frag.input, pieces)| <= 2 + 3 * (|frag.input| / 60 + 1)
  {
    hide Step, AllSame;
    var points: seq<Point> :| Traced(frag, pieces, points) && points[|points| - 1].at == |frag.input|;
    RunPieces(frag, pieces, points);
    hide Greedy, CodeOf;
    RunSize(frag.input);
  }

  lemma RunSize(input: seq<Byte>)
    requires 5 <= |input| <= BLOCK_SIZE
    ensures |CodeOf(input, [Lit(0, 1), Match(1, 0, |input| - 1)])| <= 2 + 3 * (|input| / 60 + 1)
  {
    hide CodeOf, CopyCode, LiteralHeader;
    var lit, copy := Lit(0, 1), Match(1, 0, |input| - 1);
    OneByte();
    CopySize(1, |input| - 1);
    CodeNone(input);
    CodeMore(input, [], lit);
    CodeMore(input, [lit], copy);
    assert [] + [lit] == [lit] && [lit] + [copy] == [lit, copy];
  }

  lemma CodeNone(input: seq<Byte>)
    ensures CodeOf(input, []) == []
  {
  }

  lemma RunPieces(frag: Fragment, pieces: seq<Piece>, points: seq<Point>)
    requires AllSame(frag.input) && |frag.input| >= INPUT_MARGIN + 2
    requires Traced(frag, pieces, points) && points[|points| - 1].at == |frag.input|
    ensures pieces == [Lit(0, 1), Match(1, 0, |frag.input| - 1)]
  {
    hide Step, AllSame;
    RunStarts(frag, pieces[0], points[1]);
    RunCopies(frag, points[1], pieces[1], points[2]);
    if |pieces| > 2 { NothingBehind(frag, points[2], pieces[2], points[3]); }
  }

  lemma OneByte()
    ensures |LiteralHeader(1)| == 1
  {
  }

  lemma NothingBehind(frag: Fragment, a: Point, piece: Piece, b: Point)
    requires a.at == |frag.input| && a.candidate.None?
    ensures !Step(frag, a, piece, b)
  {
  }
}
