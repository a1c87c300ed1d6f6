/** Internal entries, their order, and what a read at a snapshot has to return.

    Every layer of the store (memtable, tables, levels, iterators) holds entries
    `(user key, sequence number, kind, value)`.  User keys reach this code only through a
    comparator; `real` stands for the ordered key space, and module `KeyOrder` shows that the
    bytewise order on byte strings embeds in it. */
module Entries {
  import opened Wrappers

  type Key = real
  type Payload = seq<int>

  datatype Kind = Deletion | Value

  /** `kMaxSequenceNumber`; the code assumes, and never checks, that writes stay below it. */
  const MAX_SEQUENCE: nat := 0xff_ffff_ffff_ffff

  type Stamp = s: nat | s < MAX_SEQUENCE

  datatype Entry = Entry(key: Key, stamp: Stamp, kind: Kind, value: Payload)

  /** Internal key order: user key ascending, then sequence number descending. */
  predicate Before(a: Entry, b: Entry) {
    a.key < b.key || (a.key == b.key && a.stamp > b.stamp)
  }

  /** `e` is at or after the internal key `(k, s)` a lookup at snapshot `s` seeks to. */
  predicate AtOrAfter(e: Entry, k: Key, s: nat) {
    e.key > k || (e.key == k && e.stamp <= s)
  }

  ghost predicate Sorted(xs: seq<Entry>) {
    forall i, j | 0 <= i < j < |xs| :: Before(xs[i], xs[j])
  }

  ghost function Set(xs: seq<Entry>): set<Entry> {
    set e | e in xs
  }

  // ----- Reads of a set of entries -----

  predicate Matches(e: Entry, k: Key, s: nat) {
    e.key == k && e.stamp <= s
  }

  ghost predicate Absent(S: set<Entry>, k: Key, s: nat) {
    forall d | d in S :: !Matches(d, k, s)
  }

  ghost predicate Newest(S: set<Entry>, k: Key, s: nat, e: Entry) {
    && e in S
    && Matches(e, k, s)
    && forall d | d in S && Matches(d, k, s) :: d.stamp <= e.stamp
  }

  /** Reading user key `k` at snapshot `s` in the entries `S` returns `r`: the value of the
      newest entry at or below `s`, nothing when there is none or when it is a deletion. */
  ghost predicate Reads(S: set<Entry>, k: Key, s: nat, r: Option<Payload>) {
    match r
    case Some(v) => exists e :: Newest(S, k, s, e) && e.kind == Value && e.value == v
    case None => Absent(S, k, s) || exists e :: Newest(S, k, s, e) && e.kind == Deletion
  }

  ghost predicate UniqueSeqs(S: set<Entry>) {
    forall d, e | d in S && e in S && d.stamp == e.stamp :: d == e
  }

  /** The two sets answer every read at a snapshot at or above `floor` alike. */
  ghost predicate SameReads(A: set<Entry>, B: set<Entry>, floor: nat) {
    forall k, s: nat, r | floor <= s :: Reads(A, k, s, r) <==> Reads(B, k, s, r)
  }

  /** Entries of `A` are newer than the entries of `B` for the same user key. */
  ghost predicate Newer(A: set<Entry>, B: set<Entry>) {
    forall d, e | d in A && e in B && d.key == e.key :: d.stamp > e.stamp
  }

  lemma NewestExists(S: set<Entry>, k: Key, s: nat)
    ensures Absent(S, k, s) || exists e :: Newest(S, k, s, e)
    decreases |S|
  {
    if x :| x in S {
      var T := S - {x};
      NewestExists(T, k, s);
      if Matches(x, k, s) {
        if Absent(T, k, s) {
          assert Newest(S, k, s, x);
        } else {
          var e :| Newest(T, k, s, e);
          assert Newest(S, k, s, if x.stamp > e.stamp then x else e);
        }
      } else if !Absent(T, k, s) {
        var e :| Newest(T, k, s, e);
        assert Newest(S, k, s, e);
      }
    }
  }

  lemma ReadsTotal(S: set<Entry>, k: Key, s: nat) returns (r: Option<Payload>)
    ensures Reads(S, k, s, r)
  {
    NewestExists(S, k, s);
    if Absent(S, k, s) {
      r := None;
    } else {
      var e :| Newest(S, k, s, e);
      r := if e.kind == Value then Some(e.value) else None;
    }
  }

  lemma ReadsUnique(S: set<Entry>, k: Key, s: nat, r: Option<Payload>, q: Option<Payload>)
    requires UniqueSeqs(S)
    requires Reads(S, k, s, r) && Reads(S, k, s, q)
    ensures r == q
  {
    if !Absent(S, k, s) {
      NewestExists(S, k, s);
      var e :| Newest(S, k, s, e);
      assert forall d | Newest(S, k, s, d) :: d == e;
    }
  }

  /** One direction suffices, since reads are total and single-valued. */
  lemma SameReadsFromOneSide(A: set<Entry>, B: set<Entry>, floor: nat)
    requires UniqueSeqs(A) && UniqueSeqs(B)
    requires forall k, s: nat, r | floor <= s && Reads(A, k, s, r) :: Reads(B, k, s, r)
    ensures SameReads(A, B, floor)
  {
    forall k, s: nat, r | floor <= s && Reads(B, k, s, r)
      ensures Reads(A, k, s, r)
    {
      var q := ReadsTotal(A, k, s);
      assert Reads(B, k, s, q);
      ReadsUnique(B, k, s, r, q);
    }
  }

  lemma SameReadsTrans(A: set<Entry>, B: set<Entry>, C: set<Entry>, f: nat, g: nat)
    requires SameReads(A, B, f) && SameReads(B, C, g)
    ensures SameReads(A, C, if f > g then f else g)
  {
    var h := if f > g then f else g;
    forall k, s: nat, r | h <= s
      ensures Reads(A, k, s, r) <==> Reads(C, k, s, r)
    {
      assert Reads(A, k, s, r) <==> Reads(B, k, s, r);
    }
  }

  ghost predicate SeqsAbove(N: set<Entry>, last: nat) {
    forall e | e in N :: e.stamp > last
  }

  ghost predicate SeqsAtMost(S: set<Entry>, last: nat) {
    forall e | e in S :: e.stamp <= last
  }

  /** Reading through a newer layer `N` laid over `A`. */
  lemma ReadsOverlay(A: set<Entry>, N: set<Entry>, k: Key, s: nat, r: Option<Payload>)
    requires Newer(N, A)
    ensures Absent(N, k, s) ==> (Reads(A + N, k, s, r) <==> Reads(A, k, s, r))
    ensures !Absent(N, k, s) ==> (Reads(A + N, k, s, r) <==> Reads(N, k, s, r))
  {
    if Absent(N, k, s) {
      assert forall e :: Newest(A + N, k, s, e) <==> Newest(A, k, s, e);
    } else {
      NewestExists(N, k, s);
      var n :| Newest(N, k, s, n);
      assert forall e :: Newest(A + N, k, s, e) <==> Newest(N, k, s, e);
    }
  }

  /** A batch of fresh writes added to both sides keeps them indistinguishable. */
  lemma SameReadsExtend(A: set<Entry>, B: set<Entry>, N: set<Entry>, floor: nat)
    requires SameReads(A, B, floor)
    requires Newer(N, A) && Newer(N, B)
    ensures SameReads(A + N, B + N, floor)
  {
    forall k, s: nat, r | floor <= s
      ensures Reads(A + N, k, s, r) <==> Reads(B + N, k, s, r)
    {
      ReadsOverlay(A, N, k, s, r);
      ReadsOverlay(B, N, k, s, r);
      assert Reads(A, k, s, r) <==> Reads(B, k, s, r);
    }
  }

  // ----- Leaving entries out -----

  /** What a reader learns from an entry. */
  function Answer(e: Entry): Option<Payload> {
    if e.kind == Value then Some(e.value) else None
  }

  /** At some sequence number from `floor` on, `e` is the newest entry of its key. */
  ghost predicate Exposed(S: set<Entry>, floor: nat, e: Entry) {
    forall v | v in S && v.key == e.key && v.stamp > e.stamp :: v.stamp > floor
  }

  lemma ExposedIsNewest(S: set<Entry>, floor: nat, e: Entry) returns (s: nat)
    requires e in S && Exposed(S, floor, e)
    ensures floor <= s && Newest(S, e.key, s, e)
    ensures forall v | v in S && v.key == e.key && v.stamp <= s :: v.stamp <= e.stamp
  {
    s := if e.stamp > floor then e.stamp else floor;
  }

  lemma NewestIsExposed(S: set<Entry>, floor: nat, k: Key, s: nat, e: Entry)
    requires Newest(S, k, s, e) && floor <= s
    ensures Exposed(S, floor, e)
  {
  }

  /** Below `s` only entries at or below `e` are left: reading at `s` is reading at `e`. */
  lemma ReadsLower(T: set<Entry>, e: Entry, s: nat, r: Option<Payload>)
    requires e.stamp <= s && forall v | v in T && v.key == e.key && v.stamp <= s :: v.stamp <= e.stamp
    ensures Reads(T, e.key, s, r) <==> Reads(T, e.key, e.stamp, r)
  {
    assert forall d :: Newest(T, e.key, s, d) <==> Newest(T, e.key, e.stamp, d);
  }

  lemma NewestReads(S: set<Entry>, k: Key, s: nat, e: Entry, r: Option<Payload>)
    requires UniqueSeqs(S) && Newest(S, k, s, e)
    ensures Reads(S, k, s, r) <==> r == Answer(e)
  {
    assert forall d | Newest(S, k, s, d) :: d == e;
  }

  lemma NewestStays(S: set<Entry>, T: set<Entry>, k: Key, s: nat, e: Entry)
    requires T <= S && Newest(S, k, s, e) && e in T
    ensures Newest(T, k, s, e)
  {
  }

  /** Entries may be left out exactly when every one that some reader could meet leaves an entry
      with the same answer behind it. */
  lemma DropKeepsReads(S: set<Entry>, dropped: set<Entry>, floor: nat)
    requires UniqueSeqs(S) && dropped <= S
    ensures SameReads(S, S - dropped, floor) <==>
            forall e | e in dropped && Exposed(S, floor, e) :: Reads(S - dropped, e.key, e.stamp, Answer(e))
  {
    hide Reads, UniqueSeqs;
    var T := S - dropped;
    if SameReads(S, T, floor) {
      forall e | e in dropped && Exposed(S, floor, e) ensures Reads(T, e.key, e.stamp, Answer(e)) {
        var s := ExposedIsNewest(S, floor, e);
        NewestReads(S, e.key, s, e, Answer(e));
        ReadsLower(T, e, s, Answer(e));
      }
    }
    if forall e | e in dropped && Exposed(S, floor, e) :: Reads(T, e.key, e.stamp, Answer(e)) {
      forall k, s: nat, r | floor <= s && Reads(S, k, s, r) ensures Reads(T, k, s, r) {
        LeftOutReads(S, dropped, floor, k, s, r);
      }
      UniqueLess(S, T);
      SameReadsFromOneSide(S, T, floor);
    }
  }

  lemma UniqueLess(S: set<Entry>, T: set<Entry>)
    requires UniqueSeqs(S) && T <= S
    ensures UniqueSeqs(T)
  {
  }

  lemma LeftOutReads(S: set<Entry>, dropped: set<Entry>, floor: nat, k: Key, s: nat, r: Option<Payload>)
    requires UniqueSeqs(S) && floor <= s && Reads(S, k, s, r)
    requires forall e | e in dropped && Exposed(S, floor, e) :: Reads(S - dropped, e.key, e.stamp, Answer(e))
    ensures Reads(S - dropped, k, s, r)
  {
    var T := S - dropped;
    if Absent(S, k, s) {
      assert Absent(T, k, s);
    } else {
      hide Reads;
      NewestExists(S, k, s);
      var e :| Newest(S, k, s, e);
      NewestReads(S, k, s, e, r);
      if e !in dropped {
        NewestStays(S, T, k, s, e);
        UniqueLess(S, T);
        NewestReads(T, k, s, e, r);
      } else {
        NewestIsExposed(S, floor, k, s, e);
        ReadsLower(T, e, s, r);
      }
    }
  }

  // ----- Searching one sorted run -----

  /** Index of the first entry at or after `(k, s)`, or the length. */
  function SeekIndex(xs: seq<Entry>, k: Key, s: nat): (i: nat)
    ensures i <= |xs|
    ensures i < |xs| ==> AtOrAfter(xs[i], k, s)
    ensures forall j | 0 <= j < i :: !AtOrAfter(xs[j], k, s)
  {
    if xs == [] || AtOrAfter(xs[0], k, s) then 0 else 1 + SeekIndex(xs[1..], k, s)
  }

  /** The entry a point lookup in one sorted run returns. */
  function Lookup(xs: seq<Entry>, k: Key, s: nat): Option<Entry> {
    var i := SeekIndex(xs, k, s);
    if i < |xs| && xs[i].key == k then Some(xs[i]) else None
  }

  lemma LookupIsNewest(xs: seq<Entry>, k: Key, s: nat)
    requires Sorted(xs)
    ensures Lookup(xs, k, s).None? ==> Absent(Set(xs), k, s)
    ensures Lookup(xs, k, s).Some? ==> Newest(Set(xs), k, s, Lookup(xs, k, s).value)
  {
    var i := SeekIndex(xs, k, s);
    forall d | d in xs && Matches(d, k, s)
      ensures i < |xs| && xs[i].key == k && d.stamp <= xs[i].stamp
    {
      var j :| 0 <= j < |xs| && xs[j] == d;
      assert i <= j;
      if i < j { assert Before(xs[i], xs[j]); }
    }
  }
}
