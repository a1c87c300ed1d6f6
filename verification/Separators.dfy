/** Shortened index keys: `FindShortestSeparator` and `FindShortSuccessor`, on user keys and on
    internal keys. */
module Separators {
  import opened Wrappers
  import opened Coding
  import opened Entries
  import opened KeyOrder

  lemma {:induction false} LessAt(a: seq<Byte>, b: seq<Byte>, d: nat)
    requires d < |a| && d < |b| && a[..d] == b[..d] && a[d] < b[d]
    ensures BytewiseLess(a, b)
    decreases d
  {
    if d > 0 {
      assert a[..d][0] == b[..d][0];
      assert a[1..][..d - 1] == a[..d][1..] && b[1..][..d - 1] == b[..d][1..];
      LessAt(a[1..], b[1..], d - 1);
    }
  }

  lemma LessIsStrict(a: seq<Byte>, b: seq<Byte>)
    ensures BytewiseLess(a, b) ==> !BytewiseLess(b, a) && a != b
  {
    EmbedMonotone(a, b);
    EmbedMonotone(b, a);
  }

  /** The strings first differ at `d`, and a byte fits between their two bytes there. */
  predicate RoomAt(start: seq<Byte>, limit: seq<Byte>, d: nat) {
    d < |start| && d < |limit| && start[..d] == limit[..d] && start[d] < 0xff && start[d] + 1 < limit[d]
  }

  /** Length of the common prefix. */
  function CommonPrefix(a: seq<Byte>, b: seq<Byte>): (d: nat)
    ensures d <= |a| && d <= |b| && a[..d] == b[..d]
    ensures d < |a| && d < |b| ==> a[d] != b[d]
  {
    if a == [] || b == [] || a[0] != b[0] then 0
    else
      var d := CommonPrefix(a[1..], b[1..]);
      assert a[..1 + d] == [a[0]] + a[1..][..d] && b[..1 + d] == [b[0]] + b[1..][..d];
      1 + d
  }

  /** What `FindShortestSeparator` leaves in `start`. */
  function Separator(start: seq<Byte>, limit: seq<Byte>): seq<Byte> {
    var d := CommonPrefix(start, limit);
    if RoomAt(start, limit, d) then start[..d] + [start[d] + 1] else start
  }

  /** Replace `start` by a string strictly between `start` and `limit`, cut right behind the first
      difference, when a byte fits there; keep it otherwise. */
  method FindShortestSeparator(start: seq<Byte>, limit: seq<Byte>) returns (r: seq<Byte>)
    ensures r == start || (BytewiseLess(start, r) && BytewiseLess(r, limit) && |r| <= |start|)
    ensures forall d: nat | RoomAt(start, limit, d) :: r != start && |r| == d + 1
    ensures r != start ==> exists d: nat :: RoomAt(start, limit, d)
    ensures r == Separator(start, limit)
  {
    var n := if |start| < |limit| then |start| else |limit|;
    var d := 0;
    while d < n && start[d] == limit[d]
      invariant d <= n && start[..d] == limit[..d]
    {
      assert start[..d + 1] == start[..d] + [start[d]] && limit[..d + 1] == limit[..d] + [limit[d]];
      d := d + 1;
    }
    r := start;
    if d < n {
      var b := start[d];
      if b < 0xff && b + 1 < limit[d] {
        r := start[d := b + 1][..d + 1];
        assert r[..d] == start[..d];
        LessAt(start, r, d);
        LessAt(r, limit, d);
        assert RoomAt(start, limit, d);
      }
    }
    forall c: nat | RoomAt(start, limit, c) ensures c == d { FirstDifference(start, limit, c, d); }
    PrefixOnce(start, limit, d);
  }

  lemma PrefixOnce(a: seq<Byte>, b: seq<Byte>, d: nat)
    requires d <= |a| && d <= |b| && a[..d] == b[..d] && (d == |a| || d == |b| || a[d] != b[d])
    ensures d == CommonPrefix(a, b)
  {
    var c := CommonPrefix(a, b);
    if c < d { SameBefore(a, b, d, c); }
    if d < c { SameBefore(a, b, c, d); }
  }

  lemma FirstDifference(a: seq<Byte>, b: seq<Byte>, c: nat, d: nat)
    requires RoomAt(a, b, c) && d <= |a| && d <= |b| && a[..d] == b[..d]
    requires d == |a| || d == |b| || a[d] != b[d]
    ensures c == d
  {
    if c < d { SameBefore(a, b, d, c); }
    if d < c { SameBefore(a, b, c, d); }
  }

  lemma SameBefore(a: seq<Byte>, b: seq<Byte>, n: nat, i: nat)
    requires i < n <= |a| && n <= |b| && a[..n] == b[..n]
    ensures a[i] == b[i]
  {
    assert a[..n][i] == b[..n][i];
  }

  /** What `FindShortSuccessor` leaves in `key`. */
  function Successor(key: seq<Byte>): seq<Byte> {
    if key == [] then []
    else if key[0] != 0xff then [key[0] + 1]
    else [key[0]] + Successor(key[1..])
  }

  lemma {:induction false} SuccessorIs(key: seq<Byte>, i: nat)
    requires i <= |key| && forall j | 0 <= j < i :: key[j] == 0xff
    ensures i == |key| ==> Successor(key) == key
    ensures i < |key| && key[i] != 0xff ==> Successor(key) == key[..i] + [key[i] + 1]
  {
    if i > 0 {
      SuccessorIs(key[1..], i - 1);
      assert key == [key[0]] + key[1..];
      assert key[..i] == [key[0]] + key[1..][..i - 1];
    }
  }

  /** Replace `key` by a string after it of the least length any such string has, unless it is a
      run of 0xff bytes, which is kept. */
  method FindShortSuccessor(key: seq<Byte>) returns (r: seq<Byte>)
    ensures r == Successor(key)
    ensures r == key <==> forall i | 0 <= i < |key| :: key[i] == 0xff
    ensures r != key ==> BytewiseLess(key, r) && |r| <= |key| && forall q | BytewiseLess(key, q) :: |r| <= |q|
  {
    for i := 0 to |key|
      invariant forall j | 0 <= j < i :: key[j] == 0xff
    {
      if key[i] != 0xff {
        r := key[i := key[i] + 1][..i + 1];
        assert r[..i] == key[..i];
        LessAt(key, r, i);
        LessIsStrict(key, r);
        forall q | BytewiseLess(key, q) ensures i + 1 <= |q| { NothingShorter(key, q, i); }
        SuccessorIs(key, i);
        return;
      }
    }
    r := key;
    SuccessorIs(key, |key|);
  }

  lemma {:induction false} NothingShorter(key: seq<Byte>, q: seq<Byte>, i: nat)
    requires BytewiseLess(key, q) && i < |key| && forall j | 0 <= j < i :: key[j] == 0xff
    ensures i < |q|
  {
    if i > 0 {
      assert q[0] <= 0xff && key[0] == 0xff;
      NothingShorter(key[1..], q[1..], i - 1);
    }
  }

  // ----- Internal keys -----

  datatype InternalKey = InternalKey(user: seq<Byte>, stamp: nat)

  predicate InternalLess(a: InternalKey, b: InternalKey) {
    BytewiseLess(a.user, b.user) || (a.user == b.user && a.stamp > b.stamp)
  }

  /** A replacement is taken when it is shorter and later. */
  function Shortened(key: seq<Byte>, other: seq<Byte>): Option<seq<Byte>> {
    if |other| < |key| && BytewiseLess(key, other) then Some(other) else None
  }

  /** The separator is `start` itself, or its user key is strictly between the two user keys: it
      never falls between two versions of one key. */
  method InternalShortestSeparator(start: InternalKey, limit: InternalKey) returns (r: InternalKey)
    requires InternalLess(start, limit)
    ensures r == start || (BytewiseLess(start.user, r.user) && BytewiseLess(r.user, limit.user))
    ensures !InternalLess(r, start) && InternalLess(r, limit)
    ensures var shorter := Shortened(start.user, Separator(start.user, limit.user));
            r == if shorter.Some? then InternalKey(shorter.value, MAX_SEQUENCE) else start
  {
    var tmp := FindShortestSeparator(start.user, limit.user);
    r := start;
    if |tmp| < |start.user| && BytewiseLess(start.user, tmp) {
      LessIsStrict(start.user, tmp);
      r := InternalKey(tmp, MAX_SEQUENCE);
    } else {
      LessIsStrict(start.user, start.user);
    }
  }

  method InternalShortSuccessor(key: InternalKey) returns (r: InternalKey)
    ensures r == key || BytewiseLess(key.user, r.user)
    ensures !InternalLess(r, key)
    ensures var shorter := Shortened(key.user, Successor(key.user));
            r == if shorter.Some? then InternalKey(shorter.value, MAX_SEQUENCE) else key
  {
    var tmp := FindShortSuccessor(key.user);
    r := key;
    if |tmp| < |key.user| && BytewiseLess(key.user, tmp) {
      LessIsStrict(key.user, tmp);
      r := InternalKey(tmp, MAX_SEQUENCE);
    } else {
      LessIsStrict(key.user, key.user);
    }
  }
}
