/** The rule that closes an output before it overlaps too much of the level below: the reference that
    `Compaction::ShouldStopBefore` is held to, and what it guarantees. */
module Grandparents {
  import opened Wrappers
  import opened Entries
  import opened Versions
  import opened Selection

  /** How many grandparents end before `e`. */
  function Passed(files: Level, e: Entry): (n: nat)
    ensures n <= |files| && (forall i | 0 <= i < n :: Before(Largest(files[i]), e))
    ensures n < |files| ==> !Before(Largest(files[n]), e)
  {
    if files == [] || !Before(Largest(files[0]), e) then 0 else 1 + Passed(files[1..], e)
  }

  lemma PassedIs(files: Level, e: Entry, n: nat)
    requires n <= |files| && (forall i | 0 <= i < n :: Before(Largest(files[i]), e))
    requires n < |files| ==> !Before(Largest(files[n]), e)
    ensures Passed(files, e) == n
  {
  }

  lemma PassedGrows(files: Level, d: Entry, e: Entry)
    requires Before(d, e)
    ensures Passed(files, d) <= Passed(files, e)
  {
    assert forall i | 0 <= i < Passed(files, d) :: Before(Largest(files[i]), e);
  }

  /** The bytes of the grandparents from `a` up to `b`. */
  ghost function Bytes(files: Level, a: nat, b: nat): nat {
    if a <= b <= |files| then TotalFileSize(files[a..b]) else 0
  }

  lemma BytesMore(files: Level, a: nat, b: nat)
    requires a <= b < |files|
    ensures Bytes(files, a, b + 1) == Bytes(files, a, b) + files[b].bytes
  {
    assert files[a..b + 1] == files[a..b] + [files[b]];
    TotalMore(files[a..b], files[b]);
  }

  lemma {:induction false} BytesLess(files: Level, a: nat, b: nat, c: nat)
    requires a <= b <= c <= |files|
    ensures Bytes(files, b, c) <= Bytes(files, a, c)
    decreases b - a
  {
    if a < b {
      assert files[a..c][1..] == files[a + 1..c];
      BytesLess(files, a + 1, b, c);
    }
  }

  // ----- Where the rule stops -----

  /** The entry from which overlap is counted when entry `i` comes up: the last one the rule stopped at. */
  ghost function Since(files: Level, xs: seq<Entry>, i: nat): (r: nat)
    requires i < |xs|
    ensures r <= i
    decreases i, 0
  {
    if i == 0 then 0 else if Stops(files, xs, i - 1) then i - 1 else Since(files, xs, i - 1)
  }

  /** What has been passed since then. */
  ghost function Counted(files: Level, xs: seq<Entry>, i: nat): nat
    requires i < |xs|
    decreases i, 1
  {
    Bytes(files, Passed(files, xs[Since(files, xs, i)]), Passed(files, xs[i]))
  }

  /** More than the limit. */
  ghost predicate Stops(files: Level, xs: seq<Entry>, i: nat)
    requires i < |xs|
    decreases i, 2
  {
    Counted(files, xs, i) > MAX_GRANDPARENT_OVERLAP_BYTES
  }

  /** The grandparent counting goes on from when `e` comes up behind `xs`; none for the first entry. */
  ghost function CountedFrom(files: Level, xs: seq<Entry>, e: Entry): (r: Option<nat>)
    ensures r.Some? <==> xs != []
  {
    if xs == [] then None
    else Some(Passed(files, xs[if Stops(files, xs, |xs| - 1) then |xs| - 1 else Since(files, xs, |xs| - 1)]))
  }

  lemma StartsCounting(files: Level, xs: seq<Entry>, e: Entry)
    requires Sorted(xs) && (xs != [] ==> Before(xs[|xs| - 1], e))
    ensures xs != [] ==>
              var n, from := |xs| - 1, CountedFrom(files, xs, e).value;
              && from <= Passed(files, xs[n])
              && Bytes(files, from, Passed(files, xs[n])) == (if Stops(files, xs, n) then 0 else Counted(files, xs, n))
              && Passed(files, xs[n]) <= Passed(files, e)
  {
    hide Bytes, Stops;
    if xs != [] {
      NoBytes(files, Passed(files, xs[|xs| - 1]));
      PassedGrows(files, xs[|xs| - 1], e);
      var s := Since(files, xs, |xs| - 1);
      if s < |xs| - 1 { PassedGrows(files, xs[s], xs[|xs| - 1]); }
    }
  }

  lemma CountsOn(files: Level, xs: seq<Entry>, e: Entry)
    ensures var ys := xs + [e];
            Counted(files, ys, |xs|) ==
            if xs == [] then 0 else Bytes(files, CountedFrom(files, xs, e).value, Passed(files, e))
    ensures Stops(files, xs + [e], |xs|) <==> Counted(files, xs + [e], |xs|) > MAX_GRANDPARENT_OVERLAP_BYTES
  {
    hide Bytes, Passed;
    var ys := xs + [e];
    if xs == [] {
      NoBytes(files, Passed(files, e));
    } else {
      StopsEarly(files, xs, ys, |xs| - 1);
    }
  }

  lemma {:induction false} StopsEarly(files: Level, xs: seq<Entry>, ys: seq<Entry>, i: nat)
    requires i < |xs| && xs <= ys
    ensures Stops(files, xs, i) == Stops(files, ys, i) && Since(files, xs, i) == Since(files, ys, i)
  {
    hide Bytes, Passed;
    if i > 0 { StopsEarly(files, xs, ys, i - 1); }
    var s := Since(files, xs, i);
    assert s == Since(files, ys, i) && xs[s] == ys[s] && xs[i] == ys[i];
    assert Counted(files, xs, i) == Counted(files, ys, i);
  }

  lemma {:induction false} SinceBefore(files: Level, xs: seq<Entry>, a: nat, b: nat)
    requires a <= b < |xs| && forall i | a < i < b :: !Stops(files, xs, i)
    ensures Since(files, xs, b) <= a
  {
    hide Stops;
    if a < b {
      SinceBefore(files, xs, a, b - 1);
    }
  }

  /** Between two entries without a stop in between, at most the limit is passed. */
  lemma OverlapWithin(files: Level, xs: seq<Entry>, a: nat, b: nat)
    requires Sorted(xs) && a <= b < |xs| && forall i | a < i <= b :: !Stops(files, xs, i)
    ensures Bytes(files, Passed(files, xs[a]), Passed(files, xs[b])) <= MAX_GRANDPARENT_OVERLAP_BYTES
  {
    hide Bytes, Passed;
    if a == b {
      NoBytes(files, Passed(files, xs[a]));
    } else {
      SinceBefore(files, xs, a, b);
      var s := Since(files, xs, b);
      if s < a { PassedGrows(files, xs[s], xs[a]); }
      PassedGrows(files, xs[a], xs[b]);
      assert !Stops(files, xs, b);
      assert Bytes(files, Passed(files, xs[s]), Passed(files, xs[b])) == Counted(files, xs, b);
      BytesLess(files, Passed(files, xs[s]), Passed(files, xs[a]), Passed(files, xs[b]));
    }
  }

  lemma NoBytes(files: Level, n: nat)
    ensures Bytes(files, n, n) == 0
  {
  }
}
