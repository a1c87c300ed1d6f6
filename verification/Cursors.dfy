/** The reference every iterator is held to: a position in one sorted list. */
module Cursors {
  import opened Wrappers
  import opened Entries

  /** Moves of an internal iterator; `Seek` takes an internal key. */
  datatype Move = Seek(key: Key, stamp: nat) | SeekToFirst | SeekToLast | Next | Prev

  ghost function At(p: nat, n: nat): Option<nat> {
    if p < n then Some(p) else None
  }

  ghost function LastOf(n: nat): Option<nat> {
    if n == 0 then None else Some(n - 1)
  }

  ghost function After(pos: Option<nat>, n: nat): Option<nat> {
    if pos.Some? then At(pos.value + 1, n) else None
  }

  ghost function BeforePos(pos: Option<nat>): Option<nat> {
    if pos.Some? then LastOf(pos.value) else None
  }

  ghost function Moved(xs: seq<Entry>, pos: Option<nat>, m: Move): Option<nat> {
    match m
    case Seek(k, s) => At(SeekIndex(xs, k, s), |xs|)
    case SeekToFirst => At(0, |xs|)
    case SeekToLast => LastOf(|xs|)
    case Next => After(pos, |xs|)
    case Prev => BeforePos(pos)
  }

  /** Where a new cursor stands after the moves, and what it shows there. */
  ghost function PosAfter(xs: seq<Entry>, moves: seq<Move>): (pos: Option<nat>)
    ensures pos.Some? ==> pos.value < |xs|
  {
    if moves == [] then None
    else Moved(xs, PosAfter(xs, moves[..|moves| - 1]), moves[|moves| - 1])
  }

  ghost function Shown(xs: seq<Entry>, moves: seq<Move>): Option<Entry> {
    var pos := PosAfter(xs, moves);
    if pos.Some? then Some(xs[pos.value]) else None
  }

  /** The number of entries before a position that means "past the end" when there is none. */
  function CutForward(at: Option<nat>, n: nat): nat {
    if at.Some? then at.value else n
  }

  /** The number of entries up to a position that means "before the start" when there is none. */
  function CutBackward(at: Option<nat>): nat {
    if at.Some? then at.value + 1 else 0
  }

  /** `xs` is divided at `cut` into the entries of `low` and the others. */
  ghost predicate Divides(xs: seq<Entry>, cut: nat, low: set<Entry>) {
    cut <= |xs| && forall i | 0 <= i < |xs| :: i < cut <==> xs[i] in low
  }

  lemma SortedDistinct(xs: seq<Entry>, i: nat, j: nat)
    requires Sorted(xs) && i < |xs| && j < |xs| && xs[i] == xs[j]
    ensures i == j
  {
  }
}
