/** How deep a memtable's table may be put, and how tables added meanwhile change that. */
module Sinking {
  import opened Wrappers
  import opened Entries
  import opened Versions
  import opened Selection
  import opened Edits

  // ----- Bytes below -----

  /** The bytes of the tables that meet a range. */
  function MetBytes(files: Level, lo: Key, hi: Key): nat {
    if files == [] then 0
    else (if Meets(files[0], Some(lo), Some(hi)) then files[0].bytes else 0) + MetBytes(files[1..], lo, hi)
  }

  lemma {:induction false} MetBytesAppend(files: Level, t: Table, lo: Key, hi: Key)
    ensures MetBytes(files + [t], lo, hi)
         == MetBytes(files, lo, hi) + if Meets(t, Some(lo), Some(hi)) then t.bytes else 0
  {
    if files != [] {
      MetBytesAppend(files[1..], t, lo, hi);
      assert (files + [t])[1..] == files[1..] + [t];
    } else {
      assert [t][1..] == [];
    }
  }

  lemma {:induction false} MetBytesIs(files: Level, lo: Key, hi: Key)
    ensures TotalFileSize(Overlapping(files, Some(lo), Some(hi))) == MetBytes(files, lo, hi)
  {
    if files != [] {
      var init, t := files[..|files| - 1], files[|files| - 1];
      MetBytesIs(init, lo, hi);
      MetBytesAppend(init, t, lo, hi);
      TotalMore(Overlapping(init, Some(lo), Some(hi)), t);
      assert files == init + [t];
    }
  }

  lemma {:induction false} MetBytesInsert(files: Level, t: Table, lo: Key, hi: Key)
    ensures MetBytes(InsertTable(files, t), lo, hi)
         == MetBytes(files, lo, hi) + if Meets(t, Some(lo), Some(hi)) then t.bytes else 0
  {
    var r := InsertTable(files, t);
    if files == [] {
      assert [t][1..] == [];
    } else if BySmallest(t, files[0]) {
      assert r[1..] == files;
    } else {
      MetBytesInsert(files[1..], t, lo, hi);
      assert r[1..] == InsertTable(files[1..], t);
    }
  }

  lemma {:induction false} MetBytesNarrow(files: Level, lo: Key, hi: Key, lo': Key, hi': Key)
    requires lo <= lo' && hi' <= hi
    ensures MetBytes(files, lo', hi') <= MetBytes(files, lo, hi)
  {
    if files != [] { MetBytesNarrow(files[1..], lo, hi, lo', hi'); }
  }

  lemma {:induction false} MetBytesNone(files: Level, lo: Key, hi: Key)
    requires forall t | t in files :: !Meets(t, Some(lo), Some(hi))
    ensures MetBytes(files, lo, hi) == 0
  {
    if files != [] { MetBytesNone(files[1..], lo, hi); }
  }

  // ----- Depth -----

  /** A memtable with this key range is put at level `m` or deeper. */
  ghost predicate Sinks(levels: seq<Level>, lo: Key, hi: Key, m: nat)
    requires |levels| == NUM_LEVELS
  {
    && m <= MAX_MEM_COMPACT_LEVEL
    && (forall t | t in levels[0] :: !Meets(t, Some(lo), Some(hi)))
    && forall l: nat | l < m :: !Blocked(levels, l, lo, hi)
  }

  lemma SinksIff(levels: seq<Level>, lo: Key, hi: Key, level: nat, m: nat)
    requires |levels| == NUM_LEVELS && Picked(levels, lo, hi, level) && 0 < m
    ensures Sinks(levels, lo, hi, m) <==> m <= level
  {
    hide Blocked;
  }

  lemma PickedExists(levels: seq<Level>, lo: Key, hi: Key) returns (level: nat)
    requires |levels| == NUM_LEVELS
    ensures Picked(levels, lo, hi, level)
  {
    hide Blocked;
    level := if (exists t :: t in levels[0] && Meets(t, Some(lo), Some(hi))) || Blocked(levels, 0, lo, hi) then 0
             else if Blocked(levels, 1, lo, hi) then 1 else 2;
  }

  lemma SinksPast(levels: seq<Level>, lo: Key, hi: Key, m: nat, l: nat, t: Table)
    requires |levels| == NUM_LEVELS && Sinks(levels, lo, hi, m) && l <= m && t in levels[l]
    ensures !Meets(t, Some(lo), Some(hi))
  {
    if l > 0 { assert !Blocked(levels, l - 1, lo, hi); }
  }

  lemma BlockedIs(levels: seq<Level>, l: nat, lo: Key, hi: Key)
    requires |levels| == NUM_LEVELS && l + 2 < NUM_LEVELS
    ensures Blocked(levels, l, lo, hi)
       <==> || (exists t :: t in levels[l + 1] && Meets(t, Some(lo), Some(hi)))
            || MetBytes(levels[l + 2], lo, hi) > MAX_GRANDPARENT_OVERLAP_BYTES
  {
    MetBytesIs(levels[l + 2], lo, hi);
  }

  lemma SinksNarrow(levels: seq<Level>, lo: Key, hi: Key, lo': Key, hi': Key, m: nat)
    requires |levels| == NUM_LEVELS && Sinks(levels, lo, hi, m) && lo <= lo' && hi' <= hi
    ensures Sinks(levels, lo', hi', m)
  {
    hide Blocked;
    forall l: nat | l < m ensures !Blocked(levels, l, lo', hi') {
      BlockedIs(levels, l, lo, hi);
      BlockedIs(levels, l, lo', hi');
      MetBytesNarrow(levels[l + 2], lo, hi, lo', hi');
      assert forall t | t in levels[l + 1] && Meets(t, Some(lo'), Some(hi')) :: Meets(t, Some(lo), Some(hi));
    }
  }

  /** Tables that were added never let a range sink deeper. */
  lemma SinksBefore(levels: seq<Level>, level: nat, t: Table, lo: Key, hi: Key, m: nat)
    requires |levels| == NUM_LEVELS && level < NUM_LEVELS
    requires Sinks(levels[level := InsertTable(levels[level], t)], lo, hi, m)
    ensures Sinks(levels, lo, hi, m)
  {
    hide Blocked, InsertTable;
    var levels' := levels[level := InsertTable(levels[level], t)];
    forall l: nat | l < m ensures !Blocked(levels, l, lo, hi) {
      BlockedIs(levels, l, lo, hi);
      BlockedIs(levels', l, lo, hi);
      MetBytesInsert(levels[l + 2], t, lo, hi);
    }
  }

  /** A table elsewhere, or one two levels below that adds not too much, changes nothing. */
  lemma SinksAfter(levels: seq<Level>, level: nat, t: Table, lo: Key, hi: Key, m: nat)
    requires |levels| == NUM_LEVELS && level < NUM_LEVELS && Sinks(levels, lo, hi, m)
    requires || !Meets(t, Some(lo), Some(hi))
             || (m < level && Sinks(levels, lo, hi, level) && t.bytes <= MAX_GRANDPARENT_OVERLAP_BYTES)
             || (m < level && t.bytes == 0)
    ensures Sinks(levels[level := InsertTable(levels[level], t)], lo, hi, m)
  {
    hide Blocked, InsertTable;
    var levels' := levels[level := InsertTable(levels[level], t)];
    forall l: nat | l < m ensures !Blocked(levels', l, lo, hi) {
      BlockedIs(levels, l, lo, hi);
      BlockedIs(levels', l, lo, hi);
      MetBytesInsert(levels[l + 2], t, lo, hi);
      if Meets(t, Some(lo), Some(hi)) && l + 2 == level && t.bytes > 0 {
        forall u | u in levels[level] ensures !Meets(u, Some(lo), Some(hi)) {
          SinksPast(levels, lo, hi, level, level, u);
        }
        MetBytesNone(levels[level], lo, hi);
      }
    }
  }
}
