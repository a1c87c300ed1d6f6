/** Tables, levels and versions: which tables a range meets, and the layered point lookup. */
module Versions {
  import opened Wrappers
  import opened Entries

  const NUM_LEVELS: nat := 7
  const MAX_MEM_COMPACT_LEVEL: nat := 2

  /** A sorted table file: its metadata (number, size) and its contents. */
  datatype TableFile = TableFile(number: nat, bytes: nat, entries: seq<Entry>)

  type Table = t: TableFile | t.entries != []
    witness TableFile(0, 0, [Entry(0.0, 0, Value, [])])

  type Level = seq<Table>

  function Smallest(t: Table): Entry { t.entries[0] }

  function Largest(t: Table): Entry { t.entries[|t.entries| - 1] }

  ghost predicate TablesSorted(files: Level) {
    forall t | t in files :: Sorted(t.entries)
  }

  /** Tables in internal key order with disjoint ranges.  Two neighbours may still share a
      user key: the newer versions end one table, the older ones start the next. */
  ghost predicate Disjoint(files: Level) {
    forall i, j | 0 <= i < j < |files| :: Before(Largest(files[i]), Smallest(files[j]))
  }

  ghost predicate SortedLevel(files: Level) {
    TablesSorted(files) && Disjoint(files)
  }

  ghost function LevelSet(files: Level): set<Entry> {
    set t, e | t in files && e in t.entries :: e
  }

  /** `r` is the newest entry of `S` for `k` at or below `s`, if there is one. */
  ghost predicate Finds(S: set<Entry>, k: Key, s: nat, r: Option<Entry>) {
    match r
    case None => Absent(S, k, s)
    case Some(e) => Newest(S, k, s, e)
  }

  // ----- Ranges -----

  /** The table's user key range meets `[lo, hi]`; a missing bound is infinite. */
  predicate Meets(t: Table, lo: Option<Key>, hi: Option<Key>) {
    && (lo.None? || Largest(t).key >= lo.value)
    && (hi.None? || Smallest(t).key <= hi.value)
  }

  lemma EntryInRange(t: Table, e: Entry)
    requires Sorted(t.entries) && e in t.entries
    ensures Smallest(t).key <= e.key <= Largest(t).key
  {
    var i :| 0 <= i < |t.entries| && t.entries[i] == e;
    assert i == 0 || Before(t.entries[0], t.entries[i]);
    assert i == |t.entries| - 1 || Before(t.entries[i], t.entries[|t.entries| - 1]);
  }

  lemma RangeOrdered(files: Level, i: nat, j: nat)
    requires SortedLevel(files) && i <= j < |files|
    ensures Smallest(files[i]).key <= Smallest(files[j]).key
    ensures Largest(files[i]).key <= Largest(files[j]).key
    ensures i < j ==> Largest(files[i]).key <= Smallest(files[j]).key
  {
    if i < j {
      EntryInRange(files[i], Smallest(files[i]));
      EntryInRange(files[j], Smallest(files[j]));
    }
  }

  /** Binary search for the first table whose largest key is at or after `(k, s)`. */
  method FindFile(files: Level, k: Key, s: nat) returns (right: nat)
    requires SortedLevel(files)
    ensures right <= |files|
    ensures forall j | 0 <= j < right :: !AtOrAfter(Largest(files[j]), k, s)
    ensures forall j | right <= j < |files| :: AtOrAfter(Largest(files[j]), k, s)
  {
    var left := 0;
    right := |files|;
    while left < right
      invariant left <= right <= |files|
      invariant forall j | 0 <= j < left :: !AtOrAfter(Largest(files[j]), k, s)
      invariant forall j | right <= j < |files| :: AtOrAfter(Largest(files[j]), k, s)
    {
      var mid := (left + right) / 2;
      if !AtOrAfter(Largest(files[mid]), k, s) {
        forall j | 0 <= j <= mid ensures !AtOrAfter(Largest(files[j]), k, s) {
          LargestOrdered(files, j, mid);
        }
        left := mid + 1;
      } else {
        forall j | mid <= j < |files| ensures AtOrAfter(Largest(files[j]), k, s) {
          LargestOrdered(files, mid, j);
        }
        right := mid;
      }
    }
  }

  lemma LargestOrdered(files: Level, i: nat, j: nat)
    requires SortedLevel(files) && i <= j < |files|
    ensures i == j || Before(Largest(files[i]), Largest(files[j]))
  {
    if i < j {
      var t := files[j];
      assert Before(Largest(files[i]), Smallest(t));
      if |t.entries| > 1 { assert Before(t.entries[0], t.entries[|t.entries| - 1]); }
    }
  }

  method SomeFileOverlapsRange(disjoint: bool, files: Level, lo: Option<Key>, hi: Option<Key>)
    returns (r: bool)
    requires disjoint ==> SortedLevel(files)
    ensures r <==> exists t :: t in files && Meets(t, lo, hi)
  {
    if !disjoint {
      for i := 0 to |files|
        invariant forall j | 0 <= j < i :: !Meets(files[j], lo, hi)
      {
        if Meets(files[i], lo, hi) { return true; }
      }
      return false;
    }
    var index := 0;
    if lo.Some? {
      index := FindFile(files, lo.value, MAX_SEQUENCE);
    }
    if index >= |files| {
      return false;
    }
    r := hi.None? || !(hi.value < Smallest(files[index]).key);
    if r {
      assert Meets(files[index], lo, hi);
    } else {
      forall t | t in files ensures !Meets(t, lo, hi) {
        var j :| 0 <= j < |files| && files[j] == t;
        if index <= j { RangeOrdered(files, index, j); }
      }
    }
  }

  // ----- The layered lookup -----

  /** Age order of a version: a smaller level, or a higher numbered level-0 table, holds newer
      entries for any user key. */
  ghost predicate AgeOrdered(levels: seq<Level>)
    requires |levels| == NUM_LEVELS
  {
    && (forall i, j | 0 <= i < j < NUM_LEVELS :: Newer(LevelSet(levels[i]), LevelSet(levels[j])))
    && (forall t, u | t in levels[0] && u in levels[0] && t.number > u.number ::
          Newer(Set(t.entries), Set(u.entries)))
  }

  ghost predicate DistinctNumbers(files: Level) {
    forall i, j | 0 <= i < j < |files| :: files[i].number != files[j].number
  }

  /** Each level can be searched on its own, whatever the ages across levels. */
  ghost predicate Searchable(levels: seq<Level>) {
    && |levels| == NUM_LEVELS
    && TablesSorted(levels[0])
    && DistinctNumbers(levels[0])
    && (forall i | 1 <= i < NUM_LEVELS :: SortedLevel(levels[i]))
    && (forall t, u | t in levels[0] && u in levels[0] && t.number > u.number ::
          Newer(Set(t.entries), Set(u.entries)))
  }

  ghost predicate ValidVersion(levels: seq<Level>) {
    && |levels| == NUM_LEVELS
    && TablesSorted(levels[0])
    && DistinctNumbers(levels[0])
    && (forall i | 1 <= i < NUM_LEVELS :: SortedLevel(levels[i]))
    && AgeOrdered(levels)
  }

  lemma ValidIsSearchable(levels: seq<Level>)
    requires ValidVersion(levels)
    ensures Searchable(levels)
  {
  }

  ghost function UpTo(levels: seq<Level>, n: nat): set<Entry>
    requires n <= |levels|
  {
    if n == 0 then {} else UpTo(levels, n - 1) + LevelSet(levels[n - 1])
  }

  ghost function VersionSet(levels: seq<Level>): set<Entry> {
    UpTo(levels, |levels|)
  }

  lemma UpToMember(levels: seq<Level>, n: nat, e: Entry)
    requires n <= |levels|
    ensures e in UpTo(levels, n) <==> exists i :: 0 <= i < n && e in LevelSet(levels[i])
  {
    if n > 0 { UpToMember(levels, n - 1, e); }
  }

  ghost predicate NewestFirst(files: Level) {
    forall i, j | 0 <= i < j < |files| :: files[i].number > files[j].number
  }

  method InsertNewestFirst(files: Level, t: Table) returns (r: Level)
    requires NewestFirst(files) && forall u | u in files :: u.number != t.number
    ensures NewestFirst(r)
    ensures forall u :: u in r <==> u in files || u == t
  {
    var p := 0;
    while p < |files| && files[p].number > t.number
      invariant 0 <= p <= |files|
      invariant forall i | 0 <= i < p :: files[i].number > t.number
    {
      p := p + 1;
    }
    assert p < |files| ==> files[p] in files;
    InsertedAt(files, t, p);
    r := files[..p] + [t] + files[p..];
  }

  lemma InsertedAt(files: Level, t: Table, p: nat)
    requires NewestFirst(files) && p <= |files| && (p < |files| ==> files[p].number < t.number)
    requires forall i | 0 <= i < p :: files[i].number > t.number
    ensures NewestFirst(files[..p] + [t] + files[p..])
    ensures forall u :: u in files[..p] + [t] + files[p..] <==> u in files || u == t
  {
    var r := files[..p] + [t] + files[p..];
    assert files == files[..p] + files[p..];
    forall i, j | 0 <= i < j < |r| ensures r[i].number > r[j].number {
      assert i < p ==> r[i] == files[i];
      assert j > p ==> r[j] == files[j - 1];
    }
  }

  /** `std::sort` with `NewestFirst`. */
  method SortNewestFirst(files: Level) returns (r: Level)
    requires DistinctNumbers(files)
    ensures NewestFirst(r)
    ensures forall t :: t in r <==> t in files
  {
    r := [];
    for n := 0 to |files|
      invariant NewestFirst(r)
      invariant forall t :: t in r <==> t in files[..n]
    {
      forall u | u in r ensures u.number != files[n].number {
        var m :| 0 <= m < n && files[m] == u;
      }
      r := InsertNewestFirst(r, files[n]);
      assert files[..n + 1] == files[..n] + [files[n]];
    }
    assert files[..|files|] == files;
  }

  ghost function TablesSet(files: Level, n: nat): set<Entry>
    requires n <= |files|
  {
    LevelSet(files[..n])
  }

  /** One table of a search list: read it only when nothing newer answered. */
  lemma TablesSetStep(files: Level, n: nat)
    requires n < |files|
    ensures TablesSet(files, n + 1) == TablesSet(files, n) + Set(files[n].entries)
  {
    assert files[..n + 1] == files[..n] + [files[n]];
  }

  method CollectLevelZero(files: Level, k: Key) returns (tmp: Level)
    requires DistinctNumbers(files)
    ensures forall t :: t in tmp <==> t in files && Smallest(t).key <= k <= Largest(t).key
    ensures DistinctNumbers(tmp)
  {
    tmp := [];
    for i := 0 to |files|
      invariant forall t :: t in tmp <==> t in files[..i] && Smallest(t).key <= k <= Largest(t).key
      invariant forall a, b | 0 <= a < b < |tmp| :: tmp[a].number != tmp[b].number
    {
      if Smallest(files[i]).key <= k <= Largest(files[i]).key {
        forall t | t in tmp ensures t.number != files[i].number {
          var m :| 0 <= m < i && files[m] == t;
        }
        tmp := tmp + [files[i]];
      }
    }
    assert files[..|files|] == files;
  }

  method SearchLevelZero(files: Level, k: Key, s: nat) returns (r: Option<Entry>)
    requires TablesSorted(files) && DistinctNumbers(files)
    requires forall t, u | t in files && u in files && t.number > u.number ::
               Newer(Set(t.entries), Set(u.entries))
    ensures Finds(LevelSet(files), k, s, r)
  {
    var tmp := CollectLevelZero(files, k);
    tmp := SortNewestFirst(tmp);
    for i := 0 to |tmp|
      invariant Absent(TablesSet(tmp, i), k, s)
    {
      LookupIsNewest(tmp[i].entries, k, s);
      TablesSetStep(tmp, i);
      r := Lookup(tmp[i].entries, k, s);
      if r.Some? {
        SearchHit(files, tmp, i, k, s, r.value);
        return;
      }
    }
    forall d | d in LevelSet(files) ensures !Matches(d, k, s) {
      var t :| t in files && d in t.entries;
      EntryInRange(t, d);
      if d.key == k {
        assert t in tmp;
        assert tmp[..|tmp|] == tmp;
        assert d in TablesSet(tmp, |tmp|);
      }
    }
    r := None;
  }

  lemma SearchHit(files: Level, tmp: Level, i: nat, k: Key, s: nat, e: Entry)
    requires TablesSorted(files)
    requires forall t, u | t in files && u in files && t.number > u.number ::
               Newer(Set(t.entries), Set(u.entries))
    requires forall t :: t in tmp <==> t in files && Smallest(t).key <= k <= Largest(t).key
    requires NewestFirst(tmp)
    requires i < |tmp| && Absent(TablesSet(tmp, i), k, s)
    requires Newest(Set(tmp[i].entries), k, s, e)
    ensures Newest(LevelSet(files), k, s, e)
  {
    assert tmp[i] in files;
    forall d | d in LevelSet(files) && Matches(d, k, s) ensures d.stamp <= e.stamp {
      var t :| t in files && d in t.entries;
      EntryInRange(t, d);
      var j :| 0 <= j < |tmp| && tmp[j] == t;
      if j > i {
        assert Newer(Set(tmp[i].entries), Set(t.entries));
      }
    }
  }

  method SearchSortedLevel(files: Level, k: Key, s: nat) returns (r: Option<Entry>)
    requires SortedLevel(files)
    ensures Finds(LevelSet(files), k, s, r)
  {
    var index := FindFile(files, k, s);
    r := None;
    if index < |files| {
      if !(k < Smallest(files[index]).key) {
        r := Lookup(files[index].entries, k, s);
      }
      LookupIsNewest(files[index].entries, k, s);
      FirstHit(files, index, k, s);
    } else {
      forall d | d in LevelSet(files) ensures !Matches(d, k, s) {
        EarlierTableMisses(files, index, k, s, d);
      }
    }
  }

  lemma EarlierTableMisses(files: Level, index: nat, k: Key, s: nat, d: Entry)
    requires SortedLevel(files) && index <= |files|
    requires forall j | 0 <= j < index :: !AtOrAfter(Largest(files[j]), k, s)
    requires exists j :: 0 <= j < index && d in files[j].entries
    ensures !Matches(d, k, s)
  {
    var j :| 0 <= j < index && d in files[j].entries;
    var t := files[j];
    var i :| 0 <= i < |t.entries| && t.entries[i] == d;
    assert i == |t.entries| - 1 || Before(t.entries[i], t.entries[|t.entries| - 1]);
  }

  lemma FirstHit(files: Level, index: nat, k: Key, s: nat)
    requires SortedLevel(files) && index < |files|
    requires forall j | 0 <= j < index :: !AtOrAfter(Largest(files[j]), k, s)
    requires AtOrAfter(Largest(files[index]), k, s)
    requires Finds(Set(files[index].entries), k, s, Lookup(files[index].entries, k, s))
    ensures Finds(LevelSet(files), k, s, Lookup(files[index].entries, k, s))
  {
    var t := files[index];
    forall d | d in LevelSet(files) && Matches(d, k, s)
      ensures Lookup(t.entries, k, s).Some? && d.stamp <= Lookup(t.entries, k, s).value.stamp
    {
      var u :| u in files && d in u.entries;
      var j :| 0 <= j < |files| && files[j] == u;
      if j < index {
        EarlierTableMisses(files, index, k, s, d);
      } else if j > index {
        assert Before(Largest(t), Smallest(u));
        LaterTableOlder(t, u, k, s, d);
      }
    }
  }

  lemma LaterTableOlder(t: Table, u: Table, k: Key, s: nat, d: Entry)
    requires Sorted(t.entries) && Sorted(u.entries) && Before(Largest(t), Smallest(u))
    requires AtOrAfter(Largest(t), k, s)
    requires d in u.entries && Matches(d, k, s)
    requires Finds(Set(t.entries), k, s, Lookup(t.entries, k, s))
    ensures Lookup(t.entries, k, s).Some? && d.stamp <= Lookup(t.entries, k, s).value.stamp
  {
    var i :| 0 <= i < |u.entries| && u.entries[i] == d;
    assert i == 0 || Before(u.entries[0], u.entries[i]);
    assert Largest(t) in Set(t.entries);
    assert Matches(Largest(t), k, s);
  }

  // ----- Layer by layer -----

  /** What a search through the layers returns: the newest visible entry of the first layer that
      has one. */
  ghost predicate LookedUp(layers: seq<set<Entry>>, k: Key, s: nat, r: Option<Entry>) {
    match r
    case None => forall i | 0 <= i < |layers| :: Absent(layers[i], k, s)
    case Some(e) => exists i :: HitIn(layers, i, k, s, e)
  }

  ghost predicate HitIn(layers: seq<set<Entry>>, i: int, k: Key, s: nat, e: Entry) {
    0 <= i < |layers| && Newest(layers[i], k, s, e) && forall j | 0 <= j < i :: Absent(layers[j], k, s)
  }

  ghost predicate AgeLayers(layers: seq<set<Entry>>) {
    forall i, j | 0 <= i < j < |layers| :: Newer(layers[i], layers[j])
  }

  ghost predicate UnionOf(S: set<Entry>, layers: seq<set<Entry>>) {
    forall e :: e in S <==> exists i :: 0 <= i < |layers| && e in layers[i]
  }

  /** Layers in age order: the search finds the newest visible entry of all. */
  lemma AgeOrderFinds(layers: seq<set<Entry>>, S: set<Entry>, k: Key, s: nat, r: Option<Entry>)
    requires AgeLayers(layers) && UnionOf(S, layers) && LookedUp(layers, k, s, r)
    ensures Finds(S, k, s, r)
  {
    if r.Some? {
      var i :| HitIn(layers, i, k, s, r.value);
      assert r.value in layers[i];
      forall d | d in S && Matches(d, k, s) ensures d.stamp <= r.value.stamp {
        var j :| 0 <= j < |layers| && d in layers[j];
        if i < j { assert Newer(layers[i], layers[j]); }
      }
    }
  }

  /** All entries from level `l` down. */
  ghost function From(levels: seq<Level>, l: nat): set<Entry>
    decreases |levels| - l
  {
    if l >= |levels| then {} else LevelSet(levels[l]) + From(levels, l + 1)
  }

  lemma {:induction false} FromMember(levels: seq<Level>, l: nat, e: Entry)
    ensures e in From(levels, l) <==> exists m :: l <= m < |levels| && e in LevelSet(levels[m])
    decreases |levels| - l
  {
    if l < |levels| { FromMember(levels, l + 1, e); }
  }

  ghost function LevelSets(levels: seq<Level>): (r: seq<set<Entry>>)
    ensures |r| == |levels| && forall l | 0 <= l < |r| :: r[l] == LevelSet(levels[l])
  {
    seq(|levels|, l requires 0 <= l < |levels| => LevelSet(levels[l]))
  }

  lemma LevelSetsUnion(levels: seq<Level>)
    ensures UnionOf(VersionSet(levels), LevelSets(levels))
  {
    hide LevelSet;
    forall e ensures e in VersionSet(levels) <==> exists i :: 0 <= i < |levels| && e in LevelSets(levels)[i] {
      UpToMember(levels, |levels|, e);
      if e in VersionSet(levels) {
        var i :| 0 <= i < |levels| && e in LevelSet(levels[i]);
        assert e in LevelSets(levels)[i];
      }
    }
  }

  /** `Version::Get`: level 0 newest table first, then one table per deeper level. */
  method Get(levels: seq<Level>, k: Key, s: nat) returns (r: Option<Entry>)
    requires Searchable(levels)
    ensures LookedUp(LevelSets(levels), k, s, r)
    ensures AgeOrdered(levels) ==> Finds(VersionSet(levels), k, s, r)
  {
    hide LevelSet, Newest, Absent, Newer;
    ghost var layers := LevelSets(levels);
    r := SearchLevelZero(levels[0], k, s);
    var level := 1;
    while r.None? && level < NUM_LEVELS
      invariant 1 <= level <= NUM_LEVELS
      invariant r.None? ==> forall l | 0 <= l < level :: Absent(layers[l], k, s)
      invariant r.Some? ==> HitIn(layers, level - 1, k, s, r.value)
    {
      r := SearchSortedLevel(levels[level], k, s);
      level := level + 1;
    }
    if AgeOrdered(levels) {
      LevelSetsUnion(levels);
      AgeOrderFinds(layers, VersionSet(levels), k, s, r);
    }
  }
}
