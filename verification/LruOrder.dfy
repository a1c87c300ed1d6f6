/** Over every sequence of operations the cache's list is in order of use, so what is evicted was used before
    everything that stays. */
module LruOrder {
  import opened Entries
  import opened LruCache

  /** The operation inserts the entry, or looks it up. */
  ghost predicate Uses(s: Shard, a: Action, id: nat) {
    match a
    case DoLookup(k) => k in s.table && s.table[k] == id
    case DoInsert(_, _) => id == s.nextId
    case DoRelease(_) => false
    case DoErase(_) => false
  }

  /** When the entry was used last before step `n`, counting from one. */
  ghost function LastUse(states: seq<Shard>, actions: seq<Action>, n: nat, id: nat): (r: nat)
    requires n <= |actions| && |states| == |actions| + 1
    ensures r <= n
  {
    if n == 0 then 0
    else if Uses(states[n - 1], actions[n - 1], id) then n
    else LastUse(states, actions, n - 1, id)
  }

  /** From oldest to newest, each entry was used before the next one. */
  ghost predicate InOrder(states: seq<Shard>, actions: seq<Action>, n: nat, lru: seq<nat>)
    requires n <= |actions| && |states| == |actions| + 1
  {
    forall x, y | Earlier(lru, x, y) :: LastUse(states, actions, n, x) < LastUse(states, actions, n, y)
  }

  /** An entry that is not used keeps its place among the others; the one used goes to the end. */
  ghost predicate Reordered(s: Shard, t: Shard, a: Action) {
    && (forall x, y | Earlier(t.lru, x, y) :: !Uses(s, a, x))
    && (forall x, y | Earlier(t.lru, x, y) && !Uses(s, a, y) :: Earlier(s.lru, x, y))
  }

  lemma LookedReorders(s: Shard, k: Key)
    requires Inv(s)
    ensures Reordered(s, Looked(s, k), DoLookup(k))
  {
    hide Total, Counted, Accounted, Without;
    if k in s.table {
      TableNode(s, k);
      var id := s.table[k];
      WithoutDistinct(s.lru, id);
      NewestSame(s.lru, id);
      LastIsLast(Without(s.lru, id), id);
    }
  }

  lemma LastIsLast(ids: seq<nat>, id: nat)
    requires id !in ids
    ensures forall x, y | Earlier(ids + [id], x, y) :: x != id
  {
  }

  lemma ErasedReorders(s: Shard, k: Key)
    requires Inv(s)
    ensures Reordered(s, Erased(s, k), DoErase(k))
  {
    hide Total, Counted, Accounted, Without;
    if k in s.table {
      TableNode(s, k);
      WithoutSame(s.lru, s.table[k]);
      Members(Without(s.lru, s.table[k]));
    }
  }

  lemma Members(ids: seq<nat>)
    ensures forall x, y | Earlier(ids, x, y) :: x in ids && y in ids
  {
  }

  lemma PlacedReorders(s: Shard, k: Key, charge: nat)
    requires Inv(s)
    ensures Reordered(s, Placed(s, k, charge), DoInsert(k, charge))
  {
    hide Inv, Without, Placed, Earlier;
    NewIsUnknown(s);
    PlacedIs(s, k, charge);
    var rest := if k in s.table then Without(s.lru, s.table[k]) else s.lru;
    if k in s.table { WithoutSame(s.lru, s.table[k]); }
    AppendSame(rest, s.nextId);
    LastIsLast(rest, s.nextId);
    Members(rest);
  }

  lemma SuffixEarlier(ids: seq<nat>, n: nat)
    requires n <= |ids|
    ensures forall x, y | Earlier(ids[n..], x, y) :: Earlier(ids, x, y)
  {
    forall x, y | Earlier(ids[n..], x, y) ensures Earlier(ids, x, y) {
      var i, j :| 0 <= i < j < |ids[n..]| && ids[n..][i] == x && ids[n..][j] == y;
      assert ids[n + i] == x && ids[n + j] == y;
    }
  }

  lemma StepReorders(s: Shard, a: Action, capacity: nat)
    requires Enabled(s, a)
    ensures Reordered(s, Step(s, a, capacity), a)
  {
    hide Inv, Placed, Earlier, Evicted, Looked, Erased, Freed;
    match a
    case DoLookup(k) => LookedReorders(s, k);
    case DoInsert(k, charge) =>
      PlacedKeeps(s, k, charge);
      PlacedReorders(s, k, charge);
      var n := EvictedKeeps(Placed(s, k, charge), capacity);
      SuffixEarlier(Placed(s, k, charge).lru, n);
    case DoRelease(id) => HandleStays(s, id);
    case DoErase(k) => ErasedReorders(s, k);
  }

  lemma HandleStays(s: Shard, id: nat)
    requires Inv(s) && id in s.handles
    ensures Released(s, id).lru == s.lru
  {
  }

  /** In every state of every run the list is in order of use. */
  lemma {:induction false} ListInOrderOfUse(states: seq<Shard>, actions: seq<Action>, capacity: nat, n: nat)
    requires IsRun(states, actions, capacity) && n <= |actions|
    ensures InOrder(states, actions, n, states[n].lru)
  {
    hide Inv, Step, Earlier;
    if n == 0 {
      NoneEarlier();
    } else {
      ListInOrderOfUse(states, actions, capacity, n - 1);
      EveryRunIsSafe(states, actions, capacity, n - 1);
      var s, a := states[n - 1], actions[n - 1];
      StepReorders(s, a, capacity);
      forall x, y | Earlier(states[n].lru, x, y)
        ensures LastUse(states, actions, n, x) < LastUse(states, actions, n, y)
      {
      }
    }
  }

  lemma NoneEarlier()
    ensures forall x, y :: !Earlier([], x, y)
  {
  }

  /** Whatever an insertion evicts, it evicts every entry used before it too, and no more than it takes. */
  lemma OldestGoFirst(states: seq<Shard>, actions: seq<Action>, capacity: nat, n: nat, x: nat, y: nat)
    requires IsRun(states, actions, capacity) && n < |actions| && actions[n].DoInsert?
    requires x in states[n].lru && y in states[n].lru
    requires LastUse(states, actions, n, y) < LastUse(states, actions, n, x)
    requires x !in states[n + 1].lru && !(actions[n].k in states[n].table && states[n].table[actions[n].k] == x)
    ensures y !in states[n + 1].lru
  {
    hide Inv, Earlier, Without, Evicted, Freed;
    var s, a := states[n], actions[n];
    EveryRunIsSafe(states, actions, capacity, n);
    ListInOrderOfUse(states, actions, capacity, n);
    PlacedKeeps(s, a.k, a.charge);
    NewIsUnknown(s);
    PlacedIs(s, a.k, a.charge);
    var p := Placed(s, a.k, a.charge);
    var m := EvictedKeeps(p, capacity);
    var rest := if a.k in s.table then Without(s.lru, s.table[a.k]) else s.lru;
    if y in states[n + 1].lru {
      OldIsBefore(p.lru, m, x, y);
      if a.k in s.table { WithoutSame(s.lru, s.table[a.k]); }
      AppendSame(rest, s.nextId);
    }
  }

  lemma OldIsBefore(ids: seq<nat>, m: nat, x: nat, y: nat)
    requires m <= |ids| && x in ids && x !in ids[m..] && y in ids[m..]
    ensures Earlier(ids, x, y)
  {
    forall i | m <= i < |ids| ensures ids[i] in ids[m..] { assert ids[i] == ids[m..][i - m]; }
    var i :| 0 <= i < |ids| && ids[i] == x;
    var j :| 0 <= j < |ids[m..]| && ids[m..][j] == y;
    assert ids[m + j] == y;
  }
}
