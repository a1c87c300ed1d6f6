/** One shard of the cache: table, LRU list and reference counts that must agree. */
module LruCache {
  import opened Wrappers
  import opened Entries
  import opened HandleTable

  datatype Node = Node(key: Key, charge: nat, refs: nat)

  /** The shard as a value.  `nodes` are the entries not yet freed, `lru` the resident ones from
      oldest to newest, `table` the hash table's contents, `handles` what callers hold; `live` and
      `freed` list the entries allocated and not yet freed, and freed, in order. */
  datatype Shard = Shard(nodes: map<nat, Node>, lru: seq<nat>, table: map<Key, nat>, usage: nat,
                         handles: multiset<nat>, live: seq<nat>, freed: seq<nat>, nextId: nat)

  ghost predicate Distinct(ids: seq<nat>) {
    forall i, j | 0 <= i < j < |ids| :: ids[i] != ids[j]
  }

  function Without(ids: seq<nat>, id: nat): (r: seq<nat>)
    ensures forall x :: x in r <==> x in ids && x != id
  {
    if ids == [] then []
    else if ids[0] == id then Without(ids[1..], id)
    else [ids[0]] + Without(ids[1..], id)
  }

  /** `x` stands before `y`. */
  ghost predicate Earlier(ids: seq<nat>, x: nat, y: nat) {
    exists i, j :: 0 <= i < j < |ids| && ids[i] == x && ids[j] == y
  }

  /** The lists differ in `id` at most. */
  ghost predicate SameBut(a: seq<nat>, b: seq<nat>, id: nat) {
    && (forall x | x != id :: x in a <==> x in b)
    && (forall x, y | x != id && y != id :: Earlier(a, x, y) <==> Earlier(b, x, y))
  }

  lemma EarlierFront(h: nat, t: seq<nat>, x: nat, y: nat)
    ensures Earlier([h] + t, x, y) <==> (h == x && y in t) || Earlier(t, x, y)
  {
    var ids := [h] + t;
    if h == x && y in t {
      var j :| 0 <= j < |t| && t[j] == y;
      assert ids[0] == x && ids[j + 1] == y;
    }
    if Earlier(t, x, y) {
      var i, j :| 0 <= i < j < |t| && t[i] == x && t[j] == y;
      assert ids[i + 1] == x && ids[j + 1] == y;
    }
    if Earlier(ids, x, y) {
      var i, j :| 0 <= i < j < |ids| && ids[i] == x && ids[j] == y;
      assert t[j - 1] == y;
      if i > 0 { assert t[i - 1] == x; }
    }
  }

  lemma {:induction false} WithoutSame(ids: seq<nat>, id: nat)
    ensures SameBut(ids, Without(ids, id), id)
  {
    if ids != [] {
      var h, t := ids[0], ids[1..];
      WithoutSame(t, id);
      assert ids == [h] + t;
      forall x, y | x != id && y != id ensures Earlier(ids, x, y) <==> Earlier(Without(ids, id), x, y) {
        hide Earlier;
        EarlierFront(h, t, x, y);
        EarlierFront(h, Without(t, id), x, y);
      }
    }
  }

  lemma AppendSame(ids: seq<nat>, id: nat)
    ensures SameBut(ids, ids + [id], id)
  {
    forall x, y | x != id && y != id ensures Earlier(ids, x, y) <==> Earlier(ids + [id], x, y) {
      if Earlier(ids, x, y) {
        var i, j :| 0 <= i < j < |ids| && ids[i] == x && ids[j] == y;
        assert (ids + [id])[i] == x && (ids + [id])[j] == y;
      }
    }
  }

  /** Moving `id` to the end leaves the others in their order. */
  lemma NewestSame(ids: seq<nat>, id: nat)
    ensures SameBut(ids, Without(ids, id) + [id], id)
  {
    hide Earlier, Without;
    WithoutSame(ids, id);
    AppendSame(Without(ids, id), id);
  }

  function Total(ids: seq<nat>, nodes: map<nat, Node>): nat {
    if ids == [] then 0 else (if ids[0] in nodes then nodes[ids[0]].charge else 0) + Total(ids[1..], nodes)
  }

  function Resident(s: Shard, id: nat): nat {
    if id in s.lru then 1 else 0
  }

  // ----- Invariant -----

  /** List and table hold the same entries. */
  ghost predicate Agree(s: Shard) {
    && Distinct(s.lru)
    && (forall id | id in s.lru :: id in s.nodes && s.nodes[id].key in s.table && s.table[s.nodes[id].key] == id)
    && (forall k | k in s.table :: s.table[k] in s.lru && s.nodes[s.table[k]].key == k)
  }

  /** References are residency plus outstanding handles, and never zero. */
  ghost predicate Counted(s: Shard) {
    && (forall id | id in s.nodes :: s.nodes[id].refs == Resident(s, id) + s.handles[id] > 0)
    && (forall id | id in s.handles :: id in s.nodes)
  }

  /** What is charged is what has not been freed; nothing is freed twice or while it is known. */
  ghost predicate Accounted(s: Shard) {
    && Distinct(s.live) && Distinct(s.freed)
    && (forall id :: id in s.live <==> id in s.nodes)
    && (forall id | id in s.freed :: id !in s.nodes)
    && s.usage == Total(s.live, s.nodes)
    && (forall id | id in s.nodes :: id < s.nextId)
    && (forall id | id in s.freed :: id < s.nextId)
  }

  ghost predicate Inv(s: Shard) {
    Agree(s) && Counted(s) && Accounted(s)
  }

  // ----- Operations -----

  /** `Unref`: one reference less; the last one frees the entry. */
  function Unref(s: Shard, id: nat): Shard
    requires id in s.nodes && s.nodes[id].refs > 0
  {
    var e := s.nodes[id];
    if e.refs > 1 then s.(nodes := s.nodes[id := e.(refs := e.refs - 1)])
    else s.(nodes := s.nodes - {id}, usage := if s.usage >= e.charge then s.usage - e.charge else 0,
            live := Without(s.live, id), freed := s.freed + [id])
  }

  function Touch(s: Shard, id: nat): Shard
    requires id in s.nodes
  {
    var e := s.nodes[id];
    s.(nodes := s.nodes[id := e.(refs := e.refs + 1)], lru := Without(s.lru, id) + [id],
       handles := s.handles + multiset{id})
  }

  /** `LRU_Remove` and `Unref` for an entry that has left the table. */
  function Drop(s: Shard, id: nat): Shard
    requires id in s.nodes && s.nodes[id].refs > 0
  {
    Unref(s.(lru := Without(s.lru, id)), id)
  }

  /** `Lookup` hands out another reference and makes the entry the newest. */
  ghost function Looked(s: Shard, k: Key): Shard
    requires Inv(s)
  {
    if k in s.table then Touch(s, s.table[k]) else s
  }

  ghost function Released(s: Shard, id: nat): Shard
    requires Inv(s) && id in s.handles
  {
    Unref(s.(handles := s.handles - multiset{id}), id)
  }

  ghost function Erased(s: Shard, k: Key): Shard
    requires Inv(s)
  {
    if k in s.table then Drop(s.(table := s.table - {k}), s.table[k]) else s
  }

  /** A new entry with two references, one for the cache and one for the caller. */
  function Added(s: Shard, k: Key, charge: nat): Shard {
    s.(nodes := s.nodes[s.nextId := Node(k, charge, 2)], lru := s.lru + [s.nextId],
       usage := s.usage + charge, handles := s.handles + multiset{s.nextId},
       live := s.live + [s.nextId], nextId := s.nextId + 1)
  }

  // ----- The invariant is kept -----

  lemma {:induction false} TotalSame(ids: seq<nat>, a: map<nat, Node>, b: map<nat, Node>)
    requires forall id | id in ids :: (id in a <==> id in b) && (id in a ==> a[id].charge == b[id].charge)
    ensures Total(ids, a) == Total(ids, b)
  {
    if ids != [] { TotalSame(ids[1..], a, b); }
  }

  lemma {:induction false} TotalMore(ids: seq<nat>, id: nat, nodes: map<nat, Node>)
    ensures Total(ids + [id], nodes) == Total(ids, nodes) + if id in nodes then nodes[id].charge else 0
  {
    if ids == [] {
      assert ids + [id] == [id];
      assert [id][1..] == [];
    } else {
      TotalMore(ids[1..], id, nodes);
      assert (ids + [id])[1..] == ids[1..] + [id];
    }
  }

  lemma {:induction false} WithoutDistinct(ids: seq<nat>, id: nat)
    requires Distinct(ids)
    ensures Distinct(Without(ids, id))
  {
    if ids != [] {
      WithoutDistinct(ids[1..], id);
      forall i | 0 < i < |ids| ensures ids[i] != ids[0] {}
      if ids[0] != id {
        var r, w := Without(ids[1..], id), Without(ids, id);
        assert w == [ids[0]] + r;
        forall i, j | 0 <= i < j < |w| ensures w[i] != w[j] {
          assert r[j - 1] in r;
          if i > 0 { assert w[i] == r[i - 1]; }
        }
      }
    }
  }

  lemma {:induction false} TotalWithout(ids: seq<nat>, id: nat, nodes: map<nat, Node>)
    requires Distinct(ids) && id in ids && id in nodes
    ensures Total(ids, nodes) == Total(Without(ids, id), nodes - {id}) + nodes[id].charge
  {
    var rest := ids[1..];
    if ids[0] == id {
      assert id !in rest;
      Absent(rest, id);
      TotalSame(rest, nodes, nodes - {id});
    } else {
      TotalWithout(rest, id, nodes);
      var w := Without(ids, id);
      assert w[0] == ids[0] && w[1..] == Without(rest, id);
    }
  }

  lemma {:induction false} Absent(ids: seq<nat>, id: nat)
    requires id !in ids
    ensures Without(ids, id) == ids
  {
    if ids != [] { Absent(ids[1..], id); }
  }

  /** Dropping one reference keeps the accounts, whoever held it. */
  lemma UnrefAccounted(s: Shard, id: nat)
    requires Accounted(s) && id in s.nodes && s.nodes[id].refs > 0
    ensures Accounted(Unref(s, id))
  {
    hide Without, Total;
    var s' := Unref(s, id);
    if s.nodes[id].refs > 1 {
      TotalSame(s.live, s.nodes, s'.nodes);
    } else {
      TotalWithout(s.live, id, s.nodes);
      WithoutDistinct(s.live, id);
    }
  }

  lemma LookedKeeps(s: Shard, k: Key)
    requires Inv(s)
    ensures Inv(Looked(s, k))
  {
    hide Without, Total, Agree, Counted, Accounted;
    if k in s.table {
      TableNode(s, k);
      TouchAgrees(s, s.table[k]);
      TouchCounted(s, s.table[k]);
      TouchAccounted(s, s.table[k]);
    }
  }

  lemma TableNode(s: Shard, k: Key)
    requires Agree(s) && k in s.table
    ensures s.table[k] in s.lru && s.table[k] in s.nodes && s.nodes[s.table[k]].key == k
  {
  }

  lemma TouchAgrees(s: Shard, id: nat)
    requires Agree(s) && id in s.lru && id in s.nodes
    ensures Agree(Touch(s, id))
  {
    hide Without;
    WithoutDistinct(s.lru, id);
    var s' := Touch(s, id);
    assert forall x :: x in s'.lru <==> x in s.lru;
  }

  lemma TouchCounted(s: Shard, id: nat)
    requires Counted(s) && id in s.lru && id in s.nodes
    ensures Counted(Touch(s, id))
  {
    hide Without;
    var s' := Touch(s, id);
    assert forall x :: x in s'.lru <==> x in s.lru;
  }

  lemma TouchAccounted(s: Shard, id: nat)
    requires Accounted(s) && id in s.nodes
    ensures Accounted(Touch(s, id))
  {
    hide Without, Total;
    TotalSame(s.live, s.nodes, Touch(s, id).nodes);
  }

  lemma ReleasedKeeps(s: Shard, id: nat)
    requires Inv(s) && id in s.handles
    ensures Inv(Released(s, id))
  {
    hide Without, Total, Agree, Counted, Accounted;
    var t := s.(handles := s.handles - multiset{id});
    HandleNode(s, id);
    SameAccounts(s, t);
    UnrefAccounted(t, id);
    UnrefAgrees(s, t, id);
    ReleaseCounted(s, id);
  }

  lemma HandleNode(s: Shard, id: nat)
    requires Counted(s) && id in s.handles
    ensures id in s.nodes && s.nodes[id].refs > 0
    ensures id in s.lru ==> s.nodes[id].refs > 1
  {
  }

  lemma SameAccounts(s: Shard, t: Shard)
    requires Accounted(s) && t.nodes == s.nodes && t.live == s.live && t.freed == s.freed && t.usage == s.usage
    requires t.nextId == s.nextId
    ensures Accounted(t)
  {
  }

  /** An entry that keeps a reference stays, one that does not is in neither list nor table. */
  lemma UnrefAgrees(s: Shard, t: Shard, id: nat)
    requires Agree(s) && t.lru == s.lru && t.table == s.table && t.nodes == s.nodes
    requires id in s.nodes && s.nodes[id].refs > 0 && (id in s.lru ==> s.nodes[id].refs > 1)
    ensures Agree(Unref(t, id))
  {
    hide Without;
  }

  lemma ReleaseCounted(s: Shard, id: nat)
    requires Counted(s) && id in s.handles && id in s.nodes && s.nodes[id].refs > 0
    ensures Counted(Unref(s.(handles := s.handles - multiset{id}), id))
  {
    hide Without;
    var s' := Unref(s.(handles := s.handles - multiset{id}), id);
    forall x | x in s'.handles ensures x in s'.nodes {
      assert x in s.handles;
    }
  }

  /** Taking an entry out of list and table and dropping the cache's reference. */
  lemma DropKeeps(s: Shard, id: nat)
    requires Inv(s) && id in s.lru
    ensures id in s.nodes && s.nodes[id].refs > 0
    ensures Inv(Drop(s.(table := s.table - {s.nodes[id].key}), id))
  {
    hide Without, Total, Agree, Counted, Accounted;
    ListNode(s, id);
    var t := s.(table := s.table - {s.nodes[id].key}, lru := Without(s.lru, id));
    SameAccounts(s, t);
    UnrefAccounted(t, id);
    DropAgrees(s, id);
    DropCounted(s, t, id);
  }

  lemma ListNode(s: Shard, id: nat)
    requires Agree(s) && Counted(s) && id in s.lru
    ensures id in s.nodes && s.nodes[id].refs > 0 && s.nodes[id].key in s.table && s.table[s.nodes[id].key] == id
  {
  }

  lemma DropAgrees(s: Shard, id: nat)
    requires Agree(s) && id in s.lru && id in s.nodes && s.nodes[id].refs > 0
    ensures Agree(Drop(s.(table := s.table - {s.nodes[id].key}), id))
  {
    hide Without;
    WithoutDistinct(s.lru, id);
  }

  lemma DropCounted(s: Shard, t: Shard, id: nat)
    requires Counted(s) && id in s.lru && id in s.nodes && s.nodes[id].refs > 0
    requires t.nodes == s.nodes && t.lru == Without(s.lru, id) && t.handles == s.handles
    ensures Counted(Unref(t, id))
  {
    hide Without;
  }

  lemma ErasedKeeps(s: Shard, k: Key)
    requires Inv(s)
    ensures Inv(Erased(s, k))
  {
    hide Without, Total, Counted, Accounted;
    if k in s.table {
      TableNode(s, k);
      DropKeeps(s, s.table[k]);
    }
  }

  // ----- Insert -----

  /** Oldest first, until the shard is within its capacity or the list is empty. */
  ghost function Evicted(s: Shard, capacity: nat): Shard
    requires Inv(s)
    decreases |s.lru|
  {
    if s.usage <= capacity || s.lru == [] then s
    else
      DropKeeps(s, s.lru[0]);
      FrontDropped(s);
      Evicted(DropOldest(s), capacity)
  }

  ghost function DropOldest(s: Shard): Shard
    requires Inv(s) && s.lru != []
  {
    DropKeeps(s, s.lru[0]);
    Drop(s.(table := s.table - {s.nodes[s.lru[0]].key}), s.lru[0])
  }

  lemma FrontDropped(s: Shard)
    requires Inv(s) && s.lru != []
    ensures DropOldest(s).lru == s.lru[1..]
  {
    hide Total, Counted, Accounted;
    DropKeeps(s, s.lru[0]);
    assert s.lru[0] !in s.lru[1..];
    Absent(s.lru[1..], s.lru[0]);
  }

  /** What the oldest `n` entries free when they go: the charges of those nobody holds. */
  ghost function Freed(s: Shard, n: nat): nat
    requires n <= |s.lru|
  {
    if n == 0 then 0
    else
      var id := s.lru[n - 1];
      Freed(s, n - 1) + if id in s.nodes && s.handles[id] == 0 then s.nodes[id].charge else 0
  }

  /** `t` is `s` without its `n` oldest entries, and no fewer would have been enough. */
  ghost predicate Evicts(s: Shard, t: Shard, capacity: nat, n: nat) {
    && n <= |s.lru| && t.lru == s.lru[n..] && t.handles == s.handles && t.usage + Freed(s, n) == s.usage
    && (t.usage <= capacity || n == |s.lru|)
    && forall m | 0 <= m < n :: s.usage - Freed(s, m) > capacity
  }

  /** The oldest entries go, no more than it takes to be within capacity, and callers keep their handles. */
  lemma {:induction false} EvictedKeeps(s: Shard, capacity: nat) returns (n: nat)
    requires Inv(s)
    ensures Inv(Evicted(s, capacity)) && Evicts(s, Evicted(s, capacity), capacity, n)
    decreases |s.lru|
  {
    hide Inv, DropOldest;
    if s.usage <= capacity || s.lru == [] {
      assert s.lru == s.lru[0..];
      n := 0;
    } else {
      var t := DropOldest(s);
      OldestDropped(s);
      n := EvictedKeeps(t, capacity);
      forall m | 0 <= m <= n ensures Freed(s, m + 1) == Freed(s, 1) + Freed(t, m) { FreedLater(s, t, m); }
      assert t.lru[n..] == s.lru[n + 1..];
      forall m | 0 <= m < n + 1 ensures s.usage - Freed(s, m) > capacity {
        if m > 0 { assert Freed(s, m) == Freed(s, 1) + Freed(t, m - 1); }
      }
      n := n + 1;
    }
  }

  lemma OldestDropped(s: Shard)
    requires Inv(s) && s.lru != []
    ensures var t := DropOldest(s);
            && Inv(t) && t.lru == s.lru[1..] && t.handles == s.handles && t.usage + Freed(s, 1) == s.usage
            && s.lru[0] !in t.lru
            && forall id | id != s.lru[0] ::
                 (id in t.nodes <==> id in s.nodes) && (id in s.nodes ==> t.nodes[id] == s.nodes[id])
  {
    hide Total, Without, Accounted;
    DropKeeps(s, s.lru[0]);
    FrontDropped(s);
    OldestNode(s);
    assert Freed(s, 1) == Freed(s, 0) + if s.handles[s.lru[0]] == 0 then s.nodes[s.lru[0]].charge else 0;
  }

  lemma {:induction false} FreedLater(s: Shard, t: Shard, m: nat)
    requires s.lru != [] && t.lru == s.lru[1..] && t.handles == s.handles && s.lru[0] !in t.lru && m <= |t.lru|
    requires forall id | id != s.lru[0] ::
               (id in t.nodes <==> id in s.nodes) && (id in s.nodes ==> t.nodes[id] == s.nodes[id])
    ensures Freed(s, m + 1) == Freed(s, 1) + Freed(t, m)
  {
    if m > 0 {
      FreedLater(s, t, m - 1);
      assert t.lru[m - 1] == s.lru[m] && t.lru[m - 1] in t.lru;
    }
  }

  /** A new entry in list and table. */
  ghost function Entered(s: Shard, k: Key, charge: nat): Shard {
    var t := Added(s, k, charge);
    t.(table := t.table[k := s.nextId])
  }

  lemma EnteredKeeps(s: Shard, k: Key, charge: nat)
    requires Inv(s) && k !in s.table
    ensures Inv(Entered(s, k, charge))
  {
    hide Total;
    NewIsUnknown(s);
    EnteredCounted(s, k, charge);
    EnteredAccounted(s, k, charge);
  }

  lemma NewIsUnknown(s: Shard)
    requires Inv(s)
    ensures s.nextId !in s.nodes && s.nextId !in s.lru && s.handles[s.nextId] == 0 && s.nextId !in s.live
    ensures s.nextId !in s.freed
  {
    hide Total, Distinct;
    assert s.nextId in s.handles ==> s.nextId in s.nodes;
  }

  lemma EnteredCounted(s: Shard, k: Key, charge: nat)
    requires Counted(s) && s.nextId !in s.nodes && s.nextId !in s.lru && s.handles[s.nextId] == 0
    ensures Counted(Entered(s, k, charge))
  {
    var s' := Entered(s, k, charge);
    forall x | x in s'.handles ensures x in s'.nodes {
      if x != s.nextId { assert x in s.handles; }
    }
  }

  lemma EnteredAccounted(s: Shard, k: Key, charge: nat)
    requires Accounted(s) && s.nextId !in s.nodes && s.nextId !in s.live && s.nextId !in s.freed
    ensures Accounted(Entered(s, k, charge))
  {
    hide Total;
    var s' := Entered(s, k, charge);
    TotalMore(s.live, s.nextId, s'.nodes);
    TotalSame(s.live, s.nodes, s'.nodes);
  }

  /** `Insert` before eviction: the new entry is in, and an old one with its key is out. */
  ghost function Placed(s: Shard, k: Key, charge: nat): Shard
    requires Inv(s)
  {
    var u := Entered(s, k, charge);
    if k in s.table && s.table[k] in u.nodes && u.nodes[s.table[k]].refs > 0 then Drop(u, s.table[k]) else u
  }

  lemma {:induction false} WithoutMore(ids: seq<nat>, id: nat, x: nat)
    requires x != id
    ensures Without(ids + [x], id) == Without(ids, id) + [x]
  {
    if ids == [] {
      assert ids + [x] == [x] && [x][1..] == [];
    } else {
      WithoutMore(ids[1..], id, x);
      assert (ids + [x])[1..] == ids[1..] + [x];
    }
  }

  lemma EnoughUsage(s: Shard, id: nat)
    requires Accounted(s) && id in s.nodes
    ensures s.nodes[id].charge <= s.usage
  {
    hide Total, Without;
    TotalWithout(s.live, id, s.nodes);
  }

  /** Replacing an entry comes to the same as erasing the old one first. */
  lemma PlacedKeeps(s: Shard, k: Key, charge: nat)
    requires Inv(s)
    ensures Placed(s, k, charge) == Entered(Erased(s, k), k, charge) && Inv(Placed(s, k, charge))
    ensures k in s.table ==>
              && s.table[k] in Entered(s, k, charge).nodes && Entered(s, k, charge).nodes[s.table[k]].refs > 0
  {
    hide Without, Total, Distinct;
    ErasedKeeps(s, k);
    NewIsUnknown(s);
    if k in s.table {
      TableNode(s, k);
      var id := s.table[k];
      EnoughUsage(s, id);
      WithoutMore(s.lru, id, s.nextId);
      WithoutMore(s.live, id, s.nextId);
      SwapOrder(s, k, charge);
    }
    EnteredKeeps(Erased(s, k), k, charge);
  }

  lemma SwapOrder(s: Shard, k: Key, charge: nat)
    requires Inv(s) && k in s.table && s.table[k] in s.nodes && s.nodes[s.table[k]].refs > 0
    requires s.nodes[s.table[k]].charge <= s.usage && s.table[k] != s.nextId
    requires Without(s.lru + [s.nextId], s.table[k]) == Without(s.lru, s.table[k]) + [s.nextId]
    requires Without(s.live + [s.nextId], s.table[k]) == Without(s.live, s.table[k]) + [s.nextId]
    ensures Drop(Entered(s, k, charge), s.table[k]) == Entered(Erased(s, k), k, charge)
  {
    hide Without, Inv;
    var id, e := s.table[k], s.nodes[s.table[k]];
    assert (s.table - {k})[k := s.nextId] == s.table[k := s.nextId];
    var n := Node(k, charge, 2);
    if e.refs > 1 {
      var e' := e.(refs := e.refs - 1);
      assert s.nodes[id := e'][s.nextId := n] == s.nodes[s.nextId := n][id := e'];
    } else {
      assert (s.nodes - {id})[s.nextId := n] == s.nodes[s.nextId := n] - {id};
    }
  }

  // ----- The cache -----

  class LRUCache {
    const capacity: nat
    const table: HandleTable
    var nodes: map<nat, Node>
    var lru: seq<nat>
    var usage: nat
    var nextId: nat
    ghost var handles: multiset<nat>
    ghost var live: seq<nat>
    ghost var freed: seq<nat>

    ghost function View(): Shard
      reads this, table
    {
      Shard(nodes, lru, table.m, usage, handles, live, freed, nextId)
    }

    ghost predicate Valid()
      reads this, table
    {
      table.Valid() && Inv(View())
    }

    constructor (capacity: nat, hash: Hash)
      ensures Valid() && fresh(table) && this.capacity == capacity
      ensures View() == Shard(map[], [], map[], 0, multiset{}, [], [], 0)
    {
      this.capacity := capacity;
      table := new HandleTable(hash);
      nodes, lru, usage, nextId, handles, live, freed := map[], [], 0, 0, multiset{}, [], [];
    }

    /** `Unref`. */
    method UnrefNode(id: nat)
      requires id in nodes && nodes[id].refs > 0 && usage >= nodes[id].charge
      modifies this
      ensures View() == Unref(old(View()), id)
    {
      var e := nodes[id];
      nodes := nodes[id := e.(refs := e.refs - 1)];
      if e.refs == 1 {
        usage := usage - e.charge;
        nodes := nodes - {id};
        assert nodes == old(nodes) - {id};
        live, freed := Without(live, id), freed + [id];
      }
    }

    method Lookup(k: Key) returns (r: Option<nat>)
      requires Valid()
      modifies this
      ensures Valid() && View() == Looked(old(View()), k)
      ensures r == if k in table.m then Some(table.m[k]) else None
      ensures r.Some? ==> lru != [] && lru[|lru| - 1] == r.value && SameBut(old(lru), lru, r.value)
      ensures r.Some? ==> handles == old(handles) + multiset{r.value}
    {
      hide Inv, Without, SameBut;
      LookedKeeps(View(), k);
      r := table.Lookup(k);
      if r.Some? {
        var id := r.value;
        FoundNode(View(), k);
        var e := nodes[id];
        nodes := nodes[id := e.(refs := e.refs + 1)];
        NewestSame(lru, id);
        lru := Without(lru, id) + [id];
        handles := handles + multiset{id};
      }
    }

    method Release(id: nat)
      requires Valid() && id in handles
      modifies this
      ensures Valid() && View() == Released(old(View()), id)
      ensures handles == old(handles) - multiset{id} && lru == old(lru) && table.m == old(table.m)
    {
      hide Inv, Without;
      ReleasedKeeps(View(), id);
      HeldNode(View(), id);
      handles := handles - multiset{id};
      UnrefNode(id);
    }

    method Erase(k: Key)
      requires Valid()
      modifies this, table
      ensures Valid() && View() == Erased(old(View()), k)
      ensures table.m == old(table.m) - {k} && handles == old(handles)
      ensures lru == if k in old(table.m) then Without(old(lru), old(table.m)[k]) else old(lru)
    {
      hide Inv, Without;
      ErasedKeeps(View(), k);
      ghost var s := View();
      if k in table.m { FoundNode(s, k); }
      var r := table.Remove(k);
      if r.Some? {
        lru := Without(lru, r.value);
        UnrefNode(r.value);
      } else {
        assert old(table.m) - {k} == old(table.m);
      }
    }

    /** The new entry goes into list and table. */
    method Enter(k: Key, charge: nat) returns (id: nat, old': Option<nat>)
      requires table.Valid()
      modifies this, table
      ensures table.Valid() && View() == Entered(old(View()), k, charge) && id == old(nextId)
      ensures old' == if k in old(table.m) then Some(old(table.m)[k]) else None
    {
      id := nextId;
      nodes := nodes[id := Node(k, charge, 2)];
      lru := lru + [id];
      usage, nextId := usage + charge, nextId + 1;
      handles, live := handles + multiset{id}, live + [id];
      old' := table.Insert(Ref(id, k));
    }

    /** The part of `Insert` before eviction. */
    method Place(k: Key, charge: nat) returns (id: nat)
      requires Valid()
      modifies this, table
      ensures Valid() && View() == Placed(old(View()), k, charge) && id == old(nextId)
    {
      hide Inv, Without, Entered, Unref;
      ghost var s := View();
      PlacedKeeps(s, k, charge);
      if k in table.m { EnteredOld(s, k, charge); }
      var old';
      id, old' := Enter(k, charge);
      if old'.Some? {
        lru := Without(lru, old'.value);
        UnrefNode(old'.value);
      }
    }

    /** One turn of the eviction loop. */
    method EvictOldest()
      requires Valid() && lru != []
      modifies this, table
      ensures Valid() && View() == DropOldest(old(View())) && lru == old(lru)[1..]
    {
      hide Inv, Without;
      ghost var s := View();
      DropKeeps(s, lru[0]);
      FrontDropped(s);
      OldestNode(s);
      var id := lru[0];
      var k := nodes[id].key;
      lru := Without(lru, id);
      var r := table.Remove(k);
      UnrefNode(id);
    }

    method Insert(k: Key, charge: nat) returns (id: nat)
      requires Valid()
      modifies this, table
      ensures Valid() && id == old(nextId)
      ensures Inv(Placed(old(View()), k, charge)) && View() == Evicted(Placed(old(View()), k, charge), capacity)
      ensures handles == old(handles) + multiset{id} && (k in table.m ==> table.m[k] == id)
      ensures id in nodes && nodes[id].key == k && nodes[id].charge == charge
      ensures usage <= capacity || lru == []
    {
      hide Inv, Without, Placed, DropOldest, Evicts;
      PlacedKeeps(View(), k, charge);
      PlacedEntry(View(), k, charge, capacity);
      id := Place(k, charge);
      ghost var t := View();
      while usage > capacity && lru != []
        invariant Valid() && Evicted(View(), capacity) == Evicted(t, capacity)
        decreases |lru|
      {
        EvictOldest();
      }
    }
  }

  /** Eviction takes entries out of the table, but never away from those who hold them. */
  lemma {:induction false} EvictedEntry(s: Shard, capacity: nat, id: nat)
    requires Inv(s) && id in s.handles
    ensures var t := Evicted(s, capacity);
            && id in s.nodes && id in t.nodes
            && t.nodes[id].key == s.nodes[id].key && t.nodes[id].charge == s.nodes[id].charge
            && forall k | k in t.table :: k in s.table && t.table[k] == s.table[k]
    decreases |s.lru|
  {
    hide Inv, DropOldest;
    HeldNode(s, id);
    if s.usage > capacity && s.lru != [] {
      OldestDropped(s);
      OldestEntry(s, id);
      EvictedEntry(DropOldest(s), capacity, id);
    }
  }

  lemma OldestEntry(s: Shard, id: nat)
    requires Inv(s) && s.lru != [] && id in s.handles
    ensures var t := DropOldest(s);
            && id in s.nodes && id in t.nodes
            && t.nodes[id].key == s.nodes[id].key && t.nodes[id].charge == s.nodes[id].charge
            && forall k | k in t.table :: k in s.table && t.table[k] == s.table[k]
  {
    hide Total, Without, Accounted, Distinct;
    DropKeeps(s, s.lru[0]);
  }

  lemma PlacedEntry(s: Shard, k: Key, charge: nat, capacity: nat)
    requires Inv(s) && Inv(Placed(s, k, charge))
    ensures var p := Placed(s, k, charge);
            var t := Evicted(p, capacity);
            && t.handles == s.handles + multiset{s.nextId} && (k in t.table ==> t.table[k] == s.nextId)
            && s.nextId in t.nodes && t.nodes[s.nextId].key == k && t.nodes[s.nextId].charge == charge
            && (t.usage <= capacity || t.lru == [])
  {
    hide Inv, Without, Evicted, Freed;
    var p := Placed(s, k, charge);
    NewIsUnknown(s);
    PlacedIs(s, k, charge);
    var n := EvictedKeeps(p, capacity);
    EvictedEntry(p, capacity, s.nextId);
  }

  lemma PlacedIs(s: Shard, k: Key, charge: nat)
    requires Inv(s) && s.nextId !in s.nodes
    ensures var p := Placed(s, k, charge);
            && p.handles == s.handles + multiset{s.nextId} && k in p.table && p.table[k] == s.nextId
            && s.nextId in p.nodes && p.nodes[s.nextId] == Node(k, charge, 2)
            && p.lru == (if k in s.table then Without(s.lru, s.table[k]) else s.lru) + [s.nextId]
  {
    hide Total, Without, Accounted, Distinct;
    if k in s.table {
      TableNode(s, k);
      EnteredOld(s, k, charge);
      WithoutMore(s.lru, s.table[k], s.nextId);
    }
  }

  lemma EnteredOld(s: Shard, k: Key, charge: nat)
    requires Inv(s) && k in s.table
    ensures var id, t := s.table[k], Entered(s, k, charge);
            id in t.nodes && t.nodes[id].refs > 0 && t.usage >= t.nodes[id].charge
  {
    hide Total, Without;
    NewIsUnknown(s);
    EnoughUsage(s, s.table[k]);
  }

  lemma OldestNode(s: Shard)
    requires Inv(s) && s.lru != []
    ensures var id := s.lru[0];
            id in s.nodes && s.nodes[id].refs > 0 && s.usage >= s.nodes[id].charge && s.nodes[id].key in s.table
  {
    hide Without, Total;
    EnoughUsage(s, s.lru[0]);
  }

  // ----- All sequences of operations -----

  datatype Action = DoLookup(k: Key) | DoInsert(k: Key, charge: nat) | DoRelease(id: nat) | DoErase(k: Key)

  /** A caller releases only what it holds. */
  predicate Allowed(s: Shard, a: Action) {
    a.DoRelease? ==> a.id in s.handles
  }

  ghost predicate Enabled(s: Shard, a: Action) {
    Inv(s) && Allowed(s, a)
  }

  ghost function Step(s: Shard, a: Action, capacity: nat): Shard
    requires Enabled(s, a)
  {
    match a
    case DoLookup(k) => Looked(s, k)
    case DoInsert(k, charge) => PlacedKeeps(s, k, charge); Evicted(Placed(s, k, charge), capacity)
    case DoRelease(id) => Released(s, id)
    case DoErase(k) => Erased(s, k)
  }

  ghost predicate IsRun(states: seq<Shard>, actions: seq<Action>, capacity: nat) {
    && |states| == |actions| + 1 && states[0] == Shard(map[], [], map[], 0, multiset{}, [], [], 0)
    && forall i | 0 <= i < |actions| ::
         Allowed(states[i], actions[i]) && (Inv(states[i]) ==> states[i + 1] == Step(states[i], actions[i], capacity))
  }

  lemma StepKeeps(s: Shard, a: Action, capacity: nat)
    requires Enabled(s, a)
    ensures Inv(Step(s, a, capacity))
  {
    hide Inv, Placed;
    match a
    case DoLookup(k) => LookedKeeps(s, k);
    case DoInsert(k, charge) =>
      PlacedKeeps(s, k, charge);
      var n := EvictedKeeps(Placed(s, k, charge), capacity);
    case DoRelease(id) => ReleasedKeeps(s, id);
    case DoErase(k) => ErasedKeeps(s, k);
  }

  /** Entries a caller holds are never freed, and nothing is freed twice, over any sequence of
      lookups, insertions, releases and erasures. */
  lemma {:induction false} EveryRunIsSafe(states: seq<Shard>, actions: seq<Action>, capacity: nat, i: nat)
    requires IsRun(states, actions, capacity) && i < |states|
    ensures Inv(states[i])
    ensures forall id | id in states[i].handles :: id in states[i].nodes && id !in states[i].freed
  {
    hide Step, Agree;
    if i == 0 {
      EmptyInv();
    } else {
      EveryRunIsSafe(states, actions, capacity, i - 1);
      StepKeeps(states[i - 1], actions[i - 1], capacity);
    }
  }

  lemma EmptyInv()
    ensures Inv(Shard(map[], [], map[], 0, multiset{}, [], [], 0))
  {
  }

  lemma FoundNode(s: Shard, k: Key)
    requires Inv(s) && k in s.table
    ensures var id := s.table[k];
            && id in s.lru && id in s.nodes && s.nodes[id].key == k && s.nodes[id].refs > 0
            && s.usage >= s.nodes[id].charge
  {
    hide Without, Total;
    EnoughUsage(s, s.table[k]);
  }

  lemma HeldNode(s: Shard, id: nat)
    requires Inv(s) && id in s.handles
    ensures id in s.nodes && s.nodes[id].refs > 0 && s.usage >= s.nodes[id].charge
  {
    hide Without, Total;
    EnoughUsage(s, id);
  }
}
