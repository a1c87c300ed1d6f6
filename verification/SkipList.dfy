/** The memtable's skip list with one writer and any number of readers.  Every load and every
    store is a step of its own; steps of the writer and of the readers interleave freely. */
module SkipList {
  import opened Wrappers
  import opened Entries

  const MAX_HEIGHT := 12

  /** The head node; other nodes have positive numbers. */
  const HEAD: nat := 0

  /** The writer between inserts, or while linking node `x` of the given height: levels below
      `i` are linked, `stored` says whether `x` already points onwards at level `i`. */
  datatype Writer = Idle | Linking(x: nat, height: nat, i: nat, stored: bool, prev: seq<nat>)

  /** A search for the nodes around `target` (`None` is beyond every key): still looking from node
      `x` at `level`, or finished between `x` and `next`. */
  datatype Reader = Looking(target: Option<Key>, x: nat, level: nat)
                  | Found(target: Option<Key>, x: nat, next: Option<nat>)

  /** `next` holds the links that have been written; `lists` records, level by level, the nodes
      reachable from the head. */
  datatype State = State(keys: map<nat, Key>, next: map<(nat, nat), Option<nat>>, lists: seq<seq<nat>>,
                         maxHeight: nat, writer: Writer, readers: map<nat, Reader>)

  // ----- One level -----

  /** The node at position `j`: the head comes first. */
  function NodeAt(list: seq<nat>, j: nat): nat
    requires j <= |list|
  {
    if j == 0 then HEAD else list[j - 1]
  }

  function LinkAfter(list: seq<nat>, j: nat): Option<nat> {
    if j < |list| then Some(list[j]) else None
  }

  ghost predicate Known(keys: map<nat, Key>, list: seq<nat>) {
    forall j | 0 <= j < |list| :: list[j] in keys && list[j] != HEAD
  }

  ghost predicate Ascending(keys: map<nat, Key>, list: seq<nat>)
    requires Known(keys, list)
  {
    forall i, j | 0 <= i < j < |list| :: keys[list[i]] < keys[list[j]]
  }

  predicate Less(k: Key, target: Option<Key>) {
    target.None? || k < target.value
  }

  /** Position of the last node before `target`. */
  ghost predicate Splits(keys: map<nat, Key>, list: seq<nat>, target: Option<Key>, p: nat)
    requires Known(keys, list)
  {
    && p <= |list|
    && (forall j | 0 <= j < p :: Less(keys[list[j]], target))
    && (forall j | p <= j < |list| :: !Less(keys[list[j]], target))
  }

  /** Where a node of key `k` belongs in a level. */
  function Place(keys: map<nat, Key>, list: seq<nat>, k: Key): (p: nat)
    requires Known(keys, list)
    ensures p <= |list| && (forall j | 0 <= j < p :: keys[list[j]] < k) && (p < |list| ==> keys[list[p]] >= k)
  {
    if list == [] || keys[list[0]] >= k then 0 else 1 + Place(keys, list[1..], k)
  }

  /** The links of level `l` spell out `list`. */
  ghost predicate Linked(next: map<(nat, nat), Option<nat>>, list: seq<nat>, l: nat) {
    forall j | 0 <= j <= |list| :: (NodeAt(list, j), l) in next && next[(NodeAt(list, j), l)] == LinkAfter(list, j)
  }

  // ----- Invariant -----

  ghost predicate Sorted(keys: map<nat, Key>, lists: seq<seq<nat>>) {
    && |lists| == MAX_HEIGHT && HEAD !in keys
    && (forall l | 0 <= l < MAX_HEIGHT :: Known(keys, lists[l]) && Ascending(keys, lists[l]))
  }

  /** Every level is a sublist of the one below. */
  ghost predicate Nested(lists: seq<seq<nat>>) {
    forall l, m, n | 0 <= m <= l < |lists| && n in lists[l] :: n in lists[m]
  }

  ghost predicate AllLinked(next: map<(nat, nat), Option<nat>>, lists: seq<seq<nat>>) {
    forall l | 0 <= l < |lists| :: Linked(next, lists[l], l)
  }

  ghost predicate WriterOk(s: State)
    requires Sorted(s.keys, s.lists)
  {
    match s.writer
    case Idle => true
    case Linking(x, height, i, stored, prev) =>
      && x in s.keys && x != HEAD && i < height <= s.maxHeight <= MAX_HEIGHT && |prev| == MAX_HEIGHT
      && (forall l | 0 <= l < MAX_HEIGHT :: x in s.lists[l] <==> l < i)
      && (forall l, n | 0 <= l < MAX_HEIGHT && n in s.lists[l] && n != x :: s.keys[n] != s.keys[x])
      && (forall l | i <= l < MAX_HEIGHT :: PrevOk(s.keys, s.lists[l], s.keys[x], prev[l]))
      && (stored ==> (x, i) in s.next && (prev[i], i) in s.next && s.next[(x, i)] == s.next[(prev[i], i)])
  }

  /** `p` is the last node of the level before key `k`. */
  ghost predicate PrevOk(keys: map<nat, Key>, list: seq<nat>, k: Key, p: nat)
    requires Known(keys, list)
  {
    p == NodeAt(list, Place(keys, list, k))
  }

  /** A reader stands on the head or on a node of its level before its target. */
  ghost predicate ReaderOk(keys: map<nat, Key>, lists: seq<seq<nat>>, r: Reader)
    requires Sorted(keys, lists)
  {
    r.Looking? ==> r.level < MAX_HEIGHT && (r.x == HEAD || (r.x in lists[r.level] && Less(keys[r.x], r.target)))
  }

  ghost predicate ReadersOk(s: State)
    requires Sorted(s.keys, s.lists)
  {
    forall r | r in s.readers :: ReaderOk(s.keys, s.lists, s.readers[r])
  }

  /** Nothing is linked at or above the height of the list. */
  ghost predicate HeightOk(lists: seq<seq<nat>>, maxHeight: nat) {
    0 < maxHeight <= MAX_HEIGHT && forall l | maxHeight <= l < |lists| :: lists[l] == []
  }

  ghost predicate Inv(s: State) {
    && Sorted(s.keys, s.lists) && Nested(s.lists) && AllLinked(s.next, s.lists)
    && HeightOk(s.lists, s.maxHeight) && WriterOk(s) && ReadersOk(s)
  }

  // ----- Steps -----

  /** `Insert` up to the allocation of the node: the search has filled `prev`.  The key must be new. */
  ghost predicate CanStart(s: State, x: nat, k: Key, height: nat, prev: seq<nat>)
    requires Sorted(s.keys, s.lists)
  {
    && s.writer.Idle? && x != HEAD && x !in s.keys && 0 < height <= MAX_HEIGHT && |prev| == MAX_HEIGHT
    && (forall n | n in s.lists[0] :: s.keys[n] != k)
    && (forall l | 0 <= l < MAX_HEIGHT :: PrevOk(s.keys, s.lists[l], k, prev[l]))
  }

  function Start(s: State, x: nat, k: Key, height: nat, prev: seq<nat>): State {
    s.(keys := s.keys[x := k], maxHeight := if height > s.maxHeight then height else s.maxHeight,
       writer := Linking(x, height, 0, false, prev))
  }

  /** `x->NoBarrier_SetNext(i, prev[i]->NoBarrier_Next(i))`. */
  predicate CanStoreOwn(s: State) {
    && s.writer.Linking? && !s.writer.stored && s.writer.i < |s.writer.prev|
    && (s.writer.prev[s.writer.i], s.writer.i) in s.next
  }

  function StoreOwn(s: State): State
    requires CanStoreOwn(s)
  {
    var w := s.writer;
    s.(next := s.next[(w.x, w.i) := s.next[(w.prev[w.i], w.i)]], writer := w.(stored := true))
  }

  function InsertAt(list: seq<nat>, p: nat, x: nat): seq<nat>
    requires p <= |list|
  {
    list[..p] + [x] + list[p..]
  }

  ghost predicate CanStorePrev(s: State) {
    && s.writer.Linking? && s.writer.stored && s.writer.i < |s.writer.prev| && s.writer.i < |s.lists|
    && s.writer.x in s.keys && Known(s.keys, s.lists[s.writer.i])
  }

  /** `prev[i]->SetNext(i, x)`: the node becomes reachable at level `i`. */
  ghost function StorePrev(s: State): State
    requires CanStorePrev(s)
  {
    var w := s.writer;
    var list := s.lists[w.i];
    s.(next := s.next[(w.prev[w.i], w.i) := Some(w.x)],
       lists := s.lists[w.i := InsertAt(list, Place(s.keys, list, s.keys[w.x]), w.x)],
       writer := if w.i + 1 == w.height then Idle else w.(i := w.i + 1, stored := false))
  }

  /** A search starts at the head, at whatever height the reader saw, however stale. */
  function Begin(s: State, r: nat, target: Option<Key>, height: nat): State
    requires 0 < height <= MAX_HEIGHT
  {
    s.(readers := s.readers[r := Looking(target, HEAD, height - 1)])
  }

  predicate CanLoad(s: State, r: nat) {
    && r in s.readers && s.readers[r].Looking?
    && (s.readers[r].x, s.readers[r].level) in s.next
    && var n := s.next[(s.readers[r].x, s.readers[r].level)]; n.Some? ==> n.value in s.keys
  }

  /** One turn of the loop in `FindGreaterOrEqual`, `FindLessThan` and `FindLast`. */
  function Advance(keys: map<nat, Key>, reader: Reader, n: Option<nat>): Reader
    requires reader.Looking? && (n.Some? ==> n.value in keys)
  {
    if n.Some? && Less(keys[n.value], reader.target) then Looking(reader.target, n.value, reader.level)
    else if reader.level == 0 then Found(reader.target, reader.x, n)
    else Looking(reader.target, reader.x, reader.level - 1)
  }

  function Load(s: State, r: nat): State
    requires CanLoad(s, r)
  {
    var reader := s.readers[r];
    s.(readers := s.readers[r := Advance(s.keys, reader, s.next[(reader.x, reader.level)])])
  }

  // ----- Facts about one level -----

  lemma NodesDiffer(keys: map<nat, Key>, list: seq<nat>, i: nat, j: nat)
    requires Known(keys, list) && Ascending(keys, list) && i <= |list| && j <= |list| && i != j
    ensures NodeAt(list, i) != NodeAt(list, j)
  {
  }

  lemma InsertMembers(list: seq<nat>, p: nat, x: nat)
    requires p <= |list|
    ensures forall n :: n in InsertAt(list, p, x) <==> n in list || n == x
  {
    assert list == list[..p] + list[p..];
  }

  lemma InsertAscending(keys: map<nat, Key>, list: seq<nat>, p: nat, x: nat)
    requires Known(keys, list) && Ascending(keys, list) && x in keys && x != HEAD
    requires Splits(keys, list, Some(keys[x]), p) && forall n | n in list :: keys[n] != keys[x]
    ensures Known(keys, InsertAt(list, p, x)) && Ascending(keys, InsertAt(list, p, x))
  {
    var r := InsertAt(list, p, x);
    forall j | 0 <= j < |r| ensures r[j] == if j < p then list[j] else if j == p then x else list[j - 1] {}
    hide InsertAt;
    forall i, j | 0 <= i < j < |r| ensures keys[r[i]] < keys[r[j]] {
      if j == p {
        assert Less(keys[list[i]], Some(keys[x]));
      } else if i == p {
        assert list[j - 1] in list && !Less(keys[list[j - 1]], Some(keys[x]));
      }
    }
  }

  lemma InsertLinked(keys: map<nat, Key>, next: map<(nat, nat), Option<nat>>, list: seq<nat>, l: nat, p: nat, x: nat)
    requires Known(keys, list) && Ascending(keys, list) && Linked(next, list, l) && p <= |list|
    requires x !in list && x != HEAD && (x, l) in next && next[(x, l)] == LinkAfter(list, p)
    ensures Linked(next[(NodeAt(list, p), l) := Some(x)], InsertAt(list, p, x), l)
  {
    var r := InsertAt(list, p, x);
    var next' := next[(NodeAt(list, p), l) := Some(x)];
    forall j | 0 <= j <= |r| ensures (NodeAt(r, j), l) in next' && next'[(NodeAt(r, j), l)] == LinkAfter(r, j) {
      if j <= p {
        assert NodeAt(r, j) == NodeAt(list, j);
        if j < p { NodesDiffer(keys, list, j, p); }
      } else if j > p + 1 {
        assert NodeAt(r, j) == NodeAt(list, j - 1);
        NodesDiffer(keys, list, j - 1, p);
      }
    }
  }

  lemma PlaceSplits(keys: map<nat, Key>, list: seq<nat>, k: Key)
    requires Known(keys, list) && Ascending(keys, list)
    ensures Splits(keys, list, Some(k), Place(keys, list, k))
  {
    var p := Place(keys, list, k);
    forall j | p <= j < |list| ensures keys[list[j]] >= k { assert p < j ==> keys[list[p]] < keys[list[j]]; }
  }

  // ----- Every step keeps the invariant -----

  lemma StartKeeps(s: State, x: nat, k: Key, height: nat, prev: seq<nat>)
    requires Inv(s) && CanStart(s, x, k, height, prev)
    ensures Inv(Start(s, x, k, height, prev))
  {
    hide Place;
    var s' := Start(s, x, k, height, prev);
    forall l | 0 <= l < MAX_HEIGHT
      ensures Known(s'.keys, s.lists[l]) && Ascending(s'.keys, s.lists[l]) && x !in s.lists[l]
      ensures PrevOk(s'.keys, s.lists[l], k, prev[l])
      ensures forall n | n in s.lists[l] :: s'.keys[n] == s.keys[n] != k
    {
      SameKeysKnown(s.keys, s'.keys, s.lists[l]);
      SamePlace(s.keys, s'.keys, s.lists[l], k);
      assert forall n | n in s.lists[l] :: n in s.lists[0];
    }
    forall r | r in s'.readers ensures ReaderOk(s'.keys, s'.lists, s'.readers[r]) {
      assert ReaderOk(s.keys, s.lists, s.readers[r]);
    }
  }

  lemma SameKeysKnown(keys: map<nat, Key>, keys': map<nat, Key>, list: seq<nat>)
    requires Known(keys, list) && forall n | n in keys :: n in keys' && keys'[n] == keys[n]
    ensures Known(keys', list)
  {
  }

  lemma {:induction false} SamePlace(keys: map<nat, Key>, keys': map<nat, Key>, list: seq<nat>, k: Key)
    requires Known(keys, list) && Known(keys', list) && forall n | n in list :: keys'[n] == keys[n]
    ensures Place(keys', list, k) == Place(keys, list, k)
  {
    if list != [] { SamePlace(keys, keys', list[1..], k); }
  }

  lemma StoreOwnKeeps(s: State)
    requires Inv(s) && CanStoreOwn(s)
    ensures Inv(StoreOwn(s))
  {
    hide Place;
    var w, s' := s.writer, StoreOwn(s);
    forall l | 0 <= l < MAX_HEIGHT ensures Linked(s'.next, s.lists[l], l) {
      assert Linked(s.next, s.lists[l], l);
      assert l == w.i ==> w.x !in s.lists[l];
    }
    assert s'.next[(w.prev[w.i], w.i)] == s.next[(w.prev[w.i], w.i)];
  }

  /** What the lists look like once the node is linked at level `i`. */
  lemma StorePrevLists(s: State)
    requires Inv(s) && CanStorePrev(s)
    ensures var w, s' := s.writer, StorePrev(s);
            && Sorted(s'.keys, s'.lists) && Nested(s'.lists)
            && (forall l | 0 <= l < MAX_HEIGHT && l != w.i :: s'.lists[l] == s.lists[l])
            && (forall n :: n in s'.lists[w.i] <==> n in s.lists[w.i] || n == w.x)
  {
    hide Place, InsertAt;
    var w := s.writer;
    var list := s.lists[w.i];
    PlaceSplits(s.keys, list, s.keys[w.x]);
    InsertAscending(s.keys, list, Place(s.keys, list, s.keys[w.x]), w.x);
    InsertMembers(list, Place(s.keys, list, s.keys[w.x]), w.x);
  }

  lemma StorePrevLinks(s: State)
    requires Inv(s) && CanStorePrev(s)
    ensures AllLinked(StorePrev(s).next, StorePrev(s).lists)
  {
    hide Place, InsertAt;
    var w, s' := s.writer, StorePrev(s);
    var list := s.lists[w.i];
    var p := Place(s.keys, list, s.keys[w.x]);
    assert w.prev[w.i] == NodeAt(list, p);
    assert Linked(s.next, list, w.i);
    InsertLinked(s.keys, s.next, list, w.i, p, w.x);
    forall l | 0 <= l < MAX_HEIGHT ensures Linked(s'.next, s'.lists[l], l) {
      if l != w.i { assert Linked(s.next, s.lists[l], l); }
    }
  }

  lemma StorePrevKeeps(s: State)
    requires Inv(s) && CanStorePrev(s)
    ensures Inv(StorePrev(s))
  {
    hide Place, InsertAt, AllLinked, Sorted, Nested;
    StorePrevLists(s);
    StorePrevLinks(s);
    var s' := StorePrev(s);
    assert WriterOk(s') by { StorePrevWriter(s); }
    forall r | r in s'.readers ensures ReaderOk(s'.keys, s'.lists, s'.readers[r]) {
      assert ReaderOk(s.keys, s.lists, s.readers[r]);
    }
  }

  lemma StorePrevWriter(s: State)
    requires Inv(s) && CanStorePrev(s) && Sorted(StorePrev(s).keys, StorePrev(s).lists)
    ensures WriterOk(StorePrev(s))
  {
    hide Place, InsertAt, AllLinked, Nested;
    StorePrevLists(s);
    var w, s' := s.writer, StorePrev(s);
    if w.i + 1 < w.height {
      forall l, n | 0 <= l < MAX_HEIGHT && n in s'.lists[l] && n != w.x ensures s'.keys[n] != s'.keys[w.x] {
        assert n in s.lists[l];
      }
    }
  }

  lemma BeginKeeps(s: State, r: nat, target: Option<Key>, height: nat)
    requires Inv(s) && 0 < height <= MAX_HEIGHT
    ensures Inv(Begin(s, r, target, height))
  {
    hide Place, Nested, AllLinked, WriterOk;
    var s' := Begin(s, r, target, height);
    forall q | q in s'.readers ensures ReaderOk(s'.keys, s'.lists, s'.readers[q]) {
      if q != r { assert ReaderOk(s.keys, s.lists, s.readers[q]); }
    }
    WriterUnchanged(s, s');
  }

  /** The link a reader is about to load exists, and leads to its node's successor. */
  lemma LoadFinds(s: State, r: nat) returns (j: nat)
    requires Inv(s) && r in s.readers && s.readers[r].Looking?
    ensures CanLoad(s, r)
    ensures var reader := s.readers[r];
            var list := s.lists[reader.level];
            && j <= |list| && reader.x == NodeAt(list, j)
            && s.next[(reader.x, reader.level)] == LinkAfter(list, j)
            && (j > 0 ==> Less(s.keys[list[j - 1]], reader.target))
  {
    hide Place, Nested, WriterOk;
    var reader := s.readers[r];
    assert ReaderOk(s.keys, s.lists, reader);
    var list := s.lists[reader.level];
    if reader.x == HEAD {
      j := 0;
    } else {
      var i :| 0 <= i < |list| && list[i] == reader.x;
      j := i + 1;
    }
    assert Linked(s.next, list, reader.level) && Known(s.keys, list);
    assert s.next[(NodeAt(list, j), reader.level)] == LinkAfter(list, j);
    if j < |list| { assert list[j] in s.keys; }
  }

  lemma LoadKeeps(s: State, r: nat)
    requires Inv(s) && CanLoad(s, r)
    ensures Inv(Load(s, r))
  {
    hide Place, AllLinked, WriterOk;
    var j := LoadFinds(s, r);
    var s' := Load(s, r);
    var reader := s.readers[r];
    assert ReaderOk(s.keys, s.lists, reader);
    forall q | q in s'.readers ensures ReaderOk(s'.keys, s'.lists, s'.readers[q]) {
      if q != r { assert ReaderOk(s.keys, s.lists, s.readers[q]); }
    }
    WriterUnchanged(s, s');
  }

  lemma WriterUnchanged(s: State, s': State)
    requires Sorted(s.keys, s.lists) && WriterOk(s) && s' == s.(readers := s'.readers)
    ensures WriterOk(s')
  {
    hide Place;
  }

  // ----- What a search returns -----

  /** `x` is the latest node before `target` and `next` the earliest at or after it. */
  ghost predicate Exact(keys: map<nat, Key>, list: seq<nat>, target: Option<Key>, x: nat, next: Option<nat>)
    requires Known(keys, list)
  {
    exists p: nat :: Splits(keys, list, target, p) && x == NodeAt(list, p) && next == LinkAfter(list, p)
  }

  /** At its last load a search returns the exact neighbours of its target among the nodes that
      are in the list at that moment, whatever the writer did while it was on its way. */
  lemma LoadExact(s: State, r: nat)
    requires Inv(s) && CanLoad(s, r) && Load(s, r).readers[r].Found?
    ensures var f := Load(s, r).readers[r]; Exact(s.keys, s.lists[0], f.target, f.x, f.next)
  {
    hide Place, AllLinked, WriterOk, Nested;
    var j := LoadFinds(s, r);
    var reader := s.readers[r];
    var list := s.lists[0];
    assert Ascending(s.keys, list);
    forall i | 0 <= i < j ensures Less(s.keys[list[i]], reader.target) {
      assert i < j - 1 ==> s.keys[list[i]] < s.keys[list[j - 1]];
    }
    forall i | j <= i < |list| ensures !Less(s.keys[list[i]], reader.target) {
      assert j < i ==> s.keys[list[j]] < s.keys[list[i]];
    }
    assert Splits(s.keys, list, reader.target, j);
  }

  // ----- Runs -----

  datatype Action = DoStart(x: nat, k: Key, height: nat, prev: seq<nat>) | DoStoreOwn | DoStorePrev
                  | DoBegin(r: nat, target: Option<Key>, height: nat) | DoLoad(r: nat)

  ghost predicate Enabled(s: State, a: Action) {
    match a
    case DoStart(x, k, height, prev) => Sorted(s.keys, s.lists) && CanStart(s, x, k, height, prev)
    case DoStoreOwn => CanStoreOwn(s)
    case DoStorePrev => CanStorePrev(s)
    case DoBegin(r, target, height) => 0 < height <= MAX_HEIGHT
    case DoLoad(r) => CanLoad(s, r)
  }

  ghost function Step(s: State, a: Action): State
    requires Enabled(s, a)
  {
    match a
    case DoStart(x, k, height, prev) => Start(s, x, k, height, prev)
    case DoStoreOwn => StoreOwn(s)
    case DoStorePrev => StorePrev(s)
    case DoBegin(r, target, height) => Begin(s, r, target, height)
    case DoLoad(r) => Load(s, r)
  }

  lemma StepKeeps(s: State, a: Action)
    requires Inv(s) && Enabled(s, a)
    ensures Inv(Step(s, a))
  {
    hide Inv;
    match a
    case DoStart(x, k, height, prev) => StartKeeps(s, x, k, height, prev);
    case DoStoreOwn => StoreOwnKeeps(s);
    case DoStorePrev => StorePrevKeeps(s);
    case DoBegin(r, target, height) => BeginKeeps(s, r, target, height);
    case DoLoad(r) => LoadKeeps(s, r);
  }

  /** The list after construction: the head, with every level empty. */
  function Empty(): State {
    State(map[], map l: nat | 0 <= l < MAX_HEIGHT :: (HEAD, l) := None, seq(MAX_HEIGHT, l => []), 1, Idle, map[])
  }

  lemma EmptyInv()
    ensures Inv(Empty())
  {
  }

  ghost predicate IsRun(states: seq<State>, actions: seq<Action>) {
    && |states| == |actions| + 1 && states[0] == Empty()
    && forall i | 0 <= i < |actions| :: Enabled(states[i], actions[i]) && states[i + 1] == Step(states[i], actions[i])
  }

  lemma {:induction false} RunKeeps(states: seq<State>, actions: seq<Action>, i: nat)
    requires IsRun(states, actions) && i < |states|
    ensures Inv(states[i])
  {
    hide Inv, Step, Enabled;
    if i == 0 {
      EmptyInv();
    } else {
      RunKeeps(states, actions, i - 1);
      StepKeeps(states[i - 1], actions[i - 1]);
    }
  }

  /** Nodes never leave a level. */
  lemma StepGrows(s: State, a: Action, n: nat, l: nat)
    requires Inv(s) && Enabled(s, a) && l < MAX_HEIGHT && n in s.lists[l]
    ensures |Step(s, a).lists| == MAX_HEIGHT && n in Step(s, a).lists[l]
    ensures n in s.keys && n in Step(s, a).keys && Step(s, a).keys[n] == s.keys[n]
  {
    hide Place, InsertAt;
    if a.DoStorePrev? { StorePrevLists(s); }
    var i :| 0 <= i < |s.lists[l]| && s.lists[l][i] == n;
    assert Known(s.keys, s.lists[l]);
  }

  lemma InList(s: State, n: nat)
    requires Inv(s) && n in s.lists[0]
    ensures |s.lists| == MAX_HEIGHT && n in s.keys
  {
    hide WriterOk, ReadersOk, Nested, AllLinked;
    var p :| 0 <= p < |s.lists[0]| && s.lists[0][p] == n;
    assert Known(s.keys, s.lists[0]);
  }

  lemma {:induction false} RunGrows(states: seq<State>, actions: seq<Action>, i: nat, j: nat, n: nat)
    requires IsRun(states, actions) && i <= j < |states| && Inv(states[i]) && n in states[i].lists[0]
    ensures Inv(states[j]) && |states[j].lists| == MAX_HEIGHT && n in states[j].lists[0]
    ensures n in states[i].keys && n in states[j].keys && states[j].keys[n] == states[i].keys[n]
  {
    hide Inv, Step, Enabled;
    RunKeeps(states, actions, j);
    if i < j {
      RunGrows(states, actions, i, j - 1, n);
      RunKeeps(states, actions, j - 1);
      StepGrows(states[j - 1], actions[j - 1], n, 0);
    } else {
      InList(states[i], n);
    }
  }

  /** Over every interleaving: whenever a search finishes, its answer is exact for the nodes that
      are in the list at that moment, and no node that was ever in the list is missing from it. */
  lemma EverySearchIsExact(states: seq<State>, actions: seq<Action>, i: nat, r: nat, before: nat, n: nat)
    requires IsRun(states, actions) && i < |actions| && actions[i] == DoLoad(r) && states[i + 1].readers[r].Found?
    requires before <= i
    ensures var f := states[i + 1].readers[r];
            && |states[i].lists| > 0 && Known(states[i].keys, states[i].lists[0])
            && Exact(states[i].keys, states[i].lists[0], f.target, f.x, f.next)
            && (|states[before].lists| > 0 && n in states[before].lists[0] ==> n in states[i].lists[0])
  {
    hide Exact;
    RunKeeps(states, actions, i);
    RunKeeps(states, actions, before);
    if n in states[before].lists[0] { RunGrows(states, actions, before, i, n); }
    LoadExact(states[i], r);
  }

  /** Every load a reader comes to can be made: the link it follows has been written. */
  lemma ReadersNeverStuck(states: seq<State>, actions: seq<Action>, i: nat, r: nat)
    requires IsRun(states, actions) && i < |states| && r in states[i].readers && states[i].readers[r].Looking?
    ensures CanLoad(states[i], r)
  {
    RunKeeps(states, actions, i);
    var j := LoadFinds(states[i], r);
  }

  // ----- Searches end, insertions link the whole node -----

  /** A reader left alone. */
  ghost function LoadTimes(s: State, r: nat, n: nat): State
    decreases n
  {
    if n == 0 || !CanLoad(s, r) then s else LoadTimes(Load(s, r), r, n - 1)
  }

  lemma {:induction false} SearchEnds(s: State, r: nat, j: nat) returns (n: nat)
    requires Inv(s) && r in s.readers && s.readers[r].Looking? && |s.lists| == MAX_HEIGHT
    requires var reader := s.readers[r];
             reader.level < |s.lists| && j <= |s.lists[reader.level]| && reader.x == NodeAt(s.lists[reader.level], j)
    ensures r in LoadTimes(s, r, n).readers && LoadTimes(s, r, n).readers[r].Found?
    decreases s.readers[r].level, |s.lists[s.readers[r].level]| - j
  {
    hide Inv, LinkAfter;
    var reader := s.readers[r];
    var i := LoadFinds(s, r);
    OnePlace(s, reader.level, i, j);
    LoadKeeps(s, r);
    var t := Load(s, r);
    var m := 0;
    if t.readers[r].Looking? {
      if t.readers[r].level == reader.level {
        NextNode(s.lists[reader.level], j);
        m := SearchEnds(t, r, j + 1);
      } else {
        var k := Lower(s, reader.level, j);
        m := SearchEnds(t, r, k);
      }
    }
    n := m + 1;
  }

  /** Over every interleaving: from wherever a reader stands, its search ends after so many loads, unless the list
      changes meanwhile. */
  lemma EverySearchEnds(states: seq<State>, actions: seq<Action>, i: nat, r: nat) returns (n: nat)
    requires IsRun(states, actions) && i < |states| && r in states[i].readers && states[i].readers[r].Looking?
    ensures var s := LoadTimes(states[i], r, n); r in s.readers && s.readers[r].Found?
  {
    hide LoadTimes, Place, Nested, AllLinked, WriterOk;
    RunKeeps(states, actions, i);
    assert ReaderOk(states[i].keys, states[i].lists, states[i].readers[r]);
    var j := LoadFinds(states[i], r);
    n := SearchEnds(states[i], r, j);
  }

  lemma NextNode(list: seq<nat>, j: nat)
    requires j <= |list|
    ensures LinkAfter(list, j).Some? ==> j < |list| && LinkAfter(list, j).value == NodeAt(list, j + 1)
  {
  }

  lemma OnePlace(s: State, level: nat, i: nat, j: nat)
    requires Inv(s) && level < |s.lists| && i <= |s.lists[level]| && j <= |s.lists[level]|
    requires NodeAt(s.lists[level], i) == NodeAt(s.lists[level], j)
    ensures i == j
  {
    hide Place, Nested, WriterOk, ReadersOk, AllLinked;
    if i != j { NodesDiffer(s.keys, s.lists[level], i, j); }
  }

  ghost predicate Underway(s: State, x: nat, height: nat) {
    s.writer.Linking? && s.writer.x == x && s.writer.height == height
  }

  /** The node is in all levels below its height and in no other. */
  ghost predicate InLevels(s: State, x: nat, height: nat) {
    && x in s.keys && (s.writer.Linking? ==> s.writer.x != x)
    && forall l | 0 <= l < |s.lists| :: x in s.lists[l] <==> l < height
  }

  lemma StepLinks(s: State, a: Action, x: nat, height: nat)
    requires Inv(s) && Enabled(s, a) && (Underway(s, x, height) || InLevels(s, x, height))
    ensures Underway(Step(s, a), x, height) || InLevels(Step(s, a), x, height)
  {
    hide Place, InsertAt, AllLinked, ReadersOk, Nested, PrevOk;
    if a.DoStorePrev? { StorePrevLists(s); }
  }

  /** Over every interleaving: once an insertion has started, its node is being linked, or it is in exactly the levels
      below its height, from then on. */
  lemma {:induction false} InsertionLinksAll(states: seq<State>, actions: seq<Action>, i: nat, j: nat)
    requires IsRun(states, actions) && i < |actions| && actions[i].DoStart? && i < j < |states|
    ensures var a := actions[i]; Underway(states[j], a.x, a.height) || InLevels(states[j], a.x, a.height)
  {
    hide Inv, Step, Enabled, InLevels;
    if j == i + 1 {
      StartsLinking(states[i], actions[i]);
    } else {
      InsertionLinksAll(states, actions, i, j - 1);
      RunKeeps(states, actions, j - 1);
      StepLinks(states[j - 1], actions[j - 1], actions[i].x, actions[i].height);
    }
  }

  lemma StartsLinking(s: State, a: Action)
    requires Enabled(s, a) && a.DoStart?
    ensures Underway(Step(s, a), a.x, a.height)
  {
  }

  // ----- The writer's own search -----

  /** `FindGreaterOrEqual` with `prev`: nobody else writes, so the links stand still.  Levels at or
      above the current height belong to the head, as `Insert` fills them in. */
  method FindGreaterOrEqual(s: State, k: Key) returns (next: Option<nat>, prev: seq<nat>)
    requires Inv(s)
    ensures |prev| == MAX_HEIGHT
    ensures forall l | 0 <= l < MAX_HEIGHT :: PrevOk(s.keys, s.lists[l], k, prev[l])
    ensures next == LinkAfter(s.lists[0], Place(s.keys, s.lists[0], k))
  {
    hide Place, WriterOk, ReadersOk;
    prev := seq(MAX_HEIGHT, l => HEAD);
    forall l | s.maxHeight <= l < MAX_HEIGHT ensures PrevOk(s.keys, s.lists[l], k, HEAD) { PlaceInEmpty(s.keys, k); }
    var x: nat, level: nat := HEAD, s.maxHeight - 1;
    ghost var j: nat := 0;
    while true
      invariant level < s.maxHeight && |prev| == MAX_HEIGHT
      invariant j <= |s.lists[level]| && x == NodeAt(s.lists[level], j)
      invariant j > 0 ==> s.keys[x] < k
      invariant forall l | level < l < MAX_HEIGHT :: PrevOk(s.keys, s.lists[l], k, prev[l])
      decreases level, |s.lists[level]| - j
    {
      assert Linked(s.next, s.lists[level], level);
      next := s.next[(x, level)];
      if next.Some? && s.keys[next.value] < k {
        x, j := next.value, j + 1;
      } else {
        PlaceFound(s.keys, s.lists[level], k, j);
        prev := prev[level := x];
        if level == 0 {
          return;
        }
        j := Lower(s, level, j);
        level := level - 1;
      }
    }
  }

  lemma PlaceInEmpty(keys: map<nat, Key>, k: Key)
    ensures Known(keys, []) && Place(keys, [], k) == 0
  {
  }

  lemma PlaceFound(keys: map<nat, Key>, list: seq<nat>, k: Key, j: nat)
    requires Known(keys, list) && Ascending(keys, list) && j <= |list|
    requires (j > 0 ==> keys[list[j - 1]] < k) && (j < |list| ==> keys[list[j]] >= k)
    ensures Place(keys, list, k) == j
  {
    hide Place;
    PlaceSplits(keys, list, k);
    if 0 < j { assert Less(keys[list[j - 1]], Some(k)); }
    if j < |list| { assert !Less(keys[list[j]], Some(k)); }
  }

  /** The same node one level down. */
  lemma Lower(s: State, level: nat, j: nat) returns (i: nat)
    requires Inv(s) && 0 < level < MAX_HEIGHT && j <= |s.lists[level]|
    ensures i <= |s.lists[level - 1]| && NodeAt(s.lists[level - 1], i) == NodeAt(s.lists[level], j)
    ensures i > 0 <==> j > 0
  {
    hide Place, WriterOk, ReadersOk, AllLinked;
    if j == 0 {
      i := 0;
    } else {
      var n := s.lists[level][j - 1];
      assert n in s.lists[level];
      var p :| 0 <= p < |s.lists[level - 1]| && s.lists[level - 1][p] == n;
      i := p + 1;
    }
  }
}
