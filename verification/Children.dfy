/** `IteratorWrapper`: what the merging iterator holds of a child, with the child's head cached.  A child
    goes over a sorted list (a memtable, the entries of one table) or is a two-level iterator (over the
    tables of a level, or the blocks of a table). */
module Children {
  import opened Wrappers
  import opened Entries
  import opened Cursors
  import opened TwoLevel

  datatype Child = Listed(entries: seq<Entry>) | Indexed(index: seq<IndexEntry>, load: nat -> seq<Entry>)

  /** The entries a child goes over. */
  ghost function Under(c: Child): seq<Entry> {
    match c
    case Listed(xs) => xs
    case Indexed(index, load) => All(index, load)
  }

  ghost predicate Usable(c: Child) {
    Sorted(Under(c)) && (c.Indexed? ==> Separates(c.index, c.load))
  }

  function SeekAt(xs: seq<Entry>, k: Key, s: nat): Option<nat> {
    var i := SeekIndex(xs, k, s);
    if i < |xs| then Some(i) else None
  }

  /** A move of a cursor over a list. */
  function ListMoved(xs: seq<Entry>, at: Option<nat>, m: Move): (r: Option<nat>)
    ensures r == Moved(xs, at, m)
  {
    match m
    case Seek(k, s) => SeekAt(xs, k, s)
    case SeekToFirst => if |xs| > 0 then Some(0) else None
    case SeekToLast => if |xs| > 0 then Some(|xs| - 1) else None
    case Next => if at.Some? && at.value + 1 < |xs| then Some(at.value + 1) else None
    case Prev => if at.Some? && at.value > 0 then Some(at.value - 1) else None
  }

  class IteratorWrapper {
    const list: seq<Entry>
    const table: TwoLevelIterator?
    ghost const xs: seq<Entry>
    var at: Option<nat>

    /** The cached `valid()` and `key()`. */
    var head: Option<Entry>

    /** The position in `xs`. */
    ghost var pos: Option<nat>

    /** The iterator below stands at `pos`. */
    ghost predicate Standing()
      reads this, table
    {
      && (table == null ==> xs == list && pos == at)
      && (table != null ==> table.Valid() && xs == All(table.index, table.load) && pos == table.pos)
      && Sorted(xs) && (pos.Some? ==> pos.value < |xs|)
    }

    ghost predicate Valid()
      reads this, table
    {
      Standing() && head == if pos.Some? then Some(xs[pos.value]) else None
    }

    /** `Set`. */
    constructor OfList(list: seq<Entry>)
      requires Sorted(list)
      ensures Valid() && xs == list && pos == None && table == null
    {
      this.list, xs, table, at, head, pos := list, list, null, None, None, None;
    }

    constructor OfTable(table: TwoLevelIterator)
      requires table.Valid() && table.pos == None
      ensures Valid() && xs == All(table.index, table.load) && pos == None && this.table == table
    {
      this.list, xs, this.table := [], All(table.index, table.load), table;
      at, head, pos := None, None, None;
    }

    method Update()
      requires Standing()
      modifies `head
      ensures Valid()
    {
      head := None;
      if table == null {
        if at.Some? {
          head := Some(list[at.value]);
        }
      } else if table.HasEntry() {
        var e := table.Entry();
        head := Some(e);
      }
    }

    /** A move of the iterator below, and `Update`; relative moves only from a valid position. */
    method Make(m: Move)
      requires Valid()
      modifies this, table
      ensures Valid() && pos == Moved(xs, old(pos), m)
    {
      hide Sorted, All, TwoLevelIterator.Valid;
      if table == null {
        at := ListMoved(list, at, m);
        pos := at;
      } else {
        table.Make(m);
        pos := table.pos;
        InTable(table);
      }
      Update();
    }
  }

  lemma InTable(table: TwoLevelIterator)
    requires table.Valid()
    ensures table.pos.Some? ==> table.pos.value < |All(table.index, table.load)|
  {
  }

  // ----- Several children -----

  /** No two wrappers share an object. */
  ghost predicate Apart(kids: seq<IteratorWrapper>) {
    forall d, e | 0 <= d < e < |kids| ::
      kids[d] != kids[e] && (kids[d].table == null || kids[d].table != kids[e].table)
  }

  ghost function TablesOf(kids: seq<IteratorWrapper>): set<TwoLevelIterator> {
    set d | 0 <= d < |kids| && kids[d].table != null :: kids[d].table
  }

  ghost predicate AllUsable(children: seq<Child>) {
    forall c | c in children :: Usable(c)
  }

  ghost function AllUnder(children: seq<Child>): seq<seq<Entry>> {
    seq(|children|, i requires 0 <= i < |children| => Under(children[i]))
  }

  /** A wrapper for every child, at no position. */
  method Wrap(children: seq<Child>) returns (kids: seq<IteratorWrapper>)
    requires AllUsable(children)
    ensures |kids| == |children| && Apart(kids)
    ensures forall d | 0 <= d < |kids| :: fresh(kids[d]) && (kids[d].table != null ==> fresh(kids[d].table))
    ensures forall d | 0 <= d < |kids| :: kids[d].Valid() && kids[d].xs == AllUnder(children)[d] && kids[d].pos == None
  {
    hide Sorted, All, Separates, IteratorWrapper.Valid;
    kids := [];
    for i := 0 to |children|
      invariant |kids| == i && Apart(kids)
      invariant forall d | 0 <= d < i :: fresh(kids[d]) && (kids[d].table != null ==> fresh(kids[d].table))
      invariant forall d | 0 <= d < i :: kids[d].Valid() && kids[d].xs == AllUnder(children)[d] && kids[d].pos == None
    {
      assert children[i] in children;
      var kid := WrapOne(children[i]);
      kids := kids + [kid];
    }
  }

  method WrapOne(c: Child) returns (kid: IteratorWrapper)
    requires Usable(c)
    ensures fresh(kid) && (kid.table != null ==> fresh(kid.table))
    ensures kid.Valid() && kid.xs == Under(c) && kid.pos == None
  {
    hide Sorted, All, Separates;
    if c.Listed? {
      kid := new IteratorWrapper.OfList(c.entries);
    } else {
      var table := new TwoLevelIterator(c.index, c.load);
      kid := new IteratorWrapper.OfTable(table);
    }
  }
}
