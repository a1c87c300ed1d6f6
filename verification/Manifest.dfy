/** `VersionSet::Builder`: feeding a whole manifest to one builder and saving once gives the version
    that saving after every edit gives. */
module Manifest {
  import opened Versions
  import opened Edits

  /** What the builder keeps for one level. */
  datatype LevelState = LevelState(deleted: set<nat>, added: Level)

  /** Deletions first, then additions, which undo a deletion of the same number. */
  ghost function Fed(s: LevelState, gone: set<nat>, ts: Level): LevelState {
    LevelState(s.deleted + gone - Numbers(ts), InsertAll(s.added, ts))
  }

  ghost function FedAll(edits: seq<Edit>, l: nat): LevelState {
    if edits == [] then LevelState({}, [])
    else
      var e := edits[|edits| - 1];
      Fed(FedAll(edits[..|edits| - 1], l), DeletedAt(e, l), AddedAt(e.added, l))
  }

  /** The same edits applied one after the other. */
  ghost function AppliedAll(files: Level, edits: seq<Edit>, l: nat): Level {
    if edits == [] then files
    else ApplyAt(AppliedAll(files, edits[..|edits| - 1], l), edits[|edits| - 1], l)
  }

  /** No number is added twice to the level, nor one its first version already has. */
  ghost predicate FreshAdds(files: Level, edits: seq<Edit>, l: nat) {
    edits == [] ||
      var n := |edits| - 1;
      var ts := AddedAt(edits[n].added, l);
      && FreshAdds(files, edits[..n], l) && DistinctNumbers(ts)
      && (forall t, u | t in ts && u in files :: t.number != u.number)
      && (forall t, u | t in ts && u in FedAll(edits[..n], l).added :: t.number != u.number)
  }

  /** A version's list for one level: what the first version or an edit brought, minus what is
      marked deleted, in `BySmallest` order. */
  ghost predicate IsSaved(r: Level, base: Level, s: LevelState) {
    OrderedLevel(r) && forall t :: t in r <==> (t in base || t in s.added) && t.number !in s.deleted
  }

  /** Two ordered lists of the same tables are the same list. */
  lemma {:induction false} OrderedUnique(a: Level, b: Level)
    requires OrderedLevel(a) && OrderedLevel(b) && forall t :: t in a <==> t in b
    ensures a == b
    decreases |a|
  {
    if a == [] {
      if b != [] { Inhabited(b); }
    } else {
      FirstIsFirst(a, b);
      forall t ensures t in a[1..] <==> t in b[1..] {
        TailMember(a, t);
        TailMember(b, t);
      }
      OrderedUnique(a[1..], b[1..]);
      assert a == [a[0]] + a[1..] && b == [b[0]] + b[1..];
    }
  }

  lemma Inhabited(b: Level)
    requires b != []
    ensures exists t :: t in b
  {
    assert b[0] in b;
  }

  lemma FirstIsFirst(a: Level, b: Level)
    requires OrderedLevel(a) && OrderedLevel(b) && a != [] && forall t :: t in a <==> t in b
    ensures b != [] && a[0] == b[0]
  {
    assert a[0] in a && a[0] in b;
    assert b[0] in b && b[0] in a;
    var i :| 0 <= i < |b| && b[i] == a[0];
    var j :| 0 <= j < |a| && a[j] == b[0];
  }

  lemma TailMember(a: Level, t: Table)
    requires OrderedLevel(a) && a != []
    ensures t in a[1..] <==> t in a && t != a[0]
  {
    if t in a && t != a[0] {
      var i :| 0 <= i < |a| && a[i] == t;
      assert a[1..][i - 1] == t;
    }
    if t in a[1..] {
      var i :| 0 <= i < |a[1..]| && a[1..][i] == t;
      assert BySmallest(a[0], a[i + 1]);
    }
  }

  /** The builder's state and the running version say the same. */
  lemma {:induction false} AppliedIsSaved(files: Level, edits: seq<Edit>, l: nat)
    requires OrderedLevel(files) && FreshAdds(files, edits, l)
    ensures IsSaved(AppliedAll(files, edits, l), files, FedAll(edits, l))
    ensures OrderedLevel(FedAll(edits, l).added)
  {
    if edits != [] {
      hide OrderedLevel, AddedAt, DeletedAt, InsertAll, Remove;
      var n := |edits| - 1;
      AppliedIsSaved(files, edits[..n], l);
      var e := edits[n];
      StepIsSaved(files, AppliedAll(files, edits[..n], l), FedAll(edits[..n], l), DeletedAt(e, l), AddedAt(e.added, l));
    }
  }

  lemma StepIsSaved(files: Level, cur: Level, s: LevelState, gone: set<nat>, ts: Level)
    requires IsSaved(cur, files, s) && OrderedLevel(s.added) && DistinctNumbers(ts)
    requires forall t, u | t in ts && u in files :: t.number != u.number
    requires forall t, u | t in ts && u in s.added :: t.number != u.number
    ensures IsSaved(InsertAll(Remove(cur, gone), ts), files, Fed(s, gone, ts))
    ensures OrderedLevel(Fed(s, gone, ts).added)
  {
    hide OrderedLevel, DistinctNumbers, InsertAll, Remove;
    RemoveOrdered(cur, gone);
    InsertAllOrdered(Remove(cur, gone), ts);
    InsertAllOrdered(s.added, ts);
    var r, s' := InsertAll(Remove(cur, gone), ts), Fed(s, gone, ts);
    forall t ensures t in r <==> (t in files || t in s'.added) && t.number !in s'.deleted {
      if t in ts {
        assert t.number in Numbers(ts);
      } else if t in files || t in s.added {
        assert t.number !in Numbers(ts);
      }
    }
  }

  class Builder {
    const base: seq<Level>
    var levels: seq<LevelState>

    /** The edits fed so far. */
    ghost var edits: seq<Edit>

    ghost predicate Valid()
      reads this
    {
      && |base| == |levels| == NUM_LEVELS
      && forall l | 0 <= l < NUM_LEVELS :: levels[l] == FedAll(edits, l)
    }

    constructor (base: seq<Level>)
      requires |base| == NUM_LEVELS
      ensures Valid() && edits == [] && this.base == base
    {
      this.base, levels, edits := base, seq(NUM_LEVELS, l => LevelState({}, [])), [];
    }

    /** `Builder::Apply`; levels are below `kNumLevels`, as `DecodeFrom` checks. */
    method Apply(e: Edit)
      requires Valid() && (forall i | 0 <= i < |e.added| :: e.added[i].0 < NUM_LEVELS)
      modifies this
      ensures Valid() && edits == old(edits) + [e]
    {
      hide InsertTable, InsertAll, FedAll;
      levels := seq(NUM_LEVELS, l requires 0 <= l < NUM_LEVELS && |levels| == NUM_LEVELS reads this =>
                    levels[l].(deleted := levels[l].deleted + DeletedAt(e, l)));
      forall l | 0 <= l < NUM_LEVELS
        ensures levels[l] == Fed(old(levels)[l], DeletedAt(e, l), AddedAt(e.added[..0], l))
      {
        NoneAdded(old(levels)[l], DeletedAt(e, l));
      }
      for i := 0 to |e.added|
        invariant |levels| == NUM_LEVELS && edits == old(edits)
        invariant forall l | 0 <= l < NUM_LEVELS ::
                    levels[l] == Fed(old(levels)[l], DeletedAt(e, l), AddedAt(e.added[..i], l))
      {
        var (l, t) := e.added[i];
        assert e.added[..i + 1][..i] == e.added[..i];
        forall m | 0 <= m < NUM_LEVELS
          ensures Fed(old(levels)[m], DeletedAt(e, m), AddedAt(e.added[..i + 1], m))
               == if m == l then LevelState(levels[m].deleted - {t.number}, InsertTable(levels[m].added, t))
                  else levels[m]
        {
          OneMore(old(levels)[m], DeletedAt(e, m), AddedAt(e.added[..i], m), t);
        }
        levels := levels[l := LevelState(levels[l].deleted - {t.number}, InsertTable(levels[l].added, t))];
      }
      assert e.added[..|e.added|] == e.added;
      edits := edits + [e];
      forall l | 0 <= l < NUM_LEVELS ensures levels[l] == FedAll(edits, l) { FedMore(old(edits), e, l); }
    }

    /** `Builder::SaveTo`. */
    method SaveTo() returns (v: seq<Level>)
      requires Valid()
      ensures |v| == NUM_LEVELS
      ensures forall l | 0 <= l < NUM_LEVELS && OrderedLevel(base[l]) && FreshAdds(base[l], edits, l) ::
                v[l] == AppliedAll(base[l], edits, l)
    {
      hide OrderedLevel, FedAll, FreshAdds, AppliedAll;
      v := [];
      for l := 0 to NUM_LEVELS
        invariant |v| == l
        invariant forall m | 0 <= m < l && OrderedLevel(base[m]) && FreshAdds(base[m], edits, m) ::
                    v[m] == AppliedAll(base[m], edits, m)
      {
        var files := SaveLevel(base[l], levels[l]);
        if OrderedLevel(base[l]) && FreshAdds(base[l], edits, l) {
          AppliedIsSaved(base[l], edits, l);
          ApartNumbers(base[l], edits, l);
          OrderedUnique(files, AppliedAll(base[l], edits, l));
        }
        v := v + [files];
      }
    }
  }

  lemma FedMore(edits: seq<Edit>, e: Edit, l: nat)
    ensures FedAll(edits + [e], l) == Fed(FedAll(edits, l), DeletedAt(e, l), AddedAt(e.added, l))
  {
    hide Fed;
    assert (edits + [e])[..|edits|] == edits;
  }

  lemma OneMore(s: LevelState, gone: set<nat>, ts: Level, t: Table)
    ensures Fed(s, gone, ts + [t])
         == LevelState(Fed(s, gone, ts).deleted - {t.number}, InsertTable(Fed(s, gone, ts).added, t))
  {
    hide InsertTable;
    assert (ts + [t])[..|ts|] == ts;
    assert Numbers(ts + [t]) == Numbers(ts) + {t.number};
  }

  lemma NoneAdded(s: LevelState, gone: set<nat>)
    ensures Fed(s, gone, []) == LevelState(s.deleted + gone, s.added)
  {
    assert s.deleted + gone - Numbers([]) == s.deleted + gone;
  }

  /** A number the level added is not one its first version has. */
  lemma {:induction false} ApartNumbers(files: Level, edits: seq<Edit>, l: nat)
    requires FreshAdds(files, edits, l)
    ensures forall t, u | t in FedAll(edits, l).added && u in files :: t.number != u.number
  {
    if edits != [] {
      hide InsertAll, AddedAt;
      ApartNumbers(files, edits[..|edits| - 1], l);
    }
  }

  /** The merge of one level: files of the first version up to each added file, then that file. */
  method SaveLevel(base: Level, s: LevelState) returns (r: Level)
    ensures Mergeable(base, s) ==> IsSaved(r, base, s)
  {
    hide Merged, Mergeable;
    r := [];
    var b := 0;
    if Mergeable(base, s) { StartsMerged(base, s); }
    for i := 0 to |s.added|
      invariant b <= |base| && (Mergeable(base, s) ==> Merged(r, base, b, s, i))
    {
      while b < |base| && !BySmallest(s.added[i], base[b])
        invariant b <= |base| && (Mergeable(base, s) ==> Merged(r, base, b, s, i))
      {
        if Mergeable(base, s) { TakeBase(r, base, b, s, i); }
        if base[b].number !in s.deleted {
          r := r + [base[b]];
        }
        b := b + 1;
      }
      if Mergeable(base, s) { TakeAdded(r, base, b, s, i); }
      if s.added[i].number !in s.deleted {
        r := r + [s.added[i]];
      }
    }
    while b < |base|
      invariant b <= |base| && (Mergeable(base, s) ==> Merged(r, base, b, s, |s.added|))
    {
      if Mergeable(base, s) { TakeBase(r, base, b, s, |s.added|); }
      if base[b].number !in s.deleted {
        r := r + [base[b]];
      }
      b := b + 1;
    }
    if Mergeable(base, s) { AllMerged(r, base, s); }
  }

  /** Both lists are in order and share no file number. */
  ghost predicate Mergeable(base: Level, s: LevelState) {
    && OrderedLevel(base) && OrderedLevel(s.added)
    && forall t, u | t in s.added && u in base :: t.number != u.number
  }

  lemma StartsMerged(base: Level, s: LevelState)
    ensures Merged([], base, 0, s, 0)
  {
  }

  lemma AllMerged(r: Level, base: Level, s: LevelState)
    requires Merged(r, base, |base|, s, |s.added|)
    ensures IsSaved(r, base, s)
  {
    assert base[..|base|] == base && s.added[..|s.added|] == s.added;
  }

  /** The first `b` base files and `i` added files have been considered; the rest come later. */
  ghost predicate Merged(r: Level, base: Level, b: nat, s: LevelState, i: nat) {
    && b <= |base| && i <= |s.added| && OrderedLevel(r)
    && (forall t :: t in r <==> (t in base[..b] || t in s.added[..i]) && t.number !in s.deleted)
    && (forall t, j | t in r && b <= j < |base| :: BySmallest(t, base[j]))
    && (forall t, j | t in r && i <= j < |s.added| :: BySmallest(t, s.added[j]))
  }

  lemma BySmallestTotal(t: Table, u: Table)
    requires t.number != u.number && !BySmallest(t, u)
    ensures BySmallest(u, t)
  {
  }

  lemma BySmallestTrans(t: Table, u: Table, v: Table)
    requires BySmallest(t, u) && BySmallest(u, v)
    ensures BySmallest(t, v)
  {
  }

  lemma TakeBase(r: Level, base: Level, b: nat, s: LevelState, i: nat)
    requires Merged(r, base, b, s, i) && b < |base| && Mergeable(base, s)
    requires i < |s.added| ==> !BySmallest(s.added[i], base[b])
    ensures Merged(if base[b].number !in s.deleted then r + [base[b]] else r, base, b + 1, s, i)
  {
    hide BySmallest;
    var f := base[b];
    assert base[..b + 1] == base[..b] + [f];
    forall j | i <= j < |s.added| ensures BySmallest(f, s.added[j]) {
      assert s.added[i] in s.added && f in base;
      BySmallestTotal(s.added[i], f);
      if i < j { BySmallestTrans(f, s.added[i], s.added[j]); }
    }
    assert forall k | 0 <= k < |r| :: r[k] in r;
  }

  lemma TakeAdded(r: Level, base: Level, b: nat, s: LevelState, i: nat)
    requires Merged(r, base, b, s, i) && i < |s.added| && Mergeable(base, s)
    requires b < |base| ==> BySmallest(s.added[i], base[b])
    ensures Merged(if s.added[i].number !in s.deleted then r + [s.added[i]] else r, base, b, s, i + 1)
  {
    hide BySmallest;
    var f := s.added[i];
    assert s.added[..i + 1] == s.added[..i] + [f];
    forall j | b <= j < |base| ensures BySmallest(f, base[j]) {
      if b < j { BySmallestTrans(f, base[b], base[j]); }
    }
    assert forall k | 0 <= k < |r| :: r[k] in r;
  }

  lemma {:induction false} ReplayIsApplied(manifest: seq<Edit>, l: nat)
    requires l < NUM_LEVELS
    ensures Replay(manifest)[l] == AppliedAll([], manifest, l)
  {
    if manifest != [] {
      hide ApplyAt;
      ReplayIsApplied(manifest[..|manifest| - 1], l);
    }
  }

  /** `VersionSet::Recover`: one builder over the whole manifest finds the version that the running
      database had built edit by edit. */
  method RecoverVersion(manifest: seq<Edit>) returns (v: seq<Level>)
    requires forall e, i | e in manifest && 0 <= i < |e.added| :: e.added[i].0 < NUM_LEVELS
    ensures |v| == NUM_LEVELS
    ensures (forall l | 0 <= l < NUM_LEVELS :: FreshAdds([], manifest, l)) ==> v == Replay(manifest)
  {
    hide FreshAdds, FedAll, Replay, AppliedAll;
    var builder := new Builder(EmptyVersion());
    for i := 0 to |manifest|
      invariant builder.Valid() && builder.base == EmptyVersion() && builder.edits == manifest[..i]
    {
      builder.Apply(manifest[i]);
    }
    assert manifest[..|manifest|] == manifest;
    v := builder.SaveTo();
    forall l | 0 <= l < NUM_LEVELS ensures FreshAdds([], manifest, l) ==> v[l] == Replay(manifest)[l] {
      ReplayIsApplied(manifest, l);
    }
  }
}
