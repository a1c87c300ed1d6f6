/** Runs of a new database after which torn logs lose more than the last writes. */
module TornRuns {
  import opened Wrappers
  import opened Entries
  import opened Versions
  import opened Selection
  import opened Compactions
  import opened Edits
  import opened Engine
  import opened Steps
  import opened CompactionSteps
  import opened Installing
  import opened Runs
  import opened RunSteps
  import opened SplitRuns
  import opened Tails
  import opened TornLogs

  // ----- The older log -----

  /** One write in the memtable that waits, one in the current one. */
  lemma TwoMemtables(full: seq<Entry> -> bool, sizeOf: seq<Entry> -> nat, j: Key, k: Key, v: Payload)
    returns (ws: seq<World>)
    ensures ws != [] && Chain(ws) && ws[0] == NewDatabase(full, sizeOf)
    ensures var db := Tip(ws).db;
            && db.inflight.None? && db.imm == Some([Entry(k, 1, Value, v)]) && db.mem == [Entry(j, 2, Value, v)]
  {
    hide Chain, NewDatabase, InsertEntries, BatchEntries, EmptyVersion;
    NewIsAtRest(full, sizeOf);
    OneChain(NewDatabase(full, sizeOf));
    PutInserted(1, k, v);
    PutInserted(2, j, v);
    var w1 := WriteSteps([NewDatabase(full, sizeOf)], [Put(k, v)], [], EmptyVersion(), [], 0);
    var w2 := Then(w1, DoSwitch);
    var w3 := Then(w2, DoLogWrite([Put(j, v)]));
    ws := Then(w3, DoApplyWrite);
  }

  /** The older log lost, the newer one whole: the later write survives and the earlier one does not. */
  lemma HoleIsReached(full: seq<Entry> -> bool, sizeOf: seq<Entry> -> nat, j: Key, k: Key, v: Payload)
    returns (ws: seq<World>, torn: map<nat, seq<Batch>>)
    ensures ws != [] && Chain(ws) && ws[0] == NewDatabase(full, sizeOf) && CanTear(Tip(ws).db, torn)
    ensures Entry(j, 2, Value, v) in Survivors(Tip(ws), torn)
    ensures Entry(k, 1, Value, v) in Tip(ws).history - Survivors(Tip(ws), torn)
  {
    hide Chain, NewDatabase, Good, LogEntries, Ascending, Tailed;
    ws := TwoMemtables(full, sizeOf, j, k, v);
    var w := Tip(ws);
    EveryRunIsGood(full, sizeOf, ws, |ws| - 1);
    RunTailed(full, sizeOf, ws, |ws| - 1);
    LoggedFacts(w);
    torn := w.db.logs[w.db.logNumber := []];
    FrontFacts(w, torn);
    Hole(w, torn, Entry(j, 2, Value, v), Entry(k, 1, Value, v));
  }

  lemma Hole(w: World, torn: map<nat, seq<Batch>>, d: Entry, e: Entry)
    requires Good(w) && Tailed(w) && CanTear(w.db, torn) && w.db.imm == Some([e]) && w.db.mem == [d]
    requires w.db.logNumber < w.db.memLog && torn == w.db.logs[w.db.logNumber := []]
    ensures d in Survivors(w, torn) && e in w.history - Survivors(w, torn)
  {
    hide Good, Ascending;
    LoggedFacts(w);
    FrontFacts(w, torn);
    assert d in Set(w.db.mem) && e in Set(ImmSeq(w.db.imm));
    ApartStamps(Flushed(w) + Set(ImmSeq(w.db.imm)), Set(w.db.mem));
  }

  // ----- A dropped deletion -----

  /** A later write of `k` in the memtable hides what dropping its deletion uncovers. */
  lemma HiddenByMemtable(db: Db, f: Table, t: Table, u: Table, j: Key, k: Key, w: Payload, y: Payload)
    requires |db.levels| == NUM_LEVELS && db.levels[1] == [f] && db.levels[2] == [t, u] && db.snapshots == []
    requires db.last == 5 && db.mem == [Entry(k, 5, Value, y)] && f.entries[0].kind == Value && |f.entries| == 1
    requires t.entries == Pair(j, k, w, 2)
    ensures NothingUncovered(Job(1, [f], [t], OldestReadable(db), db.levels, []), Stored(db))
  {
    hide LeftOut, IsBase, VersionSet;
    var job, S := Job(1, [f], [t], OldestReadable(db), db.levels, []), Stored(db);
    assert Entry(k, 5, Value, y) in Set(db.mem);
    forall e, d ensures !Uncovers(job, S, e, d) {
      if e in InputSet(job) && e.kind == Deletion {
        assert e in f.entries || e in t.entries;
        assert e == Entry(k, 3, Deletion, []);
        assert !Exposed(S, 5, e);
      }
    }
  }

  /** Up to the start of the compaction: `k` deleted in the tables, and written again in the memtable. */
  lemma HiddenReached(full: seq<Entry> -> bool, sizeOf: seq<Entry> -> nat, j: Key, k: Key, v: Payload, w: Payload,
                      x: Payload, y: Payload, bytes: nat)
    returns (before: seq<World>, ws: seq<World>, f: Table, t: Table, u: Table)
    requires j < k && bytes <= MAX_GRANDPARENT_OVERLAP_BYTES
    ensures before != [] && Chain(before) && before[0] == NewDatabase(full, sizeOf)
    ensures AtRest(Tip(before).db, [], EmptyVersion()[2 := [t, u]][1 := [f]], [], 4)
    ensures f.entries == [Entry(j, 4, Value, x)] && t.entries == Pair(j, k, w, 2)
    ensures u.entries == [Entry(k, 1, Value, v)]
    ensures ws != [] && Chain(ws) && ws[0] == NewDatabase(full, sizeOf)
    ensures AtRest(Tip(ws).db, [Entry(k, 5, Value, y)], EmptyVersion()[2 := [t, u]][1 := [f]], [], 5)
    ensures Tip(ws).history == Tip(before).history + {Entry(k, 5, Value, y)} && Tip(ws).floor == Tip(before).floor
  {
    hide Chain, NewDatabase, InsertEntries, BatchEntries, EmptyVersion;
    before, f, t, u := FlushedAbove(full, sizeOf, j, k, v, w, x, bytes);
    PutInserted(5, k, y);
    var mid := Then(before, DoLogWrite([Put(k, y)]));
    ws := Then(mid, DoApplyWrite);
    assert Set([Entry(k, 5, Value, y)]) == {Entry(k, 5, Value, y)};
  }

  lemma HiddenCanBegin(db: Db, f: Table, t: Table, u: Table, j: Key, k: Key, v: Payload, w: Payload, x: Payload,
                       y: Payload)
    requires j < k && AtRest(db, [Entry(k, 5, Value, y)], EmptyVersion()[2 := [t, u]][1 := [f]], [], 5)
    requires f.entries == [Entry(j, 4, Value, x)] && t.entries == Pair(j, k, w, 2)
    requires u.entries == [Entry(k, 1, Value, v)]
    ensures CanBegin(db, 1, [f], [t])
  {
    hide NothingUncovered, ValidInputs, SetUp, Over;
    AboveIsOver(db.levels, f, t, u);
    PairValid(db.levels, 1, f, t);
    HiddenByMemtable(db, f, t, u, j, k, w, y);
    AllTaken(db.levels[1], f);
  }

  lemma AllTaken(files: Level, f: Table)
    requires files == [f]
    ensures SplitFree(files, [f])
  {
  }

  lemma OneInstall(db: Db, o: Table)
    requires db.job.Some? && db.job.value.numbers == [o.number] && db.job.value.version == db.levels
    requires |db.levels| == NUM_LEVELS && db.job.value.level + 1 < NUM_LEVELS && o.entries == JobKept(db.job.value)
    ensures CanInstall(db, [o])
  {
    hide JobKept;
    OneFlat(o);
  }

  /** The levels after the compaction: the new `j`, and the old value of `k`. */
  lemma LeftInTables(db: Db, f: Table, t: Table, u: Table, o: Table)
    requires db.job.Some? && db.job.value.level == 1 && db.job.value.in0 == [f] && db.job.value.in1 == [t]
    requires db.levels == EmptyVersion()[2 := [t, u]][1 := [f]] && t.number != u.number && CanInstall(db, [o])
    ensures VersionSet(Install(db, [o]).levels) == Set(u.entries) + Set(o.entries)
  {
    hide Apply, InstallEdit, InsertAll, CanInstall, Flat, JobKept;
    InstallLevels(db, [o]);
    NothingRests(f);
    OneRests(t, u);
    InsertAllSet([u], [o]);
    var r := Install(db, [o]).levels;
    assert r[2] == InsertAll([u], [o]);
    TwoSingles(u, o);
    forall e ensures e in VersionSet(r) <==> e in Set(u.entries) + Set(o.entries) {
      VersionMember(r, e);
      if l :| 0 <= l < |r| && e in LevelSet(r[l]) { assert l == 2; }
      if e in Set(u.entries) + Set(o.entries) { assert e in LevelSet(r[2]); }
    }
  }

  lemma TwoSingles(u: Table, o: Table)
    ensures LevelSet([u]) == Set(u.entries) && LevelSet([o]) == Set(o.entries)
  {
  }

  lemma OneRests(t: Table, u: Table)
    requires t.number != u.number
    ensures Rest([t, u], [t]) == [u]
  {
    assert [t, u][1..] == [u] && [u][1..] == [];
    assert t in [t] && t.number in Numbers([t]) && u.number !in Numbers([t]);
    assert Remove([u], Numbers([t])) == [u] + Remove([], Numbers([t]));
  }

  /** In the state before, `k` reads as deleted, whatever comes later. */
  lemma DeletedBefore(w: World, f: Table, t: Table, u: Table, j: Key, k: Key, v: Payload, p: Payload, x: Payload)
    requires Good(w) && j < k && AtRest(w.db, [], EmptyVersion()[2 := [t, u]][1 := [f]], [], 4)
    requires f.entries == [Entry(j, 4, Value, x)] && t.entries == Pair(j, k, p, 2)
    requires u.entries == [Entry(k, 1, Value, v)]
    ensures Reads(w.history, k, 5, None) && SeqsAtMost(w.history, 4) && UniqueSeqs(w.history) && w.floor <= 4
  {
    hide Reads, Layers, Saved, Logged, LastSaved, BatchesWithin, OnDisk, JobLive, BordersSafe, SameReads, VersionSet,
         EmptyVersion;
    DeletedStored(w.db, f, t, u, j, k, v, p, x);
    GoodReads(w, k, 4, None);
    ReadsBeyond(w.history, 4, k, 4, 5, None);
  }

  lemma DeletedStored(db: Db, f: Table, t: Table, u: Table, j: Key, k: Key, v: Payload, p: Payload, x: Payload)
    requires j < k && AtRest(db, [], EmptyVersion()[2 := [t, u]][1 := [f]], [], 4)
    requires f.entries == [Entry(j, 4, Value, x)] && t.entries == Pair(j, k, p, 2)
    requires u.entries == [Entry(k, 1, Value, v)]
    ensures Reads(Stored(db), k, 4, None)
  {
    AboveStored(db, f, t, u, j, k);
    var e := Entry(k, 3, Deletion, []);
    VersionMember(db.levels, e);
    assert t in db.levels[2] && t.entries[1] == e && e in t.entries;
    assert e in LevelSet(db.levels[2]);
    assert Newest(Stored(db), k, 4, e);
  }

  /** The deletion is dropped while a later write in the memtable hides what that uncovers.  When the log of that
      write is lost, the tables show the deleted value, though the writes that survive have it deleted. */
  lemma TornRevives(full: seq<Entry> -> bool, sizeOf: seq<Entry> -> nat, j: Key, k: Key, v: Payload, w: Payload,
                    x: Payload, y: Payload, bytes: nat) returns (ws: seq<World>, torn: map<nat, seq<Batch>>)
    requires j < k && bytes <= MAX_GRANDPARENT_OVERLAP_BYTES
    ensures ws != [] && Chain(ws) && ws[0] == NewDatabase(full, sizeOf) && CanTear(Tip(ws).db, torn)
    ensures !TablesTrue(Tip(ws)) && Tip(ws).floor <= 5
    ensures Reads(Left(Tip(ws), torn), k, 5, Some(v)) && Reads(Survivors(Tip(ws), torn), k, 5, None)
  {
    hide Chain, NewDatabase, Good, CanBegin, CanInstall, JobKept, Reads, VersionSet, Left, Survivors, Apply,
         InstallEdit, Torn, TablesTrue;
    var before, mid, f, t, u;
    before, mid, f, t, u := HiddenReached(full, sizeOf, j, k, v, w, x, y, bytes);
    EveryRunIsGood(full, sizeOf, before, |before| - 1);
    DeletedBefore(Tip(before), f, t, u, j, k, v, w, x);
    EveryRunIsGood(full, sizeOf, mid, |mid| - 1);
    DistinctAbove(Tip(mid), t, u);
    HiddenCanBegin(Tip(mid).db, f, t, u, j, k, v, w, x, y);
    var open, n := OpenOne(mid, 1, [f], [t]);
    var db := Tip(open).db;
    AboveKept(db.job.value, f, t, j, k, w, x);
    var o := TableFile(n, bytes, f.entries);
    OneInstall(db, o);
    ws := Then(open, DoInstall([o]));
    LeftInTables(db, f, t, u, o);
    torn := Emptied(db.logs);
    Uncovered(Tip(before), Tip(mid), Tip(open), Tip(ws), torn, u, o, k, v, y, j);
  }

  lemma DistinctAbove(w: World, t: Table, u: Table)
    requires Good(w) && |w.db.levels| == NUM_LEVELS && w.db.levels[2] == [t, u] && t != u
    ensures t.number != u.number
  {
    hide Layers, Truthful, Logged, LastSaved, BatchesWithin, OnDisk, JobLive, BordersSafe, Replay;
    assert t in w.db.levels[2] && u in w.db.levels[2];
  }

  lemma Uncovered(before: World, mid: World, open: World, w: World, torn: map<nat, seq<Batch>>, u: Table, o: Table,
                  k: Key, v: Payload, y: Payload, j: Key)
    requires Reads(before.history, k, 5, None) && SeqsAtMost(before.history, 4) && UniqueSeqs(before.history)
    requires mid.history == before.history + {Entry(k, 5, Value, y)} && open.history == mid.history
    requires w.history == open.history && w.floor <= 5 && j < k
    requires w.db.mem == [Entry(k, 5, Value, y)] && w.db.imm.None? && w.db.inflight.None? && w.db.memLog in w.db.logs
    requires VersionSet(w.db.levels) == Set(u.entries) + Set(o.entries) && torn == Emptied(w.db.logs)
    requires u.entries == [Entry(k, 1, Value, v)] && |o.entries| == 1 && o.entries[0].key == j
    ensures CanTear(w.db, torn) && !TablesTrue(w)
    ensures Reads(Left(w, torn), k, 5, Some(v)) && Reads(Survivors(w, torn), k, 5, None)
  {
    hide VersionSet;
    assert CanTear(w.db, torn);
    NothingLeft(w, torn);
    assert Set(w.db.mem) == {Entry(k, 5, Value, y)} && Set(ImmSeq(w.db.imm)) == {};
    assert Flushed(w) == before.history;
    var e := Entry(k, 1, Value, v);
    assert e in Set(u.entries);
    assert Newest(VersionSet(w.db.levels), k, 5, e);
    if Reads(before.history, k, 5, Some(v)) { ReadsUnique(before.history, k, 5, None, Some(v)); }
  }
}
