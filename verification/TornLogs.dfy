/** Crashes that lose the ends of logs: what reopening gives, and when that is a prefix of the writes. */
module TornLogs {
  import opened Wrappers
  import opened Coding
  import opened KeyOrder
  import opened Entries
  import opened Versions
  import opened Edits
  import opened Engine
  import opened Steps
  import opened Installing
  import opened Recovery
  import opened Reopening
  import opened Runs
  import opened Tails
  import opened LogFormat
  import WriteBatches

  // ----- Logs without their ends -----

  /** Every log has kept its first batches, and no log is gone. */
  ghost predicate Torn(logs: map<nat, seq<Batch>>, torn: map<nat, seq<Batch>>) {
    torn.Keys == logs.Keys && forall n | n in logs :: torn[n] <= logs[n]
  }

  lemma {:induction false} EntriesPrefix(log: seq<Batch>, m: nat)
    requires m <= |log|
    ensures LogEntries(log[..m]) <= LogEntries(log)
  {
    hide BatchEntries;
    if m < |log| {
      var n := |log| - 1;
      EntriesPrefix(log[..n], m);
      assert log[..n][..m] == log[..m];
    } else {
      assert log[..m] == log;
    }
  }

  ghost predicate CanTear(db: Db, torn: map<nat, seq<Batch>>) {
    && db.inflight.None? && db.memLog in db.logs && (db.imm.Some? ==> db.logNumber in db.logs) && Torn(db.logs, torn)
  }

  /** What is left of the memtable's log, and of the log of the one waiting to be flushed. */
  ghost function FrontMem(db: Db, torn: map<nat, seq<Batch>>): seq<Entry>
    requires CanTear(db, torn)
  {
    LogEntries(torn[db.memLog])
  }

  ghost function FrontImm(db: Db, torn: map<nat, seq<Batch>>): seq<Entry>
    requires CanTear(db, torn)
  {
    if db.imm.Some? then LogEntries(torn[db.logNumber]) else []
  }

  /** The writes that survive: all that were flushed, and those. */
  ghost function Survivors(w: World, torn: map<nat, seq<Batch>>): set<Entry>
    requires CanTear(w.db, torn)
  {
    Flushed(w) + Set(FrontImm(w.db, torn)) + Set(FrontMem(w.db, torn))
  }

  lemma LoggedFacts(w: World)
    requires Good(w) && w.db.inflight.None?
    ensures w.db.memLog in w.db.logs && Ascending(LogEntries(w.db.logs[w.db.memLog]))
    ensures Set(LogEntries(w.db.logs[w.db.memLog])) == Set(w.db.mem)
    ensures w.db.imm.Some? ==>
              && w.db.logNumber in w.db.logs && w.db.logNumber < w.db.memLog
              && Ascending(LogEntries(w.db.logs[w.db.logNumber]))
              && Set(LogEntries(w.db.logs[w.db.logNumber])) == Set(ImmSeq(w.db.imm))
    ensures Set(w.db.mem) <= w.history && Set(ImmSeq(w.db.imm)) <= w.history
  {
    hide Layers, Saved, BatchesWithin, OnDisk, JobLive, BordersSafe, SameReads, LogEntries, UniqueSeqs, SeqsAtMost,
         Ascending, VersionSet;
  }

  lemma PartOf(all: seq<Entry>, part: seq<Entry>)
    requires Ascending(all) && part <= all
    ensures Ascending(part) && Set(part) <= Set(all)
  {
  }

  lemma FrontFacts(w: World, torn: map<nat, seq<Batch>>)
    requires Good(w) && CanTear(w.db, torn)
    ensures Ascending(FrontMem(w.db, torn)) && Set(FrontMem(w.db, torn)) <= Set(w.db.mem)
    ensures Ascending(FrontImm(w.db, torn)) && Set(FrontImm(w.db, torn)) <= Set(ImmSeq(w.db.imm))
  {
    hide Good, LogEntries, Ascending;
    LoggedFacts(w);
    var log := w.db.logs[w.db.memLog];
    TornEntries(log, torn[w.db.memLog]);
    PartOf(LogEntries(log), FrontMem(w.db, torn));
    if w.db.imm.Some? {
      TornEntries(w.db.logs[w.db.logNumber], torn[w.db.logNumber]);
      PartOf(LogEntries(w.db.logs[w.db.logNumber]), FrontImm(w.db, torn));
    } else {
      NothingAscends();
    }
  }

  lemma NothingAscends()
    ensures Ascending([])
  {
  }

  lemma TornEntries(log: seq<Batch>, part: seq<Batch>)
    requires part <= log
    ensures LogEntries(part) <= LogEntries(log)
  {
    hide LogEntries;
    EntriesPrefix(log, |part|);
    assert log[..|part|] == part;
  }

  // ----- What is lost -----

  lemma PrefixFirst(all: seq<Entry>, n: nat, d: Entry, e: Entry)
    requires Ascending(all) && n <= |all| && d in all[..n] && e in all && e !in all[..n]
    ensures d.stamp < e.stamp
  {
    var i :| 0 <= i < n && all[i] == d;
    var j :| 0 <= j < |all| && all[j] == e;
  }

  lemma LostBehind(all: seq<Entry>, part: seq<Entry>, d: Entry, e: Entry)
    requires Ascending(all) && part <= all && d in part && e in all && e !in part
    ensures d.stamp < e.stamp
  {
    hide Ascending;
    assert all[..|part|] == part;
    PrefixFirst(all, |part|, d, e);
  }

  /** What survives was written before what is lost, if and only if the older log lost nothing or nothing is
      left of the newer one. */
  lemma PrefixIff(w: World, torn: map<nat, seq<Batch>>)
    requires Good(w) && Tailed(w) && CanTear(w.db, torn)
    ensures Survivors(w, torn) <= w.history
    ensures StampsBefore(Survivors(w, torn), w.history - Survivors(w, torn))
       <==> Set(FrontImm(w.db, torn)) == Set(ImmSeq(w.db.imm)) || FrontMem(w.db, torn) == []
  {
    hide Good, LogEntries, Ascending;
    LoggedFacts(w);
    FrontFacts(w, torn);
    var I, M := Set(ImmSeq(w.db.imm)), Set(w.db.mem);
    var front0, front1 := FrontImm(w.db, torn), FrontMem(w.db, torn);
    if Set(front0) == I || front1 == [] {
      forall d, e | d in Survivors(w, torn) && e in w.history - Survivors(w, torn) ensures d.stamp < e.stamp {
        SurvivorFirst(w, torn, d, e);
      }
    } else {
      var e :| e in I && e !in Set(front0);
      var d := front1[0];
      assert d in Set(front1) && d in M;
      ApartStamps(Flushed(w) + I, M);
      assert e in w.history - Survivors(w, torn) && d in Survivors(w, torn) && e.stamp < d.stamp;
    }
  }

  lemma SurvivorFirst(w: World, torn: map<nat, seq<Batch>>, d: Entry, e: Entry)
    requires Good(w) && Tailed(w) && CanTear(w.db, torn)
    requires Set(FrontImm(w.db, torn)) == Set(ImmSeq(w.db.imm)) || FrontMem(w.db, torn) == []
    requires d in Survivors(w, torn) && e in w.history - Survivors(w, torn)
    ensures d.stamp < e.stamp
  {
    hide Good, LogEntries, Ascending;
    LoggedFacts(w);
    FrontFacts(w, torn);
    if e in Set(w.db.mem) {
      if d in FrontMem(w.db, torn) {
        TornEntries(w.db.logs[w.db.memLog], torn[w.db.memLog]);
        InLog(LogEntries(w.db.logs[w.db.memLog]), w.db.mem, e);
        LostBehind(LogEntries(w.db.logs[w.db.memLog]), FrontMem(w.db, torn), d, e);
      }
    } else if d in FrontImm(w.db, torn) {
      TornEntries(w.db.logs[w.db.logNumber], torn[w.db.logNumber]);
      InLog(LogEntries(w.db.logs[w.db.logNumber]), ImmSeq(w.db.imm), e);
      LostBehind(LogEntries(w.db.logs[w.db.logNumber]), FrontImm(w.db, torn), d, e);
    }
  }

  lemma InLog(all: seq<Entry>, mem: seq<Entry>, e: Entry)
    requires Set(all) == Set(mem) && e in mem
    ensures e in all
  {
    assert e in Set(mem);
  }

  // ----- Reads -----

  lemma ReadsBeyond(A: set<Entry>, last: nat, k: Key, s: nat, t: nat, r: Option<Payload>)
    requires SeqsAtMost(A, last) && last <= s && last <= t
    ensures Reads(A, k, s, r) <==> Reads(A, k, t, r)
  {
    assert forall e :: Newest(A, k, s, e) <==> Newest(A, k, t, e);
    assert Absent(A, k, s) <==> Absent(A, k, t);
  }

  function Least(a: nat, b: nat): nat {
    if a < b then a else b
  }

  /** Below the floor, but above every write: nothing more to see. */
  lemma LowerFloor(A: set<Entry>, B: set<Entry>, floor: nat, last: nat)
    requires SameReads(A, B, floor) && SeqsAtMost(A, last) && SeqsAtMost(B, last)
    ensures SameReads(A, B, Least(floor, last))
  {
    hide Reads;
    forall k, s: nat, r: Option<Payload> | Least(floor, last) <= s ensures Reads(A, k, s, r) <==> Reads(B, k, s, r) {
      if s < floor {
        ReadsBeyond(A, last, k, s, floor, r);
        ReadsBeyond(B, last, k, s, floor, r);
      }
    }
  }

  // ----- The store the torn logs stand for -----

  ghost function CutLast(db: Db, torn: map<nat, seq<Batch>>, order: seq<nat>): nat
    requires CanTear(db, torn) && db.manifest != [] && forall n | n in order :: n in torn
  {
    Max(SavedLast(db), MaxInLogs(order, torn))
  }

  /** The manifest with another last sequence number. */
  ghost function Resaved(manifest: seq<Edit>, last: nat): seq<Edit>
    requires manifest != []
  {
    var n := |manifest| - 1;
    manifest[n := manifest[n].(lastSequence := last)]
  }

  ghost function CutDb(db: Db, torn: map<nat, seq<Batch>>, order: seq<nat>): Db
    requires CanTear(db, torn) && db.manifest != [] && forall n | n in order :: n in torn
  {
    var last := CutLast(db, torn, order);
    db.(mem := InsertEntries([], FrontMem(db, torn)),
        imm := if db.imm.Some? then Some(InsertEntries([], FrontImm(db, torn))) else None,
        logs := torn, last := last, snapshots := [], pinned := [], job := None, manifest := Resaved(db.manifest, last))
  }

  lemma ResavedReplays(manifest: seq<Edit>, last: nat)
    requires manifest != []
    ensures Replay(Resaved(manifest, last)) == Replay(manifest)
  {
    var n := |manifest| - 1;
    var r := Resaved(manifest, last);
    assert r[..n] == manifest[..n];
    var a, b := manifest[n], r[n];
    var base := Replay(manifest[..n]);
    forall l | 0 <= l < NUM_LEVELS ensures ApplyAt(base[l], a, l) == ApplyAt(base[l], b, l) {
      assert DeletedAt(a, l) == DeletedAt(b, l);
    }
    assert Apply(base, a) == Apply(base, b);
  }

  lemma Rebuilt(front: seq<Entry>)
    requires Ascending(front)
    ensures Sorted(InsertEntries([], front)) && Set(InsertEntries([], front)) == Set(front)
  {
    InsertEntriesSorted([], front);
  }

  lemma CutLayers(w: World, mem: seq<Entry>, imm: Option<seq<Entry>>)
    requires Good(w) && Sorted(mem) && Set(mem) <= Set(w.db.mem)
    requires Sorted(ImmSeq(imm)) && Set(ImmSeq(imm)) <= Set(ImmSeq(w.db.imm))
    ensures Layers(mem, imm, w.db.levels)
  {
    hide Truthful, Saved, Logged, LastSaved, BatchesWithin, OnDisk, JobLive, BordersSafe, ValidVersion, Sorted,
         VersionSet;
  }

  // ----- The sequence number recovered from it -----

  lemma {:induction false} LastOfBounds(log: seq<Batch>, b: Batch)
    requires b in log
    ensures b.first + |b.ops| <= MaxInLog(log) + 1
  {
    var n := |log| - 1;
    if b in log[..n] { LastOfBounds(log[..n], b); } else { assert b == log[n]; }
  }

  lemma {:induction false} LastInLogs(order: seq<nat>, logs: map<nat, seq<Batch>>, n: nat, b: Batch)
    requires (forall n | n in order :: n in logs) && n in order && b in logs[n]
    ensures b.first + |b.ops| <= MaxInLogs(order, logs) + 1
  {
    if n == order[0] {
      LastOfBounds(logs[n], b);
    } else {
      assert n in order[1..];
      LastInLogs(order[1..], logs, n, b);
    }
  }

  lemma {:induction false} EntryBatch(log: seq<Batch>, e: Entry) returns (b: Batch)
    requires e in LogEntries(log)
    ensures b in log && e.stamp < b.first + |b.ops|
  {
    hide BatchEntries;
    var n := |log| - 1;
    if e in LogEntries(log[..n]) {
      b := EntryBatch(log[..n], e);
    } else {
      b := log[n];
      BatchStamps(b);
    }
  }

  lemma StampInLogs(order: seq<nat>, logs: map<nat, seq<Batch>>, n: nat, e: Entry)
    requires (forall n | n in order :: n in logs) && n in order && e in LogEntries(logs[n])
    ensures e.stamp <= MaxInLogs(order, logs)
  {
    hide LogEntries, MaxInLogs;
    var b := EntryBatch(logs[n], e);
    LastInLogs(order, logs, n, b);
  }

  ghost predicate Tearable(w: World, torn: map<nat, seq<Batch>>, order: seq<nat>) {
    && Good(w) && Tailed(w) && CanTear(w.db, torn) && IsLogList(order, w.db.logs, w.db.logNumber)
    && (forall n | n in order :: n in torn)
  }

  lemma ListFacts(w: World, torn: map<nat, seq<Batch>>, order: seq<nat>)
    requires Tearable(w, torn, order)
    ensures IsLogList(order, torn, w.db.logNumber) && w.db.memLog in order
    ensures w.db.imm.Some? ==> w.db.logNumber in order
  {
    hide Layers, Truthful, Saved, LastSaved, BatchesWithin, OnDisk, JobLive, BordersSafe, LogEntries, Ascending,
         Tailed;
    assert forall n :: n in w.db.logs <==> n in torn;
  }

  lemma SurvivorsNumbered(w: World, torn: map<nat, seq<Batch>>, order: seq<nat>)
    requires Tearable(w, torn, order)
    ensures w.db.manifest != [] && SeqsAtMost(Survivors(w, torn), CutLast(w.db, torn, order))
  {
    hide Good, LogEntries, IsLogList, MaxInLogs, StampsBefore;
    ListFacts(w, torn, order);
    forall e | e in Survivors(w, torn) ensures e.stamp <= CutLast(w.db, torn, order) {
      if e in FrontMem(w.db, torn) {
        StampInLogs(order, torn, w.db.memLog, e);
      } else if e in FrontImm(w.db, torn) {
        StampInLogs(order, torn, w.db.logNumber, e);
      }
    }
  }

  lemma CutWithin(w: World, torn: map<nat, seq<Batch>>, order: seq<nat>)
    requires Tearable(w, torn, order) && w.db.manifest != []
    ensures BatchesWithin(torn, w.db.logNumber, CutLast(w.db, torn, order) + 1)
  {
    hide Good, MaxInLogs, Tailed;
    ListFacts(w, torn, order);
    forall n: nat, b: Batch | n in torn && w.db.logNumber <= n && b in torn[n]
      ensures b.first + |b.ops| <= CutLast(w.db, torn, order) + 1
    {
      LastInLogs(order, torn, n, b);
    }
  }

  /** Nothing later than before. */
  lemma CutLastBound(w: World, torn: map<nat, seq<Batch>>, order: seq<nat>)
    requires Tearable(w, torn, order) && w.db.manifest != []
    ensures CutLast(w.db, torn, order) <= w.db.last < MAX_SEQUENCE
  {
    hide Layers, Saved, Logged, OnDisk, JobLive, BordersSafe, Tailed, SameReads, UniqueSeqs, SeqsAtMost, MaxInLogs;
    forall n: nat, b: Batch | n in order && b in torn[n] ensures b.first + |b.ops| <= w.db.last + 1 {
      assert n in w.db.logs && torn[n] <= w.db.logs[n];
      assert b in w.db.logs[n];
    }
    MaxInLogsBounds(order, torn, w.db.last);
  }

  /** What the store holds after the crash. */
  ghost function Left(w: World, torn: map<nat, seq<Batch>>): set<Entry>
    requires CanTear(w.db, torn)
  {
    VersionSet(w.db.levels) + Set(FrontImm(w.db, torn)) + Set(FrontMem(w.db, torn))
  }

  lemma LeftSurvives(w: World, torn: map<nat, seq<Batch>>, order: seq<nat>)
    requires Tearable(w, torn, order) && w.db.manifest != []
    ensures Left(w, torn) <= Survivors(w, torn) && UniqueSeqs(Survivors(w, torn)) && UniqueSeqs(Left(w, torn))
    ensures SeqsAtMost(Survivors(w, torn), CutLast(w.db, torn, order))
    ensures SeqsAtMost(Left(w, torn), CutLast(w.db, torn, order))
  {
    hide Good, LogEntries, SameReads, IsLogList, MaxInLogs, StampsBefore, VersionSet, Ascending;
    PrefixIff(w, torn);
    SurvivorsNumbered(w, torn, order);
    TablesFlushed(w);
    UniqueLess(w.history, Survivors(w, torn));
    UniqueLess(w.history, Left(w, torn));
  }

  lemma Subset(A: set<Entry>, B: set<Entry>, C: set<Entry>)
    requires StampsBefore(A, C) && B <= C
    ensures StampsBefore(A, B)
  {
  }

  /** If the tables by themselves are true, so is what is left, for the writes that survive. */
  lemma LeftTrue(w: World, torn: map<nat, seq<Batch>>, order: seq<nat>)
    requires Tearable(w, torn, order) && TablesTrue(w) && w.db.manifest != []
    ensures SameReads(Left(w, torn), Survivors(w, torn), Least(w.floor, CutLast(w.db, torn, order)))
  {
    hide Good, LogEntries, SameReads, IsLogList, MaxInLogs, StampsBefore, VersionSet, Ascending;
    LeftSurvives(w, torn, order);
    FrontFacts(w, torn);
    TablesFlushed(w);
    var V, F := VersionSet(w.db.levels), Flushed(w);
    var front0, front1 := Set(FrontImm(w.db, torn)), Set(FrontMem(w.db, torn));
    Subset(F, front0, Set(ImmSeq(w.db.imm)));
    ReadsOver(V, F, front0, w.floor);
    Earlier(F, front0, Set(ImmSeq(w.db.imm)), front1, Set(w.db.mem));
    ReadsOver(front0 + V, F + front0, front1, w.floor);
    assert front1 + (front0 + V) == Left(w, torn);
    LowerFloor(Left(w, torn), Survivors(w, torn), w.floor, CutLast(w.db, torn, order));
  }

  lemma Earlier(F: set<Entry>, P: set<Entry>, I: set<Entry>, Q: set<Entry>, M: set<Entry>)
    requires StampsBefore(F + I, M) && P <= I && Q <= M
    ensures StampsBefore(F + P, Q)
  {
  }

  lemma CutLogged(w: World, torn: map<nat, seq<Batch>>, mem: seq<Entry>, imm: Option<seq<Entry>>)
    requires Good(w) && CanTear(w.db, torn) && Set(mem) == Set(FrontMem(w.db, torn))
    requires imm.Some? == w.db.imm.Some? && (imm.Some? ==> Set(imm.value) == Set(FrontImm(w.db, torn)))
    ensures Logged(mem, imm, None, torn, w.db.logNumber, w.db.memLog)
  {
    hide Layers, Truthful, Saved, LastSaved, BatchesWithin, OnDisk, JobLive, BordersSafe, LogEntries, Ascending;
    FrontFacts(w, torn);
    if w.db.imm.Some? { ApartLogs(w, torn); }
  }

  lemma ApartLogs(w: World, torn: map<nat, seq<Batch>>)
    requires Good(w) && CanTear(w.db, torn) && w.db.imm.Some?
    ensures forall d, e | d in LogEntries(torn[w.db.logNumber]) && e in LogEntries(torn[w.db.memLog]) ::
              d.stamp < e.stamp
  {
    hide Layers, Truthful, Saved, LastSaved, BatchesWithin, OnDisk, JobLive, BordersSafe, LogEntries, Ascending;
    TornEntries(w.db.logs[w.db.logNumber], torn[w.db.logNumber]);
    TornEntries(w.db.logs[w.db.memLog], torn[w.db.memLog]);
  }

  lemma CutSaved(w: World, last: nat)
    requires Good(w) && w.db.manifest != []
    ensures Saved(w.db.levels, Resaved(w.db.manifest, last), w.db.logNumber, w.db.nextFile)
  {
    hide Layers, Truthful, Logged, LastSaved, BatchesWithin, OnDisk, JobLive, BordersSafe, Replay, NumbersUnique,
         NumbersBelow, OrderedLevels;
    ResavedReplays(w.db.manifest, last);
  }

  lemma CutOnDisk(w: World, torn: map<nat, seq<Batch>>, order: seq<nat>)
    requires Tearable(w, torn, order) && w.db.manifest != []
    ensures DbOnDisk(CutDb(w.db, torn, order)) && DbJobLive(CutDb(w.db, torn, order))
  {
    hide Layers, Truthful, Saved, Logged, LastSaved, BatchesWithin, BordersSafe, JobChosen, Grown, LogEntries,
         InsertEntries, MaxInLogs, Resaved, Tailed, IsLogList;
    assert forall n :: n in torn <==> n in w.db.logs;
  }

  /** The store with the torn logs meets the invariant, for any history it answers like. */
  lemma CutInv(w: World, torn: map<nat, seq<Batch>>, order: seq<nat>, history: set<Entry>, floor: nat)
    requires Tearable(w, torn, order) && w.db.manifest != []
    requires Truthful(Left(w, torn), history, floor, CutLast(w.db, torn, order), [])
    ensures var db := CutDb(w.db, torn, order); Inv(db, history, floor) && Stored(db) == Left(w, torn)
  {
    hide Good, Layers, Truthful, Saved, Logged, BatchesWithin, OnDisk, JobLive, BordersSafe, IsLogList, StampsBefore,
         LogEntries, InsertEntries, MaxInLogs, Replay, Ascending, Sorted, VersionSet;
    var db := CutDb(w.db, torn, order);
    FrontFacts(w, torn);
    Rebuilt(FrontMem(w.db, torn));
    Rebuilt(FrontImm(w.db, torn));
    NothingSorted();
    CutLayers(w, db.mem, db.imm);
    assert Stored(db) == Left(w, torn);
    CutSaved(w, db.last);
    CutLogged(w, torn, db.mem, db.imm);
    CutWithin(w, torn, order);
    CutOnDisk(w, torn, order);
  }

  lemma NothingSorted()
    ensures Sorted(ImmSeq(None)) && Set(ImmSeq(None)) == {}
  {
  }

  // ----- Reopening -----

  /** Opening looks at the manifest's last sequence number only to take the larger of two. */
  lemma ResavedReopens(disk: Disk, order: seq<nat>, full: seq<Entry> -> bool, sizeOf: seq<Entry> -> nat)
    requires disk.manifest != [] && forall n | n in order :: n in disk.logs
    ensures var last := Max(disk.manifest[|disk.manifest| - 1].lastSequence, MaxInLogs(order, disk.logs));
            var resaved := disk.(manifest := Resaved(disk.manifest, last));
            Reopen(resaved, order, full, sizeOf) == Reopen(disk, order, full, sizeOf)
  {
    hide Replay, Apply, RecoverLogs, MaxInLogs, SnapshotEdit, VersionNumbers, Numbers;
    var last := Max(disk.manifest[|disk.manifest| - 1].lastSequence, MaxInLogs(order, disk.logs));
    ResavedReplays(disk.manifest, last);
  }

  /** The database opens from the torn logs, with what is left. */
  lemma TornOpens(w: World, torn: map<nat, seq<Batch>>, order: seq<nat>, full: seq<Entry> -> bool,
                  sizeOf: seq<Entry> -> nat, history: set<Entry>, floor: nat)
    requires Tearable(w, torn, order) && w.db.manifest != []
    requires Truthful(Left(w, torn), history, floor, CutLast(w.db, torn, order), [])
    ensures var r := Reopen(DiskOf(w.db).(logs := torn), order, full, sizeOf);
            && r.Some? && Inv(r.value, history, floor) && Stored(r.value) == Left(w, torn)
            && r.value.last == CutLast(w.db, torn, order)
  {
    hide Good, Inv, Reopen, IsLogList, StampsBefore, Left, InsertEntries, LogEntries, MaxInLogs, Tailed, Truthful,
         Stored;
    CutInv(w, torn, order, history, floor);
    ListFacts(w, torn, order);
    var db := CutDb(w.db, torn, order);
    ReopenKeeps(db, order, full, sizeOf, history, floor);
    ResavedReopens(DiskOf(w.db).(logs := torn), order, full, sizeOf);
  }

  /** Whatever the logs have lost: the database opens, and holds the tables and what is left of the logs. */
  lemma TornAlwaysOpens(w: World, torn: map<nat, seq<Batch>>, order: seq<nat>, full: seq<Entry> -> bool,
                        sizeOf: seq<Entry> -> nat)
    requires Tearable(w, torn, order)
    ensures w.db.manifest != []
    ensures var r := Reopen(DiskOf(w.db).(logs := torn), order, full, sizeOf);
            r.Some? && Stored(r.value) == Left(w, torn) && r.value.last == CutLast(w.db, torn, order)
  {
    hide Good, Inv, Reopen, IsLogList, StampsBefore, Left, LogEntries, MaxInLogs, Stored, Survivors;
    LeftSurvives(w, torn, order);
    CutLastBound(w, torn, order);
    TornOpens(w, torn, order, full, sizeOf, Left(w, torn), 0);
  }

  /** It meets the invariant with the surviving writes for its history, when the tables are true. */
  lemma TornReopens(w: World, torn: map<nat, seq<Batch>>, order: seq<nat>, full: seq<Entry> -> bool,
                    sizeOf: seq<Entry> -> nat)
    requires Tearable(w, torn, order) && TablesTrue(w)
    ensures var r := Reopen(DiskOf(w.db).(logs := torn), order, full, sizeOf);
            r.Some? && Inv(r.value, Survivors(w, torn), Least(w.floor, r.value.last))
  {
    hide Good, Inv, Reopen, IsLogList, StampsBefore, Left, LogEntries, MaxInLogs, Stored, Survivors, SameReads;
    LeftSurvives(w, torn, order);
    LeftTrue(w, torn, order);
    CutLastBound(w, torn, order);
    TornOpens(w, torn, order, full, sizeOf, Survivors(w, torn), Least(w.floor, CutLast(w.db, torn, order)));
  }

  /** All logs, empty. */
  ghost function Emptied(logs: map<nat, seq<Batch>>): map<nat, seq<Batch>> {
    map n | n in logs :: []
  }

  /** What is left reads as the surviving writes do, whatever the logs have lost, if and only if the tables by
      themselves read as the flushed writes do. */
  lemma TornTrueIff(w: World, order: seq<nat>)
    requires Good(w) && Tailed(w) && w.db.inflight.None? && IsLogList(order, w.db.logs, w.db.logNumber)
    requires (forall n | n in order :: n in w.db.logs) && w.db.manifest != []
    ensures w.db.memLog in w.db.logs && (w.db.imm.Some? ==> w.db.logNumber in w.db.logs)
    ensures TablesTrue(w) <==>
            forall torn | Torn(w.db.logs, torn) ::
              SameReads(Left(w, torn), Survivors(w, torn), Least(w.floor, CutLast(w.db, torn, order)))
  {
    hide Good, IsLogList, Left, Survivors, SameReads, Tailed, LogEntries, TablesTrue, MaxInLogs;
    LoggedFacts(w);
    if TablesTrue(w) {
      forall torn | Torn(w.db.logs, torn)
        ensures SameReads(Left(w, torn), Survivors(w, torn), Least(w.floor, CutLast(w.db, torn, order)))
      {
        LeftTrue(w, torn, order);
      }
    } else {
      var none := Emptied(w.db.logs);
      assert Torn(w.db.logs, none);
      NothingLeft(w, none);
      var last := CutLast(w.db, none, order);
      if SameReads(Left(w, none), Survivors(w, none), Least(w.floor, last)) {
        HigherFloor(VersionSet(w.db.levels), Flushed(w), Least(w.floor, last), w.floor);
        IsTrue(w);
      }
    }
  }

  lemma IsTrue(w: World)
    requires SameReads(VersionSet(w.db.levels), Flushed(w), w.floor)
    ensures TablesTrue(w)
  {
  }

  lemma HigherFloor(A: set<Entry>, B: set<Entry>, low: nat, floor: nat)
    requires SameReads(A, B, low) && low <= floor
    ensures SameReads(A, B, floor)
  {
  }

  lemma NothingLeft(w: World, torn: map<nat, seq<Batch>>)
    requires CanTear(w.db, torn) && forall n | n in torn :: torn[n] == []
    ensures Left(w, torn) == VersionSet(w.db.levels) && Survivors(w, torn) == Flushed(w)
  {
    hide VersionSet;
    assert LogEntries([]) == [];
    assert Set(FrontMem(w.db, torn)) == {} && Set(FrontImm(w.db, torn)) == {};
  }

  // ----- Bytes -----

  ghost function OpOf(u: WriteBatches.Update): Op {
    match u
    case Put(key, value) => Put(Embed(key), value)
    case Delete(key) => Delete(Embed(key))
  }

  ghost function OpsFrom(us: seq<WriteBatches.Update>): (r: seq<Op>)
    ensures |r| == |us| && forall i | 0 <= i < |r| :: r[i] == OpOf(us[i])
  {
    if us == [] then [] else [OpOf(us[0])] + OpsFrom(us[1..])
  }

  /** The record is the encoding of the batch. */
  ghost predicate Encodes(record: seq<Byte>, b: Batch) {
    exists us :: WriteBatches.Holds(record, b.first, us) && b.ops == OpsFrom(us)
  }

  /** A reader of the file gets exactly these batches. */
  ghost predicate FileHolds(crc: Checksum, file: seq<Byte>, log: seq<Batch>) {
    var records := ReadAll(crc, file);
    |records| == |log| && forall i | 0 <= i < |log| :: Encodes(records[i], log[i])
  }

  lemma FileHoldsOnce(crc: Checksum, file: seq<Byte>, log: seq<Batch>, log': seq<Batch>)
    requires FileHolds(crc, file, log) && FileHolds(crc, file, log')
    ensures log == log'
  {
    hide ReadAll;
    forall i | 0 <= i < |log| ensures log[i] == log'[i] {
      var record := ReadAll(crc, file)[i];
      assert Encodes(record, log[i]) && Encodes(record, log'[i]);
      var us :| WriteBatches.Holds(record, log[i].first, us) && log[i].ops == OpsFrom(us);
      var vs :| WriteBatches.Holds(record, log'[i].first, vs) && log'[i].ops == OpsFrom(vs);
      WriteBatches.HoldsOnce(record, log[i].first, us, log'[i].first, vs);
    }
  }

  /** What is left of the log when its file is cut. */
  ghost function CutAt(crc: Checksum, file: seq<Byte>, log: seq<Batch>, at: nat): seq<Batch>
    requires at <= |file| && |ReadAll(crc, file[..at])| <= |log|
  {
    log[..|ReadAll(crc, file[..at])|]
  }

  /** Cut at any byte, the file holds the first batches and no other. */
  lemma CutFileHolds(crc: Checksum, file: seq<Byte>, log: seq<Batch>, at: nat)
    requires FileHolds(crc, file, log) && at <= |file|
    ensures |ReadAll(crc, file[..at])| <= |log| && FileHolds(crc, file[..at], CutAt(crc, file, log, at))
  {
    hide ReadAll, Encodes;
    TruncationKeepsPrefix(crc, file, at);
  }

  /** The state a crash finds once a write in flight counts as made. */
  ghost function Made(w: World): World {
    if CanApplyWrite(w.db) then Step(w, DoApplyWrite) else w
  }

  lemma MadeFacts(w: World)
    requires Good(w) && Tailed(w)
    ensures Good(Made(w)) && Tailed(Made(w)) && (TablesTrue(w) ==> TablesTrue(Made(w)))
    ensures Made(w).db.inflight.None? && DiskOf(Made(w).db) == DiskOf(w.db) && Made(w).floor == w.floor
    ensures Made(w).db.memLog == w.db.memLog && Made(w).db.logNumber == w.db.logNumber
  {
    hide Good, Tailed, SameReads, InsertEntries, BatchEntries, VersionSet;
    if CanApplyWrite(w.db) {
      StepKeeps(w, DoApplyWrite);
      ApplyTailed(w);
    }
  }

  /** Each log in its file, and where each file is cut. */
  ghost predicate InFiles(crc: Checksum, files: map<nat, seq<Byte>>, logs: map<nat, seq<Batch>>, cuts: map<nat, nat>) {
    && files.Keys == cuts.Keys == logs.Keys
    && forall n | n in logs :: FileHolds(crc, files[n], logs[n]) && cuts[n] <= |files[n]|
  }

  lemma CutFiles(crc: Checksum, files: map<nat, seq<Byte>>, logs: map<nat, seq<Batch>>, cuts: map<nat, nat>)
    returns (torn: map<nat, seq<Batch>>)
    requires InFiles(crc, files, logs, cuts)
    ensures Torn(logs, torn) && forall n | n in logs :: FileHolds(crc, files[n][..cuts[n]], torn[n])
  {
    hide FileHolds, ReadAll;
    forall n | n in logs
      ensures |ReadAll(crc, files[n][..cuts[n]])| <= |logs[n]|
           && FileHolds(crc, files[n][..cuts[n]], CutAt(crc, files[n], logs[n], cuts[n]))
    {
      CutFileHolds(crc, files[n], logs[n], cuts[n]);
    }
    torn := map n | n in logs :: logs[n][..|ReadAll(crc, files[n][..cuts[n]])|];
  }

  /** In any state of any run of a new database, cut the bytes of every log file anywhere and open the database:
      it opens with the tables and the batches the files still hold.  The writes these stand for are a prefix of
      all writes if and only if the older log lost nothing or nothing is left of the newer one, and the database
      answers for them if no compaction of the run dropped a deletion that covered a value in the tables. */
  lemma TornFilesReopen(full: seq<Entry> -> bool, sizeOf: seq<Entry> -> nat, ws: seq<World>, n: nat, crc: Checksum,
                        files: map<nat, seq<Byte>>, cuts: map<nat, nat>, order: seq<nat>)
    returns (torn: map<nat, seq<Batch>>)
    requires Chain(ws) && ws[0] == NewDatabase(full, sizeOf) && n < |ws|
    requires InFiles(crc, files, ws[n].db.logs, cuts) && IsLogList(order, ws[n].db.logs, ws[n].db.logNumber)
    ensures Torn(ws[n].db.logs, torn) && forall i | i in torn :: FileHolds(crc, files[i][..cuts[i]], torn[i])
    ensures CanTear(Made(ws[n]).db, torn) && forall i | i in order :: i in torn
    ensures var w := Made(ws[n]);
            var r := Reopen(DiskOf(ws[n].db).(logs := torn), order, full, sizeOf);
            && r.Some? && Stored(r.value) == Left(w, torn) && Survivors(w, torn) <= w.history
            && (StampsBefore(Survivors(w, torn), w.history - Survivors(w, torn)) <==>
                Set(FrontImm(w.db, torn)) == Set(ImmSeq(w.db.imm)) || FrontMem(w.db, torn) == [])
            && ((forall i | 0 <= i < n && ws[i].db.job.Some? :: Clean(ws[i].db.job.value)) ==>
                Inv(r.value, Survivors(w, torn), Least(w.floor, r.value.last)))
  {
    hide Good, Inv, Tailed, TablesTrue, Clean, Chain, NewDatabase, FileHolds, IsLogList, Reopen, Survivors,
         StampsBefore, Made, Left, Stored;
    EveryRunIsGood(full, sizeOf, ws, n);
    RunTailed(full, sizeOf, ws, n);
    MadeFacts(ws[n]);
    torn := CutFiles(crc, files, ws[n].db.logs, cuts);
    var w := Made(ws[n]);
    CanBeTorn(w, torn, order);
    TornAlwaysOpens(w, torn, order, full, sizeOf);
    PrefixIff(w, torn);
    if forall i | 0 <= i < n && ws[i].db.job.Some? :: Clean(ws[i].db.job.value) {
      TornReopens(w, torn, order, full, sizeOf);
    }
  }

  lemma CanBeTorn(w: World, torn: map<nat, seq<Batch>>, order: seq<nat>)
    requires Good(w) && Tailed(w) && w.db.inflight.None? && Torn(w.db.logs, torn)
    requires IsLogList(order, w.db.logs, w.db.logNumber)
    ensures Tearable(w, torn, order)
  {
    hide Good, Tailed, LogEntries, Ascending;
    LoggedFacts(w);
    assert forall n :: n in w.db.logs <==> n in torn;
  }
}
