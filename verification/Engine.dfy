/** The store as a state machine: writes, memtable switch, flush, compaction in two steps with
    flushes in between, snapshots, garbage collection of files, crash and recovery. */
module Engine {
  import opened Wrappers
  import opened Entries
  import opened Versions
  import opened Selection
  import opened Compactions
  import opened Edits

  // ----- Batches and the memtable -----

  datatype Op = Put(key: Key, value: Payload) | Delete(key: Key)

  datatype BatchRecord = BatchRecord(first: nat, ops: seq<Op>)

  type Batch = b: BatchRecord | b.first + |b.ops| <= MAX_SEQUENCE witness BatchRecord(0, [])

  function OpEntry(op: Op, stamp: Stamp): Entry {
    match op
    case Put(k, v) => Entry(k, stamp, Value, v)
    case Delete(k) => Entry(k, stamp, Deletion, [])
  }

  /** The `i`-th operation of a batch is stamped `first + i`. */
  function BatchEntries(b: Batch): (r: seq<Entry>)
    ensures |r| == |b.ops|
    ensures forall i | 0 <= i < |r| :: r[i] == OpEntry(b.ops[i], b.first + i)
  {
    seq(|b.ops|, i requires 0 <= i < |b.ops| => OpEntry(b.ops[i], b.first + i))
  }

  function LogEntries(log: seq<Batch>): seq<Entry> {
    if log == [] then [] else LogEntries(log[..|log| - 1]) + BatchEntries(log[|log| - 1])
  }

  function InsertEntry(xs: seq<Entry>, e: Entry): (r: seq<Entry>)
    ensures forall d :: d in r <==> d in xs || d == e
  {
    if xs == [] then [e]
    else if Before(e, xs[0]) then [e] + xs
    else [xs[0]] + InsertEntry(xs[1..], e)
  }

  function InsertEntries(xs: seq<Entry>, es: seq<Entry>): (r: seq<Entry>)
    ensures forall d :: d in r <==> d in xs || d in es
  {
    if es == [] then xs
    else
      assert es == es[..|es| - 1] + [es[|es| - 1]];
      InsertEntry(InsertEntries(xs, es[..|es| - 1]), es[|es| - 1])
  }

  lemma {:induction false} InsertEntrySorted(xs: seq<Entry>, e: Entry)
    requires Sorted(xs) && forall d | d in xs :: d.stamp != e.stamp
    ensures Sorted(InsertEntry(xs, e))
  {
    if xs != [] {
      if Before(e, xs[0]) {
        forall i | 0 <= i < |xs| ensures Before(e, xs[i]) {
          assert i == 0 || Before(xs[0], xs[i]);
        }
        PrependSorted(e, xs);
      } else {
        InsertEntrySorted(xs[1..], e);
        assert xs[0] in xs;
        forall d | d in InsertEntry(xs[1..], e) ensures Before(xs[0], d) {
          if d != e {
            var j :| 0 <= j < |xs[1..]| && xs[1..][j] == d;
            assert Before(xs[0], xs[j + 1]);
          }
        }
        PrependSorted(xs[0], InsertEntry(xs[1..], e));
      }
    }
  }

  ghost predicate Ascending(xs: seq<Entry>) {
    forall i, j | 0 <= i < j < |xs| :: xs[i].stamp < xs[j].stamp
  }

  lemma {:induction false} InsertEntriesSorted(xs: seq<Entry>, es: seq<Entry>)
    requires Sorted(xs) && Ascending(es)
    requires forall d, e | d in xs && e in es :: d.stamp != e.stamp
    ensures Sorted(InsertEntries(xs, es))
  {
    if es != [] {
      var n := |es| - 1;
      InsertEntriesSorted(xs, es[..n]);
      forall d | d in InsertEntries(xs, es[..n]) ensures d.stamp != es[n].stamp {
        if d in es[..n] {
          var j :| 0 <= j < n && es[j] == d;
        }
      }
      InsertEntrySorted(InsertEntries(xs, es[..n]), es[n]);
    }
  }

  // ----- State -----

  /** A running compaction: its inputs, chosen in `version`, and the output numbers so far. */
  datatype Job = Job(level: nat, in0: Level, in1: Level, smallest: nat, version: seq<Level>, numbers: seq<nat>)

  datatype Db = Db(
    mem: seq<Entry>, imm: Option<seq<Entry>>, inflight: Option<Batch>, levels: seq<Level>,
    snapshots: seq<nat>, last: nat, pinned: seq<seq<Level>>, job: Option<Job>, pending: set<nat>,
    logNumber: nat, memLog: nat, nextFile: nat,
    logs: map<nat, seq<Batch>>, tables: set<nat>, manifest: seq<Edit>)

  function ImmSeq(imm: Option<seq<Entry>>): seq<Entry> {
    if imm.Some? then imm.value else []
  }

  ghost function BatchSet(inflight: Option<Batch>): set<Entry> {
    if inflight.Some? then Set(BatchEntries(inflight.value)) else {}
  }

  /** Everything a reader can reach. */
  ghost function Stored(db: Db): set<Entry> {
    Set(db.mem) + Set(ImmSeq(db.imm)) + VersionSet(db.levels)
  }

  // ----- Invariant -----

  /** Each layer is in order, and newer than the layers behind it. */
  ghost predicate Layers(mem: seq<Entry>, imm: Option<seq<Entry>>, levels: seq<Level>) {
    && Sorted(mem) && Sorted(ImmSeq(imm)) && ValidVersion(levels)
    && Newer(Set(mem), Set(ImmSeq(imm)))
    && Newer(Set(mem), VersionSet(levels))
    && Newer(Set(ImmSeq(imm)), VersionSet(levels))
  }

  /** What is stored answers every read from `floor` on like the full history of writes. */
  ghost predicate Truthful(stored: set<Entry>, history: set<Entry>, floor: nat, last: nat, snapshots: seq<nat>) {
    && stored <= history && UniqueSeqs(history) && SeqsAtMost(history, last)
    && SameReads(stored, history, floor)
    && floor <= last < MAX_SEQUENCE
    && (forall s | s in snapshots :: floor <= s <= last)
    && (forall i, j | 0 <= i < j < |snapshots| :: snapshots[i] <= snapshots[j])
  }

  /** The logs from `logNumber` on hold exactly the memtables and the write in flight. */
  ghost predicate Logged(mem: seq<Entry>, imm: Option<seq<Entry>>, inflight: Option<Batch>,
                         logs: map<nat, seq<Batch>>, logNumber: nat, memLog: nat) {
    && logNumber <= memLog && memLog in logs
    && (forall n | n in logs :: n <= memLog)
    && (forall n | n in logs && logNumber <= n :: n == logNumber || n == memLog)
    && Ascending(LogEntries(logs[memLog]))
    && Set(LogEntries(logs[memLog])) == Set(mem) + BatchSet(inflight)
    && (inflight.Some? ==> logs[memLog] != [] && logs[memLog][|logs[memLog]| - 1] == inflight.value)
    && (imm.None? ==> logNumber == memLog)
    && (imm.Some? ==>
          && logNumber < memLog && logNumber in logs
          && Ascending(LogEntries(logs[logNumber]))
          && Set(LogEntries(logs[logNumber])) == Set(imm.value)
          && forall d, e | d in LogEntries(logs[logNumber]) && e in LogEntries(logs[memLog]) :: d.stamp < e.stamp)
  }

  /** The last sequence number is in the manifest or in a log that will be replayed. */
  ghost predicate LastSaved(mem: seq<Entry>, imm: Option<seq<Entry>>, inflight: Option<Batch>, last: nat, saved: nat) {
    && saved <= last
    && (saved < last ==> exists e :: e in Set(mem) + Set(ImmSeq(imm)) && e.stamp == last)
    && (inflight.Some? ==> inflight.value.first == last + 1)
  }

  /** No batch that recovery will replay reaches beyond `bound`. */
  ghost predicate BatchesWithin(logs: map<nat, seq<Batch>>, logNumber: nat, bound: nat) {
    forall n, b | n in logs && logNumber <= n && b in logs[n] :: b.first + |b.ops| <= bound
  }

  /** The logs without the write in flight. */
  function Settled(logs: map<nat, seq<Batch>>, memLog: nat, inflight: Option<Batch>): map<nat, seq<Batch>> {
    if inflight.Some? && memLog in logs && logs[memLog] != []
    then logs[memLog := logs[memLog][..|logs[memLog]| - 1]] else logs
  }

  ghost predicate NumbersUnique(levels: seq<Level>) {
    forall l, m, t, u | 0 <= l < |levels| && 0 <= m < |levels| && t in levels[l] && u in levels[m] &&
                        t.number == u.number :: l == m && t == u
  }

  ghost predicate NumbersBelow(levels: seq<Level>, bound: nat) {
    forall l, t | 0 <= l < |levels| && t in levels[l] :: t.number < bound
  }

  /** The manifest alone rebuilds the current version. */
  ghost predicate Saved(levels: seq<Level>, manifest: seq<Edit>, logNumber: nat, nextFile: nat) {
    && manifest != []
    && Replay(manifest) == levels
    && OrderedLevels(levels)
    && manifest[|manifest| - 1].logNumber == logNumber
    && NumbersUnique(levels)
    && NumbersBelow(levels, manifest[|manifest| - 1].nextFile)
    && manifest[|manifest| - 1].nextFile <= nextFile
  }

  ghost predicate VersionOnDisk(levels: seq<Level>, tables: set<nat>) {
    forall l, t | 0 <= l < |levels| && t in levels[l] :: t.number in tables
  }

  /** Every table a reader, the running compaction or recovery may open is on disk, and numbers
      still to be handed out are unused. */
  ghost predicate OnDisk(levels: seq<Level>, pinned: seq<seq<Level>>, job: Option<Job>, pending: set<nat>,
                         tables: set<nat>, nextFile: nat, logs: map<nat, seq<Batch>>) {
    && VersionOnDisk(levels, tables)
    && (forall v | v in pinned :: VersionOnDisk(v, tables))
    && (job.Some? ==> VersionOnDisk(job.value.version, tables))
    && pending <= tables
    && (forall n | n in pending :: n < nextFile)
    && (forall n | n in logs :: n < nextFile)
    && (forall l, t | 0 <= l < |levels| && t in levels[l] :: t.number !in pending)
  }

  ghost predicate DbOnDisk(db: Db) {
    OnDisk(db.levels, db.pinned, db.job, db.pending, db.tables, db.nextFile, db.logs)
  }

  /** No table left out of `part` holds an older version of a key of `part`. */
  ghost predicate SplitFree(files: Level, part: Level) {
    forall t, u | t in part && u in files && u !in part :: Newer(Set(u.entries), Set(t.entries))
  }

  /** The inputs were well chosen in the version the compaction started from. */
  ghost predicate Chosen(version: seq<Level>, level: nat, in0: Level, in1: Level) {
    && level + 1 < NUM_LEVELS
    && ValidVersion(version) && NumbersUnique(version)
    && ValidInputs(version, level, in0, in1)
  }

  ghost predicate JobChosen(job: Job) {
    Chosen(job.version, job.level, job.in0, job.in1)
  }

  ghost function InputSet(job: Job): set<Entry> {
    LevelSet(job.in0) + LevelSet(job.in1)
  }

  /** The entries of the tables left out. */
  ghost function LeftOut(files: Level, part: Level): set<Entry> {
    set t, e | t in files && t !in part && e in t.entries :: e
  }

  /** The base-level rule drops the deletion `e`, which was the last to hide the value `d` in a
      table of the output level that is no input. */
  ghost predicate Uncovers(job: Job, S: set<Entry>, e: Entry, d: Entry)
    requires job.level + 1 < |job.version|
  {
    && e in InputSet(job) && e.kind == Deletion && e.stamp <= job.smallest
    && IsBase(job.version, job.level, e.key) && Exposed(S, job.smallest, e)
    && Newest(LeftOut(job.version[job.level + 1], job.in1), e.key, e.stamp, d) && d.kind == Value
  }

  ghost predicate NothingUncovered(job: Job, S: set<Entry>)
    requires job.level + 1 < |job.version|
  {
    forall e, d :: !Uncovers(job, S, e, d)
  }

  /** No input key is split at the borders in a way that a reader could notice. */
  ghost predicate BordersSafe(job: Job, S: set<Entry>) {
    job.level + 1 < |job.version| && SplitFree(job.version[job.level], job.in0) && NothingUncovered(job, S)
  }

  /** Since `version` only newer tables were added. */
  ghost predicate Grown(version: seq<Level>, levels: seq<Level>) {
    && |version| == |levels| == NUM_LEVELS
    && (forall l, t | 0 <= l < NUM_LEVELS && t in version[l] :: t in levels[l])
    && (forall l, t | 0 <= l < NUM_LEVELS && t in levels[l] && t !in version[l] ::
          Newer(Set(t.entries), VersionSet(version)))
  }

  ghost predicate JobLive(job: Option<Job>, levels: seq<Level>, last: nat, snapshots: seq<nat>, pending: set<nat>) {
    job.Some? ==>
      && JobChosen(job.value)
      && Grown(job.value.version, levels)
      && job.value.smallest <= last
      && (forall s | s in snapshots :: job.value.smallest <= s)
      && OutputNumbers(job.value.numbers, pending)
  }

  ghost predicate OutputNumbers(numbers: seq<nat>, pending: set<nat>) {
    && (forall n | n in numbers :: n in pending)
    && (forall i, j | 0 <= i < j < |numbers| :: numbers[i] != numbers[j])
  }

  ghost predicate DbJobLive(db: Db) {
    && JobLive(db.job, db.levels, db.last, db.snapshots, db.pending)
    && (db.job.Some? ==> BordersSafe(db.job.value, Stored(db)))
  }

  lemma BordersIgnoreNumbers(job: Job, numbers: seq<nat>, S: set<Entry>)
    requires BordersSafe(job, S)
    ensures BordersSafe(job.(numbers := numbers), S)
  {
    var job' := job.(numbers := numbers);
    forall e, d ensures !Uncovers(job', S, e, d) {
      assert !Uncovers(job, S, e, d);
    }
  }

  /** More stored entries hide more, so a safe compaction stays safe. */
  lemma BordersStaySafe(job: Job, S: set<Entry>, S': set<Entry>)
    requires BordersSafe(job, S) && S <= S'
    ensures BordersSafe(job, S')
  {
    forall e, d ensures !Uncovers(job, S', e, d) {
      assert !Uncovers(job, S, e, d);
    }
  }

  ghost predicate Inv(db: Db, history: set<Entry>, floor: nat) {
    && Layers(db.mem, db.imm, db.levels)
    && Truthful(Stored(db), history, floor, db.last, db.snapshots)
    && Saved(db.levels, db.manifest, db.logNumber, db.nextFile)
    && Logged(db.mem, db.imm, db.inflight, db.logs, db.logNumber, db.memLog)
    && LastSaved(db.mem, db.imm, db.inflight, db.last, db.manifest[|db.manifest| - 1].lastSequence)
    && BatchesWithin(Settled(db.logs, db.memLog, db.inflight), db.logNumber, db.last + 1)
    && DbOnDisk(db)
    && DbJobLive(db)
  }

  // ----- Reading -----

  /** What a reader goes through, in order. */
  ghost function LayersOf(db: Db): (r: seq<set<Entry>>)
    ensures |r| == 2 + |db.levels| && r[0] == Set(db.mem) && r[1] == Set(ImmSeq(db.imm))
    ensures forall l | 0 <= l < |db.levels| :: r[2 + l] == LevelSet(db.levels[l])
  {
    [Set(db.mem), Set(ImmSeq(db.imm))] + LevelSets(db.levels)
  }

  /** The search of `DBImpl::Get`: memtable, immutable memtable, then the current version. */
  method Find(db: Db, k: Key, s: nat) returns (r: Option<Entry>)
    requires Sorted(db.mem) && Sorted(ImmSeq(db.imm)) && Searchable(db.levels)
    ensures LookedUp(LayersOf(db), k, s, r)
  {
    ghost var layers := LayersOf(db);
    r := Lookup(db.mem, k, s);
    LookupIsNewest(db.mem, k, s);
    hide Searchable, Newest, Absent, Set, LayersOf, Sorted;
    if r.Some? {
      assert HitIn(layers, 0, k, s, r.value);
      return;
    }
    LookupIsNewest(ImmSeq(db.imm), k, s);
    if db.imm.Some? {
      r := Lookup(db.imm.value, k, s);
      if r.Some? {
        assert HitIn(layers, 1, k, s, r.value);
        return;
      }
    } else {
      NothingFound(k, s);
    }
    r := Versions.Get(db.levels, k, s);
    BehindMemtables(db, k, s, r);
  }

  lemma NothingFound(k: Key, s: nat)
    ensures Absent(Set([]), k, s)
  {
  }

  lemma BehindMemtables(db: Db, k: Key, s: nat, r: Option<Entry>)
    requires Absent(Set(db.mem), k, s) && Absent(Set(ImmSeq(db.imm)), k, s)
    requires LookedUp(LevelSets(db.levels), k, s, r)
    ensures LookedUp(LayersOf(db), k, s, r)
  {
    hide Newest, Absent, LayersOf;
    var layers := LayersOf(db);
    if r.Some? {
      var i :| HitIn(LevelSets(db.levels), i, k, s, r.value);
      assert layers[2 + i] == LevelSets(db.levels)[i];
      forall j | 0 <= j < 2 + i ensures Absent(layers[j], k, s) {
        assert j >= 2 ==> layers[j] == LevelSets(db.levels)[j - 2];
      }
      assert HitIn(layers, 2 + i, k, s, r.value);
    } else {
      forall j | 0 <= j < |layers| ensures Absent(layers[j], k, s) {
        assert j >= 2 ==> layers[j] == LevelSets(db.levels)[j - 2];
      }
    }
  }

  lemma StoredLayers(db: Db)
    ensures UnionOf(Stored(db), LayersOf(db))
  {
    hide LevelSet, LayersOf;
    var layers := LayersOf(db);
    LevelSetsUnion(db.levels);
    forall e ensures e in Stored(db) <==> exists i :: 0 <= i < |layers| && e in layers[i] {
      if e in VersionSet(db.levels) {
        var l :| 0 <= l < |db.levels| && e in LevelSets(db.levels)[l];
        assert e in layers[2 + l];
      } else if i :| 0 <= i < |layers| && e in layers[i] {
        assert i >= 2 ==> e in LevelSets(db.levels)[i - 2];
      }
    }
  }

  lemma LayersInAgeOrder(db: Db)
    requires Layers(db.mem, db.imm, db.levels)
    ensures AgeLayers(LayersOf(db))
  {
    hide LayersOf, LevelSet, VersionSet, Searchable;
    var layers := LayersOf(db);
    forall i, j | 0 <= i < j < |layers| ensures Newer(layers[i], layers[j]) {
      if j >= 2 { LevelWithin(db.levels, j - 2); }
      if i >= 2 { assert Newer(LevelSet(db.levels[i - 2]), LevelSet(db.levels[j - 2])); }
    }
  }

  lemma LevelWithin(levels: seq<Level>, l: nat)
    requires l < |levels|
    ensures LevelSet(levels[l]) <= VersionSet(levels)
  {
    forall e | e in LevelSet(levels[l]) ensures e in VersionSet(levels) {
      UpToMember(levels, |levels|, e);
    }
  }

  /** In age order, a search finds the newest visible entry of all that is stored. */
  lemma FoundIsNewest(db: Db, k: Key, s: nat, r: Option<Entry>)
    requires Layers(db.mem, db.imm, db.levels) && LookedUp(LayersOf(db), k, s, r)
    ensures Finds(Stored(db), k, s, r)
  {
    hide Layers, LayersOf, Stored, LookedUp;
    StoredLayers(db);
    LayersInAgeOrder(db);
    AgeOrderFinds(LayersOf(db), Stored(db), k, s, r);
  }

  function AnswerOf(r: Option<Entry>): Option<Payload> {
    if r.Some? then Answer(r.value) else None
  }

  lemma FoundReads(S: set<Entry>, k: Key, s: nat, r: Option<Entry>)
    requires Finds(S, k, s, r)
    ensures Reads(S, k, s, AnswerOf(r))
  {
  }

  /** `DBImpl::Get`. */
  method Get(db: Db, k: Key, s: nat, ghost history: set<Entry>, ghost floor: nat) returns (r: Option<Payload>)
    requires Inv(db, history, floor) && floor <= s
    ensures Reads(history, k, s, r)
  {
    hide Saved, Logged, LastSaved, BatchesWithin, OnDisk, JobLive, LookedUp, LayersOf, Finds, Reads, Stored, Searchable,
         ValidVersion;
    ValidIsSearchable(db.levels);
    var found := Find(db, k, s);
    FoundIsNewest(db, k, s, found);
    FoundReads(Stored(db), k, s, found);
    r := AnswerOf(found);
  }
}
