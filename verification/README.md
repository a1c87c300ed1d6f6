# A model of SnappyDB's storage engine

SnappyDB stores key-value pairs with LevelDB 1.14, compressed with Snappy 1.1.1. This project models
that native layer in Dafny and proves what it promises to its callers.

## What is modelled

* **The database over whole runs** (`Entries`, `Versions`, `Selection`, `Compactions`, `Edits`, `Engine`,
  `Steps`, `CompactionSteps`, `Installing`, `Moving`, `Recovery`, `Reopening`, `Runs`, `DbImpl`, `Opening`,
  `ManifestRuns`, `RunSteps`, `Garbage`, `Grandparents`). The state is memtables, levels, snapshots, the running
  compaction, logs, manifest and files on disk. Every step, from a logged write to a crash and reopening, keeps one
  invariant.
  `Runs.SnapshotNeverChanges` is the main theorem: a snapshot answers every key alike as long as it is readable.
* **Split borders** (`Borders`, `SplitRuns`). Versions of one user key can end up in two neighbouring tables.
  `Borders.CompactionSafeIff` says exactly which compactions change what readers find, and `Borders.MoveSafeIff` which
  moves; `SplitRuns` has runs of a new database that reach them.
* **Flushes during a compaction** (`Sinking`, `Fences`, `Gaps`, `GapRuns`). `Gaps.InstallableIff` says exactly when a
  memtable's table can land between the outputs; never for picked compactions, in a reachable state for a manual one.
* **Torn logs** (`Tails`, `TornLogs`, `TornRuns`). A database whose log files were cut at any bytes opens with the
  writes that are left; exactly when these are a prefix of all writes, and when it answers for them, is proved.
* **Iterators** (`Cursors`, `DbIter`, `Merger`, `Children`, `TwoLevel`, `Scans`). Each one, over any sequence of moves,
  shows what a cursor in one sorted list shows. The user's iterator drives the merging iterator, which drives the
  iterators of all layers of the store, and what it shows is the write history at the snapshot.
* **File formats** (`Coding`, `LogFormat`, `Log`, `BlockFormat`, `Block`, `BlockIter`, `Bloom`, `FilterBlock`,
  `FilterBytes`, `Separators`, `ByteSeparators`, `Table`, `TableBuilder`, `TableBytes`, `Manifest`, `VersionEdits`,
  `WriteBatches`): round trips, searches, damage.
* **Snappy** (`SnappyFormat`, `SnappyDecompress`, `SnappyMatching`, `SnappyCompress`): round trip, invisible fast paths,
  size bound, and which copies the greedy search takes.
* **Concurrency and caching** (`SkipList`, `GroupCommit`, `GroupProgress`, `HandleTable`, `LruCache`, `LruOrder`):
  every interleaving or sequence of operations, as state machines, safety and progress.

User keys reach the engine only through a comparator. They are reals there, and `KeyOrder` shows that the bytewise
order on strings embeds in them, so what is proved for any given keys holds for any given strings. Where a statement
asks whether some key exists, it is made for the keys of an arbitrary set, such as the image of the strings. Sizes of
files, hash functions, checksums, sizes at which tables and blocks are cut and the outcome of random choices are
parameters, so the theorems hold for all of them.

## Where the code and its promises differ

* `Borders.CompactionSafeIff`, `Borders.MoveSafeIff`: compaction inputs are chosen by range, but versions
  of one user key can be spread over two neighbouring tables of a level. `IsTrivialMove` and `SetupOtherInputs` do not
  look at that. `SplitRuns.MoveRevives`, `SplitRuns.MergeRevives` and `SplitRuns.DropRevives` are runs in which a
  deleted value comes back.
* `GapRuns.ManualCompactionOverlaps`: the level for a flushed memtable is chosen from the current version, which
  does not yet show the outputs of a running compaction.
* `GroupCommit.RequestSwitchesIffHead`: a request to switch the memtable that is queued behind a write becomes part of
  that write's group and returns without the switch having been made; `GroupCommit.RequestRidesAlong` is such a run.
* `TornLogs.PrefixIff`: while a memtable is written out there are two logs, and losing the end of the older one but not
  all of the newer leaves a hole in the writes, as in the run `TornRuns.HoleIsReached`.
* `TornLogs.TornTrueIff`: a deletion dropped by a compaction comes undone when the write that hid the uncovered value
  is lost with the end of its log, as in the run `TornRuns.TornRevives`.
* `LogFormat.ReadsEverythingIff`: the end-of-file mark of the reader is a possible type byte, so a well-formed record of
  type 5 ends the reading, and `Log.EndMarkHides` has a record behind it that is never read; the writer makes none.
* `VersionEdits.RoundTrip`: `VersionEdit::Clear` keeps the compaction pointers, so decoding restores an edit only
  in an object without any; every caller uses a new one.

## Model

| member | source | states |
|---|---|---|
| KeyOrder.EmbedMonotone | library/src/main/jni/util/comparator.cc:25-27 | one byte string sorts before another exactly when its real number is smaller, so what holds for any given reals holds for any given strings |
| KeyOrder.EmbedInjective | library/src/main/jni/util/comparator.cc:25-27 | different byte strings get different reals |
| Entries.ReadsUnique | library/src/main/jni/db/dbformat.cc:50-66 | when sequence numbers are unique a read of a key at a snapshot has one answer |
| Entries.DropKeepsReads | library/src/main/jni/db/db_impl.cc:912-938 | removing entries changes no read at or above a sequence number if and only if every removed entry that is newest for a reader there leaves a reader with the same answer |
| Entries.LookupIsNewest | library/src/main/jni/db/memtable.cc:108-146 | the first entry at or after (key, snapshot) in a sorted run is the newest visible one, and its absence means there is none |
| Versions.FindFile | library/src/main/jni/db/version_set.cc:91-110 | the binary search returns the first table whose largest key is at or after the target, for every sorted level |
| Versions.SomeFileOverlapsRange | library/src/main/jni/db/version_set.cc:126-161 | true exactly when some table of the level meets the range, whether the level is searched or scanned, with open ends on either side |
| Versions.SearchLevelZero | library/src/main/jni/db/version_set.cc:362-377 | newest table first at level 0 finds the newest visible entry of the whole level |
| Versions.SearchSortedLevel | library/src/main/jni/db/version_set.cc:378-395 | one table of a sorted level decides for the whole level |
| Versions.Get | library/src/main/jni/db/version_set.cc:337-434 | the search gives the first level's newest visible entry, level by level, and that is the newest of the whole version whenever entries get older from level to level |
| Selection.GetOverlappingInputs | library/src/main/jni/db/version_set.cc:536-577 | terminates in spite of the restarts; the result is every table meeting the range asked for, and at level 0 every table meeting the least range around it that no table crosses |
| Selection.ClosureLeavesApart | library/src/main/jni/db/version_set.cc:562-574 | no level-0 table left out overlaps a table chosen |
| Selection.GetRange | library/src/main/jni/db/version_set.cc:1223-1243 | the bounds are attained and hold for every input |
| Selection.SetupOtherInputs | library/src/main/jni/db/version_set.cc:1344-1409 | the inputs are exactly the ones the code selects: the level+1 tables meeting the range of the level inputs, and the grown inputs exactly when growing them adds to them, adds nothing below and stays within the byte limit; inputs that start without a gap stay without one |
| Selection.ExpandInputs | library/src/main/jni/db/version_set.cc:1357-1387 | growing happens exactly under those conditions, keeps all earlier level inputs and the exact choice at level+1 |
| Selection.OutputsFit | library/src/main/jni/db/version_set.cc:1344-1409 | everything the merge can emit lies on one side of each level+1 table that is not an input |
| Selection.PickInputs | library/src/main/jni/db/version_set.cc:1290-1342 | the inputs picked for a table are exactly the ones set up for it, at level 0 for the least closed range around it; they are valid, contain it, and together span every key between their first and last |
| Selection.LimitBytes | library/src/main/jni/db/version_set.cc:1425-1436 | the shortest prefix of the tables that reaches the size limit, or all of them |
| Selection.CompactRange | library/src/main/jni/db/version_set.cc:1411-1444 | a manual compaction exists exactly when a table meets the range; its inputs are the ones set up for the tables in the range, at level 0 for its closure and uncut, elsewhere cut at the byte limit, and valid |
| Selection.AddClosure | library/src/main/jni/db/version_set.cc:562-574 | the level-0 closure around tables without a gap leaves no gap, by minimality of the closed range |
| Selection.PickLevelForMemTableOutput | library/src/main/jni/db/version_set.cc:507-533 | the level is 0 when something there overlaps, else the first one with too much below it, or the deepest allowed |
| Selection.PickedOnce | library/src/main/jni/db/version_set.cc:507-533 | there is one such level, and nothing at or above it overlaps a table put below level 0 |
| Sinking.SinksIff | library/src/main/jni/db/version_set.cc:507-533 | a key range is put at a given level or deeper exactly when nothing at level 0 overlaps it and no level above has too much below it |
| Sinking.SinksBefore | library/src/main/jni/db/version_set.cc:507-533 | tables that were added never let a range sink deeper |
| Sinking.SinksNarrow | library/src/main/jni/db/version_set.cc:507-533 | a narrower range sinks at least as deep |
| Compactions.MergeAllSorted | library/src/main/jni/db/version_set.cc:1257-1288 | merging runs that share no internal key is sorted |
| Compactions.Compaction.IsBaseLevelForKey | library/src/main/jni/db/version_set.cc:1481-1500 | for keys asked in ascending order the advancing cursors decide exactly whether a deeper level can hold the key |
| Compactions.DoCompactionWork | library/src/main/jni/db/db_impl.cc:866-974 | the loop with its running key and sequence state writes exactly the entries the drop rules keep, in order; every output ends exactly where it has reached the size limit, where the next input key overlaps the grandparents too much, or at the end of the input, and nowhere before; numbers and sizes are those of the outputs |
| Compactions.DroppedIsInvisible | library/src/main/jni/db/db_impl.cc:912-938 | both drop rules together change no read at or above the oldest snapshot, if and only if no deletion they drop uncovers a value that stays |
| Compactions.KeptIffVisible | library/src/main/jni/db/db_impl.cc:912-938 | an entry of the input is kept exactly when some reader at or above the oldest snapshot sees it and it is no deletion below the snapshot with nothing deeper |
| Compactions.Compaction.ShouldStopBefore | library/src/main/jni/db/version_set.cc:1502-1522 | for keys in ascending order the running index and sum decide exactly whether the grandparents passed since the last stop weigh more than the limit |
| Grandparents.OverlapWithin | library/src/main/jni/db/version_set.cc:1502-1522 | between two keys with no stop after the first, the grandparents passed weigh at most 20 MB |
| Compactions.OutputOverlapsLittle | library/src/main/jni/db/db_impl.cc:894-902 | no output of a compaction passes more than 20 MB of grandparents between its smallest and its largest key |
| CompactionSteps.LevelZeroSplitFree | library/src/main/jni/db/version_set.cc:1328-1337 | a level-0 choice leaves no older version of an input key behind |
| CompactionSteps.JobInputSorted | library/src/main/jni/db/version_set.cc:1257-1288 | the merged input of a compaction is sorted and holds exactly the inputs' entries |
| CompactionSteps.BeginKeeps | library/src/main/jni/db/db_impl.cc:656-736 | starting a compaction keeps the database invariant when no user key is split at the border of its level inputs and no deletion it will drop uncovers a value |
| CompactionSteps.OpenOutputKeeps | library/src/main/jni/db/db_impl.cc:755-778 | opening an output keeps the invariant; its number stays protected from deletion |
| CompactionSteps.AbandonKeeps | library/src/main/jni/db/db_impl.cc:738-753 | giving a compaction up keeps the invariant |
| Installing.InstallReads | library/src/main/jni/db/db_impl.cc:832-851 | replacing the inputs by the outputs changes no read at or above the snapshot the compaction started with, writes and flushes in between, if and only if no deletion it drops uncovers a value |
| Installing.InstallValid | library/src/main/jni/db/db_impl.cc:832-851 | afterwards levels below 0 are sorted and disjoint and entries still get older level by level |
| Installing.InstallKeeps | library/src/main/jni/db/db_impl.cc:832-851 | installing the results keeps the whole database invariant |
| CompactionSteps.InstallIs | library/src/main/jni/db/db_impl.cc:832-851 | the inputs leave their levels, the outputs arrive at the lower one, and no other table moves |
| Moving.MoveKeeps | library/src/main/jni/db/db_impl.cc:686-700 | a trivial move keeps the database invariant when no user key is split behind the moved table |
| Moving.MoveIs | library/src/main/jni/db/db_impl.cc:686-700 | the moved table leaves its level and arrives at the next, and no other table moves |
| Borders.SplitFreeIffBorder | library/src/main/jni/db/version_set.cc:1344-1409 | older versions of an input key stay behind exactly when the table behind the inputs starts with the user key the inputs end with |
| Borders.InstallSafeIff | library/src/main/jni/db/db_impl.cc:832-851 | for every compaction, split borders or not: all lookups at or above its snapshot keep their answers if and only if no newest entry is overtaken by an older one left in its level and no dropped deletion uncovers a value of the next level |
| Borders.CompactionSafeIff | library/src/main/jni/db/db_impl.cc:853-1009 | the same for a compaction started in any state that meets the invariant, as a condition on that state alone |
| Borders.LaterWritesDoNotMatter | library/src/main/jni/db/db_impl.cc:832-851 | writes made while the compaction runs do not change whether its results will be noticed |
| Borders.SharedBorderGoesStale | library/src/main/jni/db/version_set.cc:1344-1409 | when the table behind the level inputs starts with their last user key, the lookup at the last input entry returns an older version afterwards |
| Borders.NoticedOnlyAtBorders | library/src/main/jni/db/version_set.cc:1344-1409 | a lookup can change only where a table left out starts with the last user key of the inputs of its level |
| Borders.NoticedAt | library/src/main/jni/db/db_impl.cc:832-851 | where the condition fails, a reader at or above the snapshot finds the newest entry before and the older one after |
| Borders.MoveSafeIff | library/src/main/jni/db/db_impl.cc:686-700 | a trivial move keeps the answer of every lookup of the whole store from the oldest readable sequence number on, if and only if no newest entry of the moved table leaves an older version with another answer behind in its level |
| Borders.MoveNoticedAt | library/src/main/jni/db/db_impl.cc:686-700 | where the condition fails, a reader finds the newest entry before the move and the older one after |
| Borders.MoveSafeIffBorderClear | library/src/main/jni/db/db_impl.cc:686-700 | below level 0 a trivial move leaves what every lookup of the whole store finds, if and only if the next table does not start with the moved table's last user key |
| Borders.SharedBorderIsStale | library/src/main/jni/db/db_impl.cc:686-700 | when it does, the lookup at the moved table's last entry finds an older version |
| Borders.ClearBorderKeepsLookups | library/src/main/jni/db/db_impl.cc:686-700 | when it does not, every lookup finds what it found before |
| SplitRuns.SplitIsReached | library/src/main/jni/db/db_impl.cc:866-974 | a run of a new database to a level whose two tables share a user key: write, snapshot, a batch with the deletion, flushes, and a compaction with the inputs the code sets up, cut between the two versions |
| SplitRuns.MoveRevives | library/src/main/jni/db/db_impl.cc:686-700 | there the code sets the first table up for a trivial move, and the move makes the lookup of the deleted key find the deleted value |
| SplitRuns.MergeRevives | library/src/main/jni/db/db_impl.cc:853-1009 | in such a run with a table at the next level, the compaction the code sets up for the first table makes the lookup find the deleted value too |
| SplitRuns.DropRevives | library/src/main/jni/db/db_impl.cc:912-938 | after one more write and flush, with no snapshot left, the compaction the code sets up for the table of level 1 drops the deletion and readers find the deleted value |
| Fences.GaplessFences | library/src/main/jni/db/version_set.cc:507-533 | a table that meets none of some tables without a gap lies on one side of all of them |
| Fences.StepFenced | library/src/main/jni/db/db_impl.cc:883-893 | every step, a flush inside a compaction included, keeps tables new at the output level beside the inputs |
| Fences.WalledAlwaysInstalls | library/src/main/jni/db/db_impl.cc:832-851 | over any run, the results of a compaction whose inputs have no gap, or whose outputs go below the deepest level of a flush, can be installed whatever was flushed meanwhile |
| Gaps.InstallableIff | library/src/main/jni/db/db_impl.cc:883-893 | whatever memtables and batches are under way, over every continuation that writes keys of a given set the outputs stay installable if and only if nothing is between them now and no key of the set inside one of them can still reach their level |
| Gaps.DangerReached | library/src/main/jni/db/version_set.cc:507-533 | if one can, writing out what waits and writing the key at most twice puts a flushed table between the outputs |
| Gaps.StepKeepsSafe | library/src/main/jni/db/db_impl.cc:883-893 | every step while the compaction runs keeps the outputs installable and every such key shut out |
| Gaps.GaplessIsSafe | library/src/main/jni/db/version_set.cc:1290-1342 | inputs that span every key of the set between them leave no such key |
| Gaps.ObstructedOverlaps | library/src/main/jni/db/version_set.cc:746-761 | outputs installed all the same leave a level that is not sorted |
| GapRuns.ManualCompactionOverlaps | library/src/main/jni/db/version_set.cc:1411-1444 | a run of a new database with a manual compaction of two tables with a gap, selected as the code selects, and a write into the gap: the flush lands at the output level and the installed level has overlapping tables |
| GapRuns.BothSelected | library/src/main/jni/db/version_set.cc:1411-1444 | the manual compaction of the range takes both tables, as long as the first is smaller than an output table |
| GapRuns.AdjacentIsSafe | library/src/main/jni/util/comparator.cc:25-27 | for keys that are byte strings nothing fits between a string and the same string with a zero byte behind it |
| Engine.Get | library/src/main/jni/db/db_impl.cc:1072-1117 | memtable, immutable memtable, version: the answer is what the full history of writes gives at the snapshot |
| Engine.Find | library/src/main/jni/db/db_impl.cc:1072-1117 | the first of memtable, immutable memtable and levels with a visible entry answers, in whatever order of age they are |
| Steps.LogWriteKeeps | library/src/main/jni/db/db_impl.cc:1186-1190 | logging a batch ahead of the memtable keeps the invariant |
| Steps.ApplyWriteKeeps | library/src/main/jni/db/db_impl.cc:1191-1198 | applying it adds exactly its entries to the readable history |
| Steps.SwitchKeeps | library/src/main/jni/db/db_impl.cc:1308-1329 | a new log and memtable keep the invariant |
| Steps.FlushKeeps | library/src/main/jni/db/db_impl.cc:452-529 | writing the immutable memtable to the chosen level and dropping earlier logs keeps the invariant |
| Steps.FlushIs | library/src/main/jni/db/db_impl.cc:452-529 | a flush puts the memtable's table, if there is one, at its level and moves no other table |
| Steps.DeleteObsoleteKeeps | library/src/main/jni/db/db_impl.cc:219-267 | no log, live table, table of a pinned version or pending output that is still needed is removed |
| Steps.DeleteObsoleteIs | library/src/main/jni/db/db_impl.cc:219-267 | a table stays exactly when a version in use names it or it is pending, a log, unchanged, exactly when its number is not below the manifest's, and nothing else changes |
| Garbage.NothingElseIsLeft | library/src/main/jni/db/db_impl.cc:219-267 | in every state of every run: after the deletion the logs left are those of the two memtables and the tables left those of the current version, of versions in use, and the outputs of the running compaction |
| Steps.TakeSnapshotKeeps | library/src/main/jni/db/db_impl.cc:1138-1141 | taking a snapshot keeps the invariant and what it reads |
| Steps.ReleaseRemoves | library/src/main/jni/db/db_impl.cc:1143-1146 | releasing a snapshot takes out the one at its place, keeps all others in order and changes nothing else; the same of versions in use |
| Runs.OnlyReleaseEnds | library/src/main/jni/db/db_impl.cc:1138-1146 | of all steps only a release and a crash end a snapshot, and only taking one adds one |
| Reopening.SnapshotReplays | library/src/main/jni/db/version_set.cc:1076-1104 | the snapshot record replays to the version it was taken from |
| Reopening.ReopenKeeps | library/src/main/jni/db/db_impl.cc:269-450 | replaying manifest and logs gives back the same stored entries and last sequence number |
| Recovery.LogsRebuildMemtables | library/src/main/jni/db/db_impl.cc:357-450 | the logs give both memtables back as level-0 tables in age order, however often the replay memtable fills up |
| Recovery.TablesWhenFull | library/src/main/jni/db/db_impl.cc:357-450 | a log becomes one table per stretch of batches, each stretch ending exactly when the replay memtable is full, in order |
| Opening.RecoverLogFile | library/src/main/jni/db/db_impl.cc:357-450 | the replay loop writes the tables and finds the sequence number the reference replay gives |
| Opening.LogsToRecover | library/src/main/jni/db/db_impl.cc:308-337 | from the log files in any order, exactly those from the manifest's log number on and the previous log, oldest first |
| Opening.RecoverLogFiles | library/src/main/jni/db/db_impl.cc:336-352 | all the logs listed, in order, with their own numbers marked as used |
| Opening.Open | library/src/main/jni/db/db_impl.cc:1430-1462 | one builder over the manifest; opening fails exactly when the manifest is missing or names a missing table, and otherwise gives the reference state |
| Opening.OpenDatabase | library/src/main/jni/db/db_impl.cc:1430-1462 | what a crash leaves opens as a valid database with the same contents, history and last sequence number |
| Runs.StepKeeps | library/src/main/jni/db/db_impl.cc:656-736 | every step of the database keeps the invariant |
| Runs.CrashKeeps | library/src/main/jni/db/db_impl.cc:269-450 | at any point a crash loses nothing that reached the log, and opening succeeds with the same contents |
| Runs.ReadsAreTrue | library/src/main/jni/db/db_impl.cc:1072-1117 | in every state of every run of a new database each live snapshot and the latest state read as the full write history does |
| Runs.SnapshotNeverChanges | library/src/main/jni/db/db_impl.cc:1072-1117 | over every run of writes, switches, flushes, moves, compactions, deletions and crashes a snapshot answers every key alike at any two moments it is readable |
| Runs.EveryRunIsGood | library/src/main/jni/db/db_impl.cc:178-208 | from a new database on, every run keeps the invariant at every point |
| Tails.RunTailed | library/src/main/jni/db/db_impl.cc:1157-1218 | over every run the memtables hold the latest writes and the manifest's sequence number covers the flushed ones; the tables alone read as the flushed writes do, if no compaction dropped a deletion that covers a value |
| TornLogs.TornReopens | library/src/main/jni/db/db_impl.cc:269-450 | whatever the logs lost at their ends, the database opens, meets the invariant and answers for exactly the writes that are left, when the tables alone read as the flushed writes do |
| TornLogs.TornAlwaysOpens | library/src/main/jni/db/db_impl.cc:269-450 | whatever the logs lost, the database opens with exactly the tables and what is left of the logs |
| TornLogs.TornTrueIff | library/src/main/jni/db/db_impl.cc:269-450 | it answers for the writes that are left, whatever was lost, if and only if the tables alone read as the flushed writes do |
| TornLogs.PrefixIff | library/src/main/jni/db/db_impl.cc:357-450 | the writes left were all made before those that are lost, if and only if the older log lost nothing or nothing is left of the newer one |
| TornLogs.CutFileHolds | library/src/main/jni/db/log_reader.cc:179-218 | a log file cut at any byte holds the first batches of the log and no other |
| TornLogs.FileHoldsOnce | library/src/main/jni/db/log_reader.cc:59-162 | a log file holds one list of batches only |
| TornLogs.TornFilesReopen | library/src/main/jni/db/db_impl.cc:357-450 | in any state of any run, cut the bytes of every log file anywhere and open: the database opens with the tables and the batches the files still hold; these are a prefix of the writes exactly when the older log lost nothing or nothing is left of the newer one, and the database answers for them if no compaction of the run dropped a deletion that covers a value |
| TornRuns.HoleIsReached | library/src/main/jni/db/db_impl.cc:357-450 | a run in which losing the older of two logs keeps a later write and loses an earlier one |
| TornRuns.TornRevives | library/src/main/jni/db/db_impl.cc:912-938 | a run in which a dropped deletion is hidden by a write in the log, and losing that log brings the deleted value back |
| DbImpl.Database.Write | library/src/main/jni/db/db_impl.cc:1157-1218 | log, memtable and sequence number change exactly by the batch, and the history grows by its entries |
| DbImpl.Database.Get | library/src/main/jni/db/db_impl.cc:1072-1117 | the result is the read of the write history at the given snapshot or the latest sequence number |
| DbImpl.Database.GetSnapshot | library/src/main/jni/db/db_impl.cc:1138-1141 | the current sequence number joins the end of the snapshots and nothing else changes |
| DbImpl.Database.ReleaseSnapshot | library/src/main/jni/db/db_impl.cc:1143-1146 | exactly the given snapshot leaves the list, and the others stay in order |
| DbImpl.Database.SwitchMemTable | library/src/main/jni/db/db_impl.cc:1308-1329 | the memtable becomes the immutable one, a new and empty memtable and log take its place, and tables stay; the invariant is kept |
| DbImpl.Database.CompactMemTable | library/src/main/jni/db/db_impl.cc:498-529 | at the level the code picks exactly the memtable's table is added, if it is not empty, and earlier logs are no longer needed; the invariant is kept and a running gapless compaction still safe to install |
| DbImpl.Database.StartCompaction | library/src/main/jni/db/version_set.cc:1290-1342 | exactly the inputs the code picks for the table, without a gap, are recorded with the oldest sequence number a reader may use; the invariant is kept when no border is split and nothing is uncovered, and that is decided exactly |
| DbImpl.GrandparentsOf | library/src/main/jni/db/version_set.cc:1389-1394 | the grandparents are exactly the tables two levels down that meet the range of all inputs, and none when there is no such level |
| DbImpl.Database.MoveTable | library/src/main/jni/db/db_impl.cc:686-700 | exactly the table leaves its level for the next, with the invariant kept |
| DbImpl.Database.DeleteObsoleteFiles | library/src/main/jni/db/db_impl.cc:219-267 | a table stays exactly when it is named by the current version, a version in use or the running compaction, or pending, and a log exactly when its number is not below the manifest's; the invariant is kept |
| DbImpl.Database.OpenOutputFile | library/src/main/jni/db/db_impl.cc:755-778 | the full new state, with the invariant kept |
| DbImpl.Database.MergeInputs | library/src/main/jni/db/db_impl.cc:853-1009 | the outputs hold exactly what the drop rules keep of the inputs, cut exactly where size and grandparent overlap say |
| DbImpl.Database.InstallResults | library/src/main/jni/db/db_impl.cc:832-851 | exactly the inputs leave and exactly the outputs arrive, with the invariant kept |
| DbImpl.Database.FinishCompaction | library/src/main/jni/db/db_impl.cc:853-1009 | merging, opening and installing in one go exchanges inputs for outputs that are cut as the rules say, and keeps history and invariant, whatever was flushed since the start |
| DbIter.VisibleIsReads | library/src/main/jni/db/db_iter.cc:173-203 | the reference list of a scan holds a key and value exactly when a read at the snapshot returns them |
| DbIter.DBIter.FindNextUserEntry | library/src/main/jni/db/db_iter.cc:173-203 | driving the merging iterator, stops at the first live visible entry from the current position on, skipping shadowed ones |
| DbIter.DBIter.FindPrevUserEntry | library/src/main/jni/db/db_iter.cc:232-272 | saves the last live entry before the position and leaves only invisible entries between |
| DbIter.DBIter.Next | library/src/main/jni/db/db_iter.cc:146-171 | the reference position moves one on, from either direction |
| DbIter.DBIter.Prev | library/src/main/jni/db/db_iter.cc:205-230 | the reference position moves one back, from either direction |
| DbIter.DBIter.Seek | library/src/main/jni/db/db_iter.cc:274-286 | the reference position is the first key at or after the target |
| DbIter.DBIter.SeekToFirst | library/src/main/jni/db/db_iter.cc:288-297 | the reference position is the first entry, if any |
| DbIter.DBIter.SeekToLast | library/src/main/jni/db/db_iter.cc:299-304 | the reference position is the last entry, if any |
| DbIter.WalksForward | library/src/main/jni/db/db_iter.cc:146-171 | from the first row on, moving to the next shows every row once, in order |
| DbIter.WalksBackward | library/src/main/jni/db/db_iter.cc:205-230 | from the last row back, every row once in reverse |
| DbIter.Run | library/src/main/jni/db/db_iter.cc:146-304 | any sequence of moves with any changes of direction, made through the merging iterator and its children, shows what a cursor over the live visible entries of the merged children shows |
| Merger.SmallestIsNext | library/src/main/jni/table/merger.cc:155-168 | the smallest child head is the next entry of the sorted merge |
| Merger.LargestIsPrevious | library/src/main/jni/table/merger.cc:170-183 | the largest child head is the previous entry of the sorted merge |
| Merger.MergingIterator.Next | library/src/main/jni/table/merger.cc:59-83 | moves the cursor over the merge by one, direction switch of the children included |
| Merger.MergingIterator.Prev | library/src/main/jni/table/merger.cc:85-112 | moves the cursor over the merge back by one, direction switch of the children included |
| Merger.MergingIterator.Seek | library/src/main/jni/table/merger.cc:51-57 | stands at the first merged entry at or after the target |
| Merger.Run | library/src/main/jni/table/merger.cc:35-183 | any sequence of moves of the iterator over its children's iterators, lists and two-level iterators alike, shows what a cursor over the sorted merge of the children shows |
| Merger.MergingIterator.Move | library/src/main/jni/table/merger.cc:35-57 | one child moves as a cursor over its entries does, and the others stay where they are |
| Children.IteratorWrapper.Make | library/src/main/jni/table/iterator_wrapper.h:42-55 | the wrapped iterator makes the move, and the cached head is its entry there |
| Children.Wrap | library/src/main/jni/table/merger.cc:16-26 | every child gets a wrapper of its own |
| TwoLevel.SeekLands | library/src/main/jni/table/two_level_iterator.cc:91-96 | seeking the index and then its block is seeking the concatenation |
| TwoLevel.TwoLevelIterator.SkipEmptyDataBlocksForward | library/src/main/jni/table/two_level_iterator.cc:125-136 | empty blocks and used up blocks are passed without losing the position |
| TwoLevel.TwoLevelIterator.SkipEmptyDataBlocksBackward | library/src/main/jni/table/two_level_iterator.cc:138-149 | the same going back |
| TwoLevel.Run | library/src/main/jni/table/two_level_iterator.cc:91-170 | any sequence of moves shows what a cursor over the concatenation of the blocks shows, with block iterators reused |
| Scans.RunsTidy | library/src/main/jni/db/db_impl.cc:1030-1059 | the children of the internal iterator are sorted, share no internal key, and hold exactly what is stored |
| Scans.LevelIsChild | library/src/main/jni/db/version_set.cc:166-237 | a two-level iterator over the tables of a level, by largest key and file number, goes over the level's entries in order |
| Scans.ChildrenUnder | library/src/main/jni/db/version_set.cc:239-256 | the children made for a store, one per memtable and level-0 table and one per deeper level, go over exactly its layers |
| Scans.ScanShowsHistory | library/src/main/jni/db/db_impl.cc:1119-1129 | a scan at a snapshot lists exactly the keys and values that reads of the write history return there |
| Scans.Scan | library/src/main/jni/db/db_impl.cc:1119-1129 | the user's iterator over the merging iterator over the iterators of all layers of a store shows, over any moves, a cursor on the rows that reads of the write history return at the snapshot |
| Coding.GetVarint32 | library/src/main/jni/util/coding.cc:112-129 | the shift loop computes the value of the seven-bit groups modulo 2^32 and accepts exactly what the recursive definition accepts |
| Coding.VarintRoundTrip | library/src/main/jni/util/coding.cc:47-73 | decoding an encoded number in front of any bytes gives it back with its size |
| Coding.VarintCut | library/src/main/jni/util/coding.cc:112-129 | a number cut short at any byte is refused |
| Coding.WordOfFixed | library/src/main/jni/util/coding.cc:9-33 | a little-endian word decodes to the number it was made from |
| Coding.FixedOfWord | library/src/main/jni/util/coding.cc:9-33 | and the other way round |
| Coding.LengthPrefixedRoundTrip | library/src/main/jni/util/coding.cc:98-101 | a length-prefixed string in front of any bytes is read back with the rest |
| Coding.LengthPrefixedCut | library/src/main/jni/util/coding.cc:171-192 | a length-prefixed string cut short at any byte is refused |
| SnappyFormat.DecodeAppend | library/src/main/jni/snappy/snappy.cc:716-787 | decoding goes on where a complete prefix left off |
| SnappyFormat.DecodeLiteral | library/src/main/jni/snappy/snappy.cc:156-196 | a literal of any length below 2^32 decodes to its bytes |
| SnappyFormat.DecodeCopy | library/src/main/jni/snappy/snappy.cc:198-232 | the 64/60-byte pieces of a long copy decode to one copy |
| SnappyFormat.CopyRepeats | library/src/main/jni/snappy/snappy.cc:98-103 | a byte-wise copy rebuilds a repeating stretch even when source and target overlap |
| SnappyDecompress.IncrementalCopy | library/src/main/jni/snappy/snappy.cc:98-103 | the buffer holds what copying byte by byte means |
| SnappyDecompress.IncrementalCopyFastPath | library/src/main/jni/snappy/snappy.cc:140-152 | the same bytes as the byte-wise copy, nothing written beyond ten bytes past the end |
| SnappyDecompress.SnappyArrayWriter.Append | library/src/main/jni/snappy/snappy.cc:1159-1168 | succeeds exactly when the bytes fit, and then appends exactly them |
| SnappyDecompress.SnappyArrayWriter.TryFastAppend | library/src/main/jni/snappy/snappy.cc:1170-1182 | the 16-byte shortcut appends exactly the literal and stays below the limit |
| SnappyDecompress.SnappyArrayWriter.AppendFromSelf | library/src/main/jni/snappy/snappy.cc:1184-1217 | each copy path accepts and produces exactly what the format says |
| SnappyDecompress.DecompressAllTags | library/src/main/jni/snappy/snappy.cc:716-787 | reaches the end exactly when the tag stream decodes, with that output |
| SnappyDecompress.RawUncompress | library/src/main/jni/snappy/snappy.cc:1220-1228 | accepts exactly the well-formed inputs and returns what they encode, for both word widths |
| SnappyDecompress.ValidateAllTags | library/src/main/jni/snappy/snappy.cc:1246-1273 | the counting writer accepts the same tag streams and counts their output |
| SnappyDecompress.IsValidCompressedBuffer | library/src/main/jni/snappy/snappy.cc:1275-1279 | accepts exactly what uncompressing accepts |
| SnappyCompress.EmitLiteral | library/src/main/jni/snappy/snappy.cc:156-196 | writes the literal, and nothing past the space the fast path asks for |
| SnappyCompress.EmitCopyLessThan64 | library/src/main/jni/snappy/snappy.cc:198-214 | writes the one- or two-byte-offset copy |
| SnappyCompress.EmitCopy | library/src/main/jni/snappy/snappy.cc:216-232 | writes the pieces of a long copy |
| SnappyCompress.FindMatchLength | library/src/main/jni/snappy/snappy-internal.h:85-118 | the longest match, word by word and then byte by byte |
| SnappyCompress.GetHashTable | library/src/main/jni/snappy/snappy.cc:247-271 | a cleared table of the least power of two from 256 on that is not below the input size, up to 16384 |
| SnappyMatching.PiecesDetermined | library/src/main/jni/snappy/snappy.cc:329-453 | the greedy search with its hash table and growing skips gives one list of literals and copies only, for any hash function |
| SnappyMatching.RunShrinks | library/src/main/jni/snappy/snappy.cc:329-453 | a run of n equal bytes, from 17 up to a whole fragment, is one literal byte and one copy, in at most 2 + 3 (n/60 + 1) bytes |
| SnappyCompress.CompressFragment | library/src/main/jni/snappy/snappy.cc:329-453 | for any hash function: literals and copies are exactly those of the greedy search, every copy as long as it can be and every literal ending where the first probe finds a match, and the output is their code, decodes to the fragment, stays within the share of space it may use, and is short for a run of equal bytes |
| SnappyCompress.RawCompress | library/src/main/jni/snappy/snappy.cc:874-947 | the output is the length and the code of the greedy pieces of each 32 KB fragment; it decodes to the input and fits in 32 + n + n/6 bytes, fast-path overshoot included |
| SnappyCompress.RoundTrip | library/src/main/jni/snappy/snappy.cc:1281-1291 | for every input below 2^32 bytes and any hash function, compressing and uncompressing gives the input back, and the validator agrees |
| SkipList.StepKeeps | library/src/main/jni/db/skiplist.h:334-367 | after every single store of an insertion each level is a sorted sublist of the one below |
| SkipList.LoadExact | library/src/main/jni/db/skiplist.h:259-319 | at its last load a search has the exact neighbours of its target |
| SkipList.EverySearchIsExact | library/src/main/jni/db/skiplist.h:259-319 | over every interleaving with one writer, a finished search is exact at the moment of its last load, for any heights and a stale max height, and sees every node linked before, if any |
| SkipList.EverySearchEnds | library/src/main/jni/db/skiplist.h:259-319 | in every reachable state, a search that is under way ends after finitely many loads of its own |
| SkipList.RunGrows | library/src/main/jni/db/skiplist.h:334-367 | a node once linked stays, with its key |
| SkipList.InsertionLinksAll | library/src/main/jni/db/skiplist.h:334-367 | once an insertion is over its node is in every level of its height, for good |
| SkipList.ReadersNeverStuck | library/src/main/jni/db/skiplist.h:259-278 | every link a reader follows has been written |
| SkipList.FindGreaterOrEqual | library/src/main/jni/db/skiplist.h:259-278 | the writer's search finds the place and the predecessor at every level |
| Log.Writer.EmitPhysicalRecord | library/src/main/jni/db/log_writer.cc:75-100 | adds exactly one fragment to what the file parses to |
| Log.Writer.AddRecord | library/src/main/jni/db/log_writer.cc:27-73 | the file is only appended to and reads back as all records so far, for any size and block position; it grows by the data, a header per fragment and at most one block trailer, with no more fragments than the blocks ask for |
| Log.Reader.ReadPhysicalRecord | library/src/main/jni/db/log_reader.cc:179-256 | returns the next event the file parses to |
| Log.Reader.ReadRecord | library/src/main/jni/db/log_reader.cc:59-162 | returns the next logical record the events assemble to, or nothing at the end of the file or at a record whose type is that of the end mark |
| Log.ReadFile | library/src/main/jni/db/log_reader.cc:59-162 | reading to the end gives the reference reading of the file |
| Log.EndMarkHides | library/src/main/jni/db/log_reader.h:77-85 | a file in which a whole record is never read, because the one before it has the type of the end mark |
| Log.RoundTrip | library/src/main/jni/db/log_writer.cc:27-73 | written records are read back exactly |
| Log.ZeroTailIgnored | library/src/main/jni/db/log_reader.cc:220-226 | zeros behind the last record change nothing |
| LogFormat.TruncationKeepsPrefix | library/src/main/jni/db/log_reader.cc:179-218 | cutting a file at any byte gives a prefix of its records |
| LogFormat.ReadsEverythingIff | library/src/main/jni/db/log_reader.cc:59-162 | on any file the reader gets every record the fragments put together, if and only if none has the type of the end mark or none is complete behind the first that does |
| LogFormat.DamagedIsSubsequence | library/src/main/jni/db/log_reader.cc:79-160 | lost fragments lose whole records; no record is put together from two |
| LogFormat.DetectedDamageLosesRecords | library/src/main/jni/db/log_reader.cc:179-256 | if no damaged physical record passes its check where the reader meets it, the records read are a subsequence of the records written |
| LogFormat.DamageStaysInBlock | library/src/main/jni/db/log_reader.cc:179-256 | whatever the bytes of one block are, the records before it and behind it are read, but for those that reach into it, as if it were the end or the start of the file |
| BlockFormat.HeaderRoundTrip | library/src/main/jni/table/block.cc:53-75 | the three lengths in front of an entry are read back |
| BlockFormat.DecodeEntry | library/src/main/jni/table/block.cc:53-75 | the one-byte fast path and the general path read the same lengths and refuse the same inputs |
| Block.BlockBuilder.Add | library/src/main/jni/table/block_builder.cc:73-107 | the contents grow by exactly the entry, as a restart point when the interval is full and otherwise sharing the longest prefix with the one before |
| Block.BlockBuilder.Finish | library/src/main/jni/table/block_builder.cc:63-71 | the bytes lay the entries out with their restart array |
| BlockIter.Iter.ParseNextKey | library/src/main/jni/table/block.cc:226-253 | rebuilds the next key and value from the bytes |
| BlockIter.Iter.Seek | library/src/main/jni/table/block.cc:165-203 | binary search over restarts and a scan land on the first key not before the target |
| BlockIter.Iter.Next | library/src/main/jni/table/block.cc:139-142 | moves to the next entry or the end |
| BlockIter.Iter.Prev | library/src/main/jni/table/block.cc:144-163 | lands on the true predecessor |
| BlockIter.Iter.SeekToLast | library/src/main/jni/table/block.cc:210-215 | lands on the last entry |
| BlockIter.Build | library/src/main/jni/table/block_builder.cc:63-107 | a block of any entries and any restart interval from one up is well formed, with a restart point at exactly every interval-th entry and the longest shared prefix everywhere else, as long as its offsets fit in 32 bits |
| BlockIter.RoundTrip | library/src/main/jni/table/block.cc:205-208 | building a block of increasing keys and iterating over it gives the entries back |
| BlockIter.ReadBlock | library/src/main/jni/table/block.cc:205-208 | iterating a built block gives its entries back |
| Bloom.SetBitSets | library/src/main/jni/util/bloom.cc:55-59 | setting a bit sets that bit and no other |
| Bloom.BloomFilterPolicy.constructor | library/src/main/jni/util/bloom.cc:23-29 | the number of probes is the whole part of 0.69 times the bits per key, at least 1 and at most 30 |
| Bloom.ProbeIs | library/src/main/jni/util/bloom.cc:48-59 | the j-th probe is the hash plus j times the rotated hash, modulo 2^32 |
| Bloom.RotateBack | library/src/main/jni/util/bloom.cc:52-52 | the rotation puts the low 17 bits in front of the high 15 |
| Bloom.BloomFilterPolicy.CreateFilter | library/src/main/jni/util/bloom.cc:35-61 | covers every key, sets no bit for anything else, and has exactly the size asked for, with the number of probes behind it |
| Bloom.BloomFilterPolicy.KeyMayMatch | library/src/main/jni/util/bloom.cc:63-87 | answers yes exactly for covered keys and reserved encodings, so there are no false negatives |
| FilterBlock.FilterBlockBuilder.StartBlock | library/src/main/jni/table/filter_block.cc:22-28 | filters are generated up to the new offset and every earlier promise is kept |
| FilterBlock.FilterBlockBuilder.GenerateFilter | library/src/main/jni/table/filter_block.cc:52-76 | the collected keys are covered by the next filter, earlier filters are untouched |
| FilterBlock.FilterBlockBuilder.Finish | library/src/main/jni/table/filter_block.cc:36-50 | every key promised for an offset is held by the filter of that offset; each filter is the one made for its group of keys, the groups are all keys in order, and the filters are no bigger than their keys' shares |
| FilterBlock.KeyMayMatch | library/src/main/jni/table/filter_block.cc:95-109 | a key is ruled out exactly when the filter of the offset's 2 KB range is empty or lacks a bit of it; a key added there never is |
| FilterBytes.AppendOffsets | library/src/main/jni/table/filter_block.cc:41-49 | the offsets, where they start and the range size follow the filters as fixed words and a byte |
| FilterBytes.EncodedReads | library/src/main/jni/table/filter_block.cc:78-109 | reading the bytes of a finished block at any offset gives its filter for that offset back, or none beyond the last |
| FilterBytes.KeyMayMatchBytes | library/src/main/jni/table/filter_block.cc:95-109 | on any bytes, what cannot be read rules nothing out, an empty filter everything, and a filter answers by its bits |
| FilterBytes.HeldIsFound | library/src/main/jni/table/filter_block.cc:95-109 | no key that a filter of a finished block holds is ruled out by its bytes |
| Separators.FindShortestSeparator | library/src/main/jni/util/comparator.cc:29-51 | kept, or cut behind the first difference to a string strictly between; it is shortened exactly when a byte fits there |
| Separators.FindShortSuccessor | library/src/main/jni/util/comparator.cc:53-65 | kept exactly when it is a run of 0xff; otherwise a later string of the least possible length |
| Separators.InternalShortestSeparator | library/src/main/jni/db/dbformat.cc:68-85 | never falls between two versions of one user key |
| Separators.InternalShortSuccessor | library/src/main/jni/db/dbformat.cc:87-99 | at or after the key |
| ByteSeparators.BytesShorten | library/src/main/jni/db/dbformat.cc:68-99 | on keys that are byte strings the comparator's shortening lies strictly between its two keys, and its successor after its key, as the table builder needs them |
| ByteSeparators.SeparatorOnBytes | library/src/main/jni/db/dbformat.cc:68-85 | and that shortening is the one the comparator returns |
| ByteSeparators.SuccessorOnBytes | library/src/main/jni/db/dbformat.cc:87-99 | and that successor too |
| Table.OneBlockEnough | library/src/main/jni/table/table.cc:216-245 | the block the shortened index names answers for the whole table |
| Table.InternalGet | library/src/main/jni/table/table.cc:216-245 | with or without filters, reports the newest visible entry of the key whenever there is one, and reads the one block the index names unless the filter rules the key out |
| Table.LooseSeparatorMisses | library/src/main/jni/table/table.cc:216-245 | why separators must respect user keys: one between two versions of a key would hide the older from every lookup in between |
| TableBuilder.TableBuilder.Add | library/src/main/jni/table/table_builder.cc:92-121 | the table grows by exactly the entry |
| TableBuilder.TableBuilder.Flush | library/src/main/jni/table/table_builder.cc:123-137 | the collected entries become a block that index and filters will account for |
| TableBuilder.TableBuilder.Finish | library/src/main/jni/table/table_builder.cc:199-254 | the finished table holds the entries, and its index and filters are what lookups need; every block but the last ends exactly when it has reached the block size, blocks lie one behind the other, and separators are the shortened ones |
| TableBytes.InternalGetBytes | library/src/main/jni/table/table.cc:216-245 | the lookup that reads the filter block from bytes reports the newest visible entry of the key whenever there is one, and reads no block when the filter's bytes exclude the key |
| TableBytes.Build | library/src/main/jni/table/table_builder.cc:92-254 | a table built with the comparator's separators holds the entries, cut into blocks where the size says, with index, filters and the bytes of the filters as lookups need them |
| TableBytes.BuildAndGet | library/src/main/jni/table/table.cc:216-245 | for byte keys, any block size and filters that fit their offsets: what was built is found, through separators and filter bytes |
| GroupCommit.BuildBatchGroup | library/src/main/jni/db/db_impl.cc:1222-1267 | the longest prefix of the queue that may ride along, with its operations in order |
| GroupCommit.StepKeeps | library/src/main/jni/db/db_impl.cc:1157-1218 | every step of the protocol, switching of log and memtable included, keeps its invariant |
| GroupCommit.EveryRunCommitsInOrder | library/src/main/jni/db/db_impl.cc:1157-1218 | over every interleaving batches are logged once in queue order with contiguous numbers, and a reader sees all of the returned calls and nothing of any other |
| GroupCommit.SyncedCallsAreDurable | library/src/main/jni/db/db_impl.cc:1186-1190 | a returned call that asked for a sync has all its operations in one synced record of the log, across changes of the log file |
| GroupCommit.RidesIff | library/src/main/jni/db/db_impl.cc:1222-1267 | the writer at any place of the queue rides along exactly when the sync rule and the size rule hold for every writer up to it, requests without a batch included |
| GroupCommit.RequestSwitchesIffHead | library/src/main/jni/db/db_impl.cc:1157-1218 | over every interleaving a request to switch the memtable that has returned made a switch, moving everything called before it out, if and only if it left the queue as its head; otherwise it returned with a writer's group, whose operations stay in the memtable |
| GroupCommit.RequestRidesAlong | library/src/main/jni/db/db_impl.cc:1157-1218 | a run in which a request returns with a write's group, no switch was made, and the write is still in the memtable |
| GroupCommit.EveryCallReturns | library/src/main/jni/db/db_impl.cc:1205-1218 | every call that has returned did so at one step |
| GroupProgress.EveryCallCanReturn | library/src/main/jni/db/db_impl.cc:1157-1218 | from every reachable state, with sequence numbers left, the steps of the leaders alone bring every call made so far to its return |
| GroupProgress.QueueDrains | library/src/main/jni/db/db_impl.cc:1157-1218 | the queue drains by steps each of which is enabled when its turn comes, with no new call |
| GroupProgress.SwitchedWhenFull | library/src/main/jni/db/db_impl.cc:1308-1329 | log and memtable are switched by a leader that finds no room and by a request at the head of the queue, and by no other step |
| GroupProgress.SyncedIff | library/src/main/jni/db/db_impl.cc:1186-1190 | over every interleaving a record is synced exactly when a leader that asked for it has synced the log file the record is in, with the record or after it |
| WriteBatches.WriteBatch.Put | library/src/main/jni/db/write_batch.cc:98-103 | the bytes stand for the batch with one more update |
| WriteBatches.WriteBatch.Delete | library/src/main/jni/db/write_batch.cc:105-109 | the bytes stand for the batch with one more deletion |
| WriteBatches.WriteBatch.SetSequence | library/src/main/jni/db/write_batch.cc:94-96 | only the starting sequence number changes |
| WriteBatches.WriteBatch.Append | library/src/main/jni/db/write_batch.cc:141-145 | the other batch's updates follow this one's |
| WriteBatches.WriteBatch.Iterate | library/src/main/jni/db/write_batch.cc:42-80 | hands over the records up to the first fault; on a batch built by the other operations, exactly its updates and success |
| WriteBatches.WriteBatch.InsertInto | library/src/main/jni/db/write_batch.cc:128-134 | the updates are inserted in order with consecutive sequence numbers |
| WriteBatches.HoldsOnce | library/src/main/jni/db/write_batch.cc:5-14 | bytes stand for one batch only |
| WriteBatches.FaultStops | library/src/main/jni/db/write_batch.cc:42-80 | records cut short at any byte or with an unknown tag are reported, and exactly the updates before them are handed over |
| HandleTable.HandleTable.FindPointer | library/src/main/jni/util/cache.cc:98-105 | finds the slot of the key exactly when the map has it |
| HandleTable.HandleTable.Insert | library/src/main/jni/util/cache.cc:62-76 | the map gains the entry, the replaced one is returned, and the table grows exactly when it holds more entries than chains |
| HandleTable.HandleTable.Remove | library/src/main/jni/util/cache.cc:78-86 | the map loses exactly the key |
| HandleTable.HandleTable.Resize | library/src/main/jni/util/cache.cc:107-131 | rehashing all chains leaves the map as it was, in the least power of two of chains from 4 on that the entries ask for |
| LruCache.LRUCache.Lookup | library/src/main/jni/util/cache.cc:209-218 | returns the map's entry, now last in the list, all others in the order they had, and referenced once more |
| LruCache.LRUCache.Release | library/src/main/jni/util/cache.cc:220-223 | gives one reference back and leaves table and list alone |
| LruCache.LRUCache.Insert | library/src/main/jni/util/cache.cc:225-256 | replaces an old entry, and ends within capacity or with an empty list; the caller holds the new entry |
| LruCache.LRUCache.Erase | library/src/main/jni/util/cache.cc:258-265 | the entry leaves table and list; callers keep theirs |
| LruCache.PlacedKeeps | library/src/main/jni/util/cache.cc:225-246 | inserting comes to the same as erasing the old entry first, and keeps the invariant |
| LruCache.EvictedKeeps | library/src/main/jni/util/cache.cc:248-253 | eviction drops the front of the list and no more of it than it must to come within capacity, and no caller's handle |
| LruCache.EveryRunIsSafe | library/src/main/jni/util/cache.cc:186-265 | over every sequence of operations table and list agree, references and usage add up, and an entry in use is never freed |
| LruOrder.ListInOrderOfUse | library/src/main/jni/util/cache.cc:186-265 | over every run the list is in order of last use, by lookup or insertion |
| LruOrder.OldestGoFirst | library/src/main/jni/util/cache.cc:225-256 | over every run an insertion evicts an entry only together with every entry used less recently |
| Manifest.AppliedIsSaved | library/src/main/jni/db/version_set.cc:670-713 | after any edits the builder's sets describe exactly the version that applying them one by one gives |
| Edits.ApplyIs | library/src/main/jni/db/version_set.cc:670-762 | an edit takes out exactly the files it names as deleted and puts in exactly those it names as new |
| Manifest.OrderedUnique | library/src/main/jni/db/version_set.cc:610-625 | an ordered file list is determined by its files |
| Manifest.Builder.Apply | library/src/main/jni/db/version_set.cc:670-713 | one edit is taken in on every level |
| Manifest.SaveLevel | library/src/main/jni/db/version_set.cc:719-744 | the merge of base and added files is ordered and holds exactly the files not deleted |
| Manifest.Builder.SaveTo | library/src/main/jni/db/version_set.cc:716-762 | saving once equals saving after every edit |
| Manifest.RecoverVersion | library/src/main/jni/db/version_set.cc:918-1031 | one builder over the whole manifest finds the version built edit by edit |
| ManifestRuns.EditNumbered | library/src/main/jni/db/version_set.cc:825-916 | an edit that adds numbers new to their level keeps every number added at most once per level |
| ManifestRuns.StepNumbered | library/src/main/jni/db/version_set.cc:825-916 | every step of the database logs such edits, moves and reopening included |
| ManifestRuns.RecoverAnywhere | library/src/main/jni/db/version_set.cc:918-1031 | at any point of any run one builder over the manifest finds the current version |
| VersionEdits.VersionEdit.EncodeTo | library/src/main/jni/db/version_edit.cc:41-86 | the bytes are the tagged fields in order, deleted files by level and number |
| VersionEdits.VersionEdit.DecodeFrom | library/src/main/jni/db/version_edit.cc:109-210 | takes the tagged fields before the first fault, and reports whether there was one |
| VersionEdits.RoundTrip | library/src/main/jni/db/version_edit.cc:26-39 | decoding restores the encoded edit if and only if the target held no compaction pointers, which clearing keeps; in general they come first |
| VersionEdits.Copy | library/src/main/jni/db/version_edit.cc:41-210 | an edit written out and read into a new object is the same edit |
| VersionEdits.FaultStops | library/src/main/jni/db/version_edit.cc:109-210 | fields cut short at any byte or with an unknown tag are reported, and exactly the fields before them are taken |

## Left out

- JNI and Java layers, C bindings, repair, statistics and properties, approximate sizes, logging, and the posix environment.
- Failing input and output: writes, syncs and renames succeed; background errors and paranoid checks are not modelled.
- Checksums are a parameter; that damage is detected is a hypothesis of the damage theorem, not a property of CRC32C.
- Memory ordering: the skip list's stores and loads are sequentially consistent; arena allocation is not modelled.
- Sequence numbers stay below kMaxSequenceNumber, as the code assumes without checking.
- Compaction scores, seek statistics, round-robin pointers and slow-down of writers: which table is compacted when is any choice.
- Corrupt internal keys in DBIter, corrupt blocks in the block iterator: their error paths are not modelled.
- Reading a log from a nonzero offset, and the reports of dropped bytes.
- SnappyIOVecWriter, Snappy input split into fragments of a source, and the table of tag lengths, which is given by formula.
- The table footer, handles, block trailers and per-block compression: blocks are entries at an offset, with a size on file.
- Sharding of the cache and the table cache on top of it.
- Steps.FlushKeeps: a flush of an empty memtable is a step that writes no table, as the code does.
- CompactionSteps.BeginKeeps: assumes that no user key is split at the border of the level inputs and no dropped deletion uncovers a value, tests which the code lacks; Borders says exactly what happens to readers without them, and SplitRuns that the code gets there.
- Moving.MoveKeeps: assumes that no user key is split behind the moved table; Borders shows which lookups go stale exactly otherwise.
- Installing.InstallKeeps: assumes that flushed tables stay clear of the outputs; Gaps says exactly when they do, Fences proves it of every picked compaction, and GapRuns has a run of a manual one where they do not.
- Installing.InstallValid: the same assumptions, as part of the compaction being ready to install.
- Installing.InstallReads: the same assumptions but for uncovered values, which it decides.
- Runs.StepKeeps: a step starts compactions and moves only where no user key is split at a border and nothing is uncovered, and installs only clear of flushed tables, as above.
- Runs.SnapshotNeverChanges: the runs are made of such steps.
- Runs.EveryRunIsGood: the runs are made of such steps.
- DbImpl.Database.MoveTable: assumes that no user key is split behind the moved table, as Moving.MoveKeeps.
- DbImpl.Database.InstallResults: assumes that flushed tables stay clear of the outputs, as Installing.InstallKeeps.
- DbImpl.Database.FinishCompaction: covers compactions whose inputs have no gap, as all picked ones are, or whose outputs go below level 2; other manual compactions are covered by InstallResults.
- Opening.Open: promises the reference state for manifests that add no file number to a level twice, which ManifestRuns proves of every reachable one; manifest and logs are lists, whose bytes are modelled in VersionEdits, WriteBatches, Log and TornLogs.
- Opening.OpenDatabase: the same, and the database recorded no previous log, as the code itself never does.
- DbImpl.Database.Write: one writer at a time and no room making; the queue of writers and who switches the memtable are modelled in GroupCommit.
- GroupCommit.StepKeeps: whether the memtable is full is any choice of the leader; slow-down and background errors are left out.
- TornLogs.TornFilesReopen: the logs lose their ends only; other damage is treated in LogFormat.
- DbIter.Run: a child is a list or a two-level iterator over lists; that iterating the bytes of a block gives its list is BlockIter.ReadBlock.
- Gaps.InstallableIff: asks for room for the next few sequence numbers below kMaxSequenceNumber.
- Manifest.RecoverVersion: promises the version for manifests that add no file number to a level twice; ManifestRuns proves it of every reachable one.
- Bloom.BloomFilterPolicy.constructor: the number of probes is computed as bits times 69 over 100, not in floating point.
- FilterBlock.FilterBlockBuilder.Finish: offsets are kept as numbers; FilterBytes has the encoded block.
- LruCache.EveryRunIsSafe: the list and the bucket chains are sequences; relinking of pointers is not captured.
- HandleTable.HandleTable.FindPointer: hash values are recomputed from the key, not stored with the entry.
- BlockIter.Build: contents whose offsets do not fit in 32 bits are reported as not fitting; the builder itself does not check.
- WriteBatches.WriteBatch.Iterate: batches of 2^31 or more updates, whose count overflows, are not promised anything.
- TableBytes.BuildAndGet: the comparator is given by functions on keys, which ByteSeparators ties to its methods on bytes; filters of 2^32 bytes or more, whose offsets wrap, are excluded.
- TwoLevel.Run: the index is a list of separators; that a table's index is one is proved in Table and TableBuilder.
- SnappyCompress.GetHashTable: the small and the large table are one array of the chosen size.
