/** Group commit: queued writers, one of which logs and applies a prefix of the queue for all of
    them while the lock is free. */
module GroupCommit {
  import opened Wrappers
  import opened Entries
  import opened Engine

  /** A caller of `Write`; no batch stands for a request to switch the memtable. */
  datatype Writer = Writer(batch: Option<seq<Op>>, size: nat, sync: bool)

  function OpsOf(ws: seq<Writer>): seq<Op> {
    if ws == [] then []
    else OpsOf(ws[..|ws| - 1]) + if ws[|ws| - 1].batch.Some? then ws[|ws| - 1].batch.value else []
  }

  function SizeOf(ws: seq<Writer>): nat {
    if ws == [] then 0
    else SizeOf(ws[..|ws| - 1]) + if ws[|ws| - 1].batch.Some? then ws[|ws| - 1].size else 0
  }

  function MaxGroup(first: nat): nat {
    if first <= 0x2_0000 then first + 0x2_0000 else 0x10_0000
  }

  /** A group the leader may commit: no sync write behind a leader that does not sync, and not
      grown past its limit. */
  ghost predicate MayRide(ws: seq<Writer>) {
    && ws != [] && ws[0].batch.Some?
    && (forall i | 0 < i < |ws| :: ws[i].sync ==> ws[0].sync)
    && (forall i | 0 < i < |ws| && ws[i].batch.Some? :: SizeOf(ws[..i + 1]) <= MaxGroup(ws[0].size))
  }

  lemma OpsOfMore(ws: seq<Writer>, w: Writer)
    ensures OpsOf(ws + [w]) == OpsOf(ws) + (if w.batch.Some? then w.batch.value else [])
    ensures SizeOf(ws + [w]) == SizeOf(ws) + (if w.batch.Some? then w.size else 0)
  {
    assert (ws + [w])[..|ws|] == ws;
  }

  lemma {:induction false} OpsOfConcat(a: seq<Writer>, b: seq<Writer>)
    ensures OpsOf(a + b) == OpsOf(a) + OpsOf(b)
    decreases |b|
  {
    if b == [] {
      assert a + b == a;
    } else {
      var n := |b| - 1;
      OpsOfConcat(a, b[..n]);
      assert (a + b)[..|a + b| - 1] == a + b[..n];
    }
  }

  /** `BuildBatchGroup`: the longest prefix of the queue that may ride along. */
  method BuildBatchGroup(queue: seq<Writer>) returns (n: nat, ops: seq<Op>)
    requires queue != [] && queue[0].batch.Some?
    ensures 1 <= n <= |queue| && MayRide(queue[..n]) && ops == OpsOf(queue[..n])
    ensures n < |queue| ==> !MayRide(queue[..n + 1])
  {
    hide OpsOf, SizeOf;
    var first := queue[0];
    var size, maxSize := first.size, MaxGroup(first.size);
    ops, n := first.batch.value, 1;
    OpsOfMore([], first);
    Nothing();
    assert queue[..1] == [] + [first];
    while n < |queue|
      invariant 1 <= n <= |queue| && MayRide(queue[..n])
      invariant ops == OpsOf(queue[..n]) && size == SizeOf(queue[..n])
    {
      var w := queue[n];
      OpsOfMore(queue[..n], w);
      assert queue[..n + 1] == queue[..n] + [w];
      if w.sync && !first.sync {
        assert queue[..n + 1][n] == w && queue[..n + 1][0] == first;
        return;
      }
      if w.batch.Some? {
        size := size + w.size;
        if size > maxSize {
          assert queue[..n + 1][..n + 1] == queue[..n + 1] && queue[..n + 1][n] == w;
          return;
        }
        ops := ops + w.batch.value;
      }
      RidesToo(queue, n);
      n := n + 1;
    }
  }

  lemma Nothing()
    ensures OpsOf([]) == [] && SizeOf([]) == 0
  {
  }

  lemma RidesToo(queue: seq<Writer>, n: nat)
    requires 0 < n < |queue| && MayRide(queue[..n]) && (queue[n].sync ==> queue[0].sync)
    requires queue[n].batch.Some? ==> SizeOf(queue[..n + 1]) <= MaxGroup(queue[0].size)
    ensures MayRide(queue[..n + 1])
  {
    hide SizeOf;
    var ws := queue[..n + 1];
    forall i | 0 < i < |ws| && ws[i].batch.Some? ensures SizeOf(ws[..i + 1]) <= MaxGroup(ws[0].size) {
      if i < n {
        assert queue[..n][i] == ws[i] && queue[..n][..i + 1] == ws[..i + 1];
      } else {
        assert ws[..i + 1] == ws;
      }
    }
    forall i | 0 < i < |ws| ensures ws[i].sync ==> ws[0].sync {
      if i < n { assert queue[..n][i] == ws[i]; }
    }
  }

  // ----- The protocol -----

  /** The leader's work: `n` writers, their operations, and how far it has got. */
  datatype Group = Group(n: nat, ops: seq<Op>, logged: bool, applied: nat)

  /** `arrivals` lists every call so far in queue order; the first `finished` have returned.  The records
      of `log` from `fileStart` on are in the current log file, and those numbered in `durable` have been
      synced.  Operations up to number `memStart` have left the active memtable, `waiting` tells whether
      one waits to be flushed, and `switchers` lists the calls that switched it. */
  datatype State = State(arrivals: seq<Writer>, finished: nat, group: Option<Group>,
                         log: seq<BatchRecord>, fileStart: nat, durable: set<nat>,
                         mem: set<Entry>, memStart: nat, waiting: bool, switchers: seq<nat>, last: nat)

  /** `full` says whether the leader found no room in the memtable. */
  datatype Action = Arrive(w: Writer) | Lead(n: nat, full: bool) | PopRequest | Flush | Log | ApplyOne | Publish

  /** The first `n` writers of the queue. */
  ghost function Front(s: State, n: nat): seq<Writer>
    requires s.finished + n <= |s.arrivals|
  {
    s.arrivals[s.finished..s.finished + n]
  }

  ghost predicate Enabled(s: State, a: Action) {
    match a
    case Arrive(w) => true
    case Lead(n, full) =>
      && s.group.None? && 0 < n && s.finished + n <= |s.arrivals| && (full ==> !s.waiting)
      && MayRide(Front(s, n)) && (s.finished + n < |s.arrivals| ==> !MayRide(Front(s, n + 1)))
      && s.last + |OpsOf(Front(s, n))| + 1 < MAX_SEQUENCE
    case PopRequest =>
      s.group.None? && s.finished < |s.arrivals| && s.arrivals[s.finished].batch.None? && !s.waiting
    case Flush => s.waiting
    case Log => s.group.Some? && !s.group.value.logged && s.finished < |s.arrivals|
    case ApplyOne =>
      && s.group.Some? && s.group.value.logged && s.group.value.applied < |s.group.value.ops|
      && s.last + 1 + s.group.value.applied < MAX_SEQUENCE
    case Publish => s.group.Some? && s.group.value.logged && s.group.value.applied == |s.group.value.ops|
  }

  /** The end of `MakeRoomForWrite`: the head of the queue starts a new log file and a new memtable. */
  ghost function SwitchMemtable(s: State): State {
    s.(switchers := s.switchers + [s.finished], memStart := s.last, fileStart := |s.log|, waiting := true)
  }

  /** Appending to the log and, when the leader asks for it, syncing its file come before any insertion;
      the insertions come one by one; the sequence number moves once, at the end. */
  ghost function Step(s: State, a: Action): State
    requires Enabled(s, a)
  {
    match a
    case Arrive(w) => s.(arrivals := s.arrivals + [w])
    case Lead(n, full) =>
      (if full then SwitchMemtable(s) else s).(group := Some(Group(n, OpsOf(Front(s, n)), false, 0)))
    case PopRequest => SwitchMemtable(s).(finished := s.finished + 1)
    case Flush => s.(waiting := false)
    case Log =>
      s.(log := s.log + [BatchRecord(s.last + 1, s.group.value.ops)],
         durable := if s.arrivals[s.finished].sync then s.durable + FileRecords(s) else s.durable,
         group := Some(s.group.value.(logged := true)))
    case ApplyOne =>
      var g := s.group.value;
      s.(mem := s.mem + {OpEntry(g.ops[g.applied], s.last + 1 + g.applied)},
         group := Some(g.(applied := g.applied + 1)))
    case Publish =>
      s.(last := s.last + |s.group.value.ops|, finished := s.finished + s.group.value.n, group := None)
  }

  /** The records of the current log file, the one being appended included. */
  ghost function FileRecords(s: State): set<nat> {
    Between(s.fileStart, |s.log| + 1)
  }

  ghost function Between(a: nat, b: nat): (r: set<nat>)
    ensures forall i :: i in r <==> a <= i < b
  {
    if b <= a then {} else Between(a, b - 1) + {b - 1}
  }

  // ----- What every run keeps -----

  ghost function LoggedOps(log: seq<BatchRecord>): seq<Op> {
    if log == [] then [] else LoggedOps(log[..|log| - 1]) + log[|log| - 1].ops
  }

  /** Every record starts where the one before it ended. */
  ghost predicate Contiguous(log: seq<BatchRecord>) {
    forall i | 0 <= i < |log| :: log[i].first == 1 + |LoggedOps(log[..i])|
  }

  /** Operation `i` carries sequence number `i + 1`. */
  ghost predicate Stamped(mem: set<Entry>, ops: seq<Op>, n: nat) {
    && n <= |ops| && n < MAX_SEQUENCE
    && (forall i | 0 <= i < n :: OpEntry(ops[i], i + 1) in mem)
    && (forall e | e in mem :: 1 <= e.stamp <= n && e == OpEntry(ops[e.stamp - 1], e.stamp))
  }

  /** How many of the arrivals are in the log, and how many of their operations in the memtable. */
  ghost function LoggedCount(s: State): nat {
    s.finished + if s.group.Some? && s.group.value.logged then s.group.value.n else 0
  }

  ghost function AppliedCount(s: State): nat {
    s.last + if s.group.Some? then s.group.value.applied else 0
  }

  /** Record `r` of the log holds all operations of call `i`. */
  ghost predicate InRecord(s: State, i: nat, r: nat)
    requires i < |s.arrivals| && r < |s.log|
  {
    && |LoggedOps(s.log[..r])| <= |OpsOf(s.arrivals[..i])|
    && |OpsOf(s.arrivals[..i + 1])| <= |LoggedOps(s.log[..r + 1])|
  }

  /** The operations of call `i` are in a record that has been synced. */
  ghost predicate Durable(s: State, i: nat)
    requires i < |s.arrivals|
  {
    exists r: nat :: r < |s.log| && r in s.durable && InRecord(s, i, r)
  }

  ghost predicate SyncKept(s: State) {
    && s.finished <= |s.arrivals| && s.fileStart <= |s.log|
    && (forall i | 0 <= i < s.finished && s.arrivals[i].sync && s.arrivals[i].batch.Some? :: Durable(s, i))
    && (s.group.Some? && s.group.value.logged && s.finished < |s.arrivals| && s.arrivals[s.finished].sync ==>
          s.log != [] && |s.log| - 1 in s.durable)
  }

  /** The last record is the group's. */
  ghost predicate RecordKept(s: State) {
    s.group.Some? && s.group.value.logged && s.finished <= |s.arrivals| ==>
      s.log != [] && |LoggedOps(s.log[..|s.log| - 1])| == |OpsOf(s.arrivals[..s.finished])|
  }

  /** Who switched the memtable was at the head of the queue, and with it went everything before. */
  ghost predicate SwitchKept(s: State) {
    && s.memStart <= s.last
    && (forall i | i in s.switchers :: i < s.finished || (s.group.Some? && i == s.finished))
  }

  /** The part of the invariant about the log, the memtable and the group. */
  ghost predicate Core(s: State) {
    && s.finished <= |s.arrivals| && LoggedCount(s) <= |s.arrivals|
    && (s.group.Some? ==>
          && s.finished + s.group.value.n <= |s.arrivals|
          && MayRide(Front(s, s.group.value.n))
          && s.group.value.ops == OpsOf(Front(s, s.group.value.n))
          && s.group.value.applied <= |s.group.value.ops|
          && (!s.group.value.logged ==> s.group.value.applied == 0)
          && s.last + |s.group.value.ops| + 1 < MAX_SEQUENCE)
    && LoggedOps(s.log) == OpsOf(s.arrivals[..LoggedCount(s)]) && Contiguous(s.log)
    && s.last == |OpsOf(s.arrivals[..s.finished])|
    && Stamped(s.mem, LoggedOps(s.log), AppliedCount(s))
  }

  ghost predicate Inv(s: State) {
    Core(s) && SyncKept(s) && RecordKept(s) && SwitchKept(s)
  }

  lemma LoggedMore(log: seq<BatchRecord>, b: BatchRecord)
    ensures LoggedOps(log + [b]) == LoggedOps(log) + b.ops
  {
    assert (log + [b])[..|log|] == log;
  }

  lemma ContiguousMore(log: seq<BatchRecord>, b: BatchRecord)
    requires Contiguous(log) && b.first == 1 + |LoggedOps(log)|
    ensures Contiguous(log + [b])
  {
    var r := log + [b];
    forall i | 0 <= i < |r| ensures r[i].first == 1 + |LoggedOps(r[..i])| {
      assert r[..i] == log[..i];
      assert i == |log| ==> log[..i] == log;
    }
  }

  lemma QueueOps(s: State, n: nat)
    requires s.finished + n <= |s.arrivals|
    ensures OpsOf(s.arrivals[..s.finished + n]) == OpsOf(s.arrivals[..s.finished]) + OpsOf(Front(s, n))
  {
    OpsOfConcat(s.arrivals[..s.finished], Front(s, n));
    assert s.arrivals[..s.finished + n] == s.arrivals[..s.finished] + Front(s, n);
  }

  lemma StepKeeps(s: State, a: Action)
    requires Inv(s) && Enabled(s, a)
    ensures Inv(Step(s, a))
  {
    hide Core, SyncKept, RecordKept, SwitchKept, Enabled, Step;
    CoreKeeps(s, a);
    SyncKeeps(s, a);
    RecordKeeps(s, a);
    SwitchKeeps(s, a);
  }

  lemma CoreKeeps(s: State, a: Action)
    requires Core(s) && Enabled(s, a)
    ensures Core(Step(s, a))
  {
    hide OpsOf, LoggedOps, Contiguous, Stamped, MayRide;
    match a
    case Arrive(w) => ArriveKeeps(s, w);
    case Lead(n, full) =>
    case PopRequest => PopKeeps(s);
    case Flush =>
    case Log => LogKeeps(s);
    case ApplyOne => ApplyOneKeeps(s);
    case Publish => QueueOps(s, s.group.value.n);
  }

  lemma ArriveKeeps(s: State, w: Writer)
    requires Core(s)
    ensures Core(Step(s, Arrive(w)))
  {
    hide OpsOf, LoggedOps, Contiguous, Stamped, MayRide;
    var s' := Step(s, Arrive(w));
    var m := LoggedCount(s);
    assert s'.arrivals[..m] == s.arrivals[..m] && s'.arrivals[..s.finished] == s.arrivals[..s.finished];
    if s.group.Some? {
      assert Front(s', s.group.value.n) == Front(s, s.group.value.n);
    }
  }

  lemma PopKeeps(s: State)
    requires Core(s) && Enabled(s, PopRequest)
    ensures Core(Step(s, PopRequest))
  {
    hide OpsOf, LoggedOps, Contiguous, Stamped, MayRide;
    OpsOfMore(s.arrivals[..s.finished], s.arrivals[s.finished]);
    assert s.arrivals[..s.finished + 1] == s.arrivals[..s.finished] + [s.arrivals[s.finished]];
  }

  lemma LogKeeps(s: State)
    requires Core(s) && Enabled(s, Log)
    ensures Core(Step(s, Log))
  {
    hide OpsOf, LoggedOps, Contiguous, MayRide;
    var g := s.group.value;
    var b := BatchRecord(s.last + 1, g.ops);
    LoggedMore(s.log, b);
    ContiguousMore(s.log, b);
    QueueOps(s, g.n);
    assert Stamped(s.mem, LoggedOps(s.log) + g.ops, s.last);
  }

  lemma ApplyOneKeeps(s: State)
    requires Core(s) && Enabled(s, ApplyOne)
    ensures Core(Step(s, ApplyOne))
  {
    hide OpsOf, LoggedOps, Contiguous, MayRide;
    var g := s.group.value;
    QueueOps(s, g.n);
    var ops, n := LoggedOps(s.log), s.last + g.applied;
    assert ops[n] == g.ops[g.applied];
  }

  lemma {:induction false} OpsOfGrows(ws: seq<Writer>, i: nat, j: nat)
    requires i <= j <= |ws|
    ensures |OpsOf(ws[..i])| <= |OpsOf(ws[..j])|
  {
    if i < j {
      OpsOfGrows(ws, i, j - 1);
      OpsOfMore(ws[..j - 1], ws[j - 1]);
      assert ws[..j] == ws[..j - 1] + [ws[j - 1]];
    }
  }

  /** What was durable stays so. */
  lemma StaysDurable(s: State, s': State, i: nat)
    requires i < |s.arrivals| <= |s'.arrivals| && s'.arrivals[..|s.arrivals|] == s.arrivals
    requires |s.log| <= |s'.log| && s'.log[..|s.log|] == s.log && s.durable <= s'.durable && Durable(s, i)
    ensures Durable(s', i)
  {
    hide OpsOf, LoggedOps;
    var r: nat :| r < |s.log| && r in s.durable && InRecord(s, i, r);
    assert s'.log[..r] == s.log[..r] && s'.log[..r + 1] == s.log[..r + 1];
    assert s'.arrivals[..i] == s.arrivals[..i] && s'.arrivals[..i + 1] == s.arrivals[..i + 1];
    assert InRecord(s', i, r);
  }

  lemma SyncKeeps(s: State, a: Action)
    requires Inv(s) && Enabled(s, a)
    ensures SyncKept(Step(s, a))
  {
    hide OpsOf, LoggedOps, Contiguous, Stamped, Durable, SwitchKept;
    var s' := Step(s, a);
    forall i | 0 <= i < s'.finished && s'.arrivals[i].sync && s'.arrivals[i].batch.Some? ensures Durable(s', i) {
      if i < s.finished {
        StaysDurable(s, s', i);
      } else {
        GroupDurable(s, i);
        StaysDurable(s, s', i);
      }
    }
  }

  /** When the group is published, the calls in it that asked for a sync are durable. */
  lemma GroupDurable(s: State, i: nat)
    requires Inv(s) && s.group.Some? && s.group.value.logged
    requires s.finished <= i < s.finished + s.group.value.n && s.arrivals[i].sync
    ensures Durable(s, i)
  {
    hide OpsOf, LoggedOps, Contiguous, Stamped, SwitchKept;
    var n, r := s.group.value.n, |s.log| - 1;
    assert Front(s, n)[i - s.finished] == s.arrivals[i] && Front(s, n)[0] == s.arrivals[s.finished];
    OpsOfGrows(s.arrivals, s.finished, i);
    OpsOfGrows(s.arrivals, i + 1, s.finished + n);
    assert s.log[..r + 1] == s.log;
    assert InRecord(s, i, r);
  }

  lemma RecordKeeps(s: State, a: Action)
    requires Inv(s) && Enabled(s, a)
    ensures RecordKept(Step(s, a))
  {
    hide OpsOf, LoggedOps, Contiguous, Stamped, MayRide, SyncKept, SwitchKept;
    var s' := Step(s, a);
    if a.Arrive? {
      assert s'.arrivals[..s.finished] == s.arrivals[..s.finished];
    } else if a.Log? {
      assert s'.log[..|s.log|] == s.log;
    }
  }

  lemma SwitchKeeps(s: State, a: Action)
    requires Inv(s) && Enabled(s, a)
    ensures SwitchKept(Step(s, a))
  {
    hide OpsOf, LoggedOps, Contiguous, Stamped, SyncKept, RecordKept;
  }

  // ----- Runs -----

  function Fresh(): State {
    State([], 0, None, [], 0, {}, {}, 0, false, [], 0)
  }

  lemma FreshInv()
    ensures Inv(Fresh())
  {
  }

  ghost predicate IsRun(states: seq<State>, actions: seq<Action>) {
    && |states| == |actions| + 1 && states[0] == Fresh()
    && forall i | 0 <= i < |actions| :: Enabled(states[i], actions[i]) && states[i + 1] == Step(states[i], actions[i])
  }

  lemma {:induction false} RunKeeps(states: seq<State>, actions: seq<Action>, i: nat)
    requires IsRun(states, actions) && i < |states|
    ensures Inv(states[i])
  {
    hide Inv, Step, Enabled;
    if i == 0 {
      FreshInv();
    } else {
      RunKeeps(states, actions, i - 1);
      StepKeeps(states[i - 1], actions[i - 1]);
    }
  }

  /** Over all interleavings: the log holds the batches of the calls that have been logged, each
      once, in queue order, with contiguous sequence numbers; a reader at the current sequence
      number sees all operations of the calls that have returned and nothing of any other. */
  lemma EveryRunCommitsInOrder(states: seq<State>, actions: seq<Action>, i: nat)
    requires IsRun(states, actions) && i < |states|
    ensures var s := states[i];
            && LoggedCount(s) <= |s.arrivals| && s.finished <= LoggedCount(s)
            && LoggedOps(s.log) == OpsOf(s.arrivals[..LoggedCount(s)]) && Contiguous(s.log)
            && s.last == |OpsOf(s.arrivals[..s.finished])| < MAX_SEQUENCE
            && forall e :: e in s.mem && e.stamp <= s.last <==>
                 0 < e.stamp <= s.last && e == OpEntry(OpsOf(s.arrivals[..s.finished])[e.stamp - 1], e.stamp)
  {
    hide OpsOf, LoggedOps, Contiguous, MayRide, SyncKept, RecordKept, SwitchKept, Step, Enabled;
    RunKeeps(states, actions, i);
    var s := states[i];
    QueueOps(s, LoggedCount(s) - s.finished);
    assert s.arrivals[..s.finished + (LoggedCount(s) - s.finished)] == s.arrivals[..LoggedCount(s)];
    var ops, fin := LoggedOps(s.log), OpsOf(s.arrivals[..s.finished]);
    assert fin <= ops;
    forall e: Entry | 0 < e.stamp <= s.last ensures e in s.mem <==> e == OpEntry(fin[e.stamp - 1], e.stamp) {
      assert ops[e.stamp - 1] == fin[e.stamp - 1];
    }
  }

  /** A call that asked for a sync and has returned: its operations are in a synced record of the log. */
  lemma SyncedCallsAreDurable(states: seq<State>, actions: seq<Action>, i: nat, j: nat)
    requires IsRun(states, actions) && i < |states| && j < states[i].finished
    requires j < |states[i].arrivals| && states[i].arrivals[j].sync && states[i].arrivals[j].batch.Some?
    ensures Durable(states[i], j)
  {
    hide Core, Durable, RecordKept, SwitchKept, Step, Enabled;
    RunKeeps(states, actions, i);
  }

  // ----- Requests to switch the memtable -----

  /** The two rules of `BuildBatchGroup` for the writer at place `p`: at most 128 KB behind a small first batch, and
      1 MB in all otherwise. */
  ghost predicate Fits(queue: seq<Writer>, p: nat)
    requires p < |queue|
  {
    && (queue[p].sync ==> queue[0].sync)
    && (queue[p].batch.Some? ==>
          SizeOf(queue[..p + 1]) <= if queue[0].size <= 131072 then queue[0].size + 131072 else 1048576)
  }

  lemma MayRideIff(queue: seq<Writer>, n: nat)
    requires 1 <= n <= |queue| && queue[0].batch.Some?
    ensures MayRide(queue[..n]) <==> forall q: nat | 0 < q < n :: Fits(queue, q)
  {
    hide SizeOf;
    var ws := queue[..n];
    forall q: nat | 0 < q < n
      ensures Fits(queue, q) <==> (&& (ws[q].sync ==> ws[0].sync)
                                   && (ws[q].batch.Some? ==> SizeOf(ws[..q + 1]) <= MaxGroup(ws[0].size)))
    {
      assert ws[..q + 1] == queue[..q + 1];
    }
  }

  /** The writer at any place rides along in the group `BuildBatchGroup` makes, exactly when the sync rule
      and the size rule hold for every writer up to it; a request to switch the memtable is no
      exception, and adds no size of its own. */
  lemma RidesIff(queue: seq<Writer>, n: nat, p: nat)
    requires queue != [] && queue[0].batch.Some? && p < |queue|
    requires 1 <= n <= |queue| && MayRide(queue[..n]) && (n < |queue| ==> !MayRide(queue[..n + 1]))
    ensures p < n <==> forall q: nat | 0 < q <= p :: Fits(queue, q)
    ensures queue[p].batch.None? ==> (Fits(queue, p) <==> (queue[p].sync ==> queue[0].sync))
  {
    hide MayRide, Fits;
    MayRideIff(queue, n);
    if n < |queue| { MayRideIff(queue, n + 1); }
    NoBatchFits(queue, p);
  }

  lemma NoBatchFits(queue: seq<Writer>, p: nat)
    requires p < |queue|
    ensures queue[p].batch.None? ==> (Fits(queue, p) <==> (queue[p].sync ==> queue[0].sync))
  {
    hide SizeOf;
  }

  /** Call `i` returns at step `j`. */
  ghost predicate ReturnsAt(states: seq<State>, i: nat, j: nat) {
    j + 1 < |states| && states[j].finished <= i < states[j + 1].finished
  }

  lemma {:induction false} EveryCallReturns(states: seq<State>, actions: seq<Action>, n: nat, i: nat) returns (j: nat)
    requires IsRun(states, actions) && n < |states| && i < states[n].finished
    ensures j < n && ReturnsAt(states, i, j)
  {
    hide Step, Enabled;
    if states[n - 1].finished <= i {
      j := n - 1;
    } else {
      j := EveryCallReturns(states, actions, n - 1, i);
    }
  }

  lemma StepSwitchers(s: State, a: Action, i: nat)
    requires Inv(s) && Enabled(s, a) && i < s.finished
    ensures i < Step(s, a).finished && (i in Step(s, a).switchers <==> i in s.switchers)
  {
    hide Core, SyncKept, RecordKept, OpsOf, MayRide;
  }

  /** Once a call has returned, it switches nothing any more. */
  lemma {:induction false} SwitchersAfter(states: seq<State>, actions: seq<Action>, j: nat, n: nat, i: nat)
    requires IsRun(states, actions) && j <= n < |states| && i < states[j].finished
    ensures i < states[n].finished && (i in states[n].switchers <==> i in states[j].switchers)
  {
    hide Inv, Step, Enabled;
    if j < n {
      SwitchersAfter(states, actions, j, n - 1, i);
      RunKeeps(states, actions, n - 1);
      StepSwitchers(states[n - 1], actions[n - 1], i);
    }
  }

  /** At its return a request has just switched the memtable, with everything called before it, or it
      rode behind a writer whose operations stay in the active memtable. */
  lemma RequestReturns(s: State, a: Action, i: nat)
    requires Inv(s) && Enabled(s, a) && s.finished <= i < Step(s, a).finished
    requires i < |s.arrivals| && s.arrivals[i].batch.None?
    ensures i in Step(s, a).switchers <==> i == s.finished
    ensures i == s.finished ==> a.PopRequest? && Step(s, a).memStart == |OpsOf(s.arrivals[..i])|
    ensures i > s.finished ==> a.Publish? && Step(s, a).memStart <= |OpsOf(s.arrivals[..s.finished])|
                               && s.arrivals[s.finished].batch.Some?
  {
    hide OpsOf, LoggedOps, Contiguous, Stamped, SyncKept, RecordKept;
    if a.Publish? {
      assert Front(s, s.group.value.n)[0] == s.arrivals[s.finished];
    }
  }

  /** Over all interleavings: a request that has returned switched the memtable exactly when it left the
      queue as its head; otherwise it returned with the group of a writer ahead of it. */
  lemma RequestSwitchesIffHead(states: seq<State>, actions: seq<Action>, n: nat, i: nat, j: nat)
    requires IsRun(states, actions) && j < n < |states| && ReturnsAt(states, i, j)
    requires i < |states[j].arrivals| && states[j].arrivals[i].batch.None?
    ensures i in states[n].switchers <==> states[j].finished == i
    ensures states[j].finished == i ==> states[j + 1].memStart == |OpsOf(states[j].arrivals[..i])|
    ensures states[j].finished < i ==>
              && actions[j].Publish? && states[j].arrivals[states[j].finished].batch.Some?
              && states[j + 1].memStart <= |OpsOf(states[j].arrivals[..states[j].finished])|
  {
    hide Inv, Step, Enabled;
    RunKeeps(states, actions, j);
    RequestReturns(states[j], actions[j], i);
    SwitchersAfter(states, actions, j + 1, n, i);
  }

  // ----- A request that switches nothing -----

  lemma OneWriteRides(op: Op)
    ensures var w, q := Writer(Some([op]), 0, false), Writer(None, 0, false);
            MayRide([w, q]) && OpsOf([w, q]) == [op]
  {
    var w, q := Writer(Some([op]), 0, false), Writer(None, 0, false);
    assert [w, q] == [w] + [q] && [w] == [] + [w];
    OpsOfMore([], w);
    OpsOfMore([w], q);
    assert [w, q][..1] == [w] && [w, q][..2] == [w, q];
  }

  function Arrived(op: Op): State {
    Fresh().(arrivals := [Writer(Some([op]), 0, false), Writer(None, 0, false)])
  }

  /** The states of a run with one write and a request behind it. */
  function RideState(op: Op, n: int): State {
    if n == 0 then Fresh()
    else if n == 1 then Fresh().(arrivals := [Writer(Some([op]), 0, false)])
    else if n == 2 then Arrived(op)
    else if n == 3 then Arrived(op).(group := Some(Group(2, [op], false, 0)))
    else if n == 4 then Arrived(op).(log := [BatchRecord(1, [op])], group := Some(Group(2, [op], true, 0)))
    else
      var logged := Arrived(op).(log := [BatchRecord(1, [op])], mem := {OpEntry(op, 1)});
      if n == 5 then logged.(group := Some(Group(2, [op], true, 1))) else logged.(last := 1, finished := 2)
  }

  function RideAction(op: Op, n: int): Action {
    if n == 0 then Arrive(Writer(Some([op]), 0, false))
    else if n == 1 then Arrive(Writer(None, 0, false))
    else if n == 2 then Lead(2, false)
    else if n == 3 then Log
    else if n == 4 then ApplyOne
    else Publish
  }

  lemma RideStep(op: Op, n: nat)
    requires n < 6
    ensures Enabled(RideState(op, n), RideAction(op, n))
    ensures Step(RideState(op, n), RideAction(op, n)) == RideState(op, n + 1)
  {
    hide OpsOf, MayRide, SizeOf, OpEntry;
    OneWriteRides(op);
    if n == 2 {
      assert Front(Arrived(op), 2) == [Writer(Some([op]), 0, false), Writer(None, 0, false)];
    }
  }

  /** A write and a request behind it, none asking for a sync: the request returns with the write's group,
      no switch was made, and the write is still in the active memtable. */
  lemma RequestRidesAlong(op: Op) returns (states: seq<State>, actions: seq<Action>)
    ensures IsRun(states, actions) && |states| == 7 && ReturnsAt(states, 1, 5)
    ensures |states[5].arrivals| == 2 && states[5].arrivals[1].batch.None? && states[5].finished == 0
    ensures states[6].finished == 2 && states[6].switchers == [] && states[6].memStart == 0 && states[6].last == 1
  {
    hide Enabled, Step;
    states, actions := seq(7, n => RideState(op, n)), seq(6, n => RideAction(op, n));
    forall i | 0 <= i < 6 ensures Enabled(states[i], actions[i]) && states[i + 1] == Step(states[i], actions[i]) {
      RideStep(op, i);
    }
  }
}
