/** Group commit goes on: every call in the queue can return, and a leader that finds the memtable full makes
    room. */
module GroupProgress {
  import opened Wrappers
  import opened Entries
  import Engine
  import opened GroupCommit

  /** Sequence numbers are left for everything in the queue. */
  ghost predicate HasRoom(s: State) {
    |OpsOf(s.arrivals)| + 1 < MAX_SEQUENCE
  }

  /** How many writers from the front ride along, `n` of them being known to. */
  ghost function Longest(queue: seq<Writer>, n: nat): (r: nat)
    requires 0 < n <= |queue| && MayRide(queue[..n])
    ensures n <= r <= |queue| && MayRide(queue[..r]) && (r < |queue| ==> !MayRide(queue[..r + 1]))
    decreases |queue| - n
  {
    if n < |queue| && MayRide(queue[..n + 1]) then Longest(queue, n + 1) else n
  }

  lemma AloneRides(w: Writer)
    requires w.batch.Some?
    ensures MayRide([w])
  {
  }

  /** What the head of the queue, its group or the background thread does next. */
  ghost function Next(s: State): Action
    requires s.finished < |s.arrivals|
  {
    if s.waiting then Flush
    else if s.group.None? then
      var queue := s.arrivals[s.finished..];
      if queue[0].batch.None? then PopRequest
      else
        AloneRides(queue[0]);
        assert queue[..1] == [queue[0]];
        Lead(Longest(queue, 1), false)
    else if !s.group.value.logged then Log
    else if s.group.value.applied < |s.group.value.ops| then ApplyOne
    else Publish
  }

  /** The group's work still to do. */
  ghost function Phase(s: State): nat {
    if s.group.None? then 2 else if !s.group.value.logged then 1 else 0
  }

  ghost function Unapplied(s: State): nat {
    if s.group.Some? && s.group.value.applied <= |s.group.value.ops|
    then |s.group.value.ops| - s.group.value.applied else 0
  }

  lemma OpsWithin(ws: seq<Writer>, a: nat, b: nat)
    requires a <= b <= |ws|
    ensures |OpsOf(ws[..a])| + |OpsOf(ws[a..b])| <= |OpsOf(ws)|
  {
    hide OpsOf;
    OpsOfConcat(ws[..a], ws[a..b]);
    assert ws[..a] + ws[a..b] == ws[..b];
    OpsOfConcat(ws[..b], ws[b..]);
    assert ws[..b] + ws[b..] == ws;
  }

  lemma NextIsEnabled(s: State)
    requires Inv(s) && s.finished < |s.arrivals| && HasRoom(s)
    ensures Enabled(s, Next(s))
  {
    hide OpsOf, MayRide, SyncKept, RecordKept, SwitchKept, LoggedOps, Contiguous, Stamped;
    if !s.waiting && s.group.None? && s.arrivals[s.finished].batch.Some? {
      var queue := s.arrivals[s.finished..];
      var n := Next(s).n;
      assert Front(s, n) == queue[..n];
      if s.finished + n < |s.arrivals| { assert Front(s, n + 1) == queue[..n + 1]; }
      OpsWithin(s.arrivals, s.finished, s.finished + n);
    }
  }

  /** A step of the queue leaves the arrivals alone, and there is less left to do. */
  lemma NextGoesOn(s: State)
    requires Inv(s) && s.finished < |s.arrivals| && Enabled(s, Next(s))
    ensures var t := Step(s, Next(s));
            && t.arrivals == s.arrivals && s.finished <= t.finished <= |s.arrivals|
            && (t.finished == s.finished ==>
                  || (s.waiting && !t.waiting && Phase(t) == Phase(s) && Unapplied(t) == Unapplied(s))
                  || (!s.waiting && !t.waiting && Phase(t) < Phase(s))
                  || (!s.waiting && !t.waiting && Phase(t) == Phase(s) && Unapplied(t) < Unapplied(s)))
  {
    hide OpsOf, SyncKept, RecordKept, SwitchKept, LoggedOps, Contiguous, Stamped, Engine.OpEntry;
  }

  ghost predicate Path(states: seq<State>, actions: seq<Action>) {
    && |states| == |actions| + 1
    && forall i | 0 <= i < |actions| ::
         Enabled(states[i], actions[i]) && !actions[i].Arrive? && states[i + 1] == Step(states[i], actions[i])
  }

  lemma PathFrom(s: State, a: Action, states: seq<State>, actions: seq<Action>)
    requires Enabled(s, a) && !a.Arrive? && Path(states, actions) && states[0] == Step(s, a)
    ensures Path([s] + states, [a] + actions)
  {
    hide Enabled, Step;
  }

  /** From every state that meets the invariant, without another call, every call in the queue returns. */
  lemma {:induction false} QueueDrains(s: State) returns (states: seq<State>, actions: seq<Action>)
    requires Inv(s) && HasRoom(s)
    ensures Path(states, actions) && states[0] == s
    ensures var t := states[|states| - 1]; t.arrivals == s.arrivals && t.finished >= |s.arrivals|
    decreases |s.arrivals| - s.finished, s.waiting, Phase(s), Unapplied(s)
  {
    hide Inv, Enabled, Step, Next, HasRoom;
    if s.finished >= |s.arrivals| {
      states, actions := [s], [];
    } else {
      NextIsEnabled(s);
      NextGoesOn(s);
      NoArrival(s);
      var a := Next(s);
      StepKeeps(s, a);
      SameRoom(s, Step(s, a));
      states, actions := QueueDrains(Step(s, a));
      PathFrom(s, a, states, actions);
      states, actions := [s] + states, [a] + actions;
    }
  }

  lemma NoArrival(s: State)
    requires s.finished < |s.arrivals|
    ensures !Next(s).Arrive?
  {
  }

  lemma SameRoom(s: State, t: State)
    requires HasRoom(s) && t.arrivals == s.arrivals
    ensures HasRoom(t)
  {
  }

  /** Over every interleaving: in any state every call in the queue can still return. */
  lemma EveryCallCanReturn(states: seq<State>, actions: seq<Action>, n: nat)
    returns (more: seq<State>, next: seq<Action>)
    requires IsRun(states, actions) && n < |states| && HasRoom(states[n])
    ensures Path(more, next) && more[0] == states[n] && more[|more| - 1].finished >= |states[n].arrivals|
  {
    hide Inv, HasRoom;
    RunKeeps(states, actions, n);
    more, next := QueueDrains(states[n]);
  }

  /** Step `j` appends a record and syncs the log file, which holds record `r`. */
  ghost predicate Syncs(states: seq<State>, actions: seq<Action>, j: nat, r: nat) {
    && j < |actions| && j < |states| && actions[j].Log?
    && states[j].finished < |states[j].arrivals| && states[j].arrivals[states[j].finished].sync
    && states[j].fileStart <= r <= |states[j].log|
  }

  /** Over every interleaving: a record is synced when, and only when, a leader that asked for it has synced the file
      the record is in. */
  lemma {:induction false} SyncedIff(states: seq<State>, actions: seq<Action>, n: nat, r: nat)
    requires IsRun(states, actions) && n < |states|
    ensures r in states[n].durable <==> exists j: nat :: j < n && Syncs(states, actions, j, r)
  {
    if n > 0 {
      SyncedIff(states, actions, n - 1, r);
      SyncStep(states[n - 1], actions[n - 1], r);
      hide Enabled, Step, IsRun;
      assert Syncs(states, actions, n - 1, r) ==> r in states[n].durable;
    }
  }

  lemma SyncStep(s: State, a: Action, r: nat)
    requires Enabled(s, a)
    ensures r in Step(s, a).durable <==>
            || r in s.durable
            || (a.Log? && s.arrivals[s.finished].sync && s.fileStart <= r <= |s.log|)
  {
    hide OpsOf, MayRide, Engine.OpEntry;
  }

  /** Over every interleaving: the memtable and the log file are switched by a leader that finds no room and by a
      request at the head of the queue, and by no one else; what was written before has then left the memtable. */
  lemma SwitchedWhenFull(states: seq<State>, actions: seq<Action>, i: nat)
    requires IsRun(states, actions) && i < |actions|
    ensures var s, t, a := states[i], states[i + 1], actions[i];
            if a.PopRequest? || (a.Lead? && a.full)
            then t.switchers == s.switchers + [s.finished] && t.memStart == s.last && t.fileStart == |s.log|
                 && t.waiting
            else t.switchers == s.switchers && t.memStart == s.memStart && t.fileStart == s.fileStart
  {
  }
}
