/**
 What every run of a Dispatch guarantees: order inside a shard, termination,
 the results it reports, and the slots a cancellation leaves behind.
 */
module DispatchRuns {
  import opened Prelude
  import opened Dispatcher

  ghost predicate IsRun(shards: seq<nat>, ss: seq<State>, evs: seq<Event>) {
    && WellSharded(shards) && |ss| == |evs| + 1 && Init(shards, ss[0])
    && (forall i :: 0 <= i < |ss| ==> Shaped(shards, ss[i]))
    && forall i :: 0 <= i < |evs| ==> Next(shards, ss[i], evs[i], ss[i + 1])
  }

  lemma {:induction false} RunInv(shards: seq<nat>, ss: seq<State>, evs: seq<Event>, k: nat)
    requires IsRun(shards, ss, evs) && k < |ss|
    ensures Inv(shards, ss[k])
  {
    if k == 0 {
      InitInv(shards, ss[0]);
    } else {
      RunInv(shards, ss, evs, k - 1);
      NextKeepsInv(shards, ss[k - 1], evs[k - 1], ss[k]);
    }
  }

  // ---------------------------------------------------------------------
  // Order
  // ---------------------------------------------------------------------

  /** In every reachable state, what the worker of a shard took is a prefix, in
      order, of the batch restricted to that shard. */
  lemma ShardsTakeAPrefixInOrder(shards: seq<nat>, ss: seq<State>, evs: seq<Event>, k: nat, l: nat)
    requires IsRun(shards, ss, evs) && k < |ss| && l < NUM_SHARDS
    ensures ss[k].lanes[l].taken <= Restricted(shards, |shards|, l)
  {
    RunInv(shards, ss, evs, k);
    var s := ss[k];
    assert OrderOk(shards, s, l);
    var n := if s.phase.FirstPass? then s.phase.i else |shards|;
    RestrictedPrefix(shards, n, |shards|, l);
    assert s.lanes[l].taken <= Accepted(s.lanes[l]) <= Restricted(shards, n, l);
  }

  /** No update is taken twice, by one worker or by two. */
  lemma EachUpdateIsTakenOnce(shards: seq<nat>, ss: seq<State>, evs: seq<Event>, k: nat, l: nat, m: nat, a: nat, b: nat)
    requires IsRun(shards, ss, evs) && k < |ss| && l < NUM_SHARDS && m < NUM_SHARDS
    requires a < |ss[k].lanes[l].taken| && b < |ss[k].lanes[m].taken|
    requires ss[k].lanes[l].taken[a] == ss[k].lanes[m].taken[b]
    ensures l == m && a == b
  {
    RunInv(shards, ss, evs, k);
    assert OrderOk(shards, ss[k], l) && OrderOk(shards, ss[k], m);
    AcceptedIsSorted(shards, ss[k], l);
    AcceptedIsSorted(shards, ss[k], m);
    var i := ss[k].lanes[l].taken[a];
    assert Holds(ss[k].lanes[l], i) && Holds(ss[k].lanes[m], i);
    assert Accepted(ss[k].lanes[l])[a] == i && Accepted(ss[k].lanes[l])[b] == i;
  }

  /** A deletion never overtakes its save: of two updates of the same chat in
      one batch, the second is handled only once the first has been. */
  lemma DeletionNeverOvertakesItsSave(
      hash: Key -> nat, updates: seq<Update>, ss: seq<State>, evs: seq<Event>, k: nat, save: nat, deletion: nat)
    requires IsRun(Shards(hash, updates), ss, evs) && k < |ss|
    requires save < deletion < |updates|
    requires updates[deletion].body.DeletedBusinessMessages?
    requires updates[save].body.BusinessMessage? || updates[save].body.EditedBusinessMessage?
    requires updates[save].body.connection == updates[deletion].body.connection
    requires updates[save].body.chat == updates[deletion].body.chat
    requires deletion in ss[k].started
    ensures save in ss[k].results
  {
    assert ShardKey(updates[save]) == ShardKey(updates[deletion]);
    SameShardIsSequential(Shards(hash, updates), ss, evs, k, save, deletion);
  }

  lemma SameShardIsSequential(shards: seq<nat>, ss: seq<State>, evs: seq<Event>, k: nat, i: nat, j: nat)
    requires IsRun(shards, ss, evs) && k < |ss| && i < j < |shards| && shards[i] == shards[j]
    requires j in ss[k].started
    ensures i in ss[k].results
  {
    RunInv(shards, ss, evs, k);
    var s, l := ss[k], shards[j];
    var lane := s.lanes[l];
    assert LaneOk(s, lane) && OrderOk(shards, s, l) && Holds(lane, j) && j in lane.taken;
    ShardsTakeAPrefixInOrder(shards, ss, evs, k, l);
    RestrictedIs(shards, |shards|, l);
    EarlierWasTaken(lane.taken, Restricted(shards, |shards|, l), i, j);
  }

  lemma EarlierWasTaken(taken: seq<nat>, all: seq<nat>, i: nat, j: nat)
    requires Increasing(all) && taken <= all && i in all && j in taken && i < j
    ensures i in taken && taken[|taken| - 1] != i
  {
    var a :| 0 <= a < |all| && all[a] == i;
    var b :| 0 <= b < |taken| && taken[b] == j;
    assert all[b] == j && taken[a] == i;
    assert taken[|taken| - 1] == all[|taken| - 1];
  }

  // ---------------------------------------------------------------------
  // No deadlock, termination
  // ---------------------------------------------------------------------

  /** Until Dispatch returns, a step other than a cancellation can be taken: the
      bounded queues never deadlock the submission or the wait. */
  lemma NeverDeadlocks(shards: seq<nat>, ss: seq<State>, evs: seq<Event>, k: nat) returns (ev: Event, s': State)
    requires IsRun(shards, ss, evs) && k < |ss| && !ss[k].phase.Returned?
    ensures !ev.Cancel? && Next(shards, ss[k], ev, s')
  {
    RunInv(shards, ss, evs, k);
    assert OrderOk(shards, ss[k], 0);
    match ss[k].phase {
      case FirstPass(i) =>
        if i == |shards| {
          ev, s' := NextPhase, ss[k].(phase := SecondPass(0));
        } else {
          ev, s' := FirstPassMoves(shards, ss[k]);
        }
      case SecondPass(pos) => ev, s' := SecondPassMoves(shards, ss[k]);
      case Collecting(i, _) => ev, s' := CollectingMoves(shards, ss[k]);
    }
  }

  lemma SecondPassMoves(shards: seq<nat>, s: State) returns (ev: Event, s': State)
    requires Shaped(shards, s) && s.phase.SecondPass? && s.phase.pos <= |s.deferred|
    ensures !ev.Cancel? && Next(shards, s, ev, s')
  {
    var pos := s.phase.pos;
    if pos == |s.deferred| {
      ev, s' := NextPhase, s.(phase := Collecting(0, false));
    } else if HasRoom(s.lanes[shards[s.deferred[pos]]]) {
      ev := Submit;
      s' := Enqueued(s, shards[s.deferred[pos]], s.deferred[pos]).(phase := SecondPass(pos + 1));
    } else {
      ev, s' := WorkerMoves(shards, s, shards[s.deferred[pos]]);
    }
  }

  lemma CollectingMoves(shards: seq<nat>, s: State) returns (ev: Event, s': State)
    requires Inv(shards, s) && s.phase.Collecting?
    ensures !ev.Cancel? && Next(shards, s, ev, s')
  {
    var i := s.phase.i;
    if i == |shards| {
      ev, s' := NextPhase, s.(phase := Returned);
    } else if i !in s.pending {
      ev, s' := Collect, s.(phase := s.phase.(i := i + 1));
    } else if i in s.results {
      ev, s' := Collect, s.(phase := s.phase.(i := i + 1), errs := s.errs[i := Handled(s.results[i])]);
    } else {
      assert Holds(s.lanes[shards[i]], i) && LaneOk(s, s.lanes[shards[i]]);
      ev, s' := WorkerMoves(shards, s, shards[i]);
    }
  }

  lemma FirstPassMoves(shards: seq<nat>, s: State) returns (ev: Event, s': State)
    requires Shaped(shards, s) && InFirst(shards, s)
    ensures !ev.Cancel? && Next(shards, s, ev, s')
  {
    var i := s.phase.i;
    var l := shards[i];
    if l !in s.deferredShards && HasRoom(s.lanes[l]) {
      ev, s' := Submit, Enqueued(s, l, i).(phase := FirstPass(i + 1));
    } else if l in s.deferredShards || !s.cancelled {
      ev := Defer;
      s' := s.(phase := FirstPass(i + 1), deferred := s.deferred + [i], deferredShards := s.deferredShards + {l});
    } else {
      ev := GiveUp;
      s' := s.(phase := Collecting(0, false), abort := InFirstPass(i), errs := MarkedFrom(s.errs, i));
    }
  }

  lemma WorkerMoves(shards: seq<nat>, s: State, l: nat) returns (ev: Event, s': State)
    requires Shaped(shards, s) && l < NUM_SHARDS
    requires s.lanes[l].serving.Some? || s.lanes[l].queue != []
    ensures !ev.Cancel? && Next(shards, s, ev, s')
  {
    var lane := s.lanes[l];
    if lane.serving.Some? {
      ev := Finish(l, 0);
      s' := s.(lanes := s.lanes[l := lane.(serving := None)], results := s.results[lane.serving.value := 0]);
    } else {
      ev := Start(l);
      s' := s.(lanes := s.lanes[l := Lane(lane.queue[1..], Some(lane.queue[0]), lane.taken + [lane.queue[0]])],
               started := s.started + {lane.queue[0]});
    }
  }

  function PhaseRank(n: nat, p: Phase): int {
    match p
    case FirstPass(i) => 3 * n + 5 - i
    case SecondPass(pos) => 2 * n + 4 - pos
    case Collecting(i, givingUp) => n + 1 - i + if givingUp then 0 else 1
    case Returned => 0
  }

  /** Steps left, at most. */
  function Work(shards: seq<nat>, s: State): int {
    PhaseRank(|shards|, s.phase) + (|shards| - |s.started|) + (|shards| - |s.results.Keys|)
  }

  lemma {:induction false} BoundedSet(ids: set<nat>, n: nat)
    requires forall i :: i in ids ==> i < n
    ensures |ids| <= n
  {
    if n == 0 {
      assert ids == {};
    } else {
      BoundedSet(ids - {n - 1}, n - 1);
      assert |ids| <= |ids - {n - 1}| + 1 by {
        if n - 1 in ids {
          assert ids == (ids - {n - 1}) + {n - 1};
        } else {
          assert ids == ids - {n - 1};
        }
      }
    }
  }

  lemma {:induction false} IncreasingIsShort(s: seq<nat>, n: nat)
    requires Increasing(s) && forall a :: 0 <= a < |s| ==> s[a] < n
    ensures |s| <= n
    decreases n
  {
    if s != [] {
      IncreasingIsShort(s[..|s| - 1], s[|s| - 1]);
    }
  }

  lemma WorkIsNatural(shards: seq<nat>, s: State)
    requires Inv(shards, s)
    ensures Work(shards, s) >= 0
  {
    assert OrderOk(shards, s, 0);
    BoundedSet(s.started, |shards|);
    BoundedSet(s.results.Keys, |shards|);
    IncreasingIsShort(s.deferred, |shards|);
  }

  lemma DispatchLowersTheRank(shards: seq<nat>, s: State, ev: Event, s': State)
    requires Shaped(shards, s) && Next(shards, s, ev, s') && |s.deferred| <= |shards|
    requires !ev.Start? && !ev.Finish? && !ev.Cancel?
    ensures PhaseRank(|shards|, s'.phase) < PhaseRank(|shards|, s.phase)
    ensures s'.started == s.started && s'.results == s.results
  {
  }

  lemma WorkersAdvance(shards: seq<nat>, s: State, ev: Event, s': State)
    requires Inv(shards, s) && Next(shards, s, ev, s') && (ev.Start? || ev.Finish?)
    ensures s'.phase == s.phase
    ensures |s'.started| + |s'.results.Keys| == |s.started| + |s.results.Keys| + 1
  {
    assert LaneOk(s, s.lanes[ev.lane]);
    if ev.Start? {
      assert s.lanes[ev.lane].queue[0] !in s.started;
    } else {
      assert s'.results.Keys == s.results.Keys + {s.lanes[ev.lane].serving.value};
    }
  }

  lemma StepsWork(shards: seq<nat>, s: State, ev: Event, s': State)
    requires Inv(shards, s) && Next(shards, s, ev, s')
    ensures ev.Cancel? ==> Work(shards, s') == Work(shards, s)
    ensures !ev.Cancel? ==> Work(shards, s') < Work(shards, s)
  {
    IncreasingIsShort(s.deferred, |shards|);
    if ev.Start? || ev.Finish? {
      WorkersAdvance(shards, s, ev, s');
    } else if !ev.Cancel? {
      DispatchLowersTheRank(shards, s, ev, s');
    }
  }

  function Cancels(evs: seq<Event>, k: nat): nat
    requires k <= |evs|
  {
    if k == 0 then 0 else Cancels(evs, k - 1) + if evs[k - 1].Cancel? then 1 else 0
  }

  lemma WorkAtFirst(shards: seq<nat>, s: State)
    requires Init(shards, s)
    ensures Work(shards, s) == 5 * |shards| + 5
  {
    assert s.results.Keys == {};
  }

  lemma RunsWork(shards: seq<nat>, ss: seq<State>, evs: seq<Event>, k: nat)
    requires IsRun(shards, ss, evs) && k < |evs|
    ensures Work(shards, ss[k + 1]) <= Work(shards, ss[k]) - if evs[k].Cancel? then 0 else 1
  {
    RunInv(shards, ss, evs, k);
    StepsWork(shards, ss[k], evs[k], ss[k + 1]);
  }

  lemma {:induction false} WorkGoesDown(works: seq<int>, evs: seq<Event>, k: nat)
    requires k <= |evs| < |works|
    requires forall i :: 0 <= i < |evs| ==> works[i + 1] <= works[i] - if evs[i].Cancel? then 0 else 1
    ensures works[k] <= works[0] - (k - Cancels(evs, k))
  {
    if k > 0 {
      WorkGoesDown(works, evs, k - 1);
      assert works[k - 1 + 1] <= works[k - 1] - if evs[k - 1].Cancel? then 0 else 1;
    }
  }

  lemma WorkOverRuns(shards: seq<nat>, ss: seq<State>, evs: seq<Event>, k: nat)
    requires IsRun(shards, ss, evs) && k < |ss|
    ensures Work(shards, ss[k]) <= 5 * |shards| + 5 - (k - Cancels(evs, k))
  {
    var works := seq(|ss|, i requires 0 <= i < |ss| => Work(shards, ss[i]));
    forall i | 0 <= i < |evs| ensures works[i + 1] <= works[i] - if evs[i].Cancel? then 0 else 1 {
      RunsWork(shards, ss, evs, i);
    }
    WorkGoesDown(works, evs, k);
    WorkAtFirst(shards, ss[0]);
  }

  /** Every run is finite: cancellations apart, a batch of n updates takes at most
      5n + 5 steps, whatever the workers do. With `NeverDeadlocks`, a Dispatch
      whose handlers return always returns. */
  lemma EveryDispatchIsBounded(shards: seq<nat>, ss: seq<State>, evs: seq<Event>)
    requires IsRun(shards, ss, evs)
    ensures |evs| - Cancels(evs, |evs|) <= 5 * |shards| + 5
  {
    WorkOverRuns(shards, ss, evs, |evs|);
    RunInv(shards, ss, evs, |evs|);
    WorkIsNatural(shards, ss[|evs|]);
  }

  // ---------------------------------------------------------------------
  // What Dispatch reports
  // ---------------------------------------------------------------------

  lemma AllAreCollected(shards: seq<nat>, s: State, i: nat)
    requires Inv(shards, s) && s.phase.Returned? && !s.cancelled && i < |shards|
    ensures i in s.pending && i in s.results && s.errs[i] == Handled(s.results[i])
  {
    assert SlotOk(shards, s, i);
  }

  lemma LanesAreIdle(shards: seq<nat>, s: State, l: nat)
    requires Inv(shards, s) && s.phase.Returned? && !s.cancelled && l < NUM_SHARDS
    requires forall i: nat :: i < |shards| ==> i in s.results
    ensures s.lanes[l].queue == [] && s.lanes[l].serving.None? && s.lanes[l].taken == Restricted(shards, |shards|, l)
  {
    assert LaneOk(s, s.lanes[l]) && OrderOk(shards, s, l);
    HasMembers(s.lanes[l].queue);
    HasMembers(s.lanes[l].taken);
  }

  /** An uncancelled Dispatch reports, for every update, what its handler
      returned, and leaves every channel empty and every worker idle. */
  lemma UncancelledDispatchReportsEveryHandler(shards: seq<nat>, ss: seq<State>, evs: seq<Event>, k: nat)
    requires IsRun(shards, ss, evs) && k < |ss| && ss[k].phase.Returned? && !ss[k].cancelled
    ensures forall i: nat :: i < |shards| ==> i in ss[k].results && ss[k].errs[i] == Handled(ss[k].results[i])
    ensures forall l :: 0 <= l < NUM_SHARDS ==>
      && ss[k].lanes[l].queue == [] && ss[k].lanes[l].serving.None?
      && ss[k].lanes[l].taken == Restricted(shards, |shards|, l)
  {
    RunInv(shards, ss, evs, k);
    var s := ss[k];
    forall i: nat | i < |shards| ensures i in s.results && s.errs[i] == Handled(s.results[i]) {
      AllAreCollected(shards, s, i);
    }
    forall l | 0 <= l < NUM_SHARDS
      ensures s.lanes[l].queue == [] && s.lanes[l].serving.None? && s.lanes[l].taken == Restricted(shards, |shards|, l)
    {
      LanesAreIdle(shards, s, l);
    }
  }

  lemma HasMembers(q: seq<nat>)
    ensures q != [] ==> q[0] in q && q[|q| - 1] in q
  {
  }

  /** A slot never reports anything but the truth: a handler's own result for an
      update it handled, a context error only after a cancellation, and
      `NotSubmitted` only for an update no worker will ever see. */
  lemma SlotsNeverLie(shards: seq<nat>, ss: seq<State>, evs: seq<Event>, k: nat, i: nat)
    requires IsRun(shards, ss, evs) && k < |ss| && ss[k].phase.Returned? && i < |shards|
    ensures ss[k].errs[i].Handled? ==> i in ss[k].results && ss[k].errs[i].result == ss[k].results[i]
    ensures ss[k].errs[i].ContextError? ==> ss[k].cancelled && i in ss[k].pending
    ensures ss[k].errs[i].NotSubmitted? ==> i !in ss[k].pending && i !in ss[k].started
    ensures ss[k].errs[i].Untouched? <==> i !in ss[k].pending && ss[k].abort.InFirstPass? && i < ss[k].abort.at
  {
    RunInv(shards, ss, evs, k);
    assert SlotOk(shards, ss[k], i);
  }
}
