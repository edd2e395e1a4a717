/**
 The acknowledgement loop of the poller: how far the getUpdates offset moves
 after a Dispatch, and exactly when it passes an update no worker received.
 */
module Poller {
  import opened Prelude
  import opened Dispatcher
  import opened DispatchRuns

  /** How many leading slots are acknowledged: up to the first `NotSubmitted`. */
  function Acknowledged(errs: seq<Slot>, k: nat): (n: nat)
    requires k <= |errs|
    ensures k <= n <= |errs| && (n < |errs| ==> errs[n].NotSubmitted?)
    ensures forall i :: k <= i < n ==> !errs[i].NotSubmitted?
    decreases |errs| - k
  {
    if k == |errs| || errs[k].NotSubmitted? then k else Acknowledged(errs, k + 1)
  }

  function OffsetAfter(offset: int, ids: seq<int>, errs: seq<Slot>): int
    requires |ids| == |errs|
  {
    var n := Acknowledged(errs, 0);
    if n == 0 then offset else ids[n - 1] + 1
  }

  class Poller {
    var offset: int

    constructor (offset: int)
      ensures this.offset == offset
    {
      this.offset := offset;
    }

    /** Advances over the slots, handler errors included, and stops at the first
        update that was never submitted. */
    method Acknowledge(ids: seq<int>, errs: seq<Slot>)
      requires |ids| == |errs|
      modifies this
      ensures offset == OffsetAfter(old(offset), ids, errs)
    {
      var i := 0;
      while i < |ids|
        invariant 0 <= i <= |ids|
        invariant forall j :: 0 <= j < i ==> !errs[j].NotSubmitted?
        invariant offset == if i == 0 then old(offset) else ids[i - 1] + 1
      {
        if errs[i].NotSubmitted? {
          assert Acknowledged(errs, 0) == i;
          break;
        }
        offset := ids[i] + 1;
        i := i + 1;
      }
    }
  }

  /** A batch as getUpdates returns it: increasing ids, none below the offset. */
  ghost predicate IsBatch(offset: int, ids: seq<int>) {
    && (forall a, b :: 0 <= a < b < |ids| ==> ids[a] < ids[b])
    && (forall a :: 0 <= a < |ids| ==> offset <= ids[a])
  }

  /** The next getUpdates will not return update i again exactly if no update up
      to it was left unsubmitted. */
  lemma OffsetPassesExactly(offset: int, ids: seq<int>, errs: seq<Slot>, i: nat)
    requires IsBatch(offset, ids) && |ids| == |errs| && i < |ids|
    ensures OffsetAfter(offset, ids, errs) > ids[i] <==> forall j :: 0 <= j <= i ==> !errs[j].NotSubmitted?
    ensures OffsetAfter(offset, ids, errs) >= offset
  {
    var n := Acknowledged(errs, 0);
    if n > 0 {
      assert offset <= ids[n - 1];
    }
  }

  /** Whatever the handlers returned, an uncancelled batch moves the offset past
      its last update: no poisoned update can freeze the bot. */
  lemma UncancelledBatchIsPassed(
      shards: seq<nat>, ss: seq<State>, evs: seq<Event>, k: nat, offset: int, ids: seq<int>)
    requires IsRun(shards, ss, evs) && k < |ss| && ss[k].phase.Returned? && !ss[k].cancelled
    requires |ids| == |shards| > 0 && IsBatch(offset, ids)
    ensures OffsetAfter(offset, ids, ss[k].errs) == ids[|ids| - 1] + 1
  {
    UncancelledDispatchReportsEveryHandler(shards, ss, evs, k);
    assert forall i: nat :: i < |ids| ==> ss[k].errs[i].Handled?;
  }

  /** The offset passes an update no worker will ever see. */
  ghost predicate SkipsAnUpdate(s: State, offset: int, ids: seq<int>)
    requires |s.errs| == |ids|
  {
    exists i: nat :: i < |ids| && i !in s.pending && OffsetAfter(offset, ids, s.errs) > ids[i]
  }

  /** The durability claim of the poller holds exactly when Dispatch was not
      aborted inside its first pass with an update already deferred: that branch
      marks the slots from the current one on, and leaves the earlier deferred
      slots nil. */
  lemma OffsetSkipsIffAbortedOverADeferral(
      shards: seq<nat>, ss: seq<State>, evs: seq<Event>, k: nat, offset: int, ids: seq<int>)
    requires IsRun(shards, ss, evs) && k < |ss| && ss[k].phase.Returned?
    requires |ids| == |shards| && IsBatch(offset, ids)
    ensures SkipsAnUpdate(ss[k], offset, ids) <==> ss[k].abort.InFirstPass? && ss[k].deferred != []
  {
    RunInv(shards, ss, evs, k);
    var s := ss[k];
    if s.abort.InFirstPass? && s.deferred != [] {
      var d := s.deferred[0];
      assert d in s.deferred;
      forall j | 0 <= j <= d ensures !s.errs[j].NotSubmitted? {
        assert SlotOk(shards, s, j);
      }
      OffsetPassesExactly(offset, ids, s.errs, d);
      assert SkipsAnUpdate(s, offset, ids);
    } else {
      forall i: nat | i < |ids| && i !in s.pending ensures OffsetAfter(offset, ids, s.errs) <= ids[i] {
        assert SlotOk(shards, s, i);
        OffsetPassesExactly(offset, ids, s.errs, i);
      }
    }
  }

  // ---------------------------------------------------------------------
  // The failing branch is reachable
  // ---------------------------------------------------------------------

  /** Thirty-three updates of one shard, then one of another. */
  function BurstShards(): (shards: seq<nat>)
    ensures |shards| == 34 && WellSharded(shards)
  {
    seq(34, i => if i == 33 then 1 else 0)
  }

  function FirstIndexes(n: nat): (ids: set<nat>)
    ensures forall i: nat :: i in ids <==> i < n
  {
    if n == 0 then {} else FirstIndexes(n - 1) + {n - 1}
  }

  function BurstErrs(marked: bool, collected: nat): (errs: seq<Slot>)
    ensures |errs| == 34
  {
    seq(34, i => if i == 33 && marked then NotSubmitted
                 else if i < collected && i < 32 then ContextError
                 else Untouched)
  }

  function BurstLanes(queued: nat): (lanes: seq<Lane>)
    ensures |lanes| == NUM_SHARDS
  {
    seq(NUM_SHARDS, l => if l == 0 then Lane(seq(queued, i => i), None, []) else IDLE)
  }

  /** The worker of shard 0 has not run yet. The queue fills up, one update is
      deferred, and the context is cancelled while the last one is offered. */
  function BurstState(k: nat): State
    requires k <= 71
  {
    var submitted := if k <= 32 then k else 32;
    var deferred := if k <= 32 then [] else [32];
    State(
      if k <= 33 then FirstPass(k) else if k == 34 then FirstPass(33) else if k == 35 then Collecting(0, false)
      else if k <= 70 then Collecting(k - 36, true) else Returned,
      if k <= 34 then NotAborted else InFirstPass(33),
      k >= 34,
      FirstIndexes(submitted),
      deferred,
      if k <= 32 then {} else {0},
      BurstErrs(k >= 35, if k <= 36 then 0 else if k == 71 then 34 else k - 36),
      BurstLanes(submitted),
      {},
      map[])
  }

  function BurstEvent(k: nat): Event {
    if k < 32 then Submit else if k == 32 then Defer else if k == 33 then Cancel
    else if k <= 35 then GiveUp else if k < 70 then Collect else NextPhase
  }

  lemma BurstSubmits(k: nat)
    requires k < 32
    ensures Shaped(BurstShards(), BurstState(k)) && Next(BurstShards(), BurstState(k), Submit, BurstState(k + 1))
  {
    var s, s' := BurstState(k), BurstState(k + 1);
    assert s'.lanes[0].queue == s.lanes[0].queue + [k];
    assert s'.lanes == s.lanes[0 := s.lanes[0].(queue := s.lanes[0].queue + [k])];
    assert s'.pending == s.pending + {k};
    assert s'.errs == s.errs;
  }

  lemma BurstAborts(k: nat)
    requires 32 <= k < 36
    ensures Shaped(BurstShards(), BurstState(k)) && Next(BurstShards(), BurstState(k), BurstEvent(k), BurstState(k + 1))
  {
    var s, s' := BurstState(k), BurstState(k + 1);
    assert s'.errs == if k == 34 then MarkedFrom(s.errs, 33) else s.errs;
  }

  lemma BurstCollects(k: nat)
    requires 36 <= k < 71
    ensures Shaped(BurstShards(), BurstState(k)) && Next(BurstShards(), BurstState(k), BurstEvent(k), BurstState(k + 1))
  {
    var s, s' := BurstState(k), BurstState(k + 1);
    assert s'.errs == if k - 36 < 32 then s.errs[k - 36 := ContextError] else s.errs;
  }

  lemma BurstStep(k: nat)
    requires k < 71
    ensures Shaped(BurstShards(), BurstState(k)) && Next(BurstShards(), BurstState(k), BurstEvent(k), BurstState(k + 1))
  {
    if k < 32 {
      BurstSubmits(k);
    } else if k < 36 {
      BurstAborts(k);
    } else {
      BurstCollects(k);
    }
  }

  lemma BurstIsARun() returns (ss: seq<State>, evs: seq<Event>)
    ensures IsRun(BurstShards(), ss, evs) && |evs| == 71 && ss[71] == BurstState(71)
  {
    ss := seq(72, k requires 0 <= k < 72 => BurstState(k));
    evs := seq(71, k requires 0 <= k < 71 => BurstEvent(k));
    forall k | 0 <= k < 71
      ensures Shaped(BurstShards(), ss[k]) && Next(BurstShards(), ss[k], evs[k], ss[k + 1])
    {
      BurstStep(k);
    }
  }

  /** A concrete run of the code as written: the offset moves past update 32,
      which no worker received and no slot reports. */
  lemma OffsetCanSkipAnUpdate(offset: int) returns (ss: seq<State>, evs: seq<Event>, ids: seq<int>)
    ensures IsRun(BurstShards(), ss, evs) && ss[|evs|].phase.Returned?
    ensures |ids| == 34 && IsBatch(offset, ids)
    ensures 32 !in ss[|evs|].pending && OffsetAfter(offset, ids, ss[|evs|].errs) > ids[32]
  {
    ss, evs := BurstIsARun();
    ids := seq(34, i => offset + i);
    OffsetPassesExactly(offset, ids, BurstState(71).errs, 32);
  }
}
