/**
 A whole run of the poller: fetch, dispatch, acknowledge, again and again.

 `log` is every update the server emits during the run, in emission order. A
 fetch answers some updates of it from the offset on, leaving none out in
 between; a Dispatch that is not cancelled leaves every worker idle, which is
 where the next one starts; a cancelled one is the last.
 */
module PollerRuns {
  import opened Prelude
  import opened Dispatcher
  import opened DispatchRuns
  import opened Poller

  /** One turn of the loop: a stretch of the log and the run of its Dispatch. */
  datatype Round = Round(from: nat, updates: seq<Update>, ss: seq<State>, evs: seq<Event>)
  {
    function To(): nat {
      from + |updates|
    }

    /** The Dispatch as far as it went. */
    function Last(): State
      requires ss != []
    {
      ss[|ss| - 1]
    }
  }

  function IdsOf(updates: seq<Update>): (ids: seq<int>)
    ensures |ids| == |updates| && forall i :: 0 <= i < |ids| ==> ids[i] == updates[i].id
  {
    seq(|updates|, i requires 0 <= i < |updates| => updates[i].id)
  }

  ghost predicate IsLog(log: seq<Update>) {
    forall a, b :: 0 <= a < b < |log| ==> log[a].id < log[b].id
  }

  /** The updates below the offset are the first n. */
  ghost predicate Splits(log: seq<Update>, offset: int, n: nat) {
    n <= |log| && forall x :: 0 <= x < |log| ==> (log[x].id < offset <==> x < n)
  }

  lemma SplitsOnce(log: seq<Update>, offset: int, a: nat, b: nat)
    requires Splits(log, offset, a) && Splits(log, offset, b)
    ensures a == b
  {
    assert a < |log| ==> (log[a].id < offset <==> a < b);
    assert b < |log| ==> (log[b].id < offset <==> b < a);
  }

  /** getUpdates: some updates of the log, from the first at or above the offset. */
  ghost predicate IsFetch(log: seq<Update>, offset: int, r: Round) {
    Splits(log, offset, r.from) && r.To() <= |log| && r.updates == log[r.from..r.To()]
  }

  /** One turn begun at this offset. */
  ghost predicate IsRound(hash: Key -> nat, log: seq<Update>, offset: int, r: Round) {
    IsFetch(log, offset, r) && IsRun(Shards(hash, r.updates), r.ss, r.evs)
  }

  function OffsetAfterRound(offset: int, r: Round): int
    requires r.ss != [] && |r.Last().errs| == |r.updates|
  {
    OffsetAfter(offset, IdsOf(r.updates), r.Last().errs)
  }

  /** Dispatch returned uncancelled, and the offset was moved on. */
  ghost predicate IsTurn(hash: Key -> nat, log: seq<Update>, offset: int, r: Round, next: int) {
    && IsRound(hash, log, offset, r)
    && r.Last().phase.Returned? && !r.Last().cancelled
    && next == OffsetAfterRound(offset, r)
  }

  /** The turns of a run with the offsets they began at. The last one may still be
      going on, or be the one a cancellation ended. */
  ghost predicate IsPolling(hash: Key -> nat, log: seq<Update>, rounds: seq<Round>, offsets: seq<int>) {
    && IsLog(log) && 0 < |rounds| == |offsets|
    && IsRound(hash, log, offsets[|rounds| - 1], rounds[|rounds| - 1])
    && forall q :: 0 <= q < |rounds| - 1 ==> IsTurn(hash, log, offsets[q], rounds[q], offsets[q + 1])
  }

  // ---------------------------------------------------------------------
  // Consecutive rounds
  // ---------------------------------------------------------------------

  lemma FetchIsABatch(log: seq<Update>, offset: int, r: Round)
    requires IsLog(log) && IsFetch(log, offset, r)
    ensures IsBatch(offset, IdsOf(r.updates))
    ensures forall i :: 0 <= i < |r.updates| ==> r.updates[i] == log[r.from + i]
  {
  }

  lemma PollingRound(hash: Key -> nat, log: seq<Update>, rounds: seq<Round>, offsets: seq<int>, q: nat)
    requires IsPolling(hash, log, rounds, offsets) && q < |rounds|
    ensures IsRound(hash, log, offsets[q], rounds[q])
  {
    if q < |rounds| - 1 {
      assert IsTurn(hash, log, offsets[q], rounds[q], offsets[q + 1]);
    }
  }

  lemma AllAreHandled(shards: seq<nat>, ss: seq<State>, evs: seq<Event>, k: nat)
    requires IsRun(shards, ss, evs) && k < |ss| && ss[k].phase.Returned? && !ss[k].cancelled
    ensures |ss[k].errs| == |shards|
    ensures forall i: nat :: i < |shards| ==> i in ss[k].results && i in ss[k].pending
  {
    RunInv(shards, ss, evs, k);
    forall i: nat | i < |shards| ensures i in ss[k].results && i in ss[k].pending {
      AllAreCollected(shards, ss[k], i);
    }
  }

  /** The offset just after the last update fetched. */
  lemma AfterTheBatch(log: seq<Update>, offset: int, r: Round, next: int)
    requires IsLog(log) && IsFetch(log, offset, r)
    requires next == if r.updates == [] then offset else log[r.To() - 1].id + 1
    ensures Splits(log, next, r.To()) && offset <= next
  {
  }

  /** A turn handles all it fetched and moves the offset to just after it. */
  lemma TurnIsWhole(hash: Key -> nat, log: seq<Update>, offset: int, r: Round, next: int)
    requires IsLog(log) && IsTurn(hash, log, offset, r, next)
    ensures forall i: nat :: i < |r.updates| ==> i in r.Last().results && i in r.Last().pending
    ensures Splits(log, next, r.To()) && offset <= next
  {
    var shards, k := Shards(hash, r.updates), |r.ss| - 1;
    AllAreHandled(shards, r.ss, r.evs, k);
    FetchIsABatch(log, offset, r);
    if r.updates != [] {
      UncancelledBatchIsPassed(shards, r.ss, r.evs, k, offset, IdsOf(r.updates));
    }
    AfterTheBatch(log, offset, r, next);
  }

  /** Each turn goes on exactly where the one before stopped. */
  lemma RoundsAreConsecutive(hash: Key -> nat, log: seq<Update>, rounds: seq<Round>, offsets: seq<int>, q: nat)
    requires IsPolling(hash, log, rounds, offsets) && q + 1 < |rounds|
    ensures rounds[q + 1].from == rounds[q].To() && offsets[q] <= offsets[q + 1]
  {
    TurnIsWhole(hash, log, offsets[q], rounds[q], offsets[q + 1]);
    PollingRound(hash, log, rounds, offsets, q + 1);
    SplitsOnce(log, offsets[q + 1], rounds[q].To(), rounds[q + 1].from);
  }

  lemma {:induction false} RoundsAreInOrder(
    hash: Key -> nat, log: seq<Update>, rounds: seq<Round>, offsets: seq<int>, p: nat, q: nat)
    requires IsPolling(hash, log, rounds, offsets) && p < q < |rounds|
    ensures rounds[p].To() <= rounds[q].from
    decreases q
  {
    RoundsAreConsecutive(hash, log, rounds, offsets, q - 1);
    if p < q - 1 {
      RoundsAreInOrder(hash, log, rounds, offsets, p, q - 1);
    }
  }

  lemma {:induction false} RoundOf(
    hash: Key -> nat, log: seq<Update>, rounds: seq<Round>, offsets: seq<int>, n: nat, x: nat) returns (q: nat)
    requires IsPolling(hash, log, rounds, offsets) && n < |rounds| && rounds[0].from <= x < rounds[n].To()
    ensures q <= n && rounds[q].from <= x < rounds[q].To()
    decreases n
  {
    q := n;
    if x < rounds[n].from {
      RoundsAreConsecutive(hash, log, rounds, offsets, n - 1);
      q := RoundOf(hash, log, rounds, offsets, n - 1, x);
    }
  }

  // ---------------------------------------------------------------------
  // What became of an update of the log
  // ---------------------------------------------------------------------

  /** Handed to the worker of its shard by this turn. */
  predicate ReceivedIn(r: Round, x: nat) {
    r.from <= x && r.ss != [] && x - r.from in r.Last().pending
  }

  predicate StartedIn(r: Round, x: nat) {
    r.from <= x && r.ss != [] && x - r.from in r.Last().started
  }

  predicate HandledIn(r: Round, x: nat) {
    r.from <= x && r.ss != [] && x - r.from in r.Last().results
  }

  ghost predicate Received(rounds: seq<Round>, x: nat) {
    exists q :: 0 <= q < |rounds| && ReceivedIn(rounds[q], x)
  }

  /** An update handed over or started by a turn is one it fetched. */
  lemma OnlyItsOwn(hash: Key -> nat, log: seq<Update>, offset: int, r: Round, x: nat)
    requires IsRound(hash, log, offset, r) && (ReceivedIn(r, x) || StartedIn(r, x))
    ensures x < r.To() && |r.Last().errs| == |r.updates|
  {
    var shards, k := Shards(hash, r.updates), |r.ss| - 1;
    RunInv(shards, r.ss, r.evs, k);
    assert OrderOk(shards, r.ss[k], 0);
  }

  // ---------------------------------------------------------------------
  // Durability
  // ---------------------------------------------------------------------

  /** The run ends with its last Dispatch having returned. */
  ghost predicate HasEnded(hash: Key -> nat, log: seq<Update>, rounds: seq<Round>, offsets: seq<int>) {
    IsPolling(hash, log, rounds, offsets) && rounds[|rounds| - 1].Last().phase.Returned?
  }

  /** What the server will not send again: the offset the run leaves. */
  ghost function FinalOffset(hash: Key -> nat, log: seq<Update>, rounds: seq<Round>, offsets: seq<int>): int
    requires HasEnded(hash, log, rounds, offsets)
  {
    OffsetAfterRound(offsets[|rounds| - 1], rounds[|rounds| - 1])
  }

  /** The offset passes an update this turn fetched and handed to nobody. */
  ghost predicate Skips(log: seq<Update>, offset: int, r: Round, x: nat)
    requires r.ss != [] && |r.Last().errs| == |r.updates| && r.To() <= |log|
  {
    r.from <= x < r.To() && log[x].id < OffsetAfterRound(offset, r) && !ReceivedIn(r, x)
  }

  lemma SkippedIndex(s: State, offset: int, ids: seq<int>) returns (i: nat)
    requires |s.errs| == |ids| && SkipsAnUpdate(s, offset, ids)
    ensures i < |ids| && i !in s.pending && OffsetAfter(offset, ids, s.errs) > ids[i]
  {
    i :| i < |ids| && i !in s.pending && OffsetAfter(offset, ids, s.errs) > ids[i];
  }

  lemma SkippedBy(hash: Key -> nat, log: seq<Update>, offset: int, r: Round) returns (x: nat)
    requires IsLog(log) && IsRound(hash, log, offset, r) && r.Last().phase.Returned?
    requires r.Last().abort.InFirstPass? && r.Last().deferred != []
    ensures Skips(log, offset, r, x)
  {
    var shards, k, ids := Shards(hash, r.updates), |r.ss| - 1, IdsOf(r.updates);
    FetchIsABatch(log, offset, r);
    OffsetSkipsIffAbortedOverADeferral(shards, r.ss, r.evs, k, offset, ids);
    var i := SkippedIndex(r.Last(), offset, ids);
    x := r.from + i;
  }

  lemma NoneIsSkippedBy(hash: Key -> nat, log: seq<Update>, offset: int, r: Round, x: nat)
    requires IsLog(log) && IsRound(hash, log, offset, r) && r.Last().phase.Returned?
    requires !(r.Last().abort.InFirstPass? && r.Last().deferred != [])
    ensures !Skips(log, offset, r, x)
  {
    var shards, k, ids := Shards(hash, r.updates), |r.ss| - 1, IdsOf(r.updates);
    FetchIsABatch(log, offset, r);
    OffsetSkipsIffAbortedOverADeferral(shards, r.ss, r.evs, k, offset, ids);
    if r.from <= x < r.To() {
      assert ids[x - r.from] == log[x].id;
    }
  }

  /** The offset never passes the updates fetched. */
  lemma OffsetStaysInside(log: seq<Update>, offset: int, r: Round, x: nat)
    requires IsLog(log) && IsFetch(log, offset, r) && r.ss != [] && |r.Last().errs| == |r.updates|
    requires x < |log| && log[x].id < OffsetAfterRound(offset, r)
    ensures x < r.To()
  {
    var n := Acknowledged(r.Last().errs, 0);
    FetchIsABatch(log, offset, r);
    if n > 0 {
      assert OffsetAfterRound(offset, r) == log[r.from + n - 1].id + 1;
    }
  }

  lemma PassedWasReceived(hash: Key -> nat, log: seq<Update>, rounds: seq<Round>, offsets: seq<int>, x: nat)
    requires HasEnded(hash, log, rounds, offsets) && x < |log|
    requires offsets[0] <= log[x].id < FinalOffset(hash, log, rounds, offsets)
    requires var last := rounds[|rounds| - 1].Last(); !(last.abort.InFirstPass? && last.deferred != [])
    ensures Received(rounds, x)
  {
    var n := |rounds| - 1;
    OffsetStaysInside(log, offsets[n], rounds[n], x);
    PollingRound(hash, log, rounds, offsets, 0);
    var q := RoundOf(hash, log, rounds, offsets, n, x);
    if q < n {
      TurnIsWhole(hash, log, offsets[q], rounds[q], offsets[q + 1]);
    } else {
      NoneIsSkippedBy(hash, log, offsets[n], rounds[n], x);
    }
    assert ReceivedIn(rounds[q], x);
  }

  lemma NeverReceived(hash: Key -> nat, log: seq<Update>, rounds: seq<Round>, offsets: seq<int>, x: nat)
    requires IsPolling(hash, log, rounds, offsets)
    requires rounds[|rounds| - 1].from <= x && !ReceivedIn(rounds[|rounds| - 1], x)
    ensures !Received(rounds, x)
  {
    var n := |rounds| - 1;
    forall q | 0 <= q < n ensures !ReceivedIn(rounds[q], x) {
      PollingRound(hash, log, rounds, offsets, q);
      if ReceivedIn(rounds[q], x) {
        OnlyItsOwn(hash, log, offsets[q], rounds[q], x);
        RoundsAreInOrder(hash, log, rounds, offsets, q, n);
        assert false;
      }
    }
  }

  lemma {:induction false} OffsetsGrow(
    hash: Key -> nat, log: seq<Update>, rounds: seq<Round>, offsets: seq<int>, q: nat)
    requires IsPolling(hash, log, rounds, offsets) && q < |rounds|
    ensures offsets[0] <= offsets[q]
  {
    if q > 0 {
      OffsetsGrow(hash, log, rounds, offsets, q - 1);
      RoundsAreConsecutive(hash, log, rounds, offsets, q - 1);
    }
  }

  /** Over a whole run, however many batches: every update the final offset passes
      was received by the worker of its shard -- exactly unless the last Dispatch
      was aborted in its first pass with an update already deferred. */
  lemma NothingIsSkipped(hash: Key -> nat, log: seq<Update>, rounds: seq<Round>, offsets: seq<int>)
    requires HasEnded(hash, log, rounds, offsets)
    ensures var last := rounds[|rounds| - 1].Last();
      (forall x: nat :: x < |log| && offsets[0] <= log[x].id < FinalOffset(hash, log, rounds, offsets) ==>
        Received(rounds, x))
      <==> !(last.abort.InFirstPass? && last.deferred != [])
  {
    var n := |rounds| - 1;
    var last := rounds[n].Last();
    if last.abort.InFirstPass? && last.deferred != [] {
      var x := SkippedBy(hash, log, offsets[n], rounds[n]);
      NeverReceived(hash, log, rounds, offsets, x);
      OffsetsGrow(hash, log, rounds, offsets, n);
      assert offsets[n] <= log[x].id;
    } else {
      forall x: nat | x < |log| && offsets[0] <= log[x].id < FinalOffset(hash, log, rounds, offsets)
        ensures Received(rounds, x)
      {
        PassedWasReceived(hash, log, rounds, offsets, x);
      }
    }
  }

  // ---------------------------------------------------------------------
  // Order
  // ---------------------------------------------------------------------

  /** No update is fetched by two turns, so none is handled twice in a run. */
  lemma HandledByOneTurn(
    hash: Key -> nat, log: seq<Update>, rounds: seq<Round>, offsets: seq<int>, p: nat, q: nat, x: nat)
    requires IsPolling(hash, log, rounds, offsets) && p < |rounds| && q < |rounds|
    requires StartedIn(rounds[p], x) && StartedIn(rounds[q], x)
    ensures p == q
  {
    PollingRound(hash, log, rounds, offsets, p);
    PollingRound(hash, log, rounds, offsets, q);
    OnlyItsOwn(hash, log, offsets[p], rounds[p], x);
    OnlyItsOwn(hash, log, offsets[q], rounds[q], x);
    if p < q {
      RoundsAreInOrder(hash, log, rounds, offsets, p, q);
    } else if q < p {
      RoundsAreInOrder(hash, log, rounds, offsets, q, p);
    }
  }

  lemma RoundIsSequential(hash: Key -> nat, log: seq<Update>, offset: int, r: Round, x: nat, y: nat)
    requires IsLog(log) && IsRound(hash, log, offset, r) && r.from <= x < y < r.To()
    requires ShardKey(log[x]) == ShardKey(log[y]) && StartedIn(r, y)
    ensures HandledIn(r, x)
  {
    var i, j := x - r.from, y - r.from;
    FetchIsABatch(log, offset, r);
    assert ShardKey(r.updates[i]) == ShardKey(r.updates[j]);
    SameShardIsSequential(Shards(hash, r.updates), r.ss, r.evs, |r.ss| - 1, i, j);
  }

  /** Of two updates of one partition emitted since the run began, the second is
      started only once the first was handled, in its own turn or an earlier one. */
  lemma PartitionsAreSequential(
    hash: Key -> nat, log: seq<Update>, rounds: seq<Round>, offsets: seq<int>, q: nat, x: nat, y: nat)
    requires IsPolling(hash, log, rounds, offsets) && q < |rounds|
    requires x < y < |log| && ShardKey(log[x]) == ShardKey(log[y]) && offsets[0] <= log[x].id
    requires StartedIn(rounds[q], y)
    ensures exists p :: 0 <= p <= q && HandledIn(rounds[p], x)
  {
    PollingRound(hash, log, rounds, offsets, q);
    PollingRound(hash, log, rounds, offsets, 0);
    OnlyItsOwn(hash, log, offsets[q], rounds[q], y);
    var p := RoundOf(hash, log, rounds, offsets, q, x);
    if p < q {
      TurnIsWhole(hash, log, offsets[p], rounds[p], offsets[p + 1]);
    } else {
      RoundIsSequential(hash, log, offsets[q], rounds[q], x, y);
    }
    assert HandledIn(rounds[p], x);
  }

  /** Enabling and disabling one connection never swap: of two of its updates the
      second is started only once the first was handled, in one batch or across
      any number of them. */
  lemma ConnectionsAreSequential(
    hash: Key -> nat, log: seq<Update>, rounds: seq<Round>, offsets: seq<int>, q: nat, x: nat, y: nat, c: nat)
    requires IsPolling(hash, log, rounds, offsets) && q < |rounds|
    requires x < y < |log| && offsets[0] <= log[x].id
    requires log[x].body == BusinessConnection(c) && log[y].body == BusinessConnection(c)
    requires StartedIn(rounds[q], y)
    ensures exists p :: 0 <= p <= q && HandledIn(rounds[p], x)
  {
    PartitionsAreChatsAndConnections(log[x], log[y]);
    PartitionsAreSequential(hash, log, rounds, offsets, q, x, y);
  }

  /** And so for any two messages, edits or deletions of one chat. */
  lemma ChatsAreSequential(
    hash: Key -> nat, log: seq<Update>, rounds: seq<Round>, offsets: seq<int>,
    q: nat, x: nat, y: nat, c: nat, chat: int)
    requires IsPolling(hash, log, rounds, offsets) && q < |rounds|
    requires x < y < |log| && offsets[0] <= log[x].id
    requires IsOfChat(log[x], c, chat) && IsOfChat(log[y], c, chat)
    requires StartedIn(rounds[q], y)
    ensures exists p :: 0 <= p <= q && HandledIn(rounds[p], x)
  {
    PartitionsAreChatsAndConnections(log[x], log[y]);
    PartitionsAreSequential(hash, log, rounds, offsets, q, x, y);
  }

  /** A deletion never overtakes its save, in one batch or across any number of
      them: its handler starts only once that of the save returned. */
  lemma DeletionFollowsItsSave(
    hash: Key -> nat, log: seq<Update>, rounds: seq<Round>, offsets: seq<int>, q: nat, save: nat, deletion: nat)
    requires IsPolling(hash, log, rounds, offsets) && q < |rounds|
    requires save < deletion < |log| && offsets[0] <= log[save].id
    requires log[deletion].body.DeletedBusinessMessages?
    requires log[save].body.BusinessMessage? || log[save].body.EditedBusinessMessage?
    requires log[save].body.connection == log[deletion].body.connection
    requires log[save].body.chat == log[deletion].body.chat
    requires StartedIn(rounds[q], deletion)
    ensures exists p :: 0 <= p <= q && HandledIn(rounds[p], save)
  {
    PartitionsAreSequential(hash, log, rounds, offsets, q, save, deletion);
  }
}
