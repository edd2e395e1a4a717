/**
 The outbox of one tenant: a leased job queue.

 `Row` is a row of notification_outbox; `message` stands for the tuple
 (connection, chat, message, event) and `chunk` for its index in that message.
 The predicates and functions are the SQL statements; `Repository` runs them.
 */
module Outbox {
  import opened Prelude

  datatype Status = Pending | Processing | Sent | Failed

  datatype Row = Row(
    message: nat,
    chunk: nat,
    status: Status,
    attempts: nat,
    nextAttemptAt: Time,
    lockedUntil: Option<Time>,
    leaseToken: Option<nat>,
    createdAt: Time)

  /** Rows by their serial id. */
  type Table = map<nat, Row>

  /** A claimed row, as its worker sees it. */
  datatype Job = Job(id: nat, attempts: nat, token: nat)

  /** Six hours, in seconds. */
  const FAILED_RESWEEP_DELAY: Time := 21600

  // ---------------------------------------------------------------------
  // Claim
  // ---------------------------------------------------------------------

  predicate Due(r: Row, now: Time) {
    && !r.status.Sent?
    && r.nextAttemptAt <= now
    && (r.lockedUntil.Some? ==> r.lockedUntil.value <= now)
  }

  /** An earlier chunk of the same message still in the fast lane. */
  predicate HoldsBack(prior: Row, r: Row) {
    prior.message == r.message && prior.chunk < r.chunk && (prior.status.Pending? || prior.status.Processing?)
  }

  predicate Claimable(rows: Table, id: nat, now: Time) {
    && id in rows
    && Due(rows[id], now)
    && forall p :: p in rows ==> !HoldsBack(rows[p], rows[id])
  }

  /** The ORDER BY of the claim. */
  predicate Before(rows: Table, a: nat, b: nat)
    requires a in rows && b in rows
  {
    rows[a].nextAttemptAt < rows[b].nextAttemptAt
    || (rows[a].nextAttemptAt == rows[b].nextAttemptAt && a <= b)
  }

  /** The row the claim takes: first in order of those another claim has not
      locked in the meantime. */
  ghost predicate IsCandidate(rows: Table, skipped: set<nat>, now: Time, id: nat) {
    && Claimable(rows, id, now) && id !in skipped
    && forall other :: other in rows && other !in skipped && Claimable(rows, other, now) ==> Before(rows, id, other)
  }

  function Leased(r: Row, now: Time, lease: Time, token: nat): Row {
    r.(status := Processing, attempts := if r.status.Failed? then 0 else r.attempts,
       lockedUntil := Some(now + lease), leaseToken := Some(token))
  }

  // ---------------------------------------------------------------------
  // Acknowledgements
  // ---------------------------------------------------------------------

  /** The guard of every acknowledgement: this very lease is still in force. */
  predicate LeaseHeld(rows: Table, id: nat, token: nat) {
    id in rows && rows[id].status.Processing? && rows[id].leaseToken == Some(token)
  }

  function SentRow(r: Row): Row {
    r.(status := Sent, lockedUntil := None, leaseToken := None)
  }

  function RetriedRow(r: Row, now: Time, wait: Time): Row {
    r.(status := Pending, attempts := r.attempts + 1, nextAttemptAt := now + wait,
       lockedUntil := None, leaseToken := None)
  }

  function FailedRow(r: Row, now: Time): Row {
    r.(status := Failed, attempts := r.attempts + 1, nextAttemptAt := now + FAILED_RESWEEP_DELAY,
       lockedUntil := None, leaseToken := None)
  }

  function Acknowledge(rows: Table, id: nat, token: nat, after: Row -> Row): Table {
    if LeaseHeld(rows, id, token) then rows[id := after(rows[id])] else rows
  }

  // ---------------------------------------------------------------------
  // Insertion, retention
  // ---------------------------------------------------------------------

  predicate KeyTaken(rows: Table, message: nat, chunk: nat) {
    exists id :: id in rows && rows[id].message == message && rows[id].chunk == chunk
  }

  function NewRow(message: nat, chunk: nat, now: Time): Row {
    Row(message, chunk, Pending, 0, now, None, None, now)
  }

  predicate Purgeable(r: Row, cutoff: Time) {
    (r.status.Sent? || r.status.Failed?) && r.createdAt < cutoff
  }

  function Purged(rows: Table, cutoff: Time): Table {
    map id | id in rows && !Purgeable(rows[id], cutoff) :: rows[id]
  }

  ghost predicate UniqueKeys(rows: Table) {
    forall a, b :: a in rows && b in rows && a != b ==>
      !(rows[a].message == rows[b].message && rows[a].chunk == rows[b].chunk)
  }

  // ---------------------------------------------------------------------
  // The table
  // ---------------------------------------------------------------------

  class Repository {
    var rows: Table
    var nextId: nat

    /** Ids are serial, and the anti-duplicate key is unique. */
    ghost predicate Valid()
      reads this
    {
      UniqueKeys(rows) && forall id :: id in rows ==> id < nextId
    }

    constructor ()
      ensures Valid() && rows == map[]
    {
      rows := map[];
      nextId := 0;
    }

    /** ON CONFLICT DO NOTHING on (message, chunk). */
    method Insert(message: nat, chunk: nat, now: Time)
      requires Valid()
      modifies this
      ensures Valid()
      ensures rows == if old(KeyTaken(rows, message, chunk)) then old(rows)
                      else old(rows)[old(nextId) := NewRow(message, chunk, now)]
      ensures exists id :: id in rows && rows[id].message == message && rows[id].chunk == chunk
      ensures forall id :: id in old(rows) ==> id in rows && rows[id] == old(rows)[id]
      ensures forall id :: id in rows && id !in old(rows) ==>
        rows[id] == Row(message, chunk, Pending, 0, now, None, None, now)
    {
      var todo := rows.Keys;
      while todo != {}
        invariant todo <= rows.Keys
        invariant forall id :: id in rows && id !in todo ==> !(rows[id].message == message && rows[id].chunk == chunk)
        decreases todo
      {
        var id :| id in todo;
        if rows[id].message == message && rows[id].chunk == chunk {
          assert KeyTaken(rows, message, chunk);
          return;
        }
        todo := todo - {id};
      }
      rows := rows[nextId := NewRow(message, chunk, now)];
      assert rows[nextId].message == message && rows[nextId].chunk == chunk;
      nextId := nextId + 1;
    }

    /** Reserves at most one job. `skipped` are the rows other claims have
        locked at that instant. */
    method Claim(now: Time, lease: Time, token: nat, skipped: set<nat>) returns (job: Option<Job>)
      requires Valid()
      modifies this`rows
      ensures Valid()
      ensures job.None? ==> rows == old(rows) && forall id :: Claimable(rows, id, now) ==> id in skipped
      ensures job.Some? ==>
        && IsCandidate(old(rows), skipped, now, job.value.id)
        && rows == old(rows)[job.value.id := Leased(old(rows)[job.value.id], now, lease, token)]
        && job.value == Job(job.value.id, rows[job.value.id].attempts, token)
    {
      var best: Option<nat> := None;
      var todo := rows.Keys;
      while todo != {}
        invariant todo <= rows.Keys
        invariant best.Some? ==> Claimable(rows, best.value, now) && best.value !in skipped
        invariant forall id :: id in rows && id !in todo && id !in skipped && Claimable(rows, id, now) ==>
          best.Some? && Before(rows, best.value, id)
        decreases todo
      {
        var id :| id in todo;
        if id !in skipped && Claimable(rows, id, now) && (best.None? || Before(rows, id, best.value)) {
          best := Some(id);
        }
        todo := todo - {id};
      }
      if best.None? {
        return None;
      }
      var id := best.value;
      rows := rows[id := Leased(rows[id], now, lease, token)];
      return Some(Job(id, rows[id].attempts, token));
    }

    method MarkSent(id: nat, token: nat) returns (ok: bool)
      requires Valid()
      modifies this`rows
      ensures Valid() && ok == LeaseHeld(old(rows), id, token)
      ensures rows == Acknowledge(old(rows), id, token, SentRow)
    {
      ok := LeaseHeld(rows, id, token);
      if ok {
        rows := rows[id := SentRow(rows[id])];
      }
    }

    method MarkRetry(id: nat, token: nat, now: Time, wait: Time) returns (ok: bool)
      requires Valid()
      modifies this`rows
      ensures Valid() && ok == LeaseHeld(old(rows), id, token)
      ensures rows == Acknowledge(old(rows), id, token, r => RetriedRow(r, now, wait))
    {
      ok := LeaseHeld(rows, id, token);
      if ok {
        rows := rows[id := RetriedRow(rows[id], now, wait)];
      }
    }

    method MarkFailed(id: nat, token: nat, now: Time) returns (ok: bool)
      requires Valid()
      modifies this`rows
      ensures Valid() && ok == LeaseHeld(old(rows), id, token)
      ensures rows == Acknowledge(old(rows), id, token, r => FailedRow(r, now))
    {
      ok := LeaseHeld(rows, id, token);
      if ok {
        rows := rows[id := FailedRow(rows[id], now)];
      }
    }

    method DeleteTenant() returns (deleted: nat)
      requires Valid()
      modifies this`rows
      ensures Valid() && rows == map[] && deleted == |old(rows)|
    {
      deleted := |rows|;
      rows := map[];
    }

    method PurgeExpired(cutoff: Time) returns (deleted: nat)
      requires Valid()
      modifies this`rows
      ensures Valid() && rows == Purged(old(rows), cutoff)
      ensures deleted == |old(rows)| - |rows|
    {
      var kept := Purged(rows, cutoff);
      SubsetSize(kept.Keys, rows.Keys);
      deleted := |rows.Keys| - |kept.Keys|;
      rows := kept;
    }
  }

  // ---------------------------------------------------------------------
  // What the statements say of a row
  // ---------------------------------------------------------------------

  /** A row a claim may take: not sent, its deadline and any lease over, and every
      earlier chunk of its message sent or failed. */
  ghost predicate MayGo(rows: Table, id: nat, now: Time) {
    && id in rows && rows[id].status != Sent && rows[id].nextAttemptAt <= now
    && (rows[id].lockedUntil == None || rows[id].lockedUntil.value <= now)
    && forall p :: p in rows && rows[p].message == rows[id].message && rows[p].chunk < rows[id].chunk ==>
      rows[p].status == Sent || rows[p].status == Failed
  }

  lemma MayGoIsClaimable(rows: Table, id: nat, now: Time)
    ensures Claimable(rows, id, now) <==> MayGo(rows, id, now)
  {
    if id in rows && Due(rows[id], now) {
      assert forall p :: p in rows ==>
        (HoldsBack(rows[p], rows[id]) <==>
          (rows[p].message == rows[id].message && rows[p].chunk < rows[id].chunk
           && rows[p].status != Sent && rows[p].status != Failed));
    }
  }

  /** A claim takes, of the rows that may go and no other claim has locked, the one
      overdue the longest, the first inserted of several: no row waits while one
      due after it is served. */
  lemma TheLongestOverdueGoesFirst(rows: Table, skipped: set<nat>, now: Time, id: nat)
    requires IsCandidate(rows, skipped, now, id)
    ensures MayGo(rows, id, now) && id !in skipped
    ensures forall other :: MayGo(rows, other, now) && other !in skipped ==>
      rows[id].nextAttemptAt < rows[other].nextAttemptAt
      || (rows[id].nextAttemptAt == rows[other].nextAttemptAt && id <= other)
  {
    forall other ensures Claimable(rows, other, now) <==> MayGo(rows, other, now) {
      MayGoIsClaimable(rows, other, now);
    }
  }

  /** The row taken is leased from then on, under its own token; a failed one starts
      over, and nothing else of it changes. */
  lemma WhatALeaseIs(r: Row, now: Time, lease: Time, token: nat)
    ensures Leased(r, now, lease, token) ==
      Row(r.message, r.chunk, Processing, if r.status == Failed then 0 else r.attempts, r.nextAttemptAt,
          Some(now + lease), Some(token), r.createdAt)
  {
  }

  /** Retention takes the sent and failed rows inserted before the cutoff, leaving
      every other as it is. */
  lemma WhatRetentionTakes(rows: Table, cutoff: Time, id: nat)
    ensures id in Purged(rows, cutoff) <==>
      id in rows && (rows[id].status == Pending || rows[id].status == Processing || cutoff <= rows[id].createdAt)
    ensures id in Purged(rows, cutoff) ==> Purged(rows, cutoff)[id] == rows[id]
  {
  }

  // ---------------------------------------------------------------------
  // No alert is ever stuck
  // ---------------------------------------------------------------------

  /** Every deadline of the message has passed. */
  predicate DeadlinesPassed(rows: Table, message: nat, now: Time) {
    forall id :: id in rows && rows[id].message == message ==>
      rows[id].nextAttemptAt <= now && (rows[id].lockedUntil.Some? ==> rows[id].lockedUntil.value <= now)
  }

  /** The unsent chunk of smallest index. */
  ghost predicate IsLowestUnsent(rows: Table, message: nat, id: nat) {
    && id in rows && rows[id].message == message && !rows[id].status.Sent?
    && forall other :: other in rows && rows[other].message == message && !rows[other].status.Sent? ==>
      rows[id].chunk <= rows[other].chunk
  }

  lemma {:induction false} LowestUnsentExists(rows: Table, message: nat, ids: set<nat>) returns (low: nat)
    requires ids <= rows.Keys && ids != {}
    requires forall id :: id in ids ==> rows[id].message == message && !rows[id].status.Sent?
    ensures low in ids && forall id :: id in ids ==> rows[low].chunk <= rows[id].chunk
    decreases ids
  {
    var id :| id in ids;
    low := id;
    if ids != {id} {
      var other := LowestUnsentExists(rows, message, ids - {id});
      if rows[other].chunk < rows[id].chunk {
        low := other;
      }
    }
  }

  /** While a message has anything unsent and its deadlines have passed, its
      lowest unsent chunk can be claimed, in whatever state workers left it: no
      crash, failure or lost lease ever strands an alert. */
  lemma NoAlertIsStuck(rows: Table, message: nat, unsent: nat, now: Time)
    requires unsent in rows && rows[unsent].message == message && !rows[unsent].status.Sent?
    requires DeadlinesPassed(rows, message, now)
    ensures exists id :: IsLowestUnsent(rows, message, id) && Claimable(rows, id, now)
  {
    var ids := set id | id in rows && rows[id].message == message && !rows[id].status.Sent?;
    assert unsent in ids;
    var low := LowestUnsentExists(rows, message, ids);
    assert IsLowestUnsent(rows, message, low);
    assert Claimable(rows, low, now);
  }
}
