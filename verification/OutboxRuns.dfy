/**
 Any number of workers on one tenant's outbox, over every run: claims,
 deliveries and acknowledgements interleave freely, leases expire, workers die
 or stop at any point, the server clock only moves forward.
 */
module OutboxRuns {
  import opened Prelude
  import opened Outbox
  import opened OutboxWorker

  datatype Phase =
    | Holding(job: Job)
    | Acting(job: Job, action: Action)

  /** `workers` are the busy ones. The last three components are history:
      ids of which a send succeeded, seconds waited in the current fast lane,
      and ids whose current fast lane the server throttled. */
  datatype State = State(
    rows: Table,
    clock: Time,
    nextId: nat,
    nextToken: nat,
    workers: map<nat, Phase>,
    delivered: set<nat>,
    waited: map<nat, Time>,
    throttled: set<nat>)

  datatype Event =
    | Insert(message: nat, chunk: nat)
    | ClaimJob(worker: nat, id: nat, lease: Time, skipped: set<nat>)
    | Send(worker: nat, answers: Answers)
    | Ack(worker: nat)
    | Stop(worker: nat)
    | Tick(elapsed: nat)
    | DeleteTenant
    | Purge(cutoff: Time)

  function WaitedOf(s: State, id: nat): Time {
    if id in s.waited then s.waited[id] else 0
  }

  ghost predicate Next(s: State, ev: Event, s': State) {
    match ev
    case Insert(message, chunk) =>
      s' == if KeyTaken(s.rows, message, chunk) then s
            else s.(rows := s.rows[s.nextId := NewRow(message, chunk, s.clock)], nextId := s.nextId + 1)
    case ClaimJob(w, id, lease, skipped) =>
      && w !in s.workers && IsCandidate(s.rows, skipped, s.clock, id)
      && var row := Leased(s.rows[id], s.clock, lease, s.nextToken);
         var again := s.rows[id].status.Failed?;
         s' == s.(rows := s.rows[id := row],
                  nextToken := s.nextToken + 1,
                  workers := s.workers[w := Holding(Job(id, row.attempts, s.nextToken))],
                  waited := if again then s.waited[id := 0] else s.waited,
                  throttled := if again then s.throttled - {id} else s.throttled)
    case Send(w, answers) =>
      && w in s.workers && s.workers[w].Holding?
      && var job := s.workers[w].job;
         var result := Deliver(answers);
         s' == s.(workers := s.workers[w := Acting(job, Decide(job.attempts, result))],
                  delivered := if result.Delivered? then s.delivered + {job.id} else s.delivered)
    case Ack(w) =>
      && w in s.workers && s.workers[w].Acting?
      && var job, action := s.workers[w].job, s.workers[w].action;
         var counts := LeaseHeld(s.rows, job.id, job.token) && action.AckRetry?;
         s' == s.(rows := Acted(s.rows, job, action, s.clock),
                  workers := s.workers - {w},
                  waited := if counts then s.waited[job.id := WaitedOf(s, job.id) + action.wait] else s.waited,
                  throttled := if counts && action.throttled then s.throttled + {job.id} else s.throttled)
    case Stop(w) => s' == s.(workers := s.workers - {w})
    case Tick(elapsed) => s' == s.(clock := s.clock + elapsed)
    case DeleteTenant => s' == s.(rows := map[])
    case Purge(cutoff) => s' == s.(rows := Purged(s.rows, cutoff))
  }

  ghost predicate Init(s: State) {
    s.rows == map[] && s.workers == map[] && s.delivered == {} && s.waited == map[] && s.throttled == {}
  }

  // ---------------------------------------------------------------------
  // Invariant
  // ---------------------------------------------------------------------

  /** Processing is exactly holding a lease; the attempts stay in the budget. */
  ghost predicate RowOk(s: State, id: nat, r: Row) {
    && (r.status.Processing? <==> r.leaseToken.Some?)
    && (r.status.Processing? <==> r.lockedUntil.Some?)
    && (r.leaseToken.Some? ==> r.leaseToken.value < s.nextToken)
    && (if r.status.Failed? then 1 <= r.attempts <= 10 else r.attempts <= 9)
    && (r.status.Sent? ==> id in s.delivered)
    && (id !in s.throttled ==> WaitedOf(s, id) == Pow2(if r.status.Failed? then r.attempts - 1 else r.attempts) - 1)
  }

  ghost predicate WorkerOk(s: State, ph: Phase) {
    && ph.job.token < s.nextToken && ph.job.id < s.nextId && ph.job.attempts <= 9
    && (LeaseHeld(s.rows, ph.job.id, ph.job.token) ==> s.rows[ph.job.id].attempts == ph.job.attempts)
    && (ph.Acting? && ph.action.AckSent? ==> ph.job.id in s.delivered)
    && (ph.Acting? && ph.action.AckRetry? ==> ph.job.attempts <= 8)
    && (ph.Acting? && ph.action.AckRetry? && !ph.action.throttled ==> ph.action.wait == Pow2(ph.job.attempts))
  }

  ghost predicate Inv(s: State) {
    && UniqueKeys(s.rows)
    && (forall id :: id in s.rows ==> id < s.nextId && RowOk(s, id, s.rows[id]))
    && (forall a, b :: a in s.rows && b in s.rows && a != b && s.rows[a].leaseToken.Some? ==>
      s.rows[a].leaseToken != s.rows[b].leaseToken)
    && (forall w :: w in s.workers ==> WorkerOk(s, s.workers[w]))
    && (forall id :: id in s.waited || id in s.throttled ==> id < s.nextId)
  }

  lemma InitInv(s: State)
    requires Init(s)
    ensures Inv(s)
  {
  }

  lemma ClaimKeepsInv(s: State, ev: Event, s': State)
    requires Inv(s) && ev.ClaimJob? && Next(s, ev, s')
    ensures Inv(s')
  {
    forall w | w in s'.workers ensures WorkerOk(s', s'.workers[w]) {
      ClaimKeepsWorkers(s, ev, s', w);
    }
    forall id | id in s'.rows ensures id < s'.nextId && RowOk(s', id, s'.rows[id]) {
      ClaimKeepsRows(s, ev, s', id);
    }
  }

  lemma ClaimKeepsWorkers(s: State, ev: Event, s': State, w: nat)
    requires Inv(s) && ev.ClaimJob? && Next(s, ev, s') && w in s'.workers
    ensures WorkerOk(s', s'.workers[w])
  {
    assert RowOk(s, ev.id, s.rows[ev.id]);
    if w != ev.worker {
      assert WorkerOk(s, s.workers[w]);
    }
  }

  lemma ClaimKeepsRows(s: State, ev: Event, s': State, id: nat)
    requires Inv(s) && ev.ClaimJob? && Next(s, ev, s') && id in s'.rows
    ensures id < s'.nextId && RowOk(s', id, s'.rows[id])
  {
    assert RowOk(s, id, s.rows[id]);
  }

  lemma SendKeepsInv(s: State, ev: Event, s': State)
    requires Inv(s) && ev.Send? && Next(s, ev, s')
    ensures Inv(s')
  {
    var job := s.workers[ev.worker].job;
    var result := Deliver(ev.answers);
    assert WorkerOk(s, s.workers[ev.worker]);
    if Decide(job.attempts, result).AckRetry? {
      RetriesStayInTheFastLane(job.attempts, result);
    }
    forall w | w in s'.workers ensures WorkerOk(s', s'.workers[w]) {
      if w != ev.worker {
        assert WorkerOk(s, s.workers[w]);
      }
    }
    forall id | id in s'.rows ensures id < s'.nextId && RowOk(s', id, s'.rows[id]) {
      assert RowOk(s, id, s.rows[id]);
    }
  }

  lemma AckKeepsRows(s: State, ev: Event, s': State, id: nat)
    requires Inv(s) && ev.Ack? && Next(s, ev, s') && id in s'.rows
    ensures id in s.rows && RowOk(s', id, s'.rows[id])
  {
    var job, action := s.workers[ev.worker].job, s.workers[ev.worker].action;
    ActedRewritesItsRow(s.rows, job, action, s.clock);
    assert RowOk(s, id, s.rows[id]);
    if id == job.id && LeaseHeld(s.rows, id, job.token) {
      AckedRow(s, ev, s');
    } else {
      assert s'.rows[id] == s.rows[id] && WaitedOf(s', id) == WaitedOf(s, id);
    }
  }

  lemma AckedRow(s: State, ev: Event, s': State)
    requires ev.Ack? && Next(s, ev, s') && WorkerOk(s, s.workers[ev.worker])
    requires var job := s.workers[ev.worker].job;
      LeaseHeld(s.rows, job.id, job.token) && RowOk(s, job.id, s.rows[job.id])
    ensures var id := s.workers[ev.worker].job.id; RowOk(s', id, s'.rows[id])
  {
    var job, action := s.workers[ev.worker].job, s.workers[ev.worker].action;
    var r := s.rows[job.id];
    if action.AckRetry? {
      assert s'.rows[job.id] == RetriedRow(r, s.clock, action.wait);
    } else if action.AckFailed? {
      assert s'.rows[job.id] == FailedRow(r, s.clock);
    }
  }

  lemma AckKeepsWorkers(s: State, ev: Event, s': State, w: nat)
    requires Inv(s) && ev.Ack? && Next(s, ev, s') && w in s'.workers
    ensures WorkerOk(s', s'.workers[w])
  {
    assert WorkerOk(s, s.workers[w]);
  }

  /** An acknowledgement rewrites at most the row of its own job, keeping its key. */
  lemma AckRewritesOneRow(s: State, ev: Event, s': State)
    requires ev.Ack? && Next(s, ev, s')
    ensures s'.rows.Keys == s.rows.Keys
    ensures forall id :: id in s.rows && id != s.workers[ev.worker].job.id ==> s'.rows[id] == s.rows[id]
    ensures forall id :: id in s.rows ==>
      s'.rows[id].message == s.rows[id].message && s'.rows[id].chunk == s.rows[id].chunk
    ensures forall id :: id in s.rows ==> s'.rows[id].createdAt == s.rows[id].createdAt
    ensures forall id :: id in s.rows ==> s'.rows[id].leaseToken.None? || s'.rows[id] == s.rows[id]
  {
    var job, action := s.workers[ev.worker].job, s.workers[ev.worker].action;
    assert s'.rows == Acted(s.rows, job, action, s.clock);
    ActedRewritesItsRow(s.rows, job, action, s.clock);
  }

  lemma AckKeepsInv(s: State, ev: Event, s': State)
    requires Inv(s) && ev.Ack? && Next(s, ev, s')
    ensures Inv(s')
  {
    AckRewritesOneRow(s, ev, s');
    assert WorkerOk(s, s.workers[ev.worker]);
    forall id | id in s'.rows ensures id < s'.nextId && RowOk(s', id, s'.rows[id]) {
      AckKeepsRows(s, ev, s', id);
    }
    forall w | w in s'.workers ensures WorkerOk(s', s'.workers[w]) {
      AckKeepsWorkers(s, ev, s', w);
    }
  }

  lemma InsertKeepsInv(s: State, ev: Event, s': State)
    requires Inv(s) && ev.Insert? && Next(s, ev, s')
    ensures Inv(s')
  {
    forall id | id in s'.rows ensures id < s'.nextId && RowOk(s', id, s'.rows[id]) {
      if id in s.rows {
        assert RowOk(s, id, s.rows[id]);
      }
    }
    forall w | w in s'.workers ensures WorkerOk(s', s'.workers[w]) {
      assert WorkerOk(s, s.workers[w]);
    }
  }

  lemma OtherKeepsInv(s: State, ev: Event, s': State)
    requires Inv(s) && Next(s, ev, s')
    requires ev.Stop? || ev.Tick? || ev.DeleteTenant? || ev.Purge?
    ensures Inv(s')
  {
    forall id | id in s'.rows ensures id < s'.nextId && RowOk(s', id, s'.rows[id]) {
      assert RowOk(s, id, s.rows[id]);
    }
    forall w | w in s'.workers ensures WorkerOk(s', s'.workers[w]) {
      assert WorkerOk(s, s.workers[w]);
    }
  }

  lemma NextKeepsInv(s: State, ev: Event, s': State)
    requires Inv(s) && Next(s, ev, s')
    ensures Inv(s')
  {
    match ev
    case ClaimJob(_, _, _, _) => ClaimKeepsInv(s, ev, s');
    case Send(_, _) => SendKeepsInv(s, ev, s');
    case Ack(_) => AckKeepsInv(s, ev, s');
    case Insert(_, _) => InsertKeepsInv(s, ev, s');
    case _ => OtherKeepsInv(s, ev, s');
  }

  ghost predicate IsRun(ss: seq<State>, evs: seq<Event>) {
    && |ss| == |evs| + 1 && Init(ss[0])
    && forall i :: 0 <= i < |evs| ==> Next(ss[i], evs[i], ss[i + 1])
  }

  lemma {:induction false} RunInv(ss: seq<State>, evs: seq<Event>, k: nat)
    requires IsRun(ss, evs) && k < |ss|
    ensures Inv(ss[k])
  {
    if k == 0 {
      InitInv(ss[0]);
    } else {
      RunInv(ss, evs, k - 1);
      NextKeepsInv(ss[k - 1], evs[k - 1], ss[k]);
    }
  }

  // ---------------------------------------------------------------------
  // What the events do
  // ---------------------------------------------------------------------

  /** An insertion leaves a row of its key, at once due, and changes no other; an
      erasure leaves none; time passes by as much as it does; nothing else changes
      what is there but a claim, an acknowledgement or retention. */
  lemma WhatEventsDo(s: State, ev: Event, s': State)
    requires Inv(s) && Next(s, ev, s')
    ensures ev.Insert? ==>
      exists id :: id in s'.rows && s'.rows[id].message == ev.message && s'.rows[id].chunk == ev.chunk
    ensures ev.Insert? ==> forall id :: id in s.rows ==> id in s'.rows && s'.rows[id] == s.rows[id]
    ensures ev.Insert? ==> forall id :: id in s'.rows && id !in s.rows ==>
      s'.rows[id] == Row(ev.message, ev.chunk, Pending, 0, s.clock, None, None, s.clock)
    ensures ev.DeleteTenant? ==> s'.rows == map[]
    ensures s'.clock == s.clock + if ev.Tick? then ev.elapsed else 0
    ensures ev.Purge? ==> forall id :: id in s'.rows <==>
      && id in s.rows
      && (s.rows[id].status == Pending || s.rows[id].status == Processing || ev.cutoff <= s.rows[id].createdAt)
    ensures ev.Send? || ev.Stop? || ev.Tick? ==> s'.rows == s.rows
  {
    if ev.Insert? && !KeyTaken(s.rows, ev.message, ev.chunk) {
      assert s'.rows[s.nextId].message == ev.message && s'.rows[s.nextId].chunk == ev.chunk;
    }
  }

  /** A worker is busy from its claim to its acknowledgement or its end, holding the
      job it claimed, and delivers exactly that one: a job is noted as delivered
      when a send of it succeeds, and only then. */
  lemma WhatWorkersDo(s: State, ev: Event, s': State, w: nat)
    requires Next(s, ev, s')
    ensures ev.ClaimJob? && ev.worker == w ==>
      && w !in s.workers && w in s'.workers
      && s'.workers[w] == Holding(Job(ev.id, s'.rows[ev.id].attempts, s.nextToken)) && s'.nextToken == s.nextToken + 1
    ensures ev.Send? && ev.worker == w ==>
      && w in s.workers && w in s'.workers && s'.workers[w].Acting? && s'.workers[w].job == s.workers[w].job
      && s'.workers[w].action == Decide(s.workers[w].job.attempts, Deliver(ev.answers))
      && s'.delivered == s.delivered + if Deliver(ev.answers).Delivered? then {s.workers[w].job.id} else {}
    ensures (ev.Ack? || ev.Stop?) && ev.worker == w ==> w !in s'.workers
    ensures !ev.Send? ==> s'.delivered == s.delivered
    ensures (ev.Insert? || ev.Tick? || ev.DeleteTenant? || ev.Purge?) || ev.worker != w ==>
      (w in s'.workers <==> w in s.workers) && (w in s.workers ==> s'.workers[w] == s.workers[w])
  {
  }

  // ---------------------------------------------------------------------
  // Theorems
  // ---------------------------------------------------------------------

  /** In every reachable state: a row is sent only if some send of it succeeded;
      it is processing exactly when it holds a lease; its attempts are within the
      budget; and a fast lane the server did not throttle has waited at most 511
      seconds in all. */
  lemma EveryReachableRow(ss: seq<State>, evs: seq<Event>, k: nat, id: nat)
    requires IsRun(ss, evs) && k < |ss| && id in ss[k].rows
    ensures var r := ss[k].rows[id];
      && (r.status.Sent? ==> id in ss[k].delivered)
      && (r.status.Processing? <==> r.leaseToken.Some?)
      && r.attempts <= MAX_ATTEMPTS
      && (id !in ss[k].throttled ==> WaitedOf(ss[k], id) <= 511)
  {
    RunInv(ss, evs, k);
    var r := ss[k].rows[id];
    assert RowOk(ss[k], id, r);
    Pow2IsMonotone(if r.status.Failed? then r.attempts - 1 else r.attempts, 9);
    assert Pow2(9) == 512;
  }

  /** An unsent row leaves the table only by the erasure of its tenant, or by
      retention once it is failed. */
  lemma UnsentLeavesOnlyByErasureOrRetention(s: State, ev: Event, s': State, id: nat)
    requires Next(s, ev, s') && id in s.rows && id !in s'.rows && !s.rows[id].status.Sent?
    ensures ev.DeleteTenant? || (ev.Purge? && s.rows[id].status.Failed? && s.rows[id].createdAt < ev.cutoff)
  {
  }

  /** The attempts of a row go back only when a failed row is claimed, and then
      to zero. */
  lemma AttemptsRestartOnlyFromFailed(s: State, ev: Event, s': State, id: nat)
    requires Next(s, ev, s') && id < s.nextId && id in s.rows && id in s'.rows
    requires s'.rows[id].attempts < s.rows[id].attempts
    ensures ev.ClaimJob? && ev.id == id && s.rows[id].status.Failed? && s'.rows[id].attempts == 0
  {
  }

  /** An id is given out once: a row there now, of an id given out before, was
      there all along. No event changes the key of a row or
      the instant of its insertion. */
  lemma OldRowsWereThere(s: State, ev: Event, s': State, id: nat)
    requires Next(s, ev, s') && id < s.nextId && id in s'.rows
    ensures id in s.rows && s'.nextId >= s.nextId
    ensures s'.rows[id].message == s.rows[id].message && s'.rows[id].chunk == s.rows[id].chunk
    ensures s'.rows[id].createdAt == s.rows[id].createdAt
  {
    if ev.Ack? {
      AckRewritesOneRow(s, ev, s');
    }
  }

  lemma {:induction false} IdsAreSerial(ss: seq<State>, evs: seq<Event>, j: nat, k: nat)
    requires IsRun(ss, evs) && j <= k < |ss|
    ensures ss[j].nextId <= ss[k].nextId && ss[j].clock <= ss[k].clock
    decreases k - j
  {
    if j < k {
      var before := k - 1;
      IdsAreSerial(ss, evs, j, before);
      assert Next(ss[before], evs[before], ss[before + 1]);
    }
  }

  // ---------------------------------------------------------------------
  // What an acknowledgement leaves behind, over runs
  // ---------------------------------------------------------------------

  /** A row no worker holds and no claim may take yet. */
  ghost predicate AtRest(r: Row, now: Time) {
    !r.status.Processing? && (r.status.Sent? || now < r.nextAttemptAt)
  }

  /** What changes a row nobody holds is a claim, which finds it due. */
  lemma OnlyAClaimTakesIt(s: State, ev: Event, s': State, id: nat)
    requires Next(s, ev, s') && id < s.nextId && id in s.rows && id in s'.rows && !s.rows[id].status.Processing?
    requires s'.rows[id] != s.rows[id]
    ensures ev.ClaimJob? && ev.id == id && !AtRest(s.rows[id], s.clock)
    ensures s'.rows[id].status.Processing?
    ensures s'.rows[id].attempts == if s.rows[id].status.Failed? then 0 else s.rows[id].attempts
  {
    if ev.Ack? {
      AckRewritesOneRow(s, ev, s');
      ActedRewritesItsRow(s.rows, s.workers[ev.worker].job, s.workers[ev.worker].action, s.clock);
    }
  }

  /** Until its deadline nothing touches a row at rest but its deletion, whatever
      the workers do. */
  lemma {:induction false} RestLastsUntilTheDeadline(ss: seq<State>, evs: seq<Event>, j: nat, k: nat, id: nat)
    requires IsRun(ss, evs) && j <= k < |ss| && id in ss[j].rows && id in ss[k].rows
    requires AtRest(ss[j].rows[id], ss[k].clock)
    ensures ss[k].rows[id] == ss[j].rows[id]
    decreases k
  {
    if j < k {
      var before := k - 1;
      RunInv(ss, evs, j);
      IdsAreSerial(ss, evs, j, before);
      assert Next(ss[before], evs[before], ss[before + 1]);
      OldRowsWereThere(ss[before], evs[before], ss[k], id);
      RestLastsUntilTheDeadline(ss, evs, j, before, id);
      if ss[k].rows[id] != ss[before].rows[id] {
        OnlyAClaimTakesIt(ss[before], evs[before], ss[k], id);
        assert false;
      }
    }
  }

  /** The worker's acknowledgement of this row comes within its lease. */
  ghost predicate Acknowledges(s: State, ev: Event, id: nat) {
    && ev.Ack? && ev.worker in s.workers && s.workers[ev.worker].Acting?
    && s.workers[ev.worker].job.id == id && LeaseHeld(s.rows, id, s.workers[ev.worker].job.token)
  }

  /** A delivered alert is final: in every later state its row is as it was, or gone. */
  lemma SentIsFinal(ss: seq<State>, evs: seq<Event>, j: nat, k: nat, id: nat)
    requires IsRun(ss, evs) && j < k < |ss|
    requires Acknowledges(ss[j], evs[j], id) && ss[j].workers[evs[j].worker].action.AckSent?
    ensures id in ss[j + 1].rows && ss[j + 1].rows[id].status.Sent? && ss[j + 1].rows[id].leaseToken.None?
    ensures id in ss[k].rows ==> ss[k].rows[id] == ss[j + 1].rows[id]
  {
    assert Next(ss[j], evs[j], ss[j + 1]);
    if id in ss[k].rows {
      RestLastsUntilTheDeadline(ss, evs, j + 1, k, id);
    }
  }

  /** What the row of an acknowledged job is until `deadline`, and what first
      changes it. */
  ghost predicate WaitsFor(ss: seq<State>, evs: seq<Event>, k: nat, id: nat, waiting: Row, deadline: Time, restart: nat)
    requires k < |ss| == |evs| + 1
  {
    && (id in ss[k].rows && ss[k].clock < deadline ==> ss[k].rows[id] == waiting)
    && (k < |evs| && id in ss[k].rows && ss[k].rows[id] == waiting && id in ss[k + 1].rows
        && ss[k + 1].rows[id] != waiting ==>
          && evs[k].ClaimJob? && evs[k].id == id && deadline <= ss[k].clock
          && ss[k + 1].rows[id].attempts == restart)
  }

  lemma WaitingRow(ss: seq<State>, evs: seq<Event>, j: nat, k: nat, id: nat)
    requires IsRun(ss, evs) && j <= k < |ss| && id in ss[j].rows
    requires ss[j].rows[id].status.Pending? || ss[j].rows[id].status.Failed?
    ensures var r := ss[j].rows[id];
      WaitsFor(ss, evs, k, id, r, r.nextAttemptAt, if r.status.Failed? then 0 else r.attempts)
  {
    var r := ss[j].rows[id];
    if id in ss[k].rows && ss[k].clock < r.nextAttemptAt {
      RestLastsUntilTheDeadline(ss, evs, j, k, id);
    }
    if k < |evs| && id in ss[k].rows && ss[k].rows[id] == r && id in ss[k + 1].rows && ss[k + 1].rows[id] != r {
      RunInv(ss, evs, k);
      assert Next(ss[k], evs[k], ss[k + 1]);
      OnlyAClaimTakesIt(ss[k], evs[k], ss[k + 1], id);
    }
  }

  /** A retried alert waits out its delay, one attempt spent, holding back the
      later chunks of its message; what takes it next is a claim after that. */
  lemma RetryWaits(ss: seq<State>, evs: seq<Event>, j: nat, k: nat, id: nat)
    requires IsRun(ss, evs) && j < k < |ss|
    requires Acknowledges(ss[j], evs[j], id) && ss[j].workers[evs[j].worker].action.AckRetry?
    ensures id in ss[j + 1].rows
    ensures var r, waiting := ss[j].rows[id], ss[j + 1].rows[id];
      var wait := ss[j].workers[evs[j].worker].action.wait;
      && waiting.status.Pending? && waiting.leaseToken.None? && waiting.attempts == r.attempts + 1
      && WaitsFor(ss, evs, k, id, waiting, ss[j].clock + wait, r.attempts + 1)
  {
    assert Next(ss[j], evs[j], ss[j + 1]);
    WaitingRow(ss, evs, j + 1, k, id);
  }

  /** A failed alert leaves the fast lane at once, so it holds back no later
      chunk; it rests for six hours, and the claim that then takes it starts it
      over with its attempts at zero. */
  lemma FailedResweeps(ss: seq<State>, evs: seq<Event>, j: nat, k: nat, id: nat)
    requires IsRun(ss, evs) && j < k < |ss|
    requires Acknowledges(ss[j], evs[j], id) && ss[j].workers[evs[j].worker].action.AckFailed?
    ensures id in ss[j + 1].rows
    ensures var waiting := ss[j + 1].rows[id];
      && waiting.status.Failed? && waiting.leaseToken.None? && waiting.attempts == ss[j].rows[id].attempts + 1
      && (forall other :: !HoldsBack(waiting, other))
      && WaitsFor(ss, evs, k, id, waiting, ss[j].clock + 21600, 0)
  {
    assert Next(ss[j], evs[j], ss[j + 1]);
    WaitingRow(ss, evs, j + 1, k, id);
  }

  // ---------------------------------------------------------------------
  // The order of the chunks
  // ---------------------------------------------------------------------

  predicate EarlierChunk(prior: Row, r: Row) {
    prior.message == r.message && prior.chunk < r.chunk
  }

  predicate Settled(r: Row) {
    r.status.Sent? || r.status.Failed?
  }

  /** At step j the chunk is claimed, every earlier chunk of its message being
      sent or failed. */
  ghost predicate WentAt(ss: seq<State>, evs: seq<Event>, j: nat, id: nat)
    requires j < |evs| < |ss|
  {
    && evs[j].ClaimJob? && evs[j].id == id && id in ss[j].rows
    && forall p :: p in ss[j].rows && EarlierChunk(ss[j].rows[p], ss[j].rows[id]) ==> Settled(ss[j].rows[p])
  }

  /** Between the two states the row, failed, was claimed again. */
  ghost predicate Reswept(ss: seq<State>, evs: seq<Event>, j: nat, k: nat, id: nat)
    requires k <= |evs| < |ss|
  {
    exists m :: j <= m < k && evs[m].ClaimJob? && evs[m].id == id && id in ss[m].rows && ss[m].rows[id].status.Failed?
  }

  lemma {:induction false} RowsWereThere(ss: seq<State>, evs: seq<Event>, j: nat, k: nat, id: nat)
    requires IsRun(ss, evs) && j <= k < |ss| && id < ss[j].nextId && id in ss[k].rows
    ensures id in ss[j].rows
    ensures ss[k].rows[id].message == ss[j].rows[id].message && ss[k].rows[id].chunk == ss[j].rows[id].chunk
    ensures ss[k].rows[id].createdAt == ss[j].rows[id].createdAt
    decreases k
  {
    if j < k {
      var before := k - 1;
      IdsAreSerial(ss, evs, j, before);
      assert Next(ss[before], evs[before], ss[before + 1]);
      OldRowsWereThere(ss[before], evs[before], ss[k], id);
      RowsWereThere(ss, evs, j, before, id);
    }
  }

  lemma {:induction false} ClaimedBefore(ss: seq<State>, evs: seq<Event>, k: nat, id: nat) returns (j: nat)
    requires IsRun(ss, evs) && k < |ss| && id in ss[k].rows
    requires ss[k].rows[id].status.Processing? || ss[k].rows[id].status.Sent?
    ensures j < k && WentAt(ss, evs, j, id)
    decreases k
  {
    var before := k - 1;
    assert Next(ss[before], evs[before], ss[before + 1]);
    if id in ss[before].rows && (ss[before].rows[id].status.Processing? || ss[before].rows[id].status.Sent?) {
      j := ClaimedBefore(ss, evs, before, id);
    } else {
      RunInv(ss, evs, before);
      assert id in ss[before].rows;
      OnlyAClaimTakesIt(ss[before], evs[before], ss[k], id);
      j := before;
    }
  }

  /** A settled row is taken up again only by the resweep of its failure. */
  lemma {:induction false} SettledUnlessReswept(ss: seq<State>, evs: seq<Event>, j: nat, k: nat, id: nat)
    requires IsRun(ss, evs) && j <= k < |ss| && id in ss[j].rows && id in ss[k].rows && Settled(ss[j].rows[id])
    ensures Settled(ss[k].rows[id]) || Reswept(ss, evs, j, k, id)
    decreases k
  {
    if j < k {
      var before := k - 1;
      RunInv(ss, evs, j);
      IdsAreSerial(ss, evs, j, before);
      assert Next(ss[before], evs[before], ss[before + 1]);
      OldRowsWereThere(ss[before], evs[before], ss[k], id);
      SettledUnlessReswept(ss, evs, j, before, id);
      if Settled(ss[before].rows[id]) && ss[k].rows[id] != ss[before].rows[id] {
        OnlyAClaimTakesIt(ss[before], evs[before], ss[k], id);
      }
    }
  }

  /** The chunks of an alert go out in order. In every reachable state a chunk
      that is on its way or sent was claimed when every earlier chunk of its
      message was sent or failed; and an earlier chunk that is in the fast lane
      now was inserted since, or had failed and was swept up again since. */
  lemma ChunksGoInOrder(ss: seq<State>, evs: seq<Event>, k: nat, id: nat)
    requires IsRun(ss, evs) && k < |ss| && id in ss[k].rows
    requires ss[k].rows[id].status.Processing? || ss[k].rows[id].status.Sent?
    ensures exists j: nat :: (
      && j < k && WentAt(ss, evs, j, id)
      && forall p :: p in ss[k].rows && EarlierChunk(ss[k].rows[p], ss[k].rows[id]) ==>
        Settled(ss[k].rows[p]) || p >= ss[j].nextId || Reswept(ss, evs, j, k, p))
  {
    var j := ClaimedBefore(ss, evs, k, id);
    RunInv(ss, evs, j);
    RowsWereThere(ss, evs, j, k, id);
    forall p | p in ss[k].rows && EarlierChunk(ss[k].rows[p], ss[k].rows[id]) && p < ss[j].nextId
      ensures Settled(ss[k].rows[p]) || Reswept(ss, evs, j, k, p)
    {
      RowsWereThere(ss, evs, j, k, p);
      assert EarlierChunk(ss[j].rows[p], ss[j].rows[id]);
      SettledUnlessReswept(ss, evs, j, k, p);
    }
  }

  // ---------------------------------------------------------------------
  // Leases
  // ---------------------------------------------------------------------

  lemma OnlyItsWorkerEndsALease(s: State, ev: Event, s': State, id: nat)
    requires Next(s, ev, s') && id in s.rows && id in s'.rows && s.rows[id].lockedUntil.Some?
    requires s.clock < s.rows[id].lockedUntil.value && !Acknowledges(s, ev, id) && id < s.nextId
    ensures s'.rows[id] == s.rows[id]
  {
    if ev.Ack? {
      AckRewritesOneRow(s, ev, s');
      ActedRewritesItsRow(s.rows, s.workers[ev.worker].job, s.workers[ev.worker].action, s.clock);
    }
  }

  lemma {:induction false} LeaseLasts(ss: seq<State>, evs: seq<Event>, j: nat, k: nat, id: nat)
    requires IsRun(ss, evs) && j < k < |ss| && evs[j].ClaimJob? && evs[j].id == id && id in ss[k].rows
    requires ss[k].clock < ss[j].clock + evs[j].lease
    requires forall m :: j < m < k ==> !Acknowledges(ss[m], evs[m], id)
    ensures id in ss[j].rows && ss[k].rows[id] == Leased(ss[j].rows[id], ss[j].clock, evs[j].lease, ss[j].nextToken)
    decreases k
  {
    assert Next(ss[j], evs[j], ss[j + 1]);
    if j + 1 < k {
      var before := k - 1;
      RunInv(ss, evs, j);
      IdsAreSerial(ss, evs, j, before);
      assert Next(ss[before], evs[before], ss[before + 1]);
      OldRowsWereThere(ss[before], evs[before], ss[k], id);
      LeaseLasts(ss, evs, j, before, id);
      OnlyItsWorkerEndsALease(ss[before], evs[before], ss[k], id);
    }
  }

  /** A lease excludes every other worker: until it ends, or its own worker
      acknowledges, the row stays as the claim left it and no claim takes it. */
  lemma LeaseIsExclusive(ss: seq<State>, evs: seq<Event>, j: nat, k: nat, id: nat)
    requires IsRun(ss, evs) && j < k < |evs| && evs[j].ClaimJob? && evs[j].id == id
    requires ss[k].clock < ss[j].clock + evs[j].lease
    requires forall m :: j < m < k ==> !Acknowledges(ss[m], evs[m], id)
    ensures !(evs[k].ClaimJob? && evs[k].id == id)
    ensures id in ss[k].rows ==>
      && ss[k].rows[id].status == Processing && ss[k].rows[id].leaseToken == Some(ss[j].nextToken)
      && ss[k].rows[id].lockedUntil == Some(ss[j].clock + evs[j].lease)
  {
    assert Next(ss[k], evs[k], ss[k + 1]);
    if id in ss[k].rows {
      LeaseLasts(ss, evs, j, k, id);
    }
  }

  /** No row holds this token. */
  ghost predicate Superseded(s: State, token: nat) {
    token < s.nextToken && forall id :: id in s.rows ==> s.rows[id].leaseToken != Some(token)
  }

  lemma SupersededForever(s: State, ev: Event, s': State, token: nat)
    requires Next(s, ev, s') && Superseded(s, token)
    ensures Superseded(s', token)
  {
  }

  lemma {:induction false} SupersededOverRuns(ss: seq<State>, evs: seq<Event>, token: nat, j: nat, k: nat)
    requires IsRun(ss, evs) && j <= k < |ss| && Superseded(ss[j], token)
    ensures Superseded(ss[k], token)
    decreases k - j
  {
    if j < k {
      SupersededForever(ss[j], evs[j], ss[j + 1], token);
      SupersededOverRuns(ss, evs, token, j + 1, k);
    }
  }

  /** An acknowledgement that changes anything ends its own lease. */
  lemma EffectiveAckEndsItsLease(s: State, ev: Event, s': State)
    requires Inv(s) && ev.Ack? && Next(s, ev, s') && s'.rows != s.rows
    ensures Superseded(s', s.workers[ev.worker].job.token)
  {
    var job := s.workers[ev.worker].job;
    assert WorkerOk(s, s.workers[ev.worker]);
    assert LeaseHeld(s.rows, job.id, job.token);
    forall id | id in s'.rows ensures s'.rows[id].leaseToken != Some(job.token) {
      assert id != job.id ==> s'.rows[id] == s.rows[id];
    }
  }

  /** Fencing, over every run: once a lease was acknowledged or taken over, no
      later acknowledgement under it changes anything -- so each claim is
      acknowledged at most once, whichever workers come back late. */
  lemma StaleAcknowledgementChangesNothing(ss: seq<State>, evs: seq<Event>, j: nat, k: nat)
    requires IsRun(ss, evs) && j < k < |evs|
    requires evs[k].Ack? && evs[k].worker in ss[k].workers
    requires Superseded(ss[j], ss[k].workers[evs[k].worker].job.token)
    ensures ss[k + 1].rows == ss[k].rows
  {
    SupersededOverRuns(ss, evs, ss[k].workers[evs[k].worker].job.token, j, k);
    assert Next(ss[k], evs[k], ss[k + 1]);
  }

  lemma EachLeaseIsAcknowledgedOnce(ss: seq<State>, evs: seq<Event>, j: nat, k: nat)
    requires IsRun(ss, evs) && j < k < |evs| && evs[j].Ack? && evs[k].Ack?
    requires evs[j].worker in ss[j].workers && evs[k].worker in ss[k].workers
    requires ss[j].workers[evs[j].worker].job.token == ss[k].workers[evs[k].worker].job.token
    ensures ss[j + 1].rows == ss[j].rows || ss[k + 1].rows == ss[k].rows
  {
    if ss[j + 1].rows != ss[j].rows {
      RunInv(ss, evs, j);
      EffectiveAckEndsItsLease(ss[j], evs[j], ss[j + 1]);
      SupersededOverRuns(ss, evs, ss[k].workers[evs[k].worker].job.token, j + 1, k);
      assert Next(ss[k], evs[k], ss[k + 1]);
    }
  }

  /** In every reachable state with the deadlines of an unsent alert passed, an
      idle worker can claim its lowest unsent chunk. */
  lemma NoReachableAlertIsStuck(ss: seq<State>, evs: seq<Event>, k: nat, id: nat, w: nat, lease: Time)
    requires IsRun(ss, evs) && k < |ss| && id in ss[k].rows && !ss[k].rows[id].status.Sent?
    requires DeadlinesPassed(ss[k].rows, ss[k].rows[id].message, ss[k].clock)
    requires w !in ss[k].workers
    ensures exists low, skipped, s' ::
      IsLowestUnsent(ss[k].rows, ss[k].rows[id].message, low) && Next(ss[k], ClaimJob(w, low, lease, skipped), s')
  {
    var s := ss[k];
    NoAlertIsStuck(s.rows, s.rows[id].message, id, s.clock);
    var low :| IsLowestUnsent(s.rows, s.rows[id].message, low) && Claimable(s.rows, low, s.clock);
    var skipped := s.rows.Keys - {low};
    var row := Leased(s.rows[low], s.clock, lease, s.nextToken);
    var again := s.rows[low].status.Failed?;
    var s' := s.(rows := s.rows[low := row],
                 nextToken := s.nextToken + 1,
                 workers := s.workers[w := Holding(Job(low, row.attempts, s.nextToken))],
                 waited := if again then s.waited[low := 0] else s.waited,
                 throttled := if again then s.throttled - {low} else s.throttled);
    assert Next(s, ClaimJob(w, low, lease, skipped), s');
  }
}
