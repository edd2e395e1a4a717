/**
 The challenge behind an erasure: the request rows of one tenant.

 A code is only ever known by its hash. The functions are the SQL statements;
 the class `Repository` applies them to the stored rows; the runs at the end
 say what any sequence of them can and cannot grant.
 */
module ErasureRequests {
  import opened Prelude

  type Hash = nat

  datatype Status = Pending | Consumed | Completed

  datatype Request = Request(
    hash: Hash,
    status: Status,
    telegramUserId: Option<int>,
    connectionId: Option<nat>,
    expiresAt: Time,
    consumedAt: Option<Time>,
    completedAt: Option<Time>)

  datatype ClaimState = ClaimUnknown | ClaimExpired | ClaimGranted | ClaimResumable | ClaimCompleted

  /** Ten minutes, in seconds. */
  const CHALLENGE_TTL: Time := 600

  // ---------------------------------------------------------------------
  // Statements
  // ---------------------------------------------------------------------

  function IndexOf(rows: seq<Request>, p: Request -> bool, from: nat): (i: nat)
    requires from <= |rows|
    ensures from <= i <= |rows|
    ensures i < |rows| ==> p(rows[i])
    ensures forall j :: from <= j < i ==> !p(rows[j])
    decreases |rows| - from
  {
    if from == |rows| || p(rows[from]) then from else IndexOf(rows, p, from + 1)
  }

  function PendingAt(rows: seq<Request>): (i: nat)
    ensures i <= |rows|
    ensures i < |rows| ==> rows[i].status == Pending
    ensures forall j :: 0 <= j < i ==> rows[j].status != Pending
  {
    IndexOf(rows, (r: Request) => r.status == Pending, 0)
  }

  function HashAt(rows: seq<Request>, hash: Hash): (i: nat)
    ensures i <= |rows|
    ensures i < |rows| ==> rows[i].hash == hash
    ensures forall j :: 0 <= j < i ==> rows[j].hash != hash
  {
    IndexOf(rows, (r: Request) => r.hash == hash, 0)
  }

  function NewRequest(hash: Hash, tg: int, conn: nat, now: Time): Request {
    Request(hash, Pending, Some(tg), Some(conn), now + CHALLENGE_TTL, None, None)
  }

  /** INSERT ... ON CONFLICT on the one-pending index. None is the violation of
      the other unique key: a hash some row already spent. */
  function Issue(rows: seq<Request>, hash: Hash, tg: int, conn: nat, now: Time): Option<seq<Request>> {
    var p := PendingAt(rows);
    var h := HashAt(rows, hash);
    if h < |rows| && h != p then None
    else if p < |rows| then Some(rows[p := NewRequest(hash, tg, conn, now)])
    else Some(rows + [NewRequest(hash, tg, conn, now)])
  }

  function Claim(rows: seq<Request>, hash: Hash, now: Time): (seq<Request>, ClaimState) {
    var h := HashAt(rows, hash);
    if h == |rows| then (rows, ClaimUnknown)
    else
      var row := rows[h];
      match row.status
      case Pending =>
        if row.expiresAt > now then
          (rows[h := row.(status := Consumed,
                          consumedAt := if row.consumedAt.Some? then row.consumedAt else Some(now))],
           ClaimGranted)
        else (rows, ClaimExpired)
      case Consumed => (rows, ClaimResumable)
      case Completed => (rows, ClaimCompleted)
  }

  function Complete(rows: seq<Request>, hash: Hash, now: Time): seq<Request> {
    var h := HashAt(rows, hash);
    if h < |rows| && rows[h].status == Consumed then
      rows[h := rows[h].(
        status := Completed,
        completedAt := if rows[h].completedAt.Some? then rows[h].completedAt else Some(now),
        telegramUserId := None,
        connectionId := None)]
    else rows
  }

  function DeleteOthers(rows: seq<Request>, hash: Hash): (r: seq<Request>)
    ensures forall row :: row in r <==> row in rows && row.hash == hash
    ensures |r| <= |rows|
  {
    if rows == [] then []
    else if rows[0].hash == hash then [rows[0]] + DeleteOthers(rows[1..], hash)
    else DeleteOthers(rows[1..], hash)
  }

  /** The two unique indexes. */
  ghost predicate Unique(rows: seq<Request>) {
    && (forall i, j :: 0 <= i < j < |rows| ==> rows[i].hash != rows[j].hash)
    && (forall i, j :: 0 <= i < j < |rows| ==> !(rows[i].status == Pending && rows[j].status == Pending))
  }

  lemma IssueKeepsUnique(rows: seq<Request>, hash: Hash, tg: int, conn: nat, now: Time)
    requires Unique(rows)
    ensures var r := Issue(rows, hash, tg, conn, now); r.Some? ==> Unique(r.value)
  {
  }

  lemma ClaimKeepsUnique(rows: seq<Request>, hash: Hash, now: Time)
    requires Unique(rows)
    ensures Unique(Claim(rows, hash, now).0)
    ensures Unique(Complete(rows, hash, now))
  {
  }

  lemma {:induction false} DeleteOthersOfNone(rows: seq<Request>, hash: Hash)
    requires forall i :: 0 <= i < |rows| ==> rows[i].hash != hash
    ensures DeleteOthers(rows, hash) == []
  {
    if rows != [] {
      DeleteOthersOfNone(rows[1..], hash);
    }
  }

  lemma {:induction false} DeleteOthersKeepsUnique(rows: seq<Request>, hash: Hash)
    requires Unique(rows)
    ensures Unique(DeleteOthers(rows, hash))
    ensures |DeleteOthers(rows, hash)| <= 1
  {
    if rows != [] {
      var rest := rows[1..];
      DeleteOthersKeepsUnique(rest, hash);
      if rows[0].hash == hash {
        DeleteOthersOfNone(rest, hash);
      }
    }
  }

  /** With distinct hashes, what remains is exactly the row kept. */
  lemma DeleteOthersLeavesOne(rows: seq<Request>, hash: Hash)
    requires Unique(rows) && HashAt(rows, hash) < |rows|
    ensures DeleteOthers(rows, hash) == [rows[HashAt(rows, hash)]]
  {
    var row := rows[HashAt(rows, hash)];
    DeleteOthersKeepsUnique(rows, hash);
    assert row in rows;
    assert row in DeleteOthers(rows, hash);
  }

  // ---------------------------------------------------------------------
  // What each statement leaves of the rows
  // ---------------------------------------------------------------------

  /** A fresh code takes the place of the pending one: afterwards the rows are the
      ones that were not pending and the new one, good for ten minutes. Only a
      hash already spent is refused. */
  lemma AFreshCodeReplacesThePending(rows: seq<Request>, hash: Hash, tg: int, conn: nat, now: Time)
    requires Unique(rows)
    ensures var issued := Issue(rows, hash, tg, conn, now);
      && (issued.None? <==> exists x :: x in rows && x.hash == hash && x.status != Pending)
      && (issued.Some? ==> forall x :: x in issued.value <==>
        x == Request(hash, Pending, Some(tg), Some(conn), now + 600, None, None) || (x in rows && x.status != Pending))
  {
    var p, h := PendingAt(rows), HashAt(rows, hash);
    if h < |rows| {
      assert rows[h] in rows;
    }
    var issued := Issue(rows, hash, tg, conn, now);
    if issued.Some? {
      var newRow := NewRequest(hash, tg, conn, now);
      forall x ensures x in issued.value <==> x == newRow || (x in rows && x.status != Pending) {
        IssuedRow(rows, p, newRow, x);
      }
    }
  }

  lemma IssuedRow(rows: seq<Request>, p: nat, issuedRow: Request, x: Request)
    requires Unique(rows) && p == PendingAt(rows)
    ensures var after := if p < |rows| then rows[p := issuedRow] else rows + [issuedRow];
      x in after <==> x == issuedRow || (x in rows && x.status != Pending)
  {
    var after := if p < |rows| then rows[p := issuedRow] else rows + [issuedRow];
    assert after[if p < |rows| then p else |rows|] == issuedRow;
    if x in rows && x.status != Pending {
      var k :| 0 <= k < |rows| && rows[k] == x;
      assert after[k] == x;
    }
    if x in after && x != issuedRow {
      var k :| 0 <= k < |after| && after[k] == x;
      assert k < |rows| && k != p && rows[k] == x;
    }
  }

  /** Submitting a code: it is granted exactly while pending and before its end,
      which then spends it; nothing else is ever written. */
  lemma WhatAClaimDoes(rows: seq<Request>, hash: Hash, now: Time, r: Request)
    requires Unique(rows) && r in rows
    ensures var (after, state) := Claim(rows, hash, now);
      && |after| == |rows|
      && (r.hash != hash ==> r in after)
      && (r.hash == hash ==>
        && state == (match r.status
                     case Pending => if now < r.expiresAt then ClaimGranted else ClaimExpired
                     case Consumed => ClaimResumable
                     case Completed => ClaimCompleted)
        && (if state.ClaimGranted?
            then Request(hash, Consumed, r.telegramUserId, r.connectionId, r.expiresAt,
                         if r.consumedAt.Some? then r.consumedAt else Some(now), r.completedAt) in after
            else after == rows))
  {
    var k :| 0 <= k < |rows| && rows[k] == r;
    var after := Claim(rows, hash, now).0;
    var h := HashAt(rows, hash);
    assert after[k] in after;
  }

  // ---------------------------------------------------------------------
  // The table
  // ---------------------------------------------------------------------

  /** The rows of one tenant, as row level security shows them. */
  class Repository {
    var rows: seq<Request>

    ghost predicate Valid()
      reads this
    {
      Unique(rows)
    }

    constructor ()
      ensures Valid() && rows == []
    {
      rows := [];
    }

    method IssueCode(hash: Hash, tg: int, conn: nat, now: Time) returns (expiresAt: Option<Time>)
      requires Valid()
      modifies this
      ensures Valid()
      ensures var r := Issue(old(rows), hash, tg, conn, now);
        && expiresAt == (if r.Some? then Some(now + 600) else None)
        && rows == if r.Some? then r.value else old(rows)
    {
      var p, h := |rows|, |rows|;
      for i := 0 to |rows|
        invariant p == if PendingAt(rows) < i then PendingAt(rows) else |rows|
        invariant h == if HashAt(rows, hash) < i then HashAt(rows, hash) else |rows|
      {
        if p == |rows| && rows[i].status == Pending {
          p := i;
        }
        if h == |rows| && rows[i].hash == hash {
          h := i;
        }
      }
      IssueKeepsUnique(rows, hash, tg, conn, now);
      if h < |rows| && h != p {
        return None;
      }
      if p < |rows| {
        rows := rows[p := NewRequest(hash, tg, conn, now)];
      } else {
        rows := rows + [NewRequest(hash, tg, conn, now)];
      }
      return Some(now + CHALLENGE_TTL);
    }

    method ClaimCode(hash: Hash, now: Time) returns (state: ClaimState)
      requires Valid()
      modifies this
      ensures Valid()
      ensures (rows, state) == Claim(old(rows), hash, now)
    {
      ClaimKeepsUnique(rows, hash, now);
      for i := 0 to |rows|
        invariant rows == old(rows)
        invariant HashAt(rows, hash) >= i
      {
        if rows[i].hash == hash {
          match rows[i].status
          case Pending =>
            if rows[i].expiresAt > now {
              var consumedAt := if rows[i].consumedAt.Some? then rows[i].consumedAt else Some(now);
              rows := rows[i := rows[i].(status := Consumed, consumedAt := consumedAt)];
              return ClaimGranted;
            }
            return ClaimExpired;
          case Consumed => return ClaimResumable;
          case Completed => return ClaimCompleted;
        }
      }
      return ClaimUnknown;
    }

    method CompleteCode(hash: Hash, now: Time)
      requires Valid()
      modifies this
      ensures Valid() && rows == Complete(old(rows), hash, now)
    {
      ClaimKeepsUnique(rows, hash, now);
      var h := HashAt(rows, hash);
      if h < |rows| && rows[h].status == Consumed {
        var completedAt := if rows[h].completedAt.Some? then rows[h].completedAt else Some(now);
        rows := rows[h := rows[h].(status := Completed, completedAt := completedAt,
                                   telegramUserId := None, connectionId := None)];
      }
    }

    method DeleteOtherCodes(hash: Hash) returns (deleted: nat)
      requires Valid()
      modifies this
      ensures Valid() && rows == DeleteOthers(old(rows), hash)
      ensures deleted == |old(rows)| - |rows|
    {
      DeleteOthersKeepsUnique(rows, hash);
      var kept := [];
      var i := |rows|;
      while i > 0
        invariant 0 <= i <= |rows|
        invariant kept == DeleteOthers(rows[i..], hash)
      {
        i := i - 1;
        assert rows[i..][1..] == rows[i + 1..];
        if rows[i].hash == hash {
          kept := [rows[i]] + kept;
        }
      }
      assert rows[0..] == rows;
      deleted := |rows| - |kept|;
      rows := kept;
    }
  }

  // ---------------------------------------------------------------------
  // Runs
  // ---------------------------------------------------------------------

  datatype Op =
    | IssueOp(hash: Hash, tg: int, conn: nat)
    | ClaimOp(hash: Hash)
    | CompleteOp(hash: Hash)
    | DeleteOthersOp(hash: Hash)

  datatype Event = Event(op: Op, now: Time)

  function Apply(rows: seq<Request>, ev: Event): seq<Request> {
    match ev.op
    case IssueOp(hash, tg, conn) =>
      (match Issue(rows, hash, tg, conn, ev.now) case None => rows case Some(r) => r)
    case ClaimOp(hash) => Claim(rows, hash, ev.now).0
    case CompleteOp(hash) => Complete(rows, hash, ev.now)
    case DeleteOthersOp(hash) => DeleteOthers(rows, hash)
  }

  /** The rows after the first `k` operations. */
  function Run(evs: seq<Event>, k: nat): seq<Request>
    requires k <= |evs|
  {
    if k == 0 then [] else Apply(Run(evs, k - 1), evs[k - 1])
  }

  lemma ApplyKeepsUnique(rows: seq<Request>, ev: Event)
    requires Unique(rows)
    ensures Unique(Apply(rows, ev))
  {
    match ev.op
    case IssueOp(hash, tg, conn) => IssueKeepsUnique(rows, hash, tg, conn, ev.now);
    case ClaimOp(hash) => ClaimKeepsUnique(rows, hash, ev.now);
    case CompleteOp(hash) => ClaimKeepsUnique(rows, hash, ev.now);
    case DeleteOthersOp(hash) => DeleteOthersKeepsUnique(rows, hash);
  }

  /** At every instant of every run, at most one code of the tenant is pending. */
  lemma {:induction false} RunKeepsUnique(evs: seq<Event>, k: nat)
    requires k <= |evs|
    ensures Unique(Run(evs, k))
  {
    if k > 0 {
      RunKeepsUnique(evs, k - 1);
      ApplyKeepsUnique(Run(evs, k - 1), evs[k - 1]);
    }
  }

  /** A row of the table after a step is new with it or stands where it stood,
      of the same hash; only an issue makes a row pending. */
  lemma AppliedRow(rows: seq<Request>, ev: Event, r: Request)
    requires r in Apply(rows, ev)
    ensures (ev.op.IssueOp? && r == NewRequest(ev.op.hash, ev.op.tg, ev.op.conn, ev.now))
      || exists x :: x in rows && x.hash == r.hash && (r == x || r.status != Pending)
  {
    var after := Apply(rows, ev);
    var k :| 0 <= k < |after| && after[k] == r;
    match ev.op
    case DeleteOthersOp(_) => assert r in rows;
    case _ =>
      if k < |rows| {
        assert rows[k] in rows;
      }
  }

  /** The claim at position `k` of the run is granted. */
  ghost predicate GrantedAt(evs: seq<Event>, k: nat)
    requires k < |evs|
  {
    evs[k].op.ClaimOp? && Claim(Run(evs, k), evs[k].op.hash, evs[k].now).1 == ClaimGranted
  }

  lemma GrantFindsItsRow(evs: seq<Event>, k: nat) returns (r: Request)
    requires k < |evs| && GrantedAt(evs, k)
    ensures r in Run(evs, k) && r.hash == evs[k].op.hash && r.status == Pending && evs[k].now < r.expiresAt
  {
    r := Run(evs, k)[HashAt(Run(evs, k), evs[k].op.hash)];
  }

  predicate HandsOut(rows: seq<Request>, ev: Event) {
    ev.op.IssueOp? && Issue(rows, ev.op.hash, ev.op.tg, ev.op.conn, ev.now).Some?
  }

  function LastAfter(rows: seq<Request>, ev: Event, last: Option<(Hash, Time)>): Option<(Hash, Time)> {
    if HandsOut(rows, ev) then Some((ev.op.hash, ev.now)) else last
  }

  /** The last code handed out by the first `k` operations, and when. */
  function LastIssued(evs: seq<Event>, k: nat): Option<(Hash, Time)>
    requires k <= |evs|
  {
    if k == 0 then None else LastAfter(Run(evs, k - 1), evs[k - 1], LastIssued(evs, k - 1))
  }

  ghost predicate PendingIs(rows: seq<Request>, last: Option<(Hash, Time)>) {
    forall r :: r in rows && r.status == Pending ==>
      last.Some? && last.value.0 == r.hash && r.expiresAt == last.value.1 + 600
  }

  lemma IssuedIsPending(rows: seq<Request>, ev: Event)
    requires Unique(rows) && HandsOut(rows, ev)
    ensures PendingIs(Apply(rows, ev), Some((ev.op.hash, ev.now)))
  {
    var after := Apply(rows, ev);
    forall r | r in after && r.status == Pending
      ensures r.hash == ev.op.hash && r.expiresAt == ev.now + CHALLENGE_TTL
    {
      var k :| 0 <= k < |after| && after[k] == r;
    }
  }

  lemma NoneElseIsPending(rows: seq<Request>, ev: Event, last: Option<(Hash, Time)>)
    requires PendingIs(rows, last) && !HandsOut(rows, ev)
    ensures PendingIs(Apply(rows, ev), last)
  {
    if !ev.op.IssueOp? {
      forall r | r in Apply(rows, ev) && r.status == Pending ensures r in rows {
        AppliedRow(rows, ev, r);
      }
    }
  }

  lemma PendingAfter(rows: seq<Request>, ev: Event, last: Option<(Hash, Time)>)
    requires Unique(rows) && PendingIs(rows, last)
    ensures PendingIs(Apply(rows, ev), LastAfter(rows, ev, last))
  {
    if HandsOut(rows, ev) {
      IssuedIsPending(rows, ev);
    } else {
      NoneElseIsPending(rows, ev, last);
    }
  }

  lemma PendingStep(evs: seq<Event>, k: nat)
    requires 0 < k <= |evs| && PendingIs(Run(evs, k - 1), LastIssued(evs, k - 1))
    ensures PendingIs(Run(evs, k), LastIssued(evs, k))
  {
    RunKeepsUnique(evs, k - 1);
    PendingAfter(Run(evs, k - 1), evs[k - 1], LastIssued(evs, k - 1));
  }

  /** A pending code is always the last one handed out, with ten minutes from then. */
  lemma {:induction false} PendingIsTheLastIssued(evs: seq<Event>, k: nat)
    requires k <= |evs|
    ensures PendingIs(Run(evs, k), LastIssued(evs, k))
  {
    if k > 0 {
      PendingIsTheLastIssued(evs, k - 1);
      PendingStep(evs, k);
    }
  }

  /** A grant always goes to the last code handed out, inside its window: an
      older code left in the chat history authorises nothing. */
  lemma GrantIsLastIssuedAndUnexpired(evs: seq<Event>, k: nat)
    requires k < |evs| && GrantedAt(evs, k)
    ensures var last := LastIssued(evs, k);
      last.Some? && last.value.0 == evs[k].op.hash && evs[k].now < last.value.1 + 600
  {
    PendingIsTheLastIssued(evs, k);
    var r := GrantFindsItsRow(evs, k);
  }

  /** Codes are drawn fresh: no hash is handed out twice. */
  ghost predicate FreshCodes(evs: seq<Event>) {
    forall i, j :: 0 <= i < j < |evs| && evs[i].op.IssueOp? && evs[j].op.IssueOp? ==>
      evs[i].op.hash != evs[j].op.hash
  }

  lemma {:induction false} RowWasIssued(evs: seq<Event>, k: nat, r: Request) returns (i: nat)
    requires k <= |evs| && r in Run(evs, k)
    ensures i < k && evs[i].op.IssueOp? && evs[i].op.hash == r.hash
    decreases k
  {
    i := k - 1;
    var rows, ev := Run(evs, k - 1), evs[k - 1];
    AppliedRow(rows, ev, r);
    if !(ev.op.IssueOp? && ev.op.hash == r.hash) {
      var x :| x in rows && x.hash == r.hash;
      i := RowWasIssued(evs, k - 1, x);
    }
  }

  /** No operation from `m` on hands this hash out. */
  ghost predicate NotReissued(evs: seq<Event>, m: nat, hash: Hash) {
    forall j :: m <= j < |evs| ==> !IssuesHash(evs[j], hash)
  }

  predicate IssuesHash(ev: Event, hash: Hash) {
    ev.op.IssueOp? && ev.op.hash == hash
  }

  /** With fresh codes the hash of a row there is never handed out again. */
  lemma NeverReissued(evs: seq<Event>, n: nat, r: Request)
    requires n <= |evs| && FreshCodes(evs) && r in Run(evs, n)
    ensures NotReissued(evs, n, r.hash)
  {
    var i := RowWasIssued(evs, n, r);
  }

  /** No row of this hash is pending. */
  ghost predicate NotPending(rows: seq<Request>, hash: Hash) {
    forall r :: r in rows && r.hash == hash ==> r.status != Pending
  }

  lemma ClaimSpends(rows: seq<Request>, hash: Hash, now: Time)
    requires Unique(rows) && Claim(rows, hash, now).1 == ClaimGranted
    ensures NotPending(Claim(rows, hash, now).0, hash)
  {
  }

  lemma NotPendingStep(rows: seq<Request>, ev: Event, hash: Hash)
    requires NotPending(rows, hash) && !IssuesHash(ev, hash)
    ensures NotPending(Apply(rows, ev), hash)
  {
    forall r | r in Apply(rows, ev) && r.hash == hash ensures r.status != Pending {
      AppliedRow(rows, ev, r);
    }
  }

  lemma {:induction false} NeverPendingAgain(evs: seq<Event>, m: nat, n: nat, hash: Hash)
    requires m <= n <= |evs| && NotReissued(evs, m, hash) && NotPending(Run(evs, m), hash)
    ensures NotPending(Run(evs, n), hash)
    decreases n
  {
    if m < n {
      NeverPendingAgain(evs, m, n - 1, hash);
      NotPendingStep(Run(evs, n - 1), evs[n - 1], hash);
    }
  }

  /** Once granted, a code is never pending again. */
  lemma SpentStaysSpent(evs: seq<Event>, i: nat, n: nat)
    requires i < n <= |evs| && FreshCodes(evs) && GrantedAt(evs, i)
    ensures NotPending(Run(evs, n), evs[i].op.hash)
  {
    RunKeepsUnique(evs, i);
    ClaimSpends(Run(evs, i), evs[i].op.hash, evs[i].now);
    var r := GrantFindsItsRow(evs, i);
    NeverReissued(evs, i, r);
    NeverPendingAgain(evs, i + 1, n, r.hash);
  }

  /** A code is granted at most once, whatever is submitted or replayed. */
  lemma GrantedAtMostOnce(evs: seq<Event>, i: nat, j: nat)
    requires i < j < |evs| && FreshCodes(evs) && GrantedAt(evs, i) && GrantedAt(evs, j)
    ensures evs[i].op.hash != evs[j].op.hash
  {
    SpentStaysSpent(evs, i, j);
    var r := GrantFindsItsRow(evs, j);
  }

  /** What the columns of a row say of its status; a completed row keeps no trace
      of who asked. */
  ghost predicate ScrubbedIfCompleted(r: Request) {
    match r.status
    case Completed => r.telegramUserId == None && r.connectionId == None && r.completedAt.Some? && r.consumedAt.Some?
    case Consumed => r.consumedAt.Some? && r.completedAt.None?
    case Pending => r.completedAt.None?
  }

  /** In every run a completed row has lost who asked and knows when it ended, and
      no other row has a completion date. */
  lemma {:induction false} CompletedAreScrubbed(evs: seq<Event>, k: nat)
    requires k <= |evs|
    ensures forall r :: r in Run(evs, k) ==> ScrubbedIfCompleted(r)
  {
    if k > 0 {
      CompletedAreScrubbed(evs, k - 1);
      forall r | r in Run(evs, k) ensures ScrubbedIfCompleted(r) {
        ScrubbedStep(Run(evs, k - 1), evs[k - 1], r);
      }
    }
  }

  lemma ScrubbedStep(rows: seq<Request>, ev: Event, r: Request)
    requires forall x :: x in rows ==> ScrubbedIfCompleted(x)
    requires r in Apply(rows, ev)
    ensures ScrubbedIfCompleted(r)
  {
    var after := Apply(rows, ev);
    var k :| 0 <= k < |after| && after[k] == r;
    match ev.op
    case DeleteOthersOp(_) => assert r in rows;
    case _ =>
      if k < |rows| {
        assert rows[k] in rows;
      }
  }

  /** This row is the only one of its hash. */
  ghost predicate OnlyRow(rows: seq<Request>, r: Request) {
    forall x :: x in rows && x.hash == r.hash ==> x == r
  }

  lemma OneRowPerHash(rows: seq<Request>, r: Request)
    requires Unique(rows) && r in rows
    ensures OnlyRow(rows, r)
  {
  }

  lemma {:induction false} StaysOnlyRow(evs: seq<Event>, n: nat, m: nat, r: Request)
    requires n <= m <= |evs| && NotReissued(evs, n, r.hash)
    requires r.status == Completed && OnlyRow(Run(evs, n), r)
    ensures OnlyRow(Run(evs, m), r)
    decreases m
  {
    if n < m {
      StaysOnlyRow(evs, n, m - 1, r);
      FinalStep(Run(evs, m - 1), evs[m - 1], r);
    }
  }

  /** Completion happens once: over any later operations a completed row is either
      exactly as it was completed the first time, or gone. */
  lemma CompletionIsFinal(evs: seq<Event>, n: nat, m: nat, r: Request)
    requires n <= m <= |evs| && FreshCodes(evs) && r in Run(evs, n) && r.status == Completed
    ensures OnlyRow(Run(evs, m), r)
  {
    RunKeepsUnique(evs, n);
    OneRowPerHash(Run(evs, n), r);
    NeverReissued(evs, n, r);
    StaysOnlyRow(evs, n, m, r);
  }

  lemma FinalStep(rows: seq<Request>, ev: Event, r: Request)
    requires r.status == Completed && OnlyRow(rows, r)
    requires !IssuesHash(ev, r.hash)
    ensures OnlyRow(Apply(rows, ev), r)
  {
    var after := Apply(rows, ev);
    forall x | x in after && x.hash == r.hash ensures x == r {
      var k :| 0 <= k < |after| && after[k] == x;
      match ev.op
      case DeleteOthersOp(_) => assert x in rows;
      case _ =>
        if k < |rows| {
          assert rows[k] in rows;
        }
    }
  }
}
