/**
 One confirmation of /delete_my_data: claim the code, run the five steps in
 their order, complete the request; stop at the first failure.

 An attempt carries how many steps succeed before one fails (a crash is the same
 prefix, seen from the database) and what a failing media step had already
 removed, files and rows apart. The theorem is that resubmitting the code any
 number of times ends where one uninterrupted run would have ended, whatever
 codes are issued or mistyped and whatever the tenant captures in between.
 */
module Erasure {
  import opened Prelude
  import opened TenantData
  import BS = BusinessService
  import CC = ConnectionCache
  import ER = ErasureRequests

  datatype Outcome = Erased | AlreadyErased | Expired | UnknownCode

  /** The part of the tenant's world that survives a crash. */
  datatype View = View(rows: seq<ER.Request>, tables: BS.Tables, data: Data)

  /** The files and the rows a media step removed before it failed. */
  datatype Partial = Partial(files: set<nat>, rows: set<nat>)

  /** `budget` steps succeed, then one fails; STEPS or more is a clean run. */
  datatype Attempt = Attempt(now: Time, budget: nat, partial: Partial)

  /** Disable, outbox, attachments, messages and chats, other requests, completion. */
  const STEPS: nat := 6

  function Effect(v: View, owner: int, hash: ER.Hash, now: Time, step: nat): View
    requires step < STEPS
  {
    match step
    case 0 => v.(tables := BS.DisableRows(v.tables, owner))
    case 1 => v.(data := v.data.(outbox := Without(v.data.outbox, owner)))
    case 2 => v.(data := v.data.(media := Without(v.data.media, owner), disk := Without(v.data.disk, owner)))
    case 3 => v.(data := v.data.(messages := Without(v.data.messages, owner), chats := Without(v.data.chats, owner)))
    case 4 => v.(rows := ER.DeleteOthers(v.rows, hash))
    case 5 => v.(rows := ER.Complete(v.rows, hash, now))
  }

  /** The first `n` steps, in order. */
  function Steps(v: View, owner: int, hash: ER.Hash, now: Time, n: nat): View
    requires n <= STEPS
  {
    if n == 0 then v else Effect(Steps(v, owner, hash, now, n - 1), owner, hash, now, n - 1)
  }

  /** What a media step that fails leaves: some files and some rows already gone. */
  function PartialMedia(v: View, owner: int, partial: Partial): View {
    v.(data := v.data.(media := WithoutPicked(v.data.media, owner, partial.rows),
                       disk := WithoutPicked(v.data.disk, owner, partial.files)))
  }

  /** One whole confirmation: the state it leaves, its outcome, and whether it
      reached its last step. */
  function Confirmed(v: View, owner: int, hash: ER.Hash, a: Attempt): (View, Outcome, bool) {
    var (rows, claim) := ER.Claim(v.rows, hash, a.now);
    var v1 := v.(rows := rows);
    match claim
    case ClaimUnknown => (v1, UnknownCode, true)
    case ClaimExpired => (v1, Expired, true)
    case ClaimCompleted => (v1, AlreadyErased, true)
    case _ =>
      var v2 := Steps(v1, owner, hash, a.now, if a.budget < STEPS then a.budget else STEPS);
      (if a.budget == 2 then PartialMedia(v2, owner, a.partial) else v2, Erased, a.budget >= STEPS)
  }

  // ---------------------------------------------------------------------
  // What any number of steps leave
  // ---------------------------------------------------------------------

  /** What `n` steps of the erasure of `owner` make of `v`, store by store: the
      connections first, then the alerts, the media, the messages, the other
      requests, the receipt; never a row or file of anyone else. */
  ghost predicate IsPrefix(v: View, w: View, owner: int, hash: ER.Hash, now: Time, n: nat) {
    && SameForOthers(v.data, w.data, owner)
    && (if n >= 1 then BS.OnlyDisabled(v.tables, w.tables, owner) else w.tables == v.tables)
    && (if n >= 2 then NoneOf(w.data.outbox, owner) else w.data.outbox == v.data.outbox)
    && (if n >= 3 then NoneOf(w.data.media, owner) && NoneOf(w.data.disk, owner)
        else w.data.media == v.data.media && w.data.disk == v.data.disk)
    && (if n >= 4 then NoneOf(w.data.messages, owner) && NoneOf(w.data.chats, owner)
        else w.data.messages == v.data.messages && w.data.chats == v.data.chats)
    && (n < 5 ==> w.rows == v.rows)
    && (n >= 5 ==> forall r :: r in w.rows ==> r.hash == hash)
    && (n == 5 ==> forall r :: r in v.rows && r.hash == hash ==> r in w.rows)
    && (n == 6 && ER.Unique(v.rows) ==>
      forall r :: r in v.rows && r.hash == hash && r.status == ER.Consumed ==> w.rows == [Receipt(r, now)])
  }

  /** The row of a code whose erasure is over. */
  function Receipt(r: ER.Request, now: Time): ER.Request {
    ER.Request(r.hash, ER.Completed, None, None, r.expiresAt, r.consumedAt,
               if r.completedAt.Some? then r.completedAt else Some(now))
  }

  lemma OtherRequestsGo(v: View, owner: int, hash: ER.Hash, now: Time, r: ER.Request)
    requires ER.Unique(v.rows) && r in v.rows && r.hash == hash && r.status == ER.Consumed
    ensures ER.Complete(ER.DeleteOthers(v.rows, hash), hash, now) == [Receipt(r, now)]
  {
    ER.DeleteOthersLeavesOne(v.rows, hash);
    assert ER.DeleteOthers(v.rows, hash) == [r];
  }

  lemma {:induction false} FourStepsKeepRequests(v: View, owner: int, hash: ER.Hash, now: Time, n: nat)
    requires n <= 4
    ensures Steps(v, owner, hash, now, n).rows == v.rows
  {
    if n > 0 {
      FourStepsKeepRequests(v, owner, hash, now, n - 1);
    }
  }

  lemma ReceiptIsLeft(v: View, owner: int, hash: ER.Hash, now: Time)
    ensures var w := Steps(v, owner, hash, now, 6);
      && (forall r :: r in w.rows ==> r.hash == hash)
      && (ER.Unique(v.rows) ==>
        forall r :: r in v.rows && r.hash == hash && r.status == ER.Consumed ==> w.rows == [Receipt(r, now)])
  {
    FourStepsKeepRequests(v, owner, hash, now, 4);
    var kept := ER.DeleteOthers(v.rows, hash);
    assert Steps(v, owner, hash, now, 6).rows == ER.Complete(kept, hash, now);
    forall r | r in ER.Complete(kept, hash, now) ensures r.hash == hash {
      var k :| 0 <= k < |ER.Complete(kept, hash, now)| && ER.Complete(kept, hash, now)[k] == r;
      assert kept[k] in kept;
    }
    if ER.Unique(v.rows) {
      forall r | r in v.rows && r.hash == hash && r.status == ER.Consumed
        ensures ER.Complete(kept, hash, now) == [Receipt(r, now)]
      {
        OtherRequestsGo(v, owner, hash, now, r);
      }
    }
  }

  /** Every prefix of the steps, in the order they run. */
  lemma {:induction false} StepsShape(v: View, owner: int, hash: ER.Hash, now: Time, n: nat)
    requires n <= STEPS
    ensures IsPrefix(v, Steps(v, owner, hash, now, n), owner, hash, now, n)
  {
    if n > 0 {
      StepsShape(v, owner, hash, now, n - 1);
      var before := Steps(v, owner, hash, now, n - 1);
      BS.DisableRowsDisablesOneHolder(before.tables, owner);
      if n == 6 {
        ReceiptIsLeft(v, owner, hash, now);
      }
    }
  }

  /** What an attempt that fails after `n` steps leaves; a media step that fails
      leaves the files and the rows it had not come to. */
  ghost predicate LeftAfter(v: View, w: View, owner: int, hash: ER.Hash, a: Attempt, n: nat) {
    if a.budget != 2 then IsPrefix(v, w, owner, hash, a.now, n)
    else
      && IsPrefix(v, w.(data := w.data.(media := v.data.media, disk := v.data.disk)), owner, hash, a.now, 2)
      && (forall r :: r in w.data.media <==>
        r in v.data.media && !(r.owner == owner && r.key in a.partial.rows))
      && (forall r :: r in w.data.disk <==>
        r in v.data.disk && !(r.owner == owner && r.key in a.partial.files))
  }

  function StepsDone(a: Attempt, all: nat): nat {
    if a.budget < all then a.budget else all
  }

  lemma AttemptLeaves(v: View, owner: int, hash: ER.Hash, a: Attempt, all: nat)
    requires 5 <= all <= STEPS
    ensures var n := StepsDone(a, all);
      var w := Steps(v, owner, hash, a.now, n);
      LeftAfter(v, if a.budget == 2 then PartialMedia(w, owner, a.partial) else w, owner, hash, a, n)
  {
    var n := StepsDone(a, all);
    StepsShape(v, owner, hash, a.now, n);
    var w := Steps(v, owner, hash, a.now, n);
    if a.budget == 2 {
      assert w.(data := w.data.(media := v.data.media, disk := v.data.disk)) == w;
    }
  }

  /** A confirmation of one tenant, whatever its outcome and wherever it stops,
      leaves every message, chat, alert, media row, file and connection of every
      other tenant as it was; and once it is through nothing of its own is left. */
  lemma ConfirmationTouchesOneTenant(v: View, owner: int, hash: ER.Hash, a: Attempt)
    ensures var (w, outcome, ok) := Confirmed(v, owner, hash, a);
      && SameForOthers(v.data, w.data, owner)
      && (forall id :: id in v.tables.conns && v.tables.conns[id].ownerUserId != owner ==>
        id in w.tables.conns && w.tables.conns[id] == v.tables.conns[id])
      && (outcome == Erased && ok ==> Empty(w.data, owner) && BS.OnlyDisabled(v.tables, w.tables, owner))
      && (outcome != Erased ==> w == v)
  {
    var v1 := v.(rows := ER.Claim(v.rows, hash, a.now).0);
    AttemptLeaves(v1, owner, hash, a, STEPS);
  }

  /** The answer is decided by the row of the code submitted. */
  lemma AnswerOfAConfirmation(v: View, owner: int, hash: ER.Hash, a: Attempt, r: ER.Request)
    requires ER.Unique(v.rows)
    ensures (forall x :: x in v.rows ==> x.hash != hash) ==> Confirmed(v, owner, hash, a).1 == UnknownCode
    ensures r in v.rows && r.hash == hash ==>
      Confirmed(v, owner, hash, a).1 ==
        match r.status {
          case Completed => AlreadyErased
          case Consumed => Erased
          case Pending => if a.now < r.expiresAt then Erased else Expired
        }
  {
    var h := ER.HashAt(v.rows, hash);
    assert h < |v.rows| ==> v.rows[h] in v.rows;
  }

  class Service {
    const requests: ER.Repository
    const connections: BS.Service
    var data: Data

    constructor (requests: ER.Repository, connections: BS.Service, data: Data)
      ensures this.requests == requests && this.connections == connections && this.data == data
    {
      this.requests := requests;
      this.connections := connections;
      this.data := data;
    }

    ghost function Seen(): View
      reads this, requests, connections
    {
      View(requests.rows, connections.tables, data)
    }

    ghost predicate Valid()
      reads this, requests, connections, connections.cache, connections.cache.cells
    {
      requests.Valid() && connections.cache.Valid()
    }

    method DeleteMedia(owner: int, partial: Partial, ok: bool)
      modifies this
      ensures Seen() ==
        if ok then old(Seen()).(data := old(data).(media := Without(old(data).media, owner),
                                                   disk := Without(old(data).disk, owner)))
        else PartialMedia(old(Seen()), owner, partial)
    {
      if ok {
        data := data.(media := Without(data.media, owner), disk := Without(data.disk, owner));
      } else {
        data := data.(media := WithoutPicked(data.media, owner, partial.rows),
                      disk := WithoutPicked(data.disk, owner, partial.files));
      }
    }

    /** The steps, stopping at the first failure. */
    method Erase(owner: int, hash: ER.Hash, a: Attempt) returns (ok: bool)
      requires Valid()
      modifies this, requests, connections, connections.cache, connections.cache.cells
      ensures Valid() && connections.cache.cells == old(connections.cache.cells)
      ensures ok == (a.budget >= 5)
      ensures var v := Steps(old(Seen()), owner, hash, a.now, if a.budget < 5 then a.budget else 5);
        Seen() == if a.budget == 2 then PartialMedia(v, owner, a.partial) else v
      ensures LeftAfter(old(Seen()), Seen(), owner, hash, a, StepsDone(a, 5))
      ensures a.budget > 0 ==> connections.cache.Model() == CC.DisableOwner(old(connections.cache.Model()), owner)
    {
      ghost var v := Seen();
      AttemptLeaves(v, owner, hash, a, 5);
      var disabled := connections.DisableOwner(owner, a.budget > 0);
      if disabled.None? {
        return false;
      }
      assert Seen() == Steps(v, owner, hash, a.now, 1);
      if a.budget == 1 {
        return false;
      }
      data := data.(outbox := Without(data.outbox, owner));
      assert Seen() == Steps(v, owner, hash, a.now, 2);
      DeleteMedia(owner, a.partial, a.budget > 2);
      if a.budget == 2 {
        return false;
      }
      assert Seen() == Steps(v, owner, hash, a.now, 3);
      if a.budget == 3 {
        return false;
      }
      data := data.(messages := Without(data.messages, owner), chats := Without(data.chats, owner));
      assert Seen() == Steps(v, owner, hash, a.now, 4);
      if a.budget == 4 {
        return false;
      }
      var deleted := requests.DeleteOtherCodes(hash);
      assert Seen() == Steps(v, owner, hash, a.now, 5);
      return true;
    }

    method Confirm(owner: int, hash: ER.Hash, a: Attempt) returns (outcome: Outcome, ok: bool)
      requires Valid()
      modifies this, requests, connections, connections.cache, connections.cache.cells
      ensures Valid()
      ensures (Seen(), outcome, ok) == Confirmed(old(Seen()), owner, hash, a)
      ensures SameForOthers(old(data), data, owner)
      ensures forall id ::
        id in old(connections.tables).conns && old(connections.tables).conns[id].ownerUserId != owner ==>
          id in connections.tables.conns && connections.tables.conns[id] == old(connections.tables).conns[id]
    {
      ghost var v := Seen();
      ConfirmationTouchesOneTenant(v, owner, hash, a);
      var claim := requests.ClaimCode(hash, a.now);
      match claim {
        case ClaimUnknown => return UnknownCode, true;
        case ClaimExpired => return Expired, true;
        case ClaimCompleted => return AlreadyErased, true;
        case _ =>
      }
      ghost var v1 := Seen();
      var erased := Erase(owner, hash, a);
      if !erased || a.budget == 5 {
        return Erased, false;
      }
      requests.CompleteCode(hash, a.now);
      assert Seen() == Steps(v1, owner, hash, a.now, 6);
      return Erased, true;
    }
  }

  // ---------------------------------------------------------------------
  // Interruption and resumption
  // ---------------------------------------------------------------------

  /** What may happen to the tenant between two confirmations that go through:
      its code is submitted and the erasure fails midway, another code is
      submitted in vain or issued, its own data comes and goes. */
  datatype Event =
    | Submitted(attempt: Attempt)
    | Misdirected(other: ER.Hash, attempt: Attempt)
    | Issued(other: ER.Hash, tg: int, conn: nat, now: Time)
    | Captured(data: Data)

  ghost predicate Next(v: View, owner: int, hash: ER.Hash, ev: Event, v': View) {
    match ev
    case Submitted(a) => a.budget < STEPS && v' == Confirmed(v, owner, hash, a).0
    case Misdirected(other, a) => Confirmed(v, owner, other, a).1 != Erased && v' == Confirmed(v, owner, other, a).0
    case Issued(other, tg, conn, now) =>
      v' == match ER.Issue(v.rows, other, tg, conn, now) {
        case None => v
        case Some(rows) => v.(rows := rows)
      }
    case Captured(data) => SameForOthers(v.data, data, owner) && v' == v.(data := data)
  }

  ghost predicate IsRun(vs: seq<View>, evs: seq<Event>, owner: int, hash: ER.Hash) {
    |vs| == |evs| + 1 && forall i :: 0 <= i < |evs| ==> Next(vs[i], owner, hash, evs[i], vs[i + 1])
  }

  /** The code can be spent at `now`, or was already and its erasure never finished. */
  ghost predicate Spendable(v: View, hash: ER.Hash, now: Time) {
    && ER.Unique(v.rows)
    && var h := ER.HashAt(v.rows, hash);
       && h < |v.rows|
       && (v.rows[h].status == ER.Consumed || (v.rows[h].status == ER.Pending && now < v.rows[h].expiresAt))
  }

  /** The states an erasure begun at `start` and not completed may leave. */
  ghost predicate Underway(start: View, v: View, owner: int, hash: ER.Hash) {
    && ER.Unique(v.rows)
    && (var h := ER.HashAt(v.rows, hash); h < |v.rows| && v.rows[h].status == ER.Consumed)
    && PartlyDisabled(start.tables, v.tables, owner)
    && SameForOthers(start.data, v.data, owner)
  }

  /** Some connections of the holder may be disabled already; nothing else changed. */
  ghost predicate PartlyDisabled(t: BS.Tables, t': BS.Tables, owner: int) {
    && t'.users == t.users && t'.nextUser == t.nextUser && t'.allowed == t.allowed
    && t'.conns.Keys == t.conns.Keys
    && forall id :: id in t.conns ==>
      t'.conns[id] == t.conns[id]
      || (t.conns[id].ownerUserId == owner && t'.conns[id] == t.conns[id].(isEnabled := false))
  }

  lemma EffectKeepsUnderway(start: View, v: View, owner: int, hash: ER.Hash, now: Time, step: nat)
    requires Underway(start, v, owner, hash) && step < STEPS - 1
    ensures Underway(start, Effect(v, owner, hash, now, step), owner, hash)
  {
    if step == 4 {
      ER.DeleteOthersKeepsUnique(v.rows, hash);
      ER.DeleteOthersLeavesOne(v.rows, hash);
    }
  }

  lemma {:induction false} StepsKeepUnderway(start: View, v: View, owner: int, hash: ER.Hash, now: Time, n: nat)
    requires Underway(start, v, owner, hash) && n < STEPS
    ensures Underway(start, Steps(v, owner, hash, now, n), owner, hash)
  {
    if n > 0 {
      StepsKeepUnderway(start, v, owner, hash, now, n - 1);
      EffectKeepsUnderway(start, Steps(v, owner, hash, now, n - 1), owner, hash, now, n - 1);
    }
  }

  lemma ClaimStartsUnderway(v: View, owner: int, hash: ER.Hash, now: Time)
    requires Spendable(v, hash, now)
    ensures var (rows, claim) := ER.Claim(v.rows, hash, now);
      && (claim.ClaimGranted? || claim.ClaimResumable?)
      && Underway(v, v.(rows := rows), owner, hash)
  {
    ER.ClaimKeepsUnique(v.rows, hash, now);
    var h := ER.HashAt(v.rows, hash);
    var rows := ER.Claim(v.rows, hash, now).0;
    assert rows[h].hash == hash && forall j :: 0 <= j < h ==> rows[j] == v.rows[j];
  }

  lemma InterruptedStaysUnderway(start: View, v: View, owner: int, hash: ER.Hash, a: Attempt)
    requires Underway(start, v, owner, hash) && a.budget < STEPS
    ensures var (v', outcome, ok) := Confirmed(v, owner, hash, a);
      Underway(start, v', owner, hash) && outcome == Erased && !ok
  {
    StepsKeepUnderway(start, v, owner, hash, a.now, a.budget);
  }

  lemma IssueStaysUnderway(start: View, v: View, owner: int, hash: ER.Hash, ev: Event, v': View)
    requires Underway(start, v, owner, hash) && ev.Issued? && Next(v, owner, hash, ev, v')
    ensures Underway(start, v', owner, hash)
  {
    ER.IssueKeepsUnique(v.rows, ev.other, ev.tg, ev.conn, ev.now);
    var h := ER.HashAt(v.rows, hash);
    assert h < |v'.rows| && v'.rows[h] == v.rows[h] && forall j :: 0 <= j < h ==> v'.rows[j].hash != hash;
    assert ER.HashAt(v'.rows, hash) == h;
  }

  lemma {:induction false} ResubmittedStaysUnderway(
    start: View, vs: seq<View>, evs: seq<Event>, owner: int, hash: ER.Hash, k: nat)
    requires IsRun(vs, evs, owner, hash) && k < |vs| && Underway(start, vs[0], owner, hash)
    ensures Underway(start, vs[k], owner, hash)
  {
    if k > 0 {
      var before := k - 1;
      ResubmittedStaysUnderway(start, vs, evs, owner, hash, before);
      assert Next(vs[before], owner, hash, evs[before], vs[before + 1]);
      match evs[before]
      case Submitted(a) => InterruptedStaysUnderway(start, vs[before], owner, hash, a);
      case Issued(_, _, _, _) => IssueStaysUnderway(start, vs[before], owner, hash, evs[before], vs[k]);
      case _ =>
    }
  }

  /** Where an erasure ends: nothing of the tenant, everything of the others,
      and the one receipt. */
  ghost predicate Done(start: View, v: View, owner: int, hash: ER.Hash) {
    && BS.OnlyDisabled(start.tables, v.tables, owner)
    && Empty(v.data, owner) && SameForOthers(start.data, v.data, owner)
    && |v.rows| == 1
    && v.rows[0].hash == hash && v.rows[0].status == ER.Completed
    && v.rows[0].telegramUserId == None && v.rows[0].connectionId == None
  }

  lemma CleanRunIsDone(start: View, v: View, owner: int, hash: ER.Hash, a: Attempt)
    requires Underway(start, v, owner, hash) && a.budget >= STEPS
    ensures var (v', outcome, ok) := Confirmed(v, owner, hash, a);
      Done(start, v', owner, hash) && outcome == Erased && ok
  {
    StepsShape(v, owner, hash, a.now, STEPS);
    assert v.rows[ER.HashAt(v.rows, hash)] in v.rows;
  }

  lemma FirstSubmissionIsUnderway(v: View, owner: int, hash: ER.Hash, first: Attempt)
    requires Spendable(v, hash, first.now) && first.budget < STEPS
    ensures Underway(v, Confirmed(v, owner, hash, first).0, owner, hash)
  {
    ClaimStartsUnderway(v, owner, hash, first.now);
    var v1 := v.(rows := ER.Claim(v.rows, hash, first.now).0);
    StepsKeepUnderway(v, v1, owner, hash, first.now, first.budget);
  }

  /** Two finished erasures of one start agree on the tables and on all data. */
  lemma DoneIsOneState(start: View, v: View, w: View, owner: int, hash: ER.Hash)
    requires Done(start, v, owner, hash) && Done(start, w, owner, hash)
    ensures v.tables == w.tables && v.data == w.data
  {
    BS.OnlyDisabledIsUnique(start.tables, v.tables, w.tables, owner);
    NothingButOthers(v.data.messages, w.data.messages, owner);
    NothingButOthers(v.data.chats, w.data.chats, owner);
    NothingButOthers(v.data.outbox, w.data.outbox, owner);
    NothingButOthers(v.data.media, w.data.media, owner);
    NothingButOthers(v.data.disk, w.data.disk, owner);
  }

  /** However many times the code is resubmitted, interrupted anywhere each time,
      other codes issued or tried and data captured in between, the run that
      goes through ends exactly where one uninterrupted run from the start ends
      -- even when the window of the code closed meanwhile. */
  lemma ResumedErasureEndsLikeACleanOne(
    v: View, owner: int, hash: ER.Hash, first: Attempt,
    vs: seq<View>, evs: seq<Event>, last: Attempt, clean: Attempt)
    requires Spendable(v, hash, first.now) && Spendable(v, hash, clean.now)
    requires first.budget < STEPS && last.budget >= STEPS && clean.budget >= STEPS
    requires IsRun(vs, evs, owner, hash) && vs[0] == Confirmed(v, owner, hash, first).0
    ensures var (resumed, outcome, ok) := Confirmed(vs[|evs|], owner, hash, last);
      var direct := Confirmed(v, owner, hash, clean).0;
      && outcome == Erased && ok
      && Done(v, resumed, owner, hash) && Done(v, direct, owner, hash)
      && resumed.tables == direct.tables && resumed.data == direct.data
  {
    FirstSubmissionIsUnderway(v, owner, hash, first);
    ResubmittedStaysUnderway(v, vs, evs, owner, hash, |evs|);
    CleanRunIsDone(v, vs[|evs|], owner, hash, last);

    ClaimStartsUnderway(v, owner, hash, clean.now);
    var w1 := v.(rows := ER.Claim(v.rows, hash, clean.now).0);
    StepsShape(w1, owner, hash, clean.now, STEPS);
    assert w1.rows[ER.HashAt(w1.rows, hash)] in w1.rows;
    DoneIsOneState(v, Confirmed(vs[|evs|], owner, hash, last).0, Confirmed(v, owner, hash, clean).0, owner, hash);
  }

  /** Replaying a code whose erasure finished deletes nothing a second time. */
  lemma ReplayChangesNothing(start: View, v: View, owner: int, hash: ER.Hash, a: Attempt)
    requires Done(start, v, owner, hash)
    ensures Confirmed(v, owner, hash, a) == (v, AlreadyErased, true)
  {
    assert ER.HashAt(v.rows, hash) == 0;
  }
}
