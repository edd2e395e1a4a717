/**
 Tenant erasure against every concurrent writer.

 Threads of the bot step through their phases one effect at a time: resolutions
 (cache lookup, row read, memoisation, API, upsert, publication), save units and
 deletion marks that re-resolve under the tenant's shared lock, fetch batches,
 outbox cycles, retention passes, code requests, and confirmations running the
 erasure under the exclusive lock. Any step may fail, any wait may be cancelled,
 the process may crash and restart at any point, and every clock reading, API
 answer and choice of rows is an arbitrary input.

 The theorems are at the end: what holds in every reachable state, and what
 holds after an erasure completed, over every run.
 */
module ErasureSystem {
  import opened Prelude
  import opened TenantData
  import opened TenantGuard
  import opened BusinessService
  import ER = ErasureRequests
  import CC = ConnectionCache

  type ConnId = CC.ConnId

  // ---------------------------------------------------------------------
  // Phases
  // ---------------------------------------------------------------------

  datatype Job = SaveJob | MarkJob

  /** Why a connection is being resolved. `First` learns the tenant, outside any
      lock; `Under` is the second resolution, under that tenant's shared lock. */
  datatype Goal = Plain | Lifecycle | First(job: Job) | Under(owner: int, job: Job)

  datatype Work =
    | SaveWork(id: ConnId)
    | MarkWork(id: ConnId)
    | FetchWork
    | OutboxWork
    | RetentionWork
    | RequestWork(hash: ER.Hash, tg: int, via: nat)
    | Abandoned

  datatype Stage =
    | AtClaim | AtDisableRows | AtDisableCache | AtOutbox | AtFiles
    | AtMediaRows | AtTree | AtMessages | AtOthers | AtComplete

  datatype Phase =
    | Idle
      // resolution
    | Looking(id: ConnId, goal: Goal)
    | Reading(id: ConnId, goal: Goal)
    | Memoising(row: CC.Connection, goal: Goal)
    | Refusing(id: ConnId, tg: int, goal: Goal)
    | Asking(id: ConnId, goal: Goal)
    | Forgetting(id: ConnId, goal: Goal)
    | Upserting(rep: Reported, goal: Goal)
    | Publishing(conn: CC.Connection, goal: Goal)
      // units under the shared lock
    | WaitingShared(owner: int, work: Work)
    | Saving(owner: int, conn: CC.Connection)
    | Cataloguing(owner: int, conn: CC.Connection)
    | Marking(owner: int, conn: CC.Connection)
    | Listing(owner: int)
    | Fetching(owner: int, batch: set<nat>)
    | Claiming(owner: int)
    | Delivering(owner: int, key: nat)
    | Purging(owner: int)
    | Issuing(owner: int, hash: ER.Hash, tg: int, via: nat)
    | Releasing(owner: int)
      // the erasure, under the exclusive lock
    | WaitingExclusive(owner: int, hash: ER.Hash)
    | AbandonedExclusive(owner: int)
    | Erasing(owner: int, hash: ER.Hash, stage: Stage)
    | ReleasingExclusive(owner: int)

  /** The lock a phase holds. */
  function SharedOwner(ph: Phase): Option<int> {
    match ph
    case Looking(_, Under(o, _)) => Some(o)
    case Reading(_, Under(o, _)) => Some(o)
    case Memoising(_, Under(o, _)) => Some(o)
    case Refusing(_, _, Under(o, _)) => Some(o)
    case Asking(_, Under(o, _)) => Some(o)
    case Forgetting(_, Under(o, _)) => Some(o)
    case Upserting(_, Under(o, _)) => Some(o)
    case Publishing(_, Under(o, _)) => Some(o)
    case Saving(o, _) => Some(o)
    case Cataloguing(o, _) => Some(o)
    case Marking(o, _) => Some(o)
    case Listing(o) => Some(o)
    case Fetching(o, _) => Some(o)
    case Claiming(o) => Some(o)
    case Delivering(o, _) => Some(o)
    case Purging(o) => Some(o)
    case Issuing(o, _, _, _) => Some(o)
    case Releasing(o) => Some(o)
    case _ => None
  }

  function ExclusiveOwner(ph: Phase): Option<int> {
    match ph
    case Erasing(o, _, _) => Some(o)
    case ReleasingExclusive(o) => Some(o)
    case _ => None
  }

  // ---------------------------------------------------------------------
  // State
  // ---------------------------------------------------------------------

  /** The last three components are history, read by no step:
      `rowsOff` -- owners whose rows were disabled with no enabled upsert or store since;
      `off` -- the same, the cache having been told too;
      `erased` -- owners whose erasure completed while off, and who are off since. */
  datatype State = State(
    tables: Tables,
    cache: CC.State,
    requests: map<int, seq<ER.Request>>,
    data: Data,
    locks: map<int, Lock>,
    threads: map<ThreadId, Phase>,
    rowsOff: set<int>,
    off: set<int>,
    erased: set<int>)

  /** Everything a step does not decide by itself. */
  datatype Input = Input(
    now: Time,
    fail: bool,
    cancel: bool,
    drop: bool,
    more: bool,
    api: ApiAnswer,
    key: nat,
    picked: set<nat>,
    start: Phase)

  datatype Label =
    | Quiet
    | ReEnabled(owner: int)
    | RowsDisabled(owner: int)
    | Completed(owner: int)
    | AlertSent(owner: int)

  function PhaseOf(s: State, t: ThreadId): Phase {
    if t in s.threads then s.threads[t] else Idle
  }

  function LockOf(s: State, owner: int): Lock {
    if owner in s.locks then s.locks[owner] else FREE
  }

  function RequestsOf(s: State, owner: int): seq<ER.Request> {
    if owner in s.requests then s.requests[owner] else []
  }

  function Move(s: State, t: ThreadId, ph: Phase): State {
    s.(threads := s.threads[t := ph])
  }

  /** An enabled upsert or store ends the history of a disable. */
  function BackOn(s: State, owner: int): State {
    s.(rowsOff := s.rowsOff - {owner}, off := s.off - {owner}, erased := s.erased - {owner})
  }

  // ---------------------------------------------------------------------
  // Steps
  // ---------------------------------------------------------------------

  /** What a thread does with a resolved connection. `drop` is the quota. */
  function Answered(conn: CC.Connection, goal: Goal, drop: bool): Phase {
    match goal
    case Plain => Idle
    case Lifecycle => Idle
    case First(SaveJob) =>
      if conn.isEnabled && !drop then WaitingShared(conn.ownerUserId, SaveWork(conn.id)) else Idle
    case First(MarkJob) => WaitingShared(conn.ownerUserId, MarkWork(conn.id))
    case Under(o, SaveJob) => if conn.isEnabled then Saving(o, conn) else Releasing(o)
    case Under(o, MarkJob) => Marking(o, conn)
  }

  /** What it does with a refusal or a failure. */
  function GaveUp(goal: Goal): Phase {
    if goal.Under? then Releasing(goal.owner) else Idle
  }

  predicate CanStart(ph: Phase) {
    || (ph.Looking? && (ph.goal.Plain? || ph.goal.First?))
    || (ph.Upserting? && ph.goal.Lifecycle?)
    || (ph.WaitingShared? && !ph.work.SaveWork? && !ph.work.MarkWork?)
    || ph.WaitingExclusive?
  }

  /** The next effect of thread `t`, None where it is blocked. */
  function Step(s: State, t: ThreadId, inp: Input, cfg: CC.Config): Option<(State, Label)> {
    var ph := PhaseOf(s, t);
    if ph.Idle? then
      if CanStart(inp.start) then Some((Move(s, t, inp.start), Quiet)) else None
    else if ph.WaitingShared? || ph.WaitingExclusive? || ph.AbandonedExclusive? then Acquire(s, t, inp)
    else if ph.Releasing? || ph.ReleasingExclusive? then Some((Release(s, t), Quiet))
    else if ph.Erasing? then Some(Erase(s, t, inp))
    else if SharedOwner(ph).Some? && !Resolving(ph) then UnitStep(s, t, inp)
    else Some(Resolve(s, t, inp, cfg))
  }

  predicate Resolving(ph: Phase) {
    ph.Looking? || ph.Reading? || ph.Memoising? || ph.Refusing? || ph.Asking? || ph.Forgetting?
    || ph.Upserting? || ph.Publishing?
  }

  function Resolve(s: State, t: ThreadId, inp: Input, cfg: CC.Config): (State, Label)
    requires Resolving(PhaseOf(s, t))
  {
    match PhaseOf(s, t)
    case Looking(id, goal) =>
      if id == NO_ID then (Move(s, t, GaveUp(goal)), Quiet)
      else
        var (cache, found) := CC.Lookup(s.cache, id, inp.now);
        var next :=
          match Served(s.tables, found)
          case Some(Found(conn)) => Answered(conn, goal, inp.drop)
          case Some(Failed(_)) => GaveUp(goal)
          case None => Reading(id, goal);
        (Move(s.(cache := cache), t, next), Quiet)
    case Reading(id, goal) =>
      var next :=
        if inp.fail then GaveUp(goal)
        else if id in s.tables.conns then
          var row := s.tables.conns[id];
          if OwnerAllowed(s.tables, row.ownerTelegramUserId) then Memoising(row, goal)
          else Refusing(id, row.ownerTelegramUserId, goal)
        else Asking(id, goal);
      (Move(s, t, next), Quiet)
    case Memoising(row, goal) =>
      // the row as it was read, whatever the cache made of it
      (Move(s.(cache := CC.StoreDB(s.cache, row, inp.now, cfg)), t, Answered(row, goal, inp.drop)), Quiet)
    case Refusing(id, tg, goal) =>
      (Move(s.(cache := CC.Put(s.cache, id, CC.Refused(tg), inp.now, cfg)), t, GaveUp(goal)), Quiet)
    case Asking(id, goal) =>
      var next :=
        match inp.api
        case BadRequest => Forgetting(id, goal)
        case ApiFailure => GaveUp(goal)
        case Described(rep) => if rep.id == id then Upserting(rep, goal) else GaveUp(goal);
      (Move(s, t, next), Quiet)
    case Forgetting(id, goal) =>
      (Move(s.(cache := CC.Put(s.cache, id, CC.Unknown, inp.now, cfg)), t, GaveUp(goal)), Quiet)
    case Upserting(rep, goal) =>
      if inp.fail then (Move(s, t, GaveUp(goal)), Quiet)
      else
        var (tables, outcome) := Upsert(s.tables, rep);
        var s1 := s.(tables := tables);
        (match outcome
         case Found(conn) =>
           if conn.isEnabled then
             (Move(BackOn(s1, conn.ownerUserId), t, Publishing(conn, goal)), ReEnabled(conn.ownerUserId))
           else (Move(s1, t, Publishing(conn, goal)), Quiet)
         case Failed(e) =>
           (Move(s1, t, if e.OwnerNotAllowed? && !goal.Lifecycle? then Refusing(rep.id, rep.telegramUserId, goal)
                        else GaveUp(goal)), Quiet))
    case Publishing(conn, goal) =>
      var s1 := Move(s.(cache := CC.Store(s.cache, conn, inp.now, cfg)), t, Answered(conn, goal, inp.drop));
      if conn.isEnabled then (BackOn(s1, conn.ownerUserId), ReEnabled(conn.ownerUserId)) else (s1, Quiet)
  }

  /** Waiting for a lock. A cancelled wait leaves an acquisition behind that
      still goes through, and is released at once. */
  function Acquire(s: State, t: ThreadId, inp: Input): Option<(State, Label)>
    requires var ph := PhaseOf(s, t); ph.WaitingShared? || ph.WaitingExclusive? || ph.AbandonedExclusive?
  {
    match PhaseOf(s, t)
    case WaitingShared(o, work) =>
      if inp.cancel then Some((Move(s, t, WaitingShared(o, Abandoned)), Quiet))
      else if CanShare(LockOf(s, o)) then
        var next :=
          match work
          case SaveWork(id) => Looking(id, Under(o, SaveJob))
          case MarkWork(id) => Looking(id, Under(o, MarkJob))
          case FetchWork => Listing(o)
          case OutboxWork => Claiming(o)
          case RetentionWork => Purging(o)
          case RequestWork(hash, tg, via) => Issuing(o, hash, tg, via)
          case Abandoned => Releasing(o);
        Some((Move(s.(locks := s.locks[o := ReadLock(LockOf(s, o), t)]), t, next), Quiet))
      else None
    case WaitingExclusive(o, hash) =>
      if inp.cancel then Some((Move(s, t, AbandonedExclusive(o)), Quiet))
      else if CanExclude(LockOf(s, o)) then
        Some((Move(s.(locks := s.locks[o := WriteLock(LockOf(s, o), t)]), t, Erasing(o, hash, AtClaim)), Quiet))
      else None
    case AbandonedExclusive(o) =>
      if CanExclude(LockOf(s, o)) then
        Some((Move(s.(locks := s.locks[o := WriteLock(LockOf(s, o), t)]), t, ReleasingExclusive(o)), Quiet))
      else None
  }

  function Release(s: State, t: ThreadId): State
    requires var ph := PhaseOf(s, t); ph.Releasing? || ph.ReleasingExclusive?
  {
    match PhaseOf(s, t)
    case Releasing(o) => Move(s.(locks := s.locks[o := ReadUnlock(LockOf(s, o), t)]), t, Idle)
    case ReleasingExclusive(o) => Move(s.(locks := s.locks[o := WriteUnlock(LockOf(s, o))]), t, Idle)
  }

  /** Units of work under the shared lock. */
  function UnitStep(s: State, t: ThreadId, inp: Input): Option<(State, Label)>
    requires var ph := PhaseOf(s, t);
      SharedOwner(ph).Some? && !Resolving(ph) && !ph.Releasing?
  {
    match PhaseOf(s, t)
    case Saving(o, conn) =>
      if inp.fail then Some((Move(s, t, Releasing(o)), Quiet))
      else
        var row := Row(conn.ownerUserId, inp.key);
        var data := s.data.(messages := s.data.messages + {row}, chats := s.data.chats + {row});
        Some((Move(s.(data := data), t, Cataloguing(o, conn)), Quiet))
    case Cataloguing(o, conn) =>
      if inp.more && !inp.fail then
        var data := s.data.(media := s.data.media + {Row(conn.ownerUserId, inp.key)});
        Some((Move(s.(data := data), t, Cataloguing(o, conn)), Quiet))
      else Some((Move(s, t, Releasing(o)), Quiet))
    case Marking(o, conn) =>
      // only messages found in the table are announced
      var data :=
        if inp.fail then s.data
        else s.data.(outbox := s.data.outbox + MarkedRows(s.data.messages, conn.ownerUserId, inp.picked));
      Some((Move(s.(data := data), t, Releasing(o)), Quiet))
    case Listing(o) =>
      var batch := if inp.fail then {} else set k | k in inp.picked && Row(o, k) in s.data.media;
      Some((Move(s, t, Fetching(o, batch)), Quiet))
    case Fetching(o, batch) =>
      if batch == {} || inp.cancel then Some((Move(s, t, Releasing(o)), Quiet))
      else if inp.key !in batch then None
      else
        // a download lands in the tenant's subtree, or is given up
        var data := if inp.fail then s.data else s.data.(disk := s.data.disk + {Row(o, inp.key)});
        Some((Move(s.(data := data), t, Fetching(o, batch - {inp.key})), Quiet))
    case Claiming(o) =>
      if !inp.fail && Row(o, inp.key) in s.data.outbox then Some((Move(s, t, Delivering(o, inp.key)), Quiet))
      else Some((Move(s, t, Releasing(o)), Quiet))
    case Delivering(o, key) =>
      // the acknowledgement updates the claimed row if it is still there
      Some((Move(s, t, Releasing(o)), if inp.fail then Quiet else AlertSent(o)))
    case Purging(o) =>
      Some((Move(s.(data := Shrunk(s.data, o, inp.picked)), t, if inp.more then Purging(o) else Releasing(o)), Quiet))
    case Issuing(o, hash, tg, via) =>
      var issued := ER.Issue(RequestsOf(s, o), hash, tg, via, inp.now);
      var s1 := if !inp.fail && issued.Some? then s.(requests := s.requests[o := issued.value]) else s;
      Some((Move(s1, t, Releasing(o)), Quiet))
  }

  function MarkedRows(messages: set<Row>, owner: int, picked: set<nat>): set<Row> {
    set r | r in messages && r.owner == owner && r.key in picked
  }

  /** The confirmation: claim, the five steps in their order, completion. */
  function Erase(s: State, t: ThreadId, inp: Input): (State, Label)
    requires PhaseOf(s, t).Erasing?
  {
    var ph := PhaseOf(s, t);
    var o, hash := ph.owner, ph.hash;
    if inp.fail && !ph.stage.AtDisableCache? && !ph.stage.AtTree? then (Move(s, t, ReleasingExclusive(o)), Quiet)
    else
      match ph.stage
      case AtClaim =>
        var (rows, claim) := ER.Claim(RequestsOf(s, o), hash, inp.now);
        var next := if claim.ClaimGranted? || claim.ClaimResumable? then Erasing(o, hash, AtDisableRows)
                    else ReleasingExclusive(o);
        (Move(s.(requests := s.requests[o := rows]), t, next), Quiet)
      case AtDisableRows =>
        (Move(s.(tables := DisableRows(s.tables, o), rowsOff := s.rowsOff + {o}), t, Erasing(o, hash, AtDisableCache)),
         RowsDisabled(o))
      case AtDisableCache =>
        var off := if o in s.rowsOff then s.off + {o} else s.off;
        (Move(s.(cache := CC.DisableOwner(s.cache, o), off := off), t, Erasing(o, hash, AtOutbox)), Quiet)
      case AtOutbox =>
        (Move(s.(data := s.data.(outbox := Without(s.data.outbox, o))), t, Erasing(o, hash, AtFiles)), Quiet)
      case AtFiles =>
        (Move(s.(data := s.data.(disk := WithoutPicked(s.data.disk, o, inp.picked))), t,
              Erasing(o, hash, if inp.more then AtFiles else AtMediaRows)), Quiet)
      case AtMediaRows =>
        // batches, until one deletes nothing
        var media := WithoutPicked(s.data.media, o, inp.picked);
        (Move(s.(data := s.data.(media := media)), t,
              Erasing(o, hash, if NoneOf(s.data.media, o) then AtTree else AtMediaRows)), Quiet)
      case AtTree =>
        // the sweep reports an error unless nothing of the subtree is left
        if inp.fail then
          (Move(s.(data := s.data.(disk := WithoutPicked(s.data.disk, o, inp.picked))), t, ReleasingExclusive(o)),
           Quiet)
        else
          (Move(s.(data := s.data.(disk := Without(s.data.disk, o))), t, Erasing(o, hash, AtMessages)), Quiet)
      case AtMessages =>
        (Move(s.(data := s.data.(messages := Without(s.data.messages, o), chats := Without(s.data.chats, o))), t,
              Erasing(o, hash, AtOthers)), Quiet)
      case AtOthers =>
        (Move(s.(requests := s.requests[o := ER.DeleteOthers(RequestsOf(s, o), hash)]), t,
              Erasing(o, hash, AtComplete)),
         Quiet)
      case AtComplete =>
        var erased := if o in s.off then s.erased + {o} else s.erased;
        (Move(s.(requests := s.requests[o := ER.Complete(RequestsOf(s, o), hash, inp.now)], erased := erased), t,
              ReleasingExclusive(o)),
         Completed(o))
  }

  /** A crash keeps the database and the disk, and nothing else. */
  function Crash(s: State): State {
    s.(cache := CC.EMPTY, locks := map[], threads := map[])
  }

  /** The retention loops that take no lock. */
  function Retire(s: State, owner: int, picked: set<nat>): State {
    s.(data := s.data.(messages := WithoutPicked(s.data.messages, owner, picked),
                       outbox := WithoutPicked(s.data.outbox, owner, picked)))
  }

  datatype Event = ThreadEvent(t: ThreadId, inp: Input) | CrashEvent | RetireEvent(owner: int, picked: set<nat>)

  /** The event is possible in `s`, leads to `s'` and shows as `shown`. */
  predicate Next(s: State, ev: Event, s': State, shown: Label, cfg: CC.Config) {
    match ev
    case ThreadEvent(t, inp) => Step(s, t, inp, cfg) == Some((s', shown))
    case CrashEvent => s' == Crash(s) && shown == Quiet
    case RetireEvent(owner, picked) => s' == Retire(s, owner, picked) && shown == Quiet
  }

  // ---------------------------------------------------------------------
  // Invariant
  // ---------------------------------------------------------------------

  /** The locks say exactly which phases hold them. */
  ghost predicate LocksOk(s: State) {
    && (forall o, t :: t in LockOf(s, o).readers <==> SharedOwner(PhaseOf(s, t)) == Some(o))
    && (forall o, t: ThreadId :: LockOf(s, o).writer == Some(t) <==> ExclusiveOwner(PhaseOf(s, t)) == Some(o))
    && (forall o :: Exclusion(LockOf(s, o)))
  }

  ghost predicate RowsDisabledOf(tables: Tables, owner: int) {
    forall id :: id in tables.conns && tables.conns[id].ownerUserId == owner ==> !tables.conns[id].isEnabled
  }

  ghost predicate CacheDisabledOf(cache: CC.State, owner: int) {
    forall e :: e in cache.entries ==> !CC.IsEnabledFor(e.verdict, owner)
  }

  ghost predicate GlobalOk(s: State) {
    && Coherent(s.tables, s.cache)
    && s.erased <= s.off <= s.rowsOff
    && (forall o :: o in s.rowsOff ==> RowsDisabledOf(s.tables, o))
    && (forall o :: o in s.off ==> CacheDisabledOf(s.cache, o))
    && (forall o :: o in s.erased ==> Empty(s.data, o))
    && (forall o :: ER.Unique(RequestsOf(s, o)))
  }

  /** A second resolution stays inside the tenant whose lock it holds. */
  ghost predicate GoalOk(s: State, id: ConnId, goal: Goal) {
    goal.Under? ==> id in s.tables.conns && s.tables.conns[id].ownerUserId == goal.owner
  }

  /** The code being confirmed is spent and not yet completed. */
  ghost predicate Spent(rows: seq<ER.Request>, hash: ER.Hash) {
    var h := ER.HashAt(rows, hash);
    h < |rows| && rows[h].status == ER.Consumed
  }

  function Rank(stage: Stage): nat {
    match stage
    case AtClaim => 0
    case AtDisableRows => 1
    case AtDisableCache => 2
    case AtOutbox => 3
    case AtFiles => 4
    case AtMediaRows => 5
    case AtTree => 6
    case AtMessages => 7
    case AtOthers => 8
    case AtComplete => 9
  }

  /** How far the steps of an erasure got. */
  ghost predicate Progress(s: State, o: int, hash: ER.Hash, stage: Stage) {
    && (Rank(stage) >= 1 ==> Spent(RequestsOf(s, o), hash))
    && (Rank(stage) >= 2 && o in s.rowsOff ==> Rank(stage) == 2 || o in s.off)
    && (Rank(stage) >= 4 ==> NoneOf(s.data.outbox, o))
    && (Rank(stage) >= 6 ==> NoneOf(s.data.media, o))
    && (Rank(stage) >= 7 ==> NoneOf(s.data.disk, o))
    && (Rank(stage) >= 8 ==> NoneOf(s.data.messages, o) && NoneOf(s.data.chats, o))
    && (Rank(stage) >= 9 ==> |RequestsOf(s, o)| == 1)
  }

  /** What each phase may rely on. */
  ghost predicate ThreadOk(s: State, ph: Phase) {
    match ph
    case Looking(id, goal) => GoalOk(s, id, goal)
    case Reading(id, goal) => GoalOk(s, id, goal)
    case Refusing(id, _, goal) => GoalOk(s, id, goal)
    case Forgetting(id, goal) => GoalOk(s, id, goal)
    case Memoising(row, goal) =>
      && Known(s.tables, row) && GoalOk(s, row.id, goal)
      // a stale enabled read cannot be memoised as enabled ...
      && (row.isEnabled && row.ownerUserId in s.off ==> row.ownerUserId in s.cache.disabledOwners)
      // ... and no such read happens under the lock of an owner turned off
      && (goal.Under? && goal.owner in s.off ==> !row.isEnabled)
    case Asking(id, goal) => !goal.Under?
    case Upserting(rep, goal) => !goal.Under?
    case Publishing(conn, goal) => Known(s.tables, conn) && !goal.Under?
    case WaitingShared(o, SaveWork(id)) => GoalOk(s, id, Under(o, SaveJob))
    case WaitingShared(o, MarkWork(id)) => GoalOk(s, id, Under(o, MarkJob))
    case Saving(o, conn) => conn.ownerUserId == o && o !in s.off
    case Cataloguing(o, conn) => conn.ownerUserId == o && o !in s.off
    case Marking(o, conn) => conn.ownerUserId == o
    case Fetching(o, batch) => o in s.erased ==> batch == {}
    case Delivering(o, key) => o !in s.erased
    case Erasing(o, hash, stage) => Progress(s, o, hash, stage)
    case _ => true
  }

  ghost predicate Inv(s: State) {
    && LocksOk(s)
    && GlobalOk(s)
    && forall t :: ThreadOk(s, PhaseOf(s, t))
  }

  ghost predicate Init(s: State) {
    && WellFormedTables(s.tables)
    && s.cache == CC.EMPTY
    && (forall o :: ER.Unique(RequestsOf(s, o)))
    && s.locks == map[] && s.threads == map[]
    && s.rowsOff == {} && s.off == {} && s.erased == {}
  }

  lemma InitInv(s: State)
    requires Init(s)
    ensures Inv(s)
  {
  }

  // ---------------------------------------------------------------------
  // What one thread's step may do to the others
  // ---------------------------------------------------------------------

  /** The locks `t` holds as it takes the step. */
  ghost predicate Holds(s: State, t: ThreadId, o: int) {
    SharedOwner(PhaseOf(s, t)) == Some(o) || ExclusiveOwner(PhaseOf(s, t)) == Some(o)
  }

  ghost predicate Excludes(s: State, t: ThreadId, o: int) {
    ExclusiveOwner(PhaseOf(s, t)) == Some(o)
  }

  /** Everything a step may change behind the other threads' backs. */
  ghost predicate Guarantee(s: State, s': State, t: ThreadId) {
    && (forall u :: u != t ==> PhaseOf(s', u) == PhaseOf(s, u))
    && OwnersKept(s.tables, s'.tables)
    && (forall o :: o in s'.off && o !in s.off ==> Excludes(s, t, o) && o in s'.cache.disabledOwners)
    && (forall o :: o in s'.off && o in s.cache.disabledOwners ==> o in s'.cache.disabledOwners)
    && (forall o :: o in s'.erased && o !in s.erased ==> Excludes(s, t, o))
    && (forall o :: o in s'.rowsOff && o !in s.rowsOff ==> Excludes(s, t, o))
    && (forall o :: o in s.off && o !in s'.off ==> o !in s'.rowsOff)
    && (forall o :: SharedOwner(PhaseOf(s, t)) != Some(o) ==> GrowsNothing(s.data, s'.data, o))
    && (forall o :: !Holds(s, t, o) ==> RequestsOf(s', o) == RequestsOf(s, o))
  }

  lemma NobodyElseUnderExclusion(s: State, t: ThreadId, u: ThreadId, o: int)
    requires LocksOk(s) && t != u && Excludes(s, t, o)
    ensures !Holds(s, u, o)
  {
    assert LockOf(s, o).writer == Some(t);
    assert u !in LockOf(s, o).readers;
  }

  /** Threads only ever rely on what the others' steps guarantee. */
  lemma OthersKept(s: State, s': State, t: ThreadId, u: ThreadId)
    requires LocksOk(s) && Guarantee(s, s', t) && u != t && ThreadOk(s, PhaseOf(s, u))
    ensures ThreadOk(s', PhaseOf(s', u))
  {
    var ph := PhaseOf(s, u);
    forall o | Excludes(s, t, o) ensures !Holds(s, u, o) {
      NobodyElseUnderExclusion(s, t, u, o);
    }
    if ph.Erasing? {
      forall o | Holds(s, t, o) ensures o != ph.owner {
        if o == ph.owner {
          NobodyElseUnderExclusion(s, u, t, o);
        }
      }
    }
  }

  /** What is to be shown of each step. */
  ghost predicate StepOk(s: State, s': State, t: ThreadId) {
    && LocksOk(s')
    && GlobalOk(s')
    && ThreadOk(s', PhaseOf(s', t))
    && Guarantee(s, s', t)
  }

  lemma StepOkKeepsInv(s: State, s': State, t: ThreadId)
    requires Inv(s) && StepOk(s, s', t)
    ensures Inv(s')
  {
    forall u ensures ThreadOk(s', PhaseOf(s', u)) {
      if u != t {
        OthersKept(s, s', t, u);
      }
    }
  }

  lemma LocksKept(s: State, s': State, t: ThreadId)
    requires LocksOk(s) && s'.locks == s.locks
    requires forall u :: u != t ==> PhaseOf(s', u) == PhaseOf(s, u)
    requires SharedOwner(PhaseOf(s', t)) == SharedOwner(PhaseOf(s, t))
    requires ExclusiveOwner(PhaseOf(s', t)) == ExclusiveOwner(PhaseOf(s, t))
    ensures LocksOk(s')
  {
    forall o ensures LockOf(s', o) == LockOf(s, o) {
    }
    forall u ensures SharedOwner(PhaseOf(s', u)) == SharedOwner(PhaseOf(s, u))
      ensures ExclusiveOwner(PhaseOf(s', u)) == ExclusiveOwner(PhaseOf(s, u))
    {
    }
  }

  // Frames: what is left to show of a step that touches one component.

  lemma OnlyPhase(s: State, s': State, t: ThreadId, ph: Phase)
    requires GlobalOk(s) && s' == Move(s, t, ph)
    ensures GlobalOk(s') && Guarantee(s, s', t)
  {
    forall o ensures RequestsOf(s', o) == RequestsOf(s, o) {
    }
    forall u | u != t ensures PhaseOf(s', u) == PhaseOf(s, u) {
    }
  }

  lemma OnlyCache(s: State, s': State, t: ThreadId, cache: CC.State, ph: Phase)
    requires GlobalOk(s) && s' == Move(s.(cache := cache), t, ph)
    requires Coherent(s.tables, cache)
    requires forall o :: o in s.off ==> CacheDisabledOf(cache, o)
    requires forall o :: o in s.off && o in s.cache.disabledOwners ==> o in cache.disabledOwners
    ensures GlobalOk(s') && Guarantee(s, s', t)
  {
    forall o ensures RequestsOf(s', o) == RequestsOf(s, o) {
    }
    forall u | u != t ensures PhaseOf(s', u) == PhaseOf(s, u) {
    }
  }

  lemma OnlyData(s: State, s': State, t: ThreadId, data: Data, ph: Phase)
    requires GlobalOk(s) && s' == Move(s.(data := data), t, ph)
    requires forall o :: o in s.erased ==> Empty(data, o)
    requires forall o :: SharedOwner(PhaseOf(s, t)) != Some(o) ==> GrowsNothing(s.data, data, o)
    ensures GlobalOk(s') && Guarantee(s, s', t)
  {
    forall o ensures RequestsOf(s', o) == RequestsOf(s, o) {
    }
    forall u | u != t ensures PhaseOf(s', u) == PhaseOf(s, u) {
    }
  }

  lemma OnlyRequests(s: State, s': State, t: ThreadId, owner: int, rows: seq<ER.Request>, ph: Phase)
    requires GlobalOk(s) && s' == Move(s.(requests := s.requests[owner := rows]), t, ph)
    requires ER.Unique(rows) && Holds(s, t, owner)
    ensures GlobalOk(s') && Guarantee(s, s', t)
    ensures RequestsOf(s', owner) == rows
  {
    forall o ensures RequestsOf(s', o) == if o == owner then rows else RequestsOf(s, o) {
    }
    forall u | u != t ensures PhaseOf(s', u) == PhaseOf(s, u) {
    }
  }

  lemma OnlyTables(s: State, s': State, t: ThreadId, tables: Tables, ph: Phase)
    requires GlobalOk(s) && s' == Move(s.(tables := tables), t, ph)
    requires Coherent(tables, s.cache) && OwnersKept(s.tables, tables)
    requires forall o :: o in s.rowsOff ==> RowsDisabledOf(tables, o)
    ensures GlobalOk(s') && Guarantee(s, s', t)
  {
    forall o ensures RequestsOf(s', o) == RequestsOf(s, o) {
    }
    forall u | u != t ensures PhaseOf(s', u) == PhaseOf(s, u) {
    }
  }

  /** Ending a disable asks nothing of anyone. */
  lemma BackOnIsFine(s: State, s1: State, t: ThreadId, owner: int)
    requires GlobalOk(s1.(rowsOff := s1.rowsOff - {owner}, off := s1.off - {owner}, erased := s1.erased - {owner}))
    requires forall u :: u != t ==> PhaseOf(s1, u) == PhaseOf(s, u)
    requires OwnersKept(s.tables, s1.tables)
    requires s1.off == s.off && s1.erased == s.erased && s1.rowsOff == s.rowsOff
    requires s1.data == s.data && s1.requests == s.requests
    requires forall o :: o in s.off && o != owner && o in s.cache.disabledOwners ==> o in s1.cache.disabledOwners
    ensures GlobalOk(BackOn(s1, owner)) && Guarantee(s, BackOn(s1, owner), t)
  {
    var s' := BackOn(s1, owner);
    forall o ensures RequestsOf(s', o) == RequestsOf(s, o) {
    }
    forall u | u != t ensures PhaseOf(s', u) == PhaseOf(s, u) {
      assert PhaseOf(s1, u) == PhaseOf(s, u);
    }
  }

  lemma BackOnWithTables(s: State, s': State, t: ThreadId, tables: Tables, ph: Phase, owner: int)
    requires GlobalOk(s) && s' == BackOn(Move(s.(tables := tables), t, ph), owner)
    requires Coherent(tables, s.cache) && OwnersKept(s.tables, tables)
    requires forall o :: o in s.rowsOff && o != owner ==> RowsDisabledOf(tables, o)
    ensures GlobalOk(s') && Guarantee(s, s', t)
  {
    var s1 := Move(s.(tables := tables), t, ph);
    forall o ensures RequestsOf(s', o) == RequestsOf(s, o) {
    }
    forall u | u != t ensures PhaseOf(s1, u) == PhaseOf(s, u) {
    }
    assert GlobalOk(s');
    BackOnIsFine(s, s1, t, owner);
  }

  // ---------------------------------------------------------------------
  // Resolution steps
  // ---------------------------------------------------------------------

  /** A row of an owner turned off is disabled. */
  lemma RowOfOff(s: State, id: ConnId)
    requires GlobalOk(s) && id in s.tables.conns && s.tables.conns[id].ownerUserId in s.off
    ensures !s.tables.conns[id].isEnabled
  {
    var o := s.tables.conns[id].ownerUserId;
    assert o in s.rowsOff;
    assert RowsDisabledOf(s.tables, o);
  }

  /** Using a connection the table knows, and enabled only if its owner is on. */
  lemma AnsweredOk(s: State, conn: CC.Connection, goal: Goal, drop: bool)
    requires Known(s.tables, conn) && GoalOk(s, conn.id, goal)
    requires goal.Under? && goal.owner in s.off ==> !conn.isEnabled
    ensures ThreadOk(s, Answered(conn, goal, drop))
    ensures goal.Under? ==> SharedOwner(Answered(conn, goal, drop)) == Some(goal.owner)
    ensures !goal.Under? ==> SharedOwner(Answered(conn, goal, drop)) == None
    ensures ExclusiveOwner(Answered(conn, goal, drop)) == None
  {
  }

  /** The step changed the cache and the phase of one thread, not its locks. */
  lemma CacheStepOk(s: State, s': State, t: ThreadId)
    requires Inv(s) && s' == Move(s.(cache := s'.cache), t, PhaseOf(s', t))
    requires Coherent(s.tables, s'.cache) && ThreadOk(s', PhaseOf(s', t))
    requires forall o :: o in s.off ==> CacheDisabledOf(s'.cache, o)
    requires forall o :: o in s.off && o in s.cache.disabledOwners ==> o in s'.cache.disabledOwners
    requires SharedOwner(PhaseOf(s', t)) == SharedOwner(PhaseOf(s, t))
    requires ExclusiveOwner(PhaseOf(s', t)) == ExclusiveOwner(PhaseOf(s, t))
    ensures StepOk(s, s', t)
  {
    OnlyCache(s, s', t, s'.cache, PhaseOf(s', t));
    LocksKept(s, s', t);
  }

  lemma LookupKeepsDisabled(c: CC.State, id: ConnId, now: Time, owners: set<int>)
    requires forall o :: o in owners ==> CacheDisabledOf(c, o)
    ensures forall o :: o in owners ==> CacheDisabledOf(CC.Lookup(c, id, now).0, o)
  {
    forall o | o in owners ensures CacheDisabledOf(CC.Lookup(c, id, now).0, o) {
      assert CacheDisabledOf(c, o);
    }
  }

  /** A hit is used as the table allows. */
  lemma HitOk(s: State, s': State, goal: Goal, drop: bool, id: ConnId, found: Option<CC.Entry>)
    requires GlobalOk(s) && GoalOk(s, id, goal) && s'.tables == s.tables && s'.off == s.off
    requires s'.data == s.data && s'.requests == s.requests && s'.cache.disabledOwners == s.cache.disabledOwners
    requires found.Some? ==> found.value.id == id && found.value in s.cache.entries
    requires Served(s.tables, found).Some? && Served(s.tables, found).value.Found?
    ensures var ph := Answered(Served(s.tables, found).value.conn, goal, drop);
      ThreadOk(s', ph) && ExclusiveOwner(ph) == None
      && SharedOwner(ph) == if goal.Under? then Some(goal.owner) else None
  {
    if goal.Under? && goal.owner in s.off {
      assert CacheDisabledOf(s.cache, goal.owner);
    }
    AnsweredOk(s', Served(s.tables, found).value.conn, goal, drop);
  }

  lemma LookupStep(s: State, t: ThreadId, inp: Input, cfg: CC.Config)
    requires Inv(s) && PhaseOf(s, t).Looking?
    ensures StepOk(s, Resolve(s, t, inp, cfg).0, t)
  {
    var ph := PhaseOf(s, t);
    assert ThreadOk(s, ph);
    var s' := Resolve(s, t, inp, cfg).0;
    if ph.id != NO_ID {
      CoherentLookup(s.tables, s.cache, ph.id, inp.now);
      LookupKeepsDisabled(s.cache, ph.id, inp.now, s.off);
      var (cache, found) := CC.Lookup(s.cache, ph.id, inp.now);
      if Served(s.tables, found).Some? && Served(s.tables, found).value.Found? {
        HitOk(s, s', ph.goal, inp.drop, ph.id, found);
      }
    }
    CacheStepOk(s, s', t);
  }

  lemma ReadStep(s: State, t: ThreadId, inp: Input, cfg: CC.Config)
    requires Inv(s) && (PhaseOf(s, t).Reading? || PhaseOf(s, t).Asking?)
    ensures StepOk(s, Resolve(s, t, inp, cfg).0, t)
  {
    var ph := PhaseOf(s, t);
    assert ThreadOk(s, ph);
    var s' := Resolve(s, t, inp, cfg).0;
    OnlyPhase(s, s', t, PhaseOf(s', t));
    if ph.id in s.tables.conns && s.tables.conns[ph.id].ownerUserId in s.off {
      RowOfOff(s, ph.id);
    }
    LocksKept(s, s', t);
  }

  lemma MemoiseStep(s: State, t: ThreadId, inp: Input, cfg: CC.Config)
    requires Inv(s) && PhaseOf(s, t).Memoising?
    ensures StepOk(s, Resolve(s, t, inp, cfg).0, t)
  {
    var ph := PhaseOf(s, t);
    var row := ph.row;
    assert ThreadOk(s, ph);
    var s' := Resolve(s, t, inp, cfg).0;
    var cache := CC.StoreDB(s.cache, row, inp.now, cfg);
    CoherentStoreDB(s.tables, s.cache, row, inp.now, cfg);
    forall o | o in s.off ensures CacheDisabledOf(cache, o) {
      StoreDBKeepsDisabled(s.cache, row, inp.now, cfg, o);
    }
    OnlyCache(s, s', t, cache, Answered(row, ph.goal, inp.drop));
    AnsweredOk(s', row, ph.goal, inp.drop);
    LocksKept(s, s', t);
  }

  /** A stale read of an owner's row never brings an enabled entry back, as long
      as the owner is marked whenever the read said enabled. */
  lemma StoreDBKeepsDisabled(c: CC.State, row: CC.Connection, now: Time, cfg: CC.Config, o: int)
    requires CacheDisabledOf(c, o)
    requires row.isEnabled && row.ownerUserId == o ==> o in c.disabledOwners
    ensures CacheDisabledOf(CC.StoreDB(c, row, now, cfg), o)
  {
    match CC.StoreDBVerdict(c, row)
    case None =>
    case Some(v) => PutKeepsDisabled(c, row.id, v, now, cfg, o);
  }

  lemma PutKeepsDisabled(c: CC.State, id: ConnId, v: CC.Verdict, now: Time, cfg: CC.Config, o: int)
    requires CacheDisabledOf(c, o) && !CC.IsEnabledFor(v, o)
    ensures CacheDisabledOf(CC.Put(c, id, v, now, cfg), o)
  {
    forall e | e in CC.Put(c, id, v, now, cfg).entries ensures e in c.entries || e == CC.Entry(id, v, now + cfg.ttl) {
    }
  }

  lemma RefuseStep(s: State, t: ThreadId, inp: Input, cfg: CC.Config)
    requires Inv(s) && (PhaseOf(s, t).Refusing? || PhaseOf(s, t).Forgetting?)
    ensures StepOk(s, Resolve(s, t, inp, cfg).0, t)
  {
    var ph := PhaseOf(s, t);
    var s' := Resolve(s, t, inp, cfg).0;
    var v := if ph.Refusing? then CC.Refused(ph.tg) else CC.Unknown;
    var cache := CC.Put(s.cache, ph.id, v, inp.now, cfg);
    CoherentPut(s.tables, s.cache, ph.id, v, inp.now, cfg);
    forall o | o in s.off ensures CacheDisabledOf(cache, o) {
      PutKeepsDisabled(s.cache, ph.id, v, inp.now, cfg, o);
    }
    OnlyCache(s, s', t, cache, GaveUp(ph.goal));
    LocksKept(s, s', t);
  }

  lemma UpsertPhase(s: State, t: ThreadId, inp: Input, cfg: CC.Config)
    requires Inv(s) && PhaseOf(s, t).Upserting?
    ensures var s' := Resolve(s, t, inp, cfg).0; ThreadOk(s', PhaseOf(s', t)) && LocksOk(s')
  {
    var ph := PhaseOf(s, t);
    assert ThreadOk(s, ph);
    var s' := Resolve(s, t, inp, cfg).0;
    UpsertKeepsOwners(s.tables, ph.rep);
    LocksKept(s, s', t);
  }

  lemma UpsertStep(s: State, t: ThreadId, inp: Input, cfg: CC.Config)
    requires Inv(s) && PhaseOf(s, t).Upserting?
    ensures StepOk(s, Resolve(s, t, inp, cfg).0, t)
  {
    var ph := PhaseOf(s, t);
    var s' := Resolve(s, t, inp, cfg).0;
    UpsertPhase(s, t, inp, cfg);
    UpsertKeepsOwners(s.tables, ph.rep);
    var (tables, outcome) := Upsert(s.tables, ph.rep);
    if inp.fail {
      OnlyPhase(s, s', t, GaveUp(ph.goal));
    } else {
      UpsertDisables(s.tables, ph.rep, s.rowsOff);
      if outcome.Found? && outcome.conn.isEnabled {
        BackOnWithTables(s, s', t, tables, PhaseOf(s', t), outcome.conn.ownerUserId);
      } else {
        OnlyTables(s, s', t, tables, PhaseOf(s', t));
      }
    }
  }

  /** An upsert leaves the rows of every owner disabled that were, except those
      of the one it reports enabled. */
  lemma UpsertDisables(tables: Tables, rep: Reported, owners: set<int>)
    requires WellFormedTables(tables)
    requires forall o :: o in owners ==> RowsDisabledOf(tables, o)
    ensures var (tables', outcome) := Upsert(tables, rep);
      forall o :: o in owners && !(outcome.Found? && outcome.conn.isEnabled && outcome.conn.ownerUserId == o) ==>
        RowsDisabledOf(tables', o)
  {
    var (tables', outcome) := Upsert(tables, rep);
    forall o | o in owners && !(outcome.Found? && outcome.conn.isEnabled && outcome.conn.ownerUserId == o)
      ensures RowsDisabledOf(tables', o)
    {
      assert RowsDisabledOf(tables, o);
    }
  }

  lemma PublishStep(s: State, t: ThreadId, inp: Input, cfg: CC.Config)
    requires Inv(s) && PhaseOf(s, t).Publishing?
    ensures StepOk(s, Resolve(s, t, inp, cfg).0, t)
  {
    var ph := PhaseOf(s, t);
    var conn := ph.conn;
    assert ThreadOk(s, ph);
    var s' := Resolve(s, t, inp, cfg).0;
    var cache := CC.Store(s.cache, conn, inp.now, cfg);
    CoherentStore(s.tables, s.cache, conn, inp.now, cfg);
    var marked := if conn.isEnabled then s.cache.disabledOwners - {conn.ownerUserId}
                  else s.cache.disabledOwners + {conn.ownerUserId};
    forall o | o in s.off && !(conn.isEnabled && conn.ownerUserId == o) ensures CacheDisabledOf(cache, o) {
      PutKeepsDisabled(s.cache.(disabledOwners := marked), conn.id, CC.Resolved(conn), inp.now, cfg, o);
    }
    if conn.isEnabled {
      var s1 := Move(s.(cache := cache), t, PhaseOf(s', t));
      assert s' == BackOn(s1, conn.ownerUserId);
      forall p ensures RequestsOf(s', p) == RequestsOf(s, p) {
      }
      assert GlobalOk(s');
      forall u | u != t ensures PhaseOf(s1, u) == PhaseOf(s, u) {
      }
      BackOnIsFine(s, s1, t, conn.ownerUserId);
    } else {
      OnlyCache(s, s', t, cache, PhaseOf(s', t));
    }
    AnsweredOk(s', conn, ph.goal, inp.drop);
    LocksKept(s, s', t);
  }

  // ---------------------------------------------------------------------
  // Lock steps
  // ---------------------------------------------------------------------

  /** The locks after `t` took or gave back the lock of `o`. */
  lemma LockMoved(s: State, s': State, t: ThreadId, o: int, lock: Lock)
    requires LocksOk(s) && s'.locks == s.locks[o := lock]
    requires forall u :: u != t ==> PhaseOf(s', u) == PhaseOf(s, u)
    requires forall u :: u != t ==> (u in lock.readers <==> u in LockOf(s, o).readers)
    requires forall u :: u != t ==> (lock.writer == Some(u) <==> LockOf(s, o).writer == Some(u))
    requires forall p :: p != o ==> SharedOwner(PhaseOf(s, t)) != Some(p) && SharedOwner(PhaseOf(s', t)) != Some(p)
    requires forall p :: p != o ==>
      ExclusiveOwner(PhaseOf(s, t)) != Some(p) && ExclusiveOwner(PhaseOf(s', t)) != Some(p)
    requires t in lock.readers <==> SharedOwner(PhaseOf(s', t)) == Some(o)
    requires lock.writer == Some(t) <==> ExclusiveOwner(PhaseOf(s', t)) == Some(o)
    requires Exclusion(lock)
    ensures LocksOk(s')
  {
    forall p ensures LockOf(s', p) == if p == o then lock else LockOf(s, p) {
    }
    forall p, u: ThreadId
      ensures u in LockOf(s', p).readers <==> SharedOwner(PhaseOf(s', u)) == Some(p)
      ensures LockOf(s', p).writer == Some(u) <==> ExclusiveOwner(PhaseOf(s', u)) == Some(p)
    {
      assert u in LockOf(s, p).readers <==> SharedOwner(PhaseOf(s, u)) == Some(p);
      assert LockOf(s, p).writer == Some(u) <==> ExclusiveOwner(PhaseOf(s, u)) == Some(p);
      if u != t {
        assert PhaseOf(s', u) == PhaseOf(s, u);
      }
    }
  }

  lemma OnlyLock(s: State, s': State, t: ThreadId, locks: map<int, Lock>, ph: Phase)
    requires GlobalOk(s) && s' == Move(s.(locks := locks), t, ph)
    ensures GlobalOk(s') && Guarantee(s, s', t)
  {
    forall o ensures RequestsOf(s', o) == RequestsOf(s, o) {
    }
    forall u | u != t ensures PhaseOf(s', u) == PhaseOf(s, u) {
    }
  }

  lemma CancelStep(s: State, t: ThreadId, inp: Input)
    requires Inv(s) && (PhaseOf(s, t).WaitingShared? || PhaseOf(s, t).WaitingExclusive?) && inp.cancel
    ensures Acquire(s, t, inp).Some? && StepOk(s, Acquire(s, t, inp).value.0, t)
  {
    var s' := Acquire(s, t, inp).value.0;
    OnlyPhase(s, s', t, PhaseOf(s', t));
    LocksKept(s, s', t);
  }

  lemma SharedStep(s: State, t: ThreadId, inp: Input)
    requires Inv(s) && PhaseOf(s, t).WaitingShared? && !inp.cancel
    requires Acquire(s, t, inp).Some?
    ensures StepOk(s, Acquire(s, t, inp).value.0, t)
  {
    var ph := PhaseOf(s, t);
    var o := ph.owner;
    assert ThreadOk(s, ph);
    var s' := Acquire(s, t, inp).value.0;
    var lock := ReadLock(LockOf(s, o), t);
    OnlyLock(s, s', t, s.locks[o := lock], PhaseOf(s', t));
    assert LockOf(s, o).writer != Some(t);
    LockMoved(s, s', t, o, lock);
  }

  lemma ExclusiveStep(s: State, t: ThreadId, inp: Input)
    requires Inv(s)
    requires PhaseOf(s, t).AbandonedExclusive? || (PhaseOf(s, t).WaitingExclusive? && !inp.cancel)
    requires Acquire(s, t, inp).Some?
    ensures StepOk(s, Acquire(s, t, inp).value.0, t)
  {
    var ph := PhaseOf(s, t);
    var o := ph.owner;
    var s' := Acquire(s, t, inp).value.0;
    var lock := WriteLock(LockOf(s, o), t);
    OnlyLock(s, s', t, s.locks[o := lock], PhaseOf(s', t));
    assert t !in LockOf(s, o).readers;
    LockMoved(s, s', t, o, lock);
  }

  lemma AcquireStep(s: State, t: ThreadId, inp: Input)
    requires Inv(s)
    requires var ph := PhaseOf(s, t); ph.WaitingShared? || ph.WaitingExclusive? || ph.AbandonedExclusive?
    requires Acquire(s, t, inp).Some?
    ensures StepOk(s, Acquire(s, t, inp).value.0, t)
  {
    if !PhaseOf(s, t).AbandonedExclusive? && inp.cancel {
      CancelStep(s, t, inp);
    } else if PhaseOf(s, t).WaitingShared? {
      SharedStep(s, t, inp);
    } else {
      ExclusiveStep(s, t, inp);
    }
  }

  lemma ReleaseStep(s: State, t: ThreadId)
    requires Inv(s)
    requires var ph := PhaseOf(s, t); ph.Releasing? || ph.ReleasingExclusive?
    ensures StepOk(s, Release(s, t), t)
  {
    var ph := PhaseOf(s, t);
    var o := ph.owner;
    var s' := Release(s, t);
    var lock := if ph.Releasing? then ReadUnlock(LockOf(s, o), t) else WriteUnlock(LockOf(s, o));
    assert t in LockOf(s, o).readers <==> ph.Releasing?;
    assert LockOf(s, o).writer == Some(t) <==> ph.ReleasingExclusive?;
    assert Exclusion(LockOf(s, o));
    OnlyLock(s, s', t, s.locks[o := lock], Idle);
    LockMoved(s, s', t, o, lock);
  }

  // ---------------------------------------------------------------------
  // Units under the shared lock
  // ---------------------------------------------------------------------

  ghost predicate IsUnit(ph: Phase) {
    SharedOwner(ph).Some? && !Resolving(ph) && !ph.Releasing? && !ph.Issuing?
  }

  /** What a unit writes belongs to the tenant whose lock it holds. */
  lemma UnitGrowth(s: State, t: ThreadId, inp: Input)
    requires Inv(s) && IsUnit(PhaseOf(s, t)) && UnitStep(s, t, inp).Some?
    ensures var s' := UnitStep(s, t, inp).value.0;
      && s' == Move(s.(data := s'.data), t, PhaseOf(s', t))
      && forall o :: SharedOwner(PhaseOf(s, t)) != Some(o) ==> GrowsNothing(s.data, s'.data, o)
  {
    assert ThreadOk(s, PhaseOf(s, t));
  }

  /** ... and never to one whose erasure stands. */
  lemma UnitLeavesErasedEmpty(s: State, t: ThreadId, inp: Input, o: int)
    requires Inv(s) && IsUnit(PhaseOf(s, t)) && UnitStep(s, t, inp).Some? && o in s.erased
    ensures Empty(UnitStep(s, t, inp).value.0.data, o)
  {
    assert ThreadOk(s, PhaseOf(s, t));
    assert Empty(s.data, o) && o in s.off;
  }

  lemma UnitPhase(s: State, t: ThreadId, inp: Input)
    requires Inv(s) && IsUnit(PhaseOf(s, t)) && UnitStep(s, t, inp).Some?
    ensures var s' := UnitStep(s, t, inp).value.0;
      && SharedOwner(PhaseOf(s', t)) == SharedOwner(PhaseOf(s, t))
      && ExclusiveOwner(PhaseOf(s', t)) == ExclusiveOwner(PhaseOf(s, t))
      && ThreadOk(s', PhaseOf(s', t))
  {
    var ph := PhaseOf(s, t);
    assert ThreadOk(s, ph);
    var o := SharedOwner(ph).value;
    if o in s.erased {
      assert Empty(s.data, o);
    }
  }

  /** The step changed the data and the phase of one thread, not its locks; it
      left erased tenants empty and grew no tenant but the one it holds. */
  ghost predicate OnlyDataMoved(s: State, s': State, t: ThreadId) {
    && s' == Move(s.(data := s'.data), t, PhaseOf(s', t))
    && (forall o :: o in s.erased ==> Empty(s'.data, o))
    && (forall o :: SharedOwner(PhaseOf(s, t)) != Some(o) ==> GrowsNothing(s.data, s'.data, o))
    && SharedOwner(PhaseOf(s', t)) == SharedOwner(PhaseOf(s, t))
    && ExclusiveOwner(PhaseOf(s', t)) == ExclusiveOwner(PhaseOf(s, t))
    && ThreadOk(s', PhaseOf(s', t))
  }

  lemma DataStepOk(s: State, s': State, t: ThreadId)
    requires Inv(s) && OnlyDataMoved(s, s', t)
    ensures StepOk(s, s', t)
  {
    OnlyData(s, s', t, s'.data, PhaseOf(s', t));
    LocksKept(s, s', t);
  }

  lemma UnitStepOk(s: State, t: ThreadId, inp: Input)
    requires Inv(s) && IsUnit(PhaseOf(s, t)) && UnitStep(s, t, inp).Some?
    ensures StepOk(s, UnitStep(s, t, inp).value.0, t)
  {
    var s' := UnitStep(s, t, inp).value.0;
    UnitGrowth(s, t, inp);
    UnitPhase(s, t, inp);
    forall o | o in s.erased ensures Empty(s'.data, o) {
      UnitLeavesErasedEmpty(s, t, inp, o);
    }
    DataStepOk(s, s', t);
  }

  lemma IssueStep(s: State, t: ThreadId, inp: Input)
    requires Inv(s) && PhaseOf(s, t).Issuing?
    ensures UnitStep(s, t, inp).Some? && StepOk(s, UnitStep(s, t, inp).value.0, t)
  {
    var ph := PhaseOf(s, t);
    var s' := UnitStep(s, t, inp).value.0;
    var rows := RequestsOf(s, ph.owner);
    var issued := ER.Issue(rows, ph.hash, ph.tg, ph.via, inp.now);
    ER.IssueKeepsUnique(rows, ph.hash, ph.tg, ph.via, inp.now);
    if !inp.fail && issued.Some? {
      OnlyRequests(s, s', t, ph.owner, issued.value, Releasing(ph.owner));
    } else {
      OnlyPhase(s, s', t, Releasing(ph.owner));
    }
    LocksKept(s, s', t);
  }

  // ---------------------------------------------------------------------
  // The erasure
  // ---------------------------------------------------------------------

  lemma ClaimStep(s: State, t: ThreadId, inp: Input)
    requires Inv(s) && PhaseOf(s, t).Erasing? && PhaseOf(s, t).stage.AtClaim? && !inp.fail
    ensures StepOk(s, Erase(s, t, inp).0, t)
  {
    var ph := PhaseOf(s, t);
    var s' := Erase(s, t, inp).0;
    var rows := RequestsOf(s, ph.owner);
    ER.ClaimKeepsUnique(rows, ph.hash, inp.now);
    ClaimSpends(rows, ph.hash, inp.now);
    OnlyRequests(s, s', t, ph.owner, ER.Claim(rows, ph.hash, inp.now).0, PhaseOf(s', t));
    LocksKept(s, s', t);
  }

  lemma ClaimSpends(rows: seq<ER.Request>, hash: ER.Hash, now: Time)
    ensures var (after, claim) := ER.Claim(rows, hash, now);
      claim.ClaimGranted? || claim.ClaimResumable? ==> Spent(after, hash)
  {
    var h := ER.HashAt(rows, hash);
    var after := ER.Claim(rows, hash, now).0;
    if h < |rows| {
      assert after[h].hash == hash;
      assert forall j :: 0 <= j < h ==> after[j] == rows[j];
    }
  }

  lemma DeleteOthersStep(s: State, t: ThreadId, inp: Input)
    requires Inv(s) && PhaseOf(s, t).Erasing? && PhaseOf(s, t).stage.AtOthers? && !inp.fail
    ensures StepOk(s, Erase(s, t, inp).0, t)
  {
    var ph := PhaseOf(s, t);
    assert ThreadOk(s, ph);
    var s' := Erase(s, t, inp).0;
    var rows := RequestsOf(s, ph.owner);
    var kept := ER.DeleteOthers(rows, ph.hash);
    ER.DeleteOthersKeepsUnique(rows, ph.hash);
    ER.DeleteOthersLeavesOne(rows, ph.hash);
    assert Spent(kept, ph.hash);
    OnlyRequests(s, s', t, ph.owner, kept, PhaseOf(s', t));
    LocksKept(s, s', t);
  }

  lemma DisableRowsStep(s: State, t: ThreadId, inp: Input)
    requires Inv(s) && PhaseOf(s, t).Erasing? && PhaseOf(s, t).stage.AtDisableRows? && !inp.fail
    ensures StepOk(s, Erase(s, t, inp).0, t)
  {
    var ph := PhaseOf(s, t);
    assert ThreadOk(s, ph);
    var s' := Erase(s, t, inp).0;
    forall o ensures RequestsOf(s', o) == RequestsOf(s, o) {
    }
    forall u | u != t ensures PhaseOf(s', u) == PhaseOf(s, u) {
    }
    LocksKept(s, s', t);
    DisableRowsKeepsOwners(s.tables, ph.owner);
    forall o | o in s'.rowsOff ensures RowsDisabledOf(s'.tables, o) {
      if o in s.rowsOff {
        assert RowsDisabledOf(s.tables, o);
      }
    }
  }

  lemma DisableCacheStep(s: State, t: ThreadId, inp: Input)
    requires Inv(s) && PhaseOf(s, t).Erasing? && PhaseOf(s, t).stage.AtDisableCache?
    ensures StepOk(s, Erase(s, t, inp).0, t)
  {
    var ph := PhaseOf(s, t);
    assert ThreadOk(s, ph);
    var s' := Erase(s, t, inp).0;
    forall o ensures RequestsOf(s', o) == RequestsOf(s, o) {
    }
    forall u | u != t ensures PhaseOf(s', u) == PhaseOf(s, u) {
    }
    LocksKept(s, s', t);
    DisableCacheCoherent(s.tables, s.cache, ph.owner);
    forall o | o in s'.off ensures CacheDisabledOf(s'.cache, o) {
      if o in s.off {
        assert CacheDisabledOf(s.cache, o);
      }
      DisableOwnerDisables(s.cache, ph.owner, o);
    }
  }

  lemma DisableCacheCoherent(tables: Tables, cache: CC.State, owner: int)
    requires Coherent(tables, cache)
    ensures Coherent(tables, CC.DisableOwner(cache, owner))
  {
    forall e | e in CC.DisableOwner(cache, owner).entries && e.verdict.Resolved?
      ensures e.id == e.verdict.conn.id && Known(tables, e.verdict.conn)
    {
      var i :| 0 <= i < |cache.entries| && CC.Patched(cache.entries, owner)[i] == e;
      assert cache.entries[i] in cache.entries;
    }
  }

  lemma DisableOwnerDisables(cache: CC.State, owner: int, o: int)
    requires o == owner || CacheDisabledOf(cache, o)
    ensures CacheDisabledOf(CC.DisableOwner(cache, owner), o)
  {
    forall e | e in CC.DisableOwner(cache, owner).entries ensures !CC.IsEnabledFor(e.verdict, o) {
      var i :| 0 <= i < |cache.entries| && CC.Patched(cache.entries, owner)[i] == e;
      assert cache.entries[i] in cache.entries;
    }
  }

  ghost predicate Deletes(s: State, t: ThreadId, inp: Input) {
    && PhaseOf(s, t).Erasing? && 3 <= Rank(PhaseOf(s, t).stage) <= 7
    && (!inp.fail || PhaseOf(s, t).stage.AtTree?)
  }

  /** The steps that delete touch only the data, and only to delete. */
  lemma EraseData(s: State, t: ThreadId, inp: Input)
    requires Deletes(s, t, inp)
    ensures var s' := Erase(s, t, inp).0;
      s' == Move(s.(data := s'.data), t, PhaseOf(s', t)) && forall o :: GrowsNothing(s.data, s'.data, o)
  {
  }

  lemma EraseKeepsLocks(s: State, t: ThreadId, inp: Input)
    requires Deletes(s, t, inp)
    ensures var s' := Erase(s, t, inp).0;
      && SharedOwner(PhaseOf(s', t)) == SharedOwner(PhaseOf(s, t))
      && ExclusiveOwner(PhaseOf(s', t)) == ExclusiveOwner(PhaseOf(s, t))
  {
  }

  lemma ErasePhase(s: State, t: ThreadId, inp: Input)
    requires Inv(s) && Deletes(s, t, inp)
    ensures var s' := Erase(s, t, inp).0; ThreadOk(s', PhaseOf(s', t))
  {
    var ph := PhaseOf(s, t);
    assert ThreadOk(s, ph);
    assert RequestsOf(Erase(s, t, inp).0, ph.owner) == RequestsOf(s, ph.owner);
  }

  lemma EmptyStaysEmpty(data: Data, data': Data, o: int)
    requires Empty(data, o) && GrowsNothing(data, data', o)
    ensures Empty(data', o)
  {
  }

  lemma EraseDataStep(s: State, t: ThreadId, inp: Input)
    requires Inv(s) && Deletes(s, t, inp)
    ensures StepOk(s, Erase(s, t, inp).0, t)
  {
    var s' := Erase(s, t, inp).0;
    EraseData(s, t, inp);
    EraseKeepsLocks(s, t, inp);
    ErasePhase(s, t, inp);
    forall o | o in s.erased ensures Empty(s'.data, o) {
      EmptyStaysEmpty(s.data, s'.data, o);
    }
    DataStepOk(s, s', t);
  }

  lemma OnlyCompletion(
    s: State, s': State, t: ThreadId, owner: int, rows: seq<ER.Request>, erased: set<int>, ph: Phase)
    requires GlobalOk(s) && s' == Move(s.(requests := s.requests[owner := rows], erased := erased), t, ph)
    requires ER.Unique(rows) && Excludes(s, t, owner)
    requires erased == s.erased || (erased == s.erased + {owner} && owner in s.off && Empty(s.data, owner))
    ensures GlobalOk(s') && Guarantee(s, s', t)
  {
    forall o ensures RequestsOf(s', o) == if o == owner then rows else RequestsOf(s, o) {
    }
    forall u | u != t ensures PhaseOf(s', u) == PhaseOf(s, u) {
    }
  }

  lemma CompleteStep(s: State, t: ThreadId, inp: Input)
    requires Inv(s) && PhaseOf(s, t).Erasing? && PhaseOf(s, t).stage.AtComplete? && !inp.fail
    ensures StepOk(s, Erase(s, t, inp).0, t)
  {
    var ph := PhaseOf(s, t);
    assert ThreadOk(s, ph);
    var s' := Erase(s, t, inp).0;
    var rows := RequestsOf(s, ph.owner);
    ER.ClaimKeepsUnique(rows, ph.hash, inp.now);
    OnlyCompletion(s, s', t, ph.owner, ER.Complete(rows, ph.hash, inp.now), s'.erased, ReleasingExclusive(ph.owner));
    LocksKept(s, s', t);
  }

  lemma EraseStep(s: State, t: ThreadId, inp: Input)
    requires Inv(s) && PhaseOf(s, t).Erasing?
    ensures StepOk(s, Erase(s, t, inp).0, t)
  {
    var ph := PhaseOf(s, t);
    if inp.fail && !ph.stage.AtDisableCache? && !ph.stage.AtTree? {
      var s' := Erase(s, t, inp).0;
      OnlyPhase(s, s', t, ReleasingExclusive(ph.owner));
      LocksKept(s, s', t);
    } else {
      match ph.stage
      case AtClaim => ClaimStep(s, t, inp);
      case AtOthers => DeleteOthersStep(s, t, inp);
      case AtDisableRows => DisableRowsStep(s, t, inp);
      case AtDisableCache => DisableCacheStep(s, t, inp);
      case AtComplete => CompleteStep(s, t, inp);
      case _ => EraseDataStep(s, t, inp);
    }
  }

  // ---------------------------------------------------------------------
  // Every reachable state
  // ---------------------------------------------------------------------

  lemma ResolveStep(s: State, t: ThreadId, inp: Input, cfg: CC.Config)
    requires Inv(s) && Resolving(PhaseOf(s, t))
    ensures StepOk(s, Resolve(s, t, inp, cfg).0, t)
  {
    match PhaseOf(s, t)
    case Looking(_, _) => LookupStep(s, t, inp, cfg);
    case Reading(_, _) => ReadStep(s, t, inp, cfg);
    case Asking(_, _) => ReadStep(s, t, inp, cfg);
    case Memoising(_, _) => MemoiseStep(s, t, inp, cfg);
    case Refusing(_, _, _) => RefuseStep(s, t, inp, cfg);
    case Forgetting(_, _) => RefuseStep(s, t, inp, cfg);
    case Upserting(_, _) => UpsertStep(s, t, inp, cfg);
    case Publishing(_, _) => PublishStep(s, t, inp, cfg);
  }

  lemma ThreadStepOk(s: State, t: ThreadId, inp: Input, cfg: CC.Config)
    requires Inv(s) && Step(s, t, inp, cfg).Some?
    ensures StepOk(s, Step(s, t, inp, cfg).value.0, t)
  {
    var ph := PhaseOf(s, t);
    if ph.Idle? {
      OnlyPhase(s, Move(s, t, inp.start), t, inp.start);
      LocksKept(s, Move(s, t, inp.start), t);
    } else if ph.WaitingShared? || ph.WaitingExclusive? || ph.AbandonedExclusive? {
      AcquireStep(s, t, inp);
    } else if ph.Releasing? || ph.ReleasingExclusive? {
      ReleaseStep(s, t);
    } else if ph.Erasing? {
      EraseStep(s, t, inp);
    } else if Resolving(ph) {
      ResolveStep(s, t, inp, cfg);
    } else if ph.Issuing? {
      IssueStep(s, t, inp);
    } else {
      UnitStepOk(s, t, inp);
    }
  }

  lemma CrashKeepsInv(s: State)
    requires Inv(s)
    ensures Inv(Crash(s))
  {
    var s' := Crash(s);
    forall o ensures RequestsOf(s', o) == RequestsOf(s, o) {
    }
  }

  lemma RetireKeepsInv(s: State, owner: int, picked: set<nat>)
    requires Inv(s)
    ensures Inv(Retire(s, owner, picked))
  {
    var s' := Retire(s, owner, picked);
    forall o ensures RequestsOf(s', o) == RequestsOf(s, o) && LockOf(s', o) == LockOf(s, o) {
    }
    forall u ensures PhaseOf(s', u) == PhaseOf(s, u) && ThreadOk(s', PhaseOf(s', u)) {
      assert ThreadOk(s, PhaseOf(s, u));
    }
    forall o | o in s'.erased ensures Empty(s'.data, o) {
      assert Empty(s.data, o);
    }
  }

  lemma NextKeepsInv(s: State, ev: Event, s': State, shown: Label, cfg: CC.Config)
    requires Inv(s) && Next(s, ev, s', shown, cfg)
    ensures Inv(s')
  {
    match ev
    case ThreadEvent(t, inp) =>
      ThreadStepOk(s, t, inp, cfg);
      StepOkKeepsInv(s, s', t);
    case CrashEvent => CrashKeepsInv(s);
    case RetireEvent(owner, picked) => RetireKeepsInv(s, owner, picked);
  }

  // ---------------------------------------------------------------------
  // Theorems
  // ---------------------------------------------------------------------

  /** While an erasure of a tenant runs, no unit of that tenant does, and no
      second erasure of it. */
  lemma ErasureRunsAlone(s: State, t: ThreadId, u: ThreadId, o: int)
    requires Inv(s) && Excludes(s, t, o) && u != t
    ensures !Holds(s, u, o)
  {
    NobodyElseUnderExclusion(s, t, u, o);
  }

  /** No acquisition is ever leaked, cancelled waits included: once every thread
      is idle, every lock is free. */
  lemma NoLockIsLeaked(s: State, o: int)
    requires Inv(s) && forall t :: PhaseOf(s, t).Idle?
    ensures LockOf(s, o) == FREE
  {
    var lock := LockOf(s, o);
    forall t: ThreadId ensures t !in lock.readers {
      assert t in lock.readers <==> SharedOwner(PhaseOf(s, t)) == Some(o);
    }
    var holder := if lock.writer.Some? then lock.writer.value else 0;
    assert lock.writer == Some(holder) <==> ExclusiveOwner(PhaseOf(s, holder)) == Some(o);
  }

  /** Rows and files of a tenant only appear by a step of a thread that holds the
      shared lock of that very tenant. */
  lemma WritesStayInTheirTenant(s: State, t: ThreadId, inp: Input, cfg: CC.Config, o: int)
    requires Inv(s) && Step(s, t, inp, cfg).Some?
    ensures var s' := Step(s, t, inp, cfg).value.0;
      !GrowsNothing(s.data, s'.data, o) ==> SharedOwner(PhaseOf(s, t)) == Some(o) && o !in s.erased
  {
    ThreadStepOk(s, t, inp, cfg);
    var s' := Step(s, t, inp, cfg).value.0;
    if o in s.erased && SharedOwner(PhaseOf(s, t)) == Some(o) {
      NothingGrowsOnceErased(s, t, inp, cfg, o);
    }
  }

  /** One row more at most. */
  ghost predicate Adds(rows: set<Row>, rows': set<Row>, owner: int, key: nat, added: bool) {
    forall r: Row :: r in rows' <==> r in rows || (added && r.owner == owner && r.key == key)
  }

  /** Rows and files of the owner picked, gone. */
  ghost predicate Drops(rows: set<Row>, rows': set<Row>, owner: int, picked: set<nat>) {
    forall r: Row :: r in rows' <==> r in rows && !(r.owner == owner && r.key in picked)
  }

  /** What a unit of `o` does to the stores: a save adds the message and its chat
      label, a catalogue pass a media row, a mark an alert of each picked message
      that is saved, a fetch a file, and a purge takes picked rows and files away. */
  ghost predicate UnitWrites(ph: Phase, inp: Input, o: int, d: Data, d': Data) {
    if ph.Purging? then
      && Drops(d.messages, d'.messages, o, inp.picked) && Drops(d.outbox, d'.outbox, o, inp.picked)
      && Drops(d.media, d'.media, o, inp.picked) && Drops(d.disk, d'.disk, o, inp.picked) && d'.chats == d.chats
    else
      && Adds(d.messages, d'.messages, o, inp.key, ph.Saving? && !inp.fail)
      && Adds(d.chats, d'.chats, o, inp.key, ph.Saving? && !inp.fail)
      && Adds(d.media, d'.media, o, inp.key, ph.Cataloguing? && inp.more && !inp.fail)
      && Adds(d.disk, d'.disk, o, inp.key, ph.Fetching? && ph.batch != {} && !inp.cancel && !inp.fail)
      && forall r: Row :: r in d'.outbox <==>
        r in d.outbox || (ph.Marking? && !inp.fail && r.owner == o && r in d.messages && r.key in inp.picked)
  }

  /** Every unit under the shared lock writes just that, for the tenant whose lock
      it holds. Only media rows of the tenant are fetched, each once; only an alert
      in its outbox is delivered, and nothing but a delivery sends one. */
  lemma WhatAUnitWrites(s: State, t: ThreadId, inp: Input, o: int)
    requires Inv(s) && SharedOwner(PhaseOf(s, t)) == Some(o) && !Resolving(PhaseOf(s, t)) && !PhaseOf(s, t).Releasing?
    requires UnitStep(s, t, inp).Some?
    ensures UnitWrites(PhaseOf(s, t), inp, o, s.data, UnitStep(s, t, inp).value.0.data)
    ensures UnitStep(s, t, inp).value.1 == if PhaseOf(s, t).Delivering? && !inp.fail then AlertSent(o) else Quiet
    ensures var ph, ph' := PhaseOf(s, t), PhaseOf(UnitStep(s, t, inp).value.0, t);
      && (ph'.Fetching? && ph.Listing? ==> forall k :: k in ph'.batch ==> Row(o, k) in s.data.media)
      && (ph'.Fetching? && ph.Fetching? ==> inp.key in ph.batch && ph'.batch == ph.batch - {inp.key})
      && (ph.Fetching? && ph.batch != {} && !inp.cancel ==> ph' == Fetching(o, ph.batch - {inp.key}))
      && (ph'.Delivering? ==> Row(o, ph'.key) in s.data.outbox)
      && (ph.Listing? && !inp.fail ==>
        forall k :: k in inp.picked && Row(o, k) in s.data.media ==> ph'.Fetching? && k in ph'.batch)
      && (ph.Claiming? && !inp.fail && Row(o, inp.key) in s.data.outbox ==> ph' == Delivering(o, inp.key))
  {
    assert ThreadOk(s, PhaseOf(s, t));
  }

  /** A code is issued, under the shared lock, unless its hash is spent: it is then
      pending, for ten minutes, and no other code of the tenant is. */
  lemma WhatAnIssueWrites(s: State, t: ThreadId, inp: Input)
    requires Inv(s) && PhaseOf(s, t).Issuing? && !inp.fail
    ensures UnitStep(s, t, inp).Some?
    ensures var ph, rows, rows' := PhaseOf(s, t), RequestsOf(s, PhaseOf(s, t).owner),
                                   RequestsOf(UnitStep(s, t, inp).value.0, PhaseOf(s, t).owner);
      if exists x :: x in rows && x.hash == ph.hash && x.status != ER.Pending then rows' == rows
      else forall x :: x in rows' <==>
        x == ER.Request(ph.hash, ER.Pending, Some(ph.tg), Some(ph.via), inp.now + 600, None, None)
        || (x in rows && x.status != ER.Pending)
  {
    var ph := PhaseOf(s, t);
    ER.AFreshCodeReplacesThePending(RequestsOf(s, ph.owner), ph.hash, ph.tg, ph.via, inp.now);
  }

  /** What a resolution leads to: a message is saved only under a connection that is
      enabled and within the quota, and then under the shared lock of its holder,
      once a second resolution under that lock found it enabled still; a deletion
      is handled whether or not it is. */
  lemma WhatAResolutionLeadsTo(conn: CC.Connection, o: int, drop: bool)
    ensures Answered(conn, First(SaveJob), drop) ==
      if conn.isEnabled && !drop then WaitingShared(conn.ownerUserId, SaveWork(conn.id)) else Idle
    ensures Answered(conn, Under(o, SaveJob), drop) == if conn.isEnabled then Saving(o, conn) else Releasing(o)
    ensures Answered(conn, First(MarkJob), drop) == WaitingShared(conn.ownerUserId, MarkWork(conn.id))
    ensures Answered(conn, Under(o, MarkJob), drop) == Marking(o, conn)
    ensures Answered(conn, Plain, drop) == Answered(conn, Lifecycle, drop) == Idle
  {
  }

  /** What a thread that waited for the shared lock does once it holds it. */
  lemma WhatALockStarts(s: State, t: ThreadId, inp: Input, o: int, work: Work)
    requires PhaseOf(s, t) == WaitingShared(o, work) && !inp.cancel && LockOf(s, o).writer == None
    ensures Acquire(s, t, inp).Some?
    ensures var s' := Acquire(s, t, inp).value.0;
      && t in LockOf(s', o).readers
      && PhaseOf(s', t) == match work {
           case SaveWork(id) => Looking(id, Under(o, SaveJob))
           case MarkWork(id) => Looking(id, Under(o, MarkJob))
           case FetchWork => Listing(o)
           case OutboxWork => Claiming(o)
           case RetentionWork => Purging(o)
           case RequestWork(hash, tg, via) => Issuing(o, hash, tg, via)
           case Abandoned => Releasing(o)
         }
  {
  }

  /** Giving up a wait leaves the acquisition behind: once it goes through, on either
      side, the lock is given back at once and nothing is done under it. */
  lemma WhatACancelledWaitLeaves(s: State, t: ThreadId, inp: Input, next: Input, o: int)
    requires inp.cancel && !next.cancel && (PhaseOf(s, t).WaitingShared? || PhaseOf(s, t).WaitingExclusive?)
    requires PhaseOf(s, t).owner == o && CanExclude(LockOf(s, o))
    ensures Acquire(s, t, inp).Some?
    ensures var s1 := Acquire(s, t, inp).value.0;
      && s1 == s.(threads := s1.threads)
      && (PhaseOf(s1, t).WaitingShared? || PhaseOf(s1, t).AbandonedExclusive?) && Acquire(s1, t, next).Some?
      && var s2 := Acquire(s1, t, next).value.0;
         && (PhaseOf(s2, t) == Releasing(o) || PhaseOf(s2, t) == ReleasingExclusive(o))
         && LockOf(s2, o) != FREE && LockOf(Release(s2, t), o) == FREE && PhaseOf(Release(s2, t), t) == Idle
  {
  }

  /** Retention takes picked messages and alerts of its tenant, under no lock. */
  lemma WhatRetentionTakes(s: State, owner: int, picked: set<nat>)
    ensures var s' := Retire(s, owner, picked);
      && s' == s.(data := s.data.(messages := s'.data.messages, outbox := s'.data.outbox))
      && Drops(s.data.messages, s'.data.messages, owner, picked) && Drops(s.data.outbox, s'.data.outbox, owner, picked)
  {
  }

  /** What an idle thread may take up: the resolution of an update, a lifecycle
      update, and, each behind its lock, a fetch, an outbox cycle, retention, a
      code request, a confirmation. */
  lemma WhatMayStart(s: State, t: ThreadId, inp: Input, cfg: CC.Config)
    requires PhaseOf(s, t).Idle?
    ensures (inp.start.Looking? && (inp.start.goal.Plain? || inp.start.goal.First?))
      || (inp.start.Upserting? && inp.start.goal.Lifecycle?)
      || (inp.start.WaitingShared? && (inp.start.work.FetchWork? || inp.start.work.OutboxWork?
          || inp.start.work.RetentionWork? || inp.start.work.RequestWork?))
      || inp.start.WaitingExclusive?
      ==> Step(s, t, inp, cfg) == Some((s.(threads := s.threads[t := inp.start]), Quiet))
  {
  }

  // ---------------------------------------------------------------------
  // A resolution undisturbed
  // ---------------------------------------------------------------------

  /** The steps of a thread until its resolution is over, `n` at most. */
  function Undisturbed(s: State, t: ThreadId, inp: Input, cfg: CC.Config, n: nat): State
    decreases n
  {
    if n == 0 || !Resolving(PhaseOf(s, t)) then s
    else Undisturbed(Resolve(s, t, inp, cfg).0, t, inp, cfg, n - 1)
  }

  lemma TwoSteps(s: State, t: ThreadId, inp: Input, cfg: CC.Config, n: nat)
    requires n > 1 && Resolving(PhaseOf(s, t)) && Resolving(PhaseOf(Resolve(s, t, inp, cfg).0, t))
    requires var s2 := Resolve(Resolve(s, t, inp, cfg).0, t, inp, cfg).0; !Resolving(PhaseOf(s2, t))
    ensures Undisturbed(s, t, inp, cfg, n) == Resolve(Resolve(s, t, inp, cfg).0, t, inp, cfg).0
  {
    var s1 := Resolve(s, t, inp, cfg).0;
    assert Undisturbed(s, t, inp, cfg, n) == Undisturbed(s1, t, inp, cfg, n - 1);
    assert Undisturbed(s1, t, inp, cfg, n - 1) == Undisturbed(Resolve(s1, t, inp, cfg).0, t, inp, cfg, n - 2);
  }

  /** The thread is done: it left these tables and this cache, touched no other
      store, and goes on as the outcome has it. */
  ghost predicate EndsAs(
    s: State, s': State, t: ThreadId, goal: Goal, drop: bool, tables: Tables, cache: CC.State, outcome: Outcome)
  {
    && s'.tables == tables && s'.cache == cache
    && s'.data == s.data && s'.requests == s.requests && s'.locks == s.locks
    && s'.threads == s.threads[t := if outcome.Found? then Answered(outcome.conn, goal, drop) else GaveUp(goal)]
  }

  lemma PublishingAlone(s: State, t: ThreadId, inp: Input, cfg: CC.Config, conn: CC.Connection, goal: Goal, n: nat)
    requires PhaseOf(s, t) == Publishing(conn, goal) && n > 0 && !Resolving(Answered(conn, goal, inp.drop))
    ensures EndsAs(s, Undisturbed(s, t, inp, cfg, n), t, goal, inp.drop, s.tables,
                   CC.Store(s.cache, conn, inp.now, cfg), Found(conn))
  {
    var s1 := Resolve(s, t, inp, cfg).0;
    assert PhaseOf(s1, t) == Answered(conn, goal, inp.drop);
  }

  lemma AnswersAreNoResolutions(conn: CC.Connection, goal: Goal, drop: bool)
    ensures !Resolving(Answered(conn, goal, drop)) && !Resolving(GaveUp(goal))
  {
  }

  lemma UpsertingAlone(s: State, t: ThreadId, inp: Input, cfg: CC.Config, rep: Reported, goal: Goal, n: nat)
    requires PhaseOf(s, t) == Upserting(rep, goal) && n > 1 && !inp.fail && !goal.Lifecycle?
    ensures var (tables, outcome) := Upsert(s.tables, rep);
      var cache := match outcome
        case Found(conn) => CC.Store(s.cache, conn, inp.now, cfg)
        case Failed(e) =>
          if e.OwnerNotAllowed? then CC.Put(s.cache, rep.id, CC.Refused(rep.telegramUserId), inp.now, cfg) else s.cache;
      EndsAs(s, Undisturbed(s, t, inp, cfg, n), t, goal, inp.drop, tables, cache, outcome)
  {
    var (tables, outcome) := Upsert(s.tables, rep);
    var s1 := Resolve(s, t, inp, cfg).0;
    match outcome
    case Found(conn) =>
      AnswersAreNoResolutions(conn, goal, inp.drop);
      PublishingAlone(s1, t, inp, cfg, conn, goal, n - 1);
    case Failed(e) =>
      if e.OwnerNotAllowed? {
        TwoSteps(s, t, inp, cfg, n);
      } else {
        assert PhaseOf(s1, t) == GaveUp(goal);
      }
  }

  lemma AskingAlone(s: State, t: ThreadId, inp: Input, cfg: CC.Config, id: ConnId, goal: Goal, n: nat)
    requires PhaseOf(s, t) == Asking(id, goal) && n > 2 && !inp.fail && !goal.Lifecycle?
    ensures var (tables, cache, outcome) := FromApi(s.tables, s.cache, id, inp.now, inp.api, cfg);
      EndsAs(s, Undisturbed(s, t, inp, cfg, n), t, goal, inp.drop, tables, cache, outcome)
  {
    var s1 := Resolve(s, t, inp, cfg).0;
    match inp.api
    case BadRequest =>
      TwoSteps(s, t, inp, cfg, n);
    case ApiFailure =>
    case Described(rep) =>
      if rep.id == id {
        UpsertingAlone(s1, t, inp, cfg, rep, goal, n - 1);
      }
  }

  lemma ReadingAlone(s: State, t: ThreadId, inp: Input, cfg: CC.Config, id: ConnId, goal: Goal, n: nat)
    requires PhaseOf(s, t) == Reading(id, goal) && n > 3 && !goal.Lifecycle?
    ensures var (tables, cache, outcome) :=
        if inp.fail then (s.tables, s.cache, Failed(Transient))
        else if id in s.tables.conns then FromRow(s.tables, s.cache, id, inp.now, cfg)
        else FromApi(s.tables, s.cache, id, inp.now, inp.api, cfg);
      EndsAs(s, Undisturbed(s, t, inp, cfg, n), t, goal, inp.drop, tables, cache, outcome)
  {
    var s1 := Resolve(s, t, inp, cfg).0;
    if !inp.fail {
      if id in s.tables.conns {
        AnswersAreNoResolutions(s.tables.conns[id], goal, inp.drop);
        TwoSteps(s, t, inp, cfg, n);
      } else {
        AskingAlone(s1, t, inp, cfg, id, goal, n - 1);
      }
    }
  }

  lemma LookingAlone(s: State, t: ThreadId, inp: Input, cfg: CC.Config, id: ConnId, goal: Goal)
    requires PhaseOf(s, t) == Looking(id, goal) && id != NO_ID
    ensures var (cache, found) := CC.Lookup(s.cache, id, inp.now);
      Served(s.tables, found).Some? ==>
        EndsAs(s, Undisturbed(s, t, inp, cfg, 5), t, goal, inp.drop, s.tables, cache, Served(s.tables, found).value)
  {
    var (cache, found) := CC.Lookup(s.cache, id, inp.now);
    var s1 := Resolve(s, t, inp, cfg).0;
    match Served(s.tables, found)
    case Some(Found(conn)) => AnswersAreNoResolutions(conn, goal, inp.drop);
    case Some(Failed(_)) => assert PhaseOf(s1, t) == GaveUp(goal);
    case None =>
  }

  lemma MissingAlone(s: State, t: ThreadId, inp: Input, cfg: CC.Config, id: ConnId, goal: Goal)
    requires PhaseOf(s, t) == Looking(id, goal) && id != NO_ID && !goal.Lifecycle?
    requires Served(s.tables, CC.Lookup(s.cache, id, inp.now).1).None?
    ensures var cache := CC.Lookup(s.cache, id, inp.now).0;
      var (tables, cache', outcome) :=
        if inp.fail then (s.tables, cache, Failed(Transient))
        else if id in s.tables.conns then FromRow(s.tables, cache, id, inp.now, cfg)
        else FromApi(s.tables, cache, id, inp.now, inp.api, cfg);
      EndsAs(s, Undisturbed(s, t, inp, cfg, 5), t, goal, inp.drop, tables, cache', outcome)
  {
    var s1 := Resolve(s, t, inp, cfg).0;
    assert s1 == s.(cache := CC.Lookup(s.cache, id, inp.now).0, threads := s.threads[t := Reading(id, goal)]);
    ReadingAlone(s1, t, inp, cfg, id, goal, 4);
  }

  /** The refinement between the two forms of the chain: a thread whose resolution
      nobody interrupts does, step by step, exactly what the whole resolution is
      specified to do -- same tables, same cache, same outcome. */
  lemma UndisturbedResolutionIsTheChain(s: State, t: ThreadId, inp: Input, cfg: CC.Config, id: ConnId, goal: Goal)
    requires PhaseOf(s, t) == Looking(id, goal) && !goal.Lifecycle?
    ensures var (tables, cache, outcome) :=
        ResolveSpec(s.tables, s.cache, id, inp.now, !inp.fail, inp.api, cfg);
      EndsAs(s, Undisturbed(s, t, inp, cfg, 5), t, goal, inp.drop, tables, cache, outcome)
  {
    if id == NO_ID {
      assert PhaseOf(Resolve(s, t, inp, cfg).0, t) == GaveUp(goal);
    } else if Served(s.tables, CC.Lookup(s.cache, id, inp.now).1).Some? {
      LookingAlone(s, t, inp, cfg, id, goal);
    } else {
      MissingAlone(s, t, inp, cfg, id, goal);
    }
  }

  /** A crash forgets the cache, the locks and what every thread was at, and keeps
      the tables, the requests and the data. */
  lemma WhatACrashKeeps(s: State, o: int, t: ThreadId)
    ensures var s' := Crash(s);
      && s'.tables == s.tables && s'.requests == s.requests && s'.data == s.data
      && s'.cache.entries == [] && s'.cache.disabledOwners == {}
      && LockOf(s', o) == FREE && PhaseOf(s', t) == Idle
  {
  }

  /** What each stage of an erasure takes away, and where it goes on. */
  ghost predicate StageWrites(stage: Stage, inp: Input, o: int, d: Data, d': Data, stage': Stage) {
    match stage
    case AtClaim => d' == d && stage' == AtDisableRows
    case AtDisableRows => d' == d && stage' == AtDisableCache
    case AtDisableCache => d' == d && stage' == AtOutbox
    case AtOutbox => d' == d.(outbox := d'.outbox) && NoneOf(d'.outbox, o) && stage' == AtFiles
    case AtFiles =>
      && d' == d.(disk := d'.disk) && Drops(d.disk, d'.disk, o, inp.picked)
      && stage' == if inp.more then AtFiles else AtMediaRows
    case AtMediaRows =>
      && d' == d.(media := d'.media) && Drops(d.media, d'.media, o, inp.picked)
      && stage' == if NoneOf(d.media, o) then AtTree else AtMediaRows
    case AtTree => d' == d.(disk := d'.disk) && NoneOf(d'.disk, o) && stage' == AtMessages
    case AtMessages =>
      && d' == d.(messages := d'.messages, chats := d'.chats)
      && NoneOf(d'.messages, o) && NoneOf(d'.chats, o) && stage' == AtOthers
    case AtOthers => d' == d && stage' == AtComplete
    case AtComplete => false
  }

  /** Each stage that does not fail, of an erasure its code authorises, takes away
      just that, and goes on to the next; an error releases the lock at once. */
  lemma WhatAStageWrites(s: State, t: ThreadId, inp: Input)
    requires PhaseOf(s, t).Erasing?
    ensures var ph, s' := PhaseOf(s, t), Erase(s, t, inp).0;
      && (PhaseOf(s', t).Erasing? ==>
        && PhaseOf(s', t).owner == ph.owner && PhaseOf(s', t).hash == ph.hash
        && StageWrites(ph.stage, inp, ph.owner, s.data, s'.data, PhaseOf(s', t).stage))
      && (!PhaseOf(s', t).Erasing? ==> PhaseOf(s', t) == ReleasingExclusive(ph.owner))
    ensures var ph, s' := PhaseOf(s, t), Erase(s, t, inp).0;
      PhaseOf(s', t).ReleasingExclusive? <==>
        || ph.stage.AtComplete?
        || (inp.fail && !ph.stage.AtDisableCache?)
        || (ph.stage.AtClaim?
            && ER.Claim(RequestsOf(s, ph.owner), ph.hash, inp.now).1 !in {ER.ClaimGranted, ER.ClaimResumable})
  {
  }

  /** The tenant an event may write for: the one whose lock the thread holds, or
      the one retention runs for. */
  function TenantOf(s: State, ev: Event): Option<int> {
    match ev
    case ThreadEvent(t, _) =>
      if SharedOwner(PhaseOf(s, t)).Some? then SharedOwner(PhaseOf(s, t)) else ExclusiveOwner(PhaseOf(s, t))
    case RetireEvent(owner, _) => Some(owner)
    case CrashEvent => None
  }

  /** The rows and files of one owner are the same in both. */
  ghost predicate SameFor(d: Data, d': Data, owner: int) {
    && (forall r: Row :: r.owner == owner ==> (r in d.messages <==> r in d'.messages))
    && (forall r: Row :: r.owner == owner ==> (r in d.chats <==> r in d'.chats))
    && (forall r: Row :: r.owner == owner ==> (r in d.outbox <==> r in d'.outbox))
    && (forall r: Row :: r.owner == owner ==> (r in d.media <==> r in d'.media))
    && (forall r: Row :: r.owner == owner ==> (r in d.disk <==> r in d'.disk))
  }

  lemma UnitTouchesItsTenant(s: State, t: ThreadId, inp: Input, o: int)
    requires Inv(s) && SharedOwner(PhaseOf(s, t)).Some? && !Resolving(PhaseOf(s, t)) && !PhaseOf(s, t).Releasing?
    requires SharedOwner(PhaseOf(s, t)) != Some(o) && UnitStep(s, t, inp).Some?
    ensures SameFor(s.data, UnitStep(s, t, inp).value.0.data, o)
  {
    assert ThreadOk(s, PhaseOf(s, t));
  }

  lemma EraseTouchesItsTenant(s: State, t: ThreadId, inp: Input, o: int)
    requires PhaseOf(s, t).Erasing? && PhaseOf(s, t).owner != o
    ensures SameFor(s.data, Erase(s, t, inp).0.data, o)
    ensures RequestsOf(Erase(s, t, inp).0, o) == RequestsOf(s, o)
    ensures forall id :: id in s.tables.conns && s.tables.conns[id].ownerUserId == o ==>
      id in Erase(s, t, inp).0.tables.conns && Erase(s, t, inp).0.tables.conns[id] == s.tables.conns[id]
  {
  }

  lemma ResolveTouchesNoData(s: State, t: ThreadId, inp: Input, cfg: CC.Config)
    requires Resolving(PhaseOf(s, t))
    ensures Resolve(s, t, inp, cfg).0.data == s.data
  {
  }

  lemma ThreadTouchesItsTenant(s: State, t: ThreadId, inp: Input, cfg: CC.Config, o: int)
    requires Inv(s) && Step(s, t, inp, cfg).Some? && TenantOf(s, ThreadEvent(t, inp)) != Some(o)
    ensures SameFor(s.data, Step(s, t, inp, cfg).value.0.data, o)
  {
    var ph := PhaseOf(s, t);
    if Resolving(ph) {
      ResolveTouchesNoData(s, t, inp, cfg);
    } else if ph.Erasing? {
      EraseTouchesItsTenant(s, t, inp, o);
    } else if SharedOwner(ph).Some? && !ph.Releasing? {
      UnitTouchesItsTenant(s, t, inp, o);
    }
  }

  /** In every run, whatever an event does -- a save, a purge, any step of an
      erasure -- it does to one tenant: for every other, each message, chat,
      alert, media row and file is there after it exactly if it was before. */
  lemma EachEventTouchesOneTenant(
    ss: seq<State>, evs: seq<Event>, shown: seq<Label>, cfg: CC.Config, k: nat, o: int)
    requires IsRun(ss, evs, shown, cfg) && k < |evs| && TenantOf(ss[k], evs[k]) != Some(o)
    ensures SameFor(ss[k].data, ss[k + 1].data, o)
  {
    RunInv(ss, evs, shown, cfg, k);
    assert Next(ss[k], evs[k], ss[k + 1], shown[k], cfg);
    match evs[k]
    case ThreadEvent(t, inp) => ThreadTouchesItsTenant(ss[k], t, inp, cfg, o);
    case RetireEvent(_, _) =>
    case CrashEvent =>
  }

  lemma NothingGrowsOnceErased(s: State, t: ThreadId, inp: Input, cfg: CC.Config, o: int)
    requires Inv(s) && Step(s, t, inp, cfg).Some? && o in s.erased && SharedOwner(PhaseOf(s, t)) == Some(o)
    ensures GrowsNothing(s.data, Step(s, t, inp, cfg).value.0.data, o)
  {
    var ph := PhaseOf(s, t);
    assert ThreadOk(s, ph);
    assert o in s.off && Empty(s.data, o);
  }

  /** When a confirmation completes, nothing of the tenant is left, and of its
      requests only the completed, scrubbed receipt of the code confirmed. If no
      enabled upsert or store came since its rows were disabled, every one of
      its connections is disabled, in the table and in the cache. */
  lemma CompletionLeavesOnlyTheReceipt(s: State, ev: Event, s': State, o: int, cfg: CC.Config)
    requires Inv(s) && Next(s, ev, s', Completed(o), cfg)
    ensures Empty(s'.data, o)
    ensures var rows := RequestsOf(s', o);
      && |rows| == 1
      && rows[0].status == ER.Completed && rows[0].hash == PhaseOf(s, ev.t).hash
      && rows[0].telegramUserId == None && rows[0].connectionId == None
    ensures o in s.rowsOff ==> o in s'.erased
    ensures o in s.rowsOff ==> RowsDisabledOf(s'.tables, o) && CacheDisabledOf(s'.cache, o)
  {
    CompletionIsTheLastStage(s, ev, s', o, cfg);
    CompletionOfStage(s, ev.t, ev.inp);
  }

  lemma CompletionIsTheLastStage(s: State, ev: Event, s': State, o: int, cfg: CC.Config)
    requires Next(s, ev, s', Completed(o), cfg)
    ensures ev.ThreadEvent? && !ev.inp.fail
    ensures var ph := PhaseOf(s, ev.t);
      ph.Erasing? && ph.stage.AtComplete? && ph.owner == o && s' == Erase(s, ev.t, ev.inp).0
  {
  }

  lemma CompletionOfStage(s: State, t: ThreadId, inp: Input)
    requires Inv(s) && PhaseOf(s, t).Erasing? && PhaseOf(s, t).stage.AtComplete? && !inp.fail
    ensures var o, s' := PhaseOf(s, t).owner, Erase(s, t, inp).0;
      && Empty(s'.data, o)
      && (o in s.rowsOff ==> o in s'.erased && RowsDisabledOf(s'.tables, o) && CacheDisabledOf(s'.cache, o))
      && var rows := RequestsOf(s', o);
         |rows| == 1 && rows[0].status == ER.Completed && rows[0].hash == PhaseOf(s, t).hash
         && rows[0].telegramUserId == None && rows[0].connectionId == None
  {
    var ph := PhaseOf(s, t);
    var o := ph.owner;
    assert ThreadOk(s, ph);
    var rows := RequestsOf(s, o);
    assert RequestsOf(Erase(s, t, inp).0, o) == ER.Complete(rows, ph.hash, inp.now);
    assert ER.HashAt(rows, ph.hash) == 0;
    if o in s.rowsOff {
      assert o in s.off;
      assert RowsDisabledOf(s.tables, o) && CacheDisabledOf(s.cache, o);
    }
  }

  /** A run of the whole bot: any interleaving, crashes included. */
  ghost predicate IsRun(ss: seq<State>, evs: seq<Event>, shown: seq<Label>, cfg: CC.Config) {
    && |ss| == |evs| + 1 && |shown| == |evs|
    && Init(ss[0])
    && forall i :: 0 <= i < |evs| ==> Next(ss[i], evs[i], ss[i + 1], shown[i], cfg)
  }

  lemma {:induction false} RunInv(ss: seq<State>, evs: seq<Event>, shown: seq<Label>, cfg: CC.Config, k: nat)
    requires IsRun(ss, evs, shown, cfg) && k < |ss|
    ensures Inv(ss[k])
  {
    if k == 0 {
      InitInv(ss[0]);
    } else {
      RunInv(ss, evs, shown, cfg, k - 1);
      NextKeepsInv(ss[k - 1], evs[k - 1], ss[k], shown[k - 1], cfg);
    }
  }

  /** What one step shows about the standing of a disable and of an erasure. */
  ghost predicate Standing(s: State, s': State, shown: Label, o: int) {
    && (o in s.rowsOff && shown != ReEnabled(o) ==> o in s'.rowsOff)
    && (o in s.erased && shown != ReEnabled(o) ==> o in s'.erased)
    && (shown == RowsDisabled(o) ==> o in s'.rowsOff)
    && (shown == Completed(o) && o in s.rowsOff ==> o in s'.erased)
    && (shown == AlertSent(o) ==> o !in s.erased)
  }

  lemma StandingOfOneStep(s: State, ev: Event, s': State, shown: Label, cfg: CC.Config, o: int)
    requires Inv(s) && Next(s, ev, s', shown, cfg)
    ensures Standing(s, s', shown, o)
  {
    if ev.ThreadEvent? {
      var ph := PhaseOf(s, ev.t);
      if ph.Erasing? {
        StandingOfErasure(s, ev.t, ev.inp, o);
      } else if Resolving(ph) {
        StandingOfResolution(s, ev.t, ev.inp, cfg, o);
      } else {
        assert ThreadOk(s, ph);
      }
    }
  }

  lemma StandingOfErasure(s: State, t: ThreadId, inp: Input, o: int)
    requires Inv(s) && PhaseOf(s, t).Erasing?
    ensures var (s', shown) := Erase(s, t, inp); Standing(s, s', shown, o)
  {
    var ph := PhaseOf(s, t);
    if ph.stage.AtComplete? && !inp.fail {
      CompletionOfStage(s, t, inp);
    }
  }

  lemma StandingOfResolution(s: State, t: ThreadId, inp: Input, cfg: CC.Config, o: int)
    requires Resolving(PhaseOf(s, t))
    ensures var (s', shown) := Resolve(s, t, inp, cfg); Standing(s, s', shown, o)
  {
  }

  lemma StandingOfRun(ss: seq<State>, evs: seq<Event>, shown: seq<Label>, cfg: CC.Config, o: int)
    requires IsRun(ss, evs, shown, cfg)
    ensures forall m :: 0 <= m < |shown| ==> Standing(ss[m], ss[m + 1], shown[m], o)
  {
    forall m | 0 <= m < |shown| ensures Standing(ss[m], ss[m + 1], shown[m], o) {
      RunInv(ss, evs, shown, cfg, m);
      StandingOfOneStep(ss[m], evs[m], ss[m + 1], shown[m], cfg, o);
    }
  }

  lemma {:induction false} StaysErased(ss: seq<State>, shown: seq<Label>, d: nat, i: nat, k: nat, o: int)
    requires |ss| == |shown| + 1 && d < i && d < k < |ss|
    requires forall m :: 0 <= m < |shown| ==> Standing(ss[m], ss[m + 1], shown[m], o)
    requires i < |shown| && shown[d] == RowsDisabled(o) && shown[i] == Completed(o)
    requires forall m :: d < m < k ==> shown[m] != ReEnabled(o)
    ensures o in ss[k].rowsOff
    ensures i < k ==> o in ss[k].erased
    decreases k
  {
    assert Standing(ss[k - 1], ss[k], shown[k - 1], o);
    if k > d + 1 {
      StaysErased(ss, shown, d, i, k - 1, o);
    }
  }

  /** The safety of an erasure, over every run and every interleaving. Once a
      confirmation of tenant `o` completed at step `i`, its rows having been
      disabled at step `d`, then for as long as no enabled upsert or store of `o`
      runs: nothing of `o` exists, no connection of `o` is enabled in the table
      or in the cache, and no alert of `o` is sent. */
  lemma ErasedStaysErased(
    ss: seq<State>, evs: seq<Event>, shown: seq<Label>, cfg: CC.Config, d: nat, i: nat, k: nat, o: int)
    requires IsRun(ss, evs, shown, cfg) && d < i < k < |ss|
    requires shown[d] == RowsDisabled(o) && shown[i] == Completed(o)
    requires forall m :: d < m < k ==> shown[m] != ReEnabled(o)
    ensures Empty(ss[k].data, o)
    ensures RowsDisabledOf(ss[k].tables, o) && CacheDisabledOf(ss[k].cache, o)
    ensures forall m :: i < m < k ==> shown[m] != AlertSent(o)
  {
    StandingOfRun(ss, evs, shown, cfg, o);
    StaysErased(ss, shown, d, i, k, o);
    ErasedMeansEmpty(ss, evs, shown, cfg, k, o);
    forall m | i < m < k ensures shown[m] != AlertSent(o) {
      StaysErased(ss, shown, d, i, m, o);
      assert Standing(ss[m], ss[m + 1], shown[m], o);
    }
  }

  lemma ErasedMeansEmpty(
    ss: seq<State>, evs: seq<Event>, shown: seq<Label>, cfg: CC.Config, k: nat, o: int)
    requires IsRun(ss, evs, shown, cfg) && k < |ss| && o in ss[k].erased
    ensures Empty(ss[k].data, o)
    ensures RowsDisabledOf(ss[k].tables, o) && CacheDisabledOf(ss[k].cache, o)
  {
    RunInv(ss, evs, shown, cfg, k);
    assert GlobalOk(ss[k]);
    assert o in ss[k].off && o in ss[k].rowsOff;
  }
}