/**
 One Dispatch of a fetched batch, interleaved with the shard workers.

 Updates are named by their index in the batch. Every channel operation is one
 step, and a `select` with several ready cases may take any of them. A handler
 may return any result, at any later time; a panic is one of its errors.
 */
module Dispatcher {
  import opened Prelude

  const NUM_SHARDS: nat := 32
  const SHARD_QUEUE_DEPTH: nat := 32

  // ---------------------------------------------------------------------
  // Partitions
  // ---------------------------------------------------------------------

  datatype Body =
    | BusinessConnection(connection: nat)
    | BusinessMessage(connection: nat, chat: int)
    | EditedBusinessMessage(connection: nat, chat: int)
    | DeletedBusinessMessages(connection: nat, chat: int)
    | Other

  datatype Update = Update(id: int, body: Body)

  datatype Key =
    | ConnectionKey(connection: nat)
    | ChatKey(connection: nat, chat: int)
    | UpdateKey(id: int)

  function ShardKey(u: Update): Key {
    match u.body
    case BusinessConnection(c) => ConnectionKey(c)
    case BusinessMessage(c, chat) => ChatKey(c, chat)
    case EditedBusinessMessage(c, chat) => ChatKey(c, chat)
    case DeletedBusinessMessages(c, chat) => ChatKey(c, chat)
    case Other => UpdateKey(u.id)
  }

  /** A message, an edit or a deletion, which belong to a chat of a connection. */
  predicate IsOfChat(u: Update, connection: nat, chat: int) {
    match u.body
    case BusinessMessage(c, ch) => c == connection && ch == chat
    case EditedBusinessMessage(c, ch) => c == connection && ch == chat
    case DeletedBusinessMessages(c, ch) => c == connection && ch == chat
    case _ => false
  }

  /** Two updates share a partition exactly if they are updates of one connection,
      messages, edits or deletions of one chat of one connection, or one unknown
      update: different chats and connections never wait on each other. */
  lemma PartitionsAreChatsAndConnections(u: Update, v: Update)
    ensures ShardKey(u) == ShardKey(v) <==>
      || (exists c :: u.body == BusinessConnection(c) && v.body == BusinessConnection(c))
      || (exists c, chat :: IsOfChat(u, c, chat) && IsOfChat(v, c, chat))
      || (u.body.Other? && v.body.Other? && u.id == v.id)
  {
    match u.body
    case BusinessConnection(c) => assert v.body.BusinessConnection? ==> v.body == BusinessConnection(v.body.connection);
    case Other =>
    case _ =>
      var c, chat := u.body.connection, u.body.chat;
      assert IsOfChat(u, c, chat);
      if ShardKey(u) == ShardKey(v) {
        assert IsOfChat(v, c, chat);
      }
  }

  /** The shard of each update of a batch, for any deterministic hash. */
  function Shards(hash: Key -> nat, updates: seq<Update>): (shards: seq<nat>)
    ensures |shards| == |updates| && WellSharded(shards)
    ensures forall i :: 0 <= i < |updates| ==> shards[i] == hash(ShardKey(updates[i])) % 32
  {
    seq(|updates|, i requires 0 <= i < |updates| => hash(ShardKey(updates[i])) % NUM_SHARDS)
  }

  predicate WellSharded(shards: seq<nat>) {
    forall i :: 0 <= i < |shards| ==> shards[i] < NUM_SHARDS
  }

  // ---------------------------------------------------------------------
  // State
  // ---------------------------------------------------------------------

  /** A slot of the error slice. `Handled(0)` is a handler that succeeded; an
      untouched slot is nil as well. */
  datatype Slot = Untouched | NotSubmitted | Handled(result: nat) | ContextError

  datatype Phase =
    | FirstPass(i: nat)
    | SecondPass(pos: nat)
    | Collecting(i: nat, givingUp: bool)
    | Returned

  /** Where a cancellation aborted the submission. */
  datatype Abort = NotAborted | InFirstPass(at: nat) | InSecondPass(pos: nat)

  /** One shard: its channel, what its worker is serving, and (history) all that
      its worker ever took, in order. */
  datatype Lane = Lane(queue: seq<nat>, serving: Option<nat>, taken: seq<nat>)

  datatype State = State(
    phase: Phase,
    abort: Abort,
    cancelled: bool,
    pending: set<nat>,
    deferred: seq<nat>,
    deferredShards: set<nat>,
    errs: seq<Slot>,
    lanes: seq<Lane>,
    started: set<nat>,
    results: map<nat, nat>)

  datatype Event =
    | Submit
    | Defer
    | GiveUp
    | NextPhase
    | Collect
    | Start(lane: nat)
    | Finish(lane: nat, result: nat)
    | Cancel

  // ---------------------------------------------------------------------
  // Steps
  // ---------------------------------------------------------------------

  predicate HasRoom(lane: Lane) {
    |lane.queue| < SHARD_QUEUE_DEPTH
  }

  function Enqueued(s: State, shard: nat, i: nat): State
    requires shard < |s.lanes|
  {
    s.(pending := s.pending + {i},
       lanes := s.lanes[shard := s.lanes[shard].(queue := s.lanes[shard].queue + [i])])
  }

  /** The slots from `at` on. */
  function MarkedFrom(errs: seq<Slot>, at: nat): (r: seq<Slot>)
    ensures |r| == |errs|
    ensures forall k :: 0 <= k < |r| ==> r[k] == if at <= k then NotSubmitted else errs[k]
  {
    seq(|errs|, k requires 0 <= k < |errs| => if at <= k then NotSubmitted else errs[k])
  }

  /** Deferred, at position `pos` or later. */
  predicate Owed(deferred: seq<nat>, pos: nat, k: nat) {
    exists a :: pos <= a < |deferred| && deferred[a] == k
  }

  /** The slots of the deferred updates from position `pos` on. */
  function MarkedDeferred(errs: seq<Slot>, deferred: seq<nat>, pos: nat): (r: seq<Slot>)
    requires pos <= |deferred|
    ensures |r| == |errs|
    ensures forall k :: 0 <= k < |r| ==> r[k] == if Owed(deferred, pos, k) then NotSubmitted else errs[k]
  {
    seq(|errs|, k requires 0 <= k < |errs| => if Owed(deferred, pos, k) then NotSubmitted else errs[k])
  }

  predicate InFirst(shards: seq<nat>, s: State) {
    s.phase.FirstPass? && s.phase.i < |shards|
  }

  predicate InSecond(shards: seq<nat>, s: State) {
    s.phase.SecondPass? && s.phase.pos < |s.deferred|
  }

  predicate IndexesOf(shards: seq<nat>, deferred: seq<nat>) {
    forall a :: 0 <= a < |deferred| ==> deferred[a] < |shards|
  }

  predicate Shaped(shards: seq<nat>, s: State) {
    && WellSharded(shards) && |s.lanes| == NUM_SHARDS && |s.errs| == |shards|
    && IndexesOf(shards, s.deferred)
  }

  predicate Next(shards: seq<nat>, s: State, ev: Event, s': State)
    requires Shaped(shards, s)
  {
    match ev
    case Submit =>
      if InFirst(shards, s) then
        var shard := shards[s.phase.i];
        && shard !in s.deferredShards && HasRoom(s.lanes[shard])
        && s' == Enqueued(s, shard, s.phase.i).(phase := FirstPass(s.phase.i + 1))
      else
        && InSecond(shards, s)
        && var i := s.deferred[s.phase.pos];
           HasRoom(s.lanes[shards[i]])
           && s' == Enqueued(s, shards[i], i).(phase := SecondPass(s.phase.pos + 1))
    case Defer =>
      && InFirst(shards, s)
      && var shard := shards[s.phase.i];
         && (shard in s.deferredShards || (!HasRoom(s.lanes[shard]) && !s.cancelled))
         && s' == s.(phase := FirstPass(s.phase.i + 1), deferred := s.deferred + [s.phase.i],
                     deferredShards := s.deferredShards + {shard})
    case GiveUp =>
      && s.cancelled
      && if InFirst(shards, s) then
           && shards[s.phase.i] !in s.deferredShards
           && s' == s.(phase := Collecting(0, false), abort := InFirstPass(s.phase.i),
                       errs := MarkedFrom(s.errs, s.phase.i))
         else if InSecond(shards, s) then
           s' == s.(phase := Collecting(0, false), abort := InSecondPass(s.phase.pos),
                    errs := MarkedDeferred(s.errs, s.deferred, s.phase.pos))
         else
           && s.phase.Collecting? && !s.phase.givingUp && s.phase.i < |shards| && s.phase.i in s.pending
           && s' == s.(phase := Collecting(s.phase.i, true))
    case NextPhase =>
      if s.phase == FirstPass(|shards|) then s' == s.(phase := SecondPass(0))
      else if s.phase == SecondPass(|s.deferred|) then s' == s.(phase := Collecting(0, false))
      else s.phase.Collecting? && s.phase.i == |shards| && s' == s.(phase := Returned)
    case Collect =>
      && s.phase.Collecting? && s.phase.i < |shards|
      && var i, next := s.phase.i, s.phase.(i := s.phase.i + 1);
         if i !in s.pending then s' == s.(phase := next)
         else if i in s.results then s' == s.(phase := next, errs := s.errs[i := Handled(s.results[i])])
         else s.phase.givingUp && s' == s.(phase := next, errs := s.errs[i := ContextError])
    case Start(l) =>
      && l < NUM_SHARDS && s.lanes[l].serving.None? && s.lanes[l].queue != []
      && var lane := s.lanes[l];
         var i := lane.queue[0];
         s' == s.(lanes := s.lanes[l := Lane(lane.queue[1..], Some(i), lane.taken + [i])],
                  started := s.started + {i})
    case Finish(l, result) =>
      && l < NUM_SHARDS && s.lanes[l].serving.Some?
      && s' == s.(lanes := s.lanes[l := s.lanes[l].(serving := None)],
                  results := s.results[s.lanes[l].serving.value := result])
    case Cancel => s' == s.(cancelled := true)
  }

  const IDLE: Lane := Lane([], None, [])

  predicate Init(shards: seq<nat>, s: State) {
    && s.phase == FirstPass(0) && s.abort.NotAborted? && s.pending == {} && s.deferred == [] && s.deferredShards == {}
    && |s.errs| == |shards| && (forall k :: 0 <= k < |s.errs| ==> s.errs[k].Untouched?)
    && |s.lanes| == NUM_SHARDS && (forall l :: 0 <= l < NUM_SHARDS ==> s.lanes[l] == IDLE)
    && s.started == {} && s.results == map[]
  }

  // ---------------------------------------------------------------------
  // A batch restricted to one shard
  // ---------------------------------------------------------------------

  /** The first `n` updates of the batch, those of `shard` only, in batch order. */
  function Restricted(shards: seq<nat>, n: nat, shard: nat): seq<nat>
    requires n <= |shards|
  {
    if n == 0 then []
    else Restricted(shards, n - 1, shard) + (if shards[n - 1] == shard then [n - 1] else [])
  }

  lemma {:induction false} RestrictedIs(shards: seq<nat>, n: nat, shard: nat)
    requires n <= |shards|
    ensures forall i :: i in Restricted(shards, n, shard) <==> 0 <= i < n && shards[i] == shard
    ensures Increasing(Restricted(shards, n, shard))
  {
    if n > 0 {
      RestrictedIs(shards, n - 1, shard);
      var before := Restricted(shards, n - 1, shard);
      if shards[n - 1] == shard {
        assert before != [] ==> before[|before| - 1] in before;
        IncreasingPush(before, n - 1);
        assert Restricted(shards, n, shard) == before + [n - 1];
      } else {
        assert Restricted(shards, n, shard) == before;
      }
    }
  }

  lemma {:induction false} RestrictedPrefix(shards: seq<nat>, m: nat, n: nat, shard: nat)
    requires m <= n <= |shards|
    ensures Restricted(shards, m, shard) <= Restricted(shards, n, shard)
  {
    if m < n {
      RestrictedPrefix(shards, m, n - 1, shard);
    }
  }

  /** The deferred updates of `shard`, from position `pos`. */
  function Waiting(shards: seq<nat>, deferred: seq<nat>, pos: nat, shard: nat): seq<nat>
    requires pos <= |deferred| && IndexesOf(shards, deferred)
    decreases |deferred| - pos
  {
    if pos == |deferred| then []
    else (if shards[deferred[pos]] == shard then [deferred[pos]] else []) + Waiting(shards, deferred, pos + 1, shard)
  }

  lemma {:induction false} WaitingAppend(shards: seq<nat>, deferred: seq<nat>, pos: nat, shard: nat, i: nat)
    requires pos <= |deferred| && IndexesOf(shards, deferred) && i < |shards|
    ensures Waiting(shards, deferred + [i], pos, shard)
         == Waiting(shards, deferred, pos, shard) + if shards[i] == shard then [i] else []
    decreases |deferred| - pos
  {
    var all := deferred + [i];
    var last := if shards[i] == shard then [i] else [];
    assert Waiting(shards, all, |deferred| + 1, shard) == [];
    if pos < |deferred| {
      WaitingAppend(shards, deferred, pos + 1, shard, i);
      assert all[pos] == deferred[pos];
      var first := if shards[deferred[pos]] == shard then [deferred[pos]] else [];
      var rest := Waiting(shards, deferred, pos + 1, shard);
      assert Waiting(shards, all, pos, shard) == first + (rest + last);
      assert first + (rest + last) == (first + rest) + last;
    } else {
      assert Waiting(shards, all, pos, shard) == last + [];
    }
  }

  lemma {:induction false} NothingWaiting(shards: seq<nat>, deferred: seq<nat>, pos: nat, shard: nat)
    requires pos <= |deferred| && IndexesOf(shards, deferred)
    requires forall a :: 0 <= a < |deferred| ==> shards[deferred[a]] != shard
    ensures Waiting(shards, deferred, pos, shard) == []
    decreases |deferred| - pos
  {
    if pos < |deferred| {
      NothingWaiting(shards, deferred, pos + 1, shard);
    }
  }

  // ---------------------------------------------------------------------
  // Invariant
  // ---------------------------------------------------------------------

  function Accepted(lane: Lane): seq<nat> {
    lane.taken + lane.queue
  }

  /** What a shard accepted, followed by what it is still owed, is its part of
      the batch, in batch order; a submission cut short leaves a prefix. */
  ghost predicate OrderOk(shards: seq<nat>, s: State, l: nat)
    requires Shaped(shards, s) && l < NUM_SHARDS
  {
    match s.phase
    case FirstPass(i) =>
      i <= |shards| && Accepted(s.lanes[l]) + Waiting(shards, s.deferred, 0, l) == Restricted(shards, i, l)
    case SecondPass(pos) =>
      && pos <= |s.deferred|
      && Accepted(s.lanes[l]) + Waiting(shards, s.deferred, pos, l) == Restricted(shards, |shards|, l)
    case _ =>
      && Accepted(s.lanes[l]) <= Restricted(shards, |shards|, l)
      && (s.abort.NotAborted? ==> Accepted(s.lanes[l]) == Restricted(shards, |shards|, l))
  }

  predicate Holds(lane: Lane, i: nat) {
    i in lane.taken || i in lane.queue
  }

  /** A worker serves one update at a time: all it took before is finished. */
  ghost predicate LaneOk(s: State, lane: Lane) {
    && |lane.queue| <= SHARD_QUEUE_DEPTH
    && (forall i :: i in lane.queue ==> i in s.pending && i !in s.started)
    && (forall i :: i in lane.taken ==> i in s.started && (i in s.results || lane.serving == Some(i)))
    && (lane.serving.Some? ==> lane.taken != [] && lane.taken[|lane.taken| - 1] == lane.serving.value)
    && (lane.serving.Some? ==> lane.serving.value !in s.results)
  }

  /** Which updates are submitted. */
  ghost predicate PendingOk(shards: seq<nat>, s: State)
    requires Shaped(shards, s)
  {
    && (forall i :: i in s.pending ==> i < |shards| && Holds(s.lanes[shards[i]], i))
    && (forall i :: i in s.started ==> i in s.pending)
    && (forall i :: i in s.results ==> i in s.started)
    && Increasing(s.deferred)
    && (forall a :: 0 <= a < |s.deferred| ==> shards[s.deferred[a]] in s.deferredShards)
    && match s.phase
       case FirstPass(i) =>
         && s.abort.NotAborted?
         && (forall k :: k in s.pending || k in s.deferred <==> 0 <= k < i)
         && (forall d :: d in s.deferred ==> d !in s.pending)
       case SecondPass(pos) =>
         && s.abort.NotAborted? && pos <= |s.deferred|
         && (forall k: nat :: k in s.pending <==> k < |shards| && !Owed(s.deferred, pos, k))
       case _ =>
         match s.abort
         case NotAborted => forall k: nat :: k in s.pending <==> k < |shards|
         case InFirstPass(at) =>
           at < |shards| && s.cancelled
           && (forall k: nat :: k in s.pending <==> k < at && k !in s.deferred)
           && (forall d :: d in s.deferred ==> d < at)
         case InSecondPass(pos) =>
           pos < |s.deferred| && s.cancelled
           && (forall k: nat :: k in s.pending <==> k < |shards| && !Owed(s.deferred, pos, k))
  }

  /** What the slot of update `k` holds. */
  ghost predicate SlotOk(shards: seq<nat>, s: State, k: nat)
    requires Shaped(shards, s) && k < |shards|
  {
    match s.phase
    case FirstPass(_) => s.errs[k].Untouched?
    case SecondPass(_) => s.errs[k].Untouched?
    case _ =>
      if k !in s.pending then
        s.errs[k] == if s.abort.InFirstPass? && k < s.abort.at then Untouched else NotSubmitted
      else if s.phase.Collecting? && s.phase.i <= k then s.errs[k].Untouched?
      else (k in s.results && s.errs[k] == Handled(s.results[k])) || (s.cancelled && s.errs[k].ContextError?)
  }

  ghost predicate Inv(shards: seq<nat>, s: State) {
    && Shaped(shards, s)
    && (forall l :: 0 <= l < NUM_SHARDS ==> OrderOk(shards, s, l) && LaneOk(s, s.lanes[l]))
    && PendingOk(shards, s)
    && (forall k :: 0 <= k < |shards| ==> SlotOk(shards, s, k))
    && (s.phase.Collecting? ==> s.phase.i <= |shards|)
    && (s.phase.Collecting? && s.phase.givingUp ==> s.cancelled)
  }

  lemma InitInv(shards: seq<nat>, s: State)
    requires WellSharded(shards) && Init(shards, s)
    ensures Inv(shards, s)
  {
  }

  // ---------------------------------------------------------------------
  // Preservation, step by step
  // ---------------------------------------------------------------------

  /** A shard accepts its own updates only, each once. */
  lemma AcceptedIsSorted(shards: seq<nat>, s: State, l: nat)
    requires Shaped(shards, s) && l < NUM_SHARDS && OrderOk(shards, s, l)
    ensures forall i: nat :: Holds(s.lanes[l], i) ==> i < |shards| && shards[i] == l
    ensures Increasing(Accepted(s.lanes[l]))
  {
    var n := if s.phase.FirstPass? then s.phase.i else |shards|;
    RestrictedIs(shards, n, l);
    var all, r := Accepted(s.lanes[l]), Restricted(shards, n, l);
    forall a | 0 <= a < |all| ensures all[a] == r[a] && r[a] in r {
      assert all <= r;
    }
    forall i: nat | Holds(s.lanes[l], i) ensures i in r {
      assert i in all;
    }
  }

  lemma Associative(a: seq<nat>, b: seq<nat>, c: seq<nat>)
    ensures (a + b) + c == a + (b + c)
  {
  }

  lemma HandedOver(shards: seq<nat>, deferred: seq<nat>, pos: nat, l: nat, lane: Lane)
    requires pos < |deferred| && IndexesOf(shards, deferred) && shards[deferred[pos]] == l
    ensures Accepted(lane.(queue := lane.queue + [deferred[pos]])) + Waiting(shards, deferred, pos + 1, l)
         == Accepted(lane) + Waiting(shards, deferred, pos, l)
  {
    var i, rest := deferred[pos], Waiting(shards, deferred, pos + 1, l);
    assert (lane.taken + (lane.queue + [i])) + rest == (lane.taken + lane.queue) + ([i] + rest);
  }

  lemma SubmitFirstKeepsOrder(shards: seq<nat>, s: State, s': State, m: nat)
    requires Inv(shards, s) && InFirst(shards, s) && Next(shards, s, Submit, s') && m < NUM_SHARDS
    ensures OrderOk(shards, s', m)
  {
    assert OrderOk(shards, s, m);
    if m == shards[s.phase.i] {
      NothingWaiting(shards, s.deferred, 0, m);
      assert Accepted(s'.lanes[m]) == Accepted(s.lanes[m]) + [s.phase.i];
    }
  }

  lemma SubmitSecondKeepsOrder(shards: seq<nat>, s: State, s': State, m: nat)
    requires Shaped(shards, s) && m < NUM_SHARDS && OrderOk(shards, s, m)
    requires InSecond(shards, s) && Next(shards, s, Submit, s')
    ensures OrderOk(shards, s', m)
  {
    assert OrderOk(shards, s, m);
    var i := s.deferred[s.phase.pos];
    if m == shards[i] {
      HandedOver(shards, s.deferred, s.phase.pos, m, s.lanes[m]);
    } else {
      NotOwed(shards, s.deferred, s.phase.pos, m);
      assert s'.lanes[m] == s.lanes[m];
    }
  }

  lemma NotOwed(shards: seq<nat>, deferred: seq<nat>, pos: nat, l: nat)
    requires pos < |deferred| && IndexesOf(shards, deferred) && shards[deferred[pos]] != l
    ensures Waiting(shards, deferred, pos + 1, l) == Waiting(shards, deferred, pos, l)
  {
  }

  /** The update a submission hands over was not submitted before. */
  lemma SubmittedIsNew(shards: seq<nat>, s: State, i: nat)
    requires Shaped(shards, s) && PendingOk(shards, s)
    requires (InFirst(shards, s) && i == s.phase.i) || (InSecond(shards, s) && i == s.deferred[s.phase.pos])
    ensures i !in s.pending && i !in s.started && i !in s.results && i < |shards|
  {
    assert InSecond(shards, s) ==> Owed(s.deferred, s.phase.pos, i);
  }

  lemma LaneTakesOne(s: State, s': State, lane: Lane, i: nat)
    requires LaneOk(s, lane) && i !in s.started && HasRoom(lane)
    requires s'.pending == s.pending + {i} && s'.started == s.started && s'.results == s.results
    ensures LaneOk(s', lane.(queue := lane.queue + [i]))
  {
  }

  lemma SubmitKeepsLane(shards: seq<nat>, s: State, s': State, m: nat)
    requires Inv(shards, s) && Next(shards, s, Submit, s') && m < NUM_SHARDS
    ensures LaneOk(s', s'.lanes[m])
  {
    var i := if s.phase.FirstPass? then s.phase.i else s.deferred[s.phase.pos];
    SubmittedIsNew(shards, s, i);
    assert LaneOk(s, s.lanes[m]);
    if m == shards[i] {
      LaneTakesOne(s, s', s.lanes[m], i);
    }
  }

  lemma OwedStep(deferred: seq<nat>, pos: nat, k: nat)
    requires Increasing(deferred) && pos < |deferred|
    ensures Owed(deferred, pos + 1, k) <==> Owed(deferred, pos, k) && k != deferred[pos]
  {
    if Owed(deferred, pos, k) && k != deferred[pos] {
      var a :| pos <= a < |deferred| && deferred[a] == k;
      assert pos + 1 <= a;
    }
  }

  lemma SubmittedAreHeld(shards: seq<nat>, s: State, l: nat, i: nat)
    requires Shaped(shards, s) && PendingOk(shards, s) && i < |shards| && l == shards[i]
    ensures var s' := Enqueued(s, l, i);
      forall j :: j in s'.pending ==> j < |shards| && Holds(s'.lanes[shards[j]], j)
  {
    var s' := Enqueued(s, l, i);
    forall j | j in s'.pending ensures j < |shards| && Holds(s'.lanes[shards[j]], j) {
      if j == i {
        assert s'.lanes[l].queue[|s.lanes[l].queue|] == i;
      } else {
        assert Holds(s.lanes[shards[j]], j);
      }
    }
  }

  lemma SubmitFirstKeepsPending(shards: seq<nat>, s: State, s': State)
    requires Shaped(shards, s) && PendingOk(shards, s) && InFirst(shards, s) && Next(shards, s, Submit, s')
    ensures PendingOk(shards, s')
  {
    SubmittedIsNew(shards, s, s.phase.i);
    SubmittedAreHeld(shards, s, shards[s.phase.i], s.phase.i);
  }

  lemma SubmitSecondKeepsPending(shards: seq<nat>, s: State, s': State)
    requires Shaped(shards, s) && PendingOk(shards, s) && InSecond(shards, s) && Next(shards, s, Submit, s')
    ensures PendingOk(shards, s')
  {
    var pos := s.phase.pos;
    SubmittedIsNew(shards, s, s.deferred[pos]);
    SubmittedAreHeld(shards, s, shards[s.deferred[pos]], s.deferred[pos]);
    forall k: nat ensures k in s'.pending <==> k < |shards| && !Owed(s.deferred, pos + 1, k) {
      OwedStep(s.deferred, pos, k);
    }
  }

  lemma SubmitKeepsInv(shards: seq<nat>, s: State, s': State)
    requires Inv(shards, s) && Next(shards, s, Submit, s')
    ensures Inv(shards, s')
  {
    forall m | 0 <= m < NUM_SHARDS ensures OrderOk(shards, s', m) && LaneOk(s', s'.lanes[m]) {
      SubmitKeepsLane(shards, s, s', m);
      if InFirst(shards, s) {
        SubmitFirstKeepsOrder(shards, s, s', m);
      } else {
        SubmitSecondKeepsOrder(shards, s, s', m);
      }
    }
    if InFirst(shards, s) {
      SubmitFirstKeepsPending(shards, s, s');
    } else {
      SubmitSecondKeepsPending(shards, s, s');
    }
    forall k | 0 <= k < |shards| ensures SlotOk(shards, s', k) {
      assert SlotOk(shards, s, k);
    }
  }

  lemma DeferredLast(shards: seq<nat>, deferred: seq<nat>, i: nat, l: nat, lane: Lane)
    requires IndexesOf(shards, deferred) && i < |shards|
    ensures Accepted(lane) + Waiting(shards, deferred + [i], 0, l)
         == (Accepted(lane) + Waiting(shards, deferred, 0, l)) + if shards[i] == l then [i] else []
  {
    WaitingAppend(shards, deferred, 0, l, i);
    Associative(Accepted(lane), Waiting(shards, deferred, 0, l), if shards[i] == l then [i] else []);
  }

  lemma DeferKeepsOrder(shards: seq<nat>, s: State, s': State, m: nat)
    requires Shaped(shards, s) && m < NUM_SHARDS && OrderOk(shards, s, m) && Next(shards, s, Defer, s')
    ensures Shaped(shards, s') && OrderOk(shards, s', m)
  {
    DeferredLast(shards, s.deferred, s.phase.i, m, s.lanes[m]);
  }

  lemma DeferKeepsPending(shards: seq<nat>, s: State, s': State)
    requires Inv(shards, s) && Next(shards, s, Defer, s')
    ensures Shaped(shards, s') && PendingOk(shards, s')
  {
    var i := s.phase.i;
    assert i !in s.pending && i !in s.deferred;
    assert s.deferred != [] ==> s.deferred[|s.deferred| - 1] in s.deferred;
    IncreasingPush(s.deferred, i);
    forall k ensures k in s'.deferred <==> k in s.deferred || k == i {
    }
  }

  lemma DeferKeepsInv(shards: seq<nat>, s: State, s': State)
    requires Inv(shards, s) && Next(shards, s, Defer, s')
    ensures Inv(shards, s')
  {
    DeferKeepsPending(shards, s, s');
    forall m | 0 <= m < NUM_SHARDS ensures OrderOk(shards, s', m) && LaneOk(s', s'.lanes[m]) {
      assert LaneOk(s, s.lanes[m]);
      DeferKeepsOrder(shards, s, s', m);
    }
    forall k | 0 <= k < |shards| ensures SlotOk(shards, s', k) {
      assert SlotOk(shards, s, k);
    }
  }

  lemma GiveUpKeepsInv(shards: seq<nat>, s: State, s': State)
    requires Inv(shards, s) && Next(shards, s, GiveUp, s')
    ensures Inv(shards, s')
  {
    forall m | 0 <= m < NUM_SHARDS ensures OrderOk(shards, s', m) && LaneOk(s', s'.lanes[m]) {
      assert OrderOk(shards, s, m) && LaneOk(s, s.lanes[m]);
      if InFirst(shards, s) {
        RestrictedPrefix(shards, s.phase.i, |shards|, m);
      }
    }
    forall k: nat | k < |shards| ensures SlotOk(shards, s', k) {
      assert SlotOk(shards, s, k);
    }
    assert PendingOk(shards, s');
  }

  lemma NextPhaseKeepsInv(shards: seq<nat>, s: State, s': State)
    requires Inv(shards, s) && Next(shards, s, NextPhase, s')
    ensures Inv(shards, s')
  {
    forall m | 0 <= m < NUM_SHARDS ensures OrderOk(shards, s', m) && LaneOk(s', s'.lanes[m]) {
      assert OrderOk(shards, s, m) && LaneOk(s, s.lanes[m]);
    }
    forall k: nat | k < |shards| ensures SlotOk(shards, s', k) {
      assert SlotOk(shards, s, k);
    }
    assert forall k: nat :: Owed(s.deferred, 0, k) <==> k in s.deferred;
    assert PendingOk(shards, s');
  }

  lemma CollectKeepsInv(shards: seq<nat>, s: State, s': State)
    requires Inv(shards, s) && Next(shards, s, Collect, s')
    ensures Inv(shards, s')
  {
    forall m | 0 <= m < NUM_SHARDS ensures OrderOk(shards, s', m) && LaneOk(s', s'.lanes[m]) {
      assert OrderOk(shards, s, m) && LaneOk(s, s.lanes[m]);
    }
    forall k: nat | k < |shards| ensures SlotOk(shards, s', k) {
      assert SlotOk(shards, s, k);
    }
    assert PendingOk(shards, s');
  }

  /** Taking the head keeps the order, and the head is not queued twice. */
  lemma HeadTaken(lane: Lane)
    requires lane.queue != [] && Increasing(Accepted(lane))
    ensures (lane.taken + [lane.queue[0]]) + lane.queue[1..] == Accepted(lane)
    ensures lane.queue[0] !in lane.queue[1..]
    ensures forall j :: j in lane.queue[1..] ==> j in lane.queue
  {
    forall j | j in lane.queue[1..] ensures j != lane.queue[0] {
      var a :| 0 <= a < |lane.queue[1..]| && lane.queue[1..][a] == j;
      assert Accepted(lane)[|lane.taken|] == lane.queue[0] && Accepted(lane)[|lane.taken| + 1 + a] == j;
    }
  }

  lemma StartKeepsLane(shards: seq<nat>, s: State, l: nat, s': State, m: nat)
    requires Inv(shards, s) && Next(shards, s, Start(l), s') && m < NUM_SHARDS
    ensures OrderOk(shards, s', m) && LaneOk(s', s'.lanes[m])
  {
    var lane := s.lanes[l];
    var i := lane.queue[0];
    assert OrderOk(shards, s, l) && LaneOk(s, lane);
    assert OrderOk(shards, s, m) && LaneOk(s, s.lanes[m]);
    AcceptedIsSorted(shards, s, l);
    assert Holds(lane, i);
    if m == l {
      HeadTaken(lane);
    } else {
      AcceptedIsSorted(shards, s, m);
      assert !Holds(s.lanes[m], i);
    }
  }

  lemma StartKeepsInv(shards: seq<nat>, s: State, l: nat, s': State)
    requires Inv(shards, s) && Next(shards, s, Start(l), s')
    ensures Inv(shards, s')
  {
    var i := s.lanes[l].queue[0];
    assert LaneOk(s, s.lanes[l]) && i in s.pending;
    forall m | 0 <= m < NUM_SHARDS ensures OrderOk(shards, s', m) && LaneOk(s', s'.lanes[m]) {
      StartKeepsLane(shards, s, l, s', m);
    }
    forall j | Holds(s.lanes[l], j) ensures Holds(s'.lanes[l], j) {
      assert j in s.lanes[l].queue ==> j == i || j in s.lanes[l].queue[1..];
    }
    assert PendingOk(shards, s');
    forall k: nat | k < |shards| ensures SlotOk(shards, s', k) {
      assert SlotOk(shards, s, k);
    }
  }

  lemma FinishKeepsLane(shards: seq<nat>, s: State, l: nat, result: nat, s': State, m: nat)
    requires Inv(shards, s) && Next(shards, s, Finish(l, result), s') && m < NUM_SHARDS
    ensures OrderOk(shards, s', m) && LaneOk(s', s'.lanes[m])
  {
    var i := s.lanes[l].serving.value;
    assert OrderOk(shards, s, l) && LaneOk(s, s.lanes[l]);
    assert OrderOk(shards, s, m) && LaneOk(s, s.lanes[m]);
    AcceptedIsSorted(shards, s, l);
    assert Holds(s.lanes[l], i);
    AcceptedIsSorted(shards, s, m);
    assert m != l ==> !Holds(s.lanes[m], i);
    assert m != l && s.lanes[m].serving.Some? ==> Holds(s.lanes[m], s.lanes[m].serving.value);
  }

  lemma FinishKeepsPending(shards: seq<nat>, s: State, l: nat, result: nat, s': State)
    requires Inv(shards, s) && Next(shards, s, Finish(l, result), s')
    ensures PendingOk(shards, s')
  {
    assert LaneOk(s, s.lanes[l]);
    assert s.lanes[l].serving.value in s.lanes[l].taken;
    forall m, i | 0 <= m < NUM_SHARDS ensures Holds(s'.lanes[m], i) == Holds(s.lanes[m], i) {
    }
  }

  lemma FinishKeepsInv(shards: seq<nat>, s: State, l: nat, result: nat, s': State)
    requires Inv(shards, s) && Next(shards, s, Finish(l, result), s')
    ensures Inv(shards, s')
  {
    var i := s.lanes[l].serving.value;
    assert LaneOk(s, s.lanes[l]);
    assert i in s.lanes[l].taken;
    forall m | 0 <= m < NUM_SHARDS ensures OrderOk(shards, s', m) && LaneOk(s', s'.lanes[m]) {
      FinishKeepsLane(shards, s, l, result, s', m);
    }
    FinishKeepsPending(shards, s, l, result, s');
    forall k: nat | k < |shards| ensures SlotOk(shards, s', k) {
      FinishKeepsSlot(shards, s, l, result, s', k);
    }
  }

  lemma FinishKeepsSlot(shards: seq<nat>, s: State, l: nat, result: nat, s': State, k: nat)
    requires Inv(shards, s) && Next(shards, s, Finish(l, result), s') && k < |shards|
    ensures SlotOk(shards, s', k)
  {
    assert LaneOk(s, s.lanes[l]) && SlotOk(shards, s, k);
  }

  lemma CancelKeepsInv(shards: seq<nat>, s: State, s': State)
    requires Inv(shards, s) && Next(shards, s, Cancel, s')
    ensures Inv(shards, s')
  {
    forall m | 0 <= m < NUM_SHARDS ensures OrderOk(shards, s', m) && LaneOk(s', s'.lanes[m]) {
      assert OrderOk(shards, s, m) && LaneOk(s, s.lanes[m]);
    }
    forall k: nat | k < |shards| ensures SlotOk(shards, s', k) {
      assert SlotOk(shards, s, k);
    }
    assert PendingOk(shards, s');
  }

  lemma NextKeepsInv(shards: seq<nat>, s: State, ev: Event, s': State)
    requires Inv(shards, s) && Next(shards, s, ev, s')
    ensures Inv(shards, s')
  {
    match ev
    case Submit => SubmitKeepsInv(shards, s, s');
    case Defer => DeferKeepsInv(shards, s, s');
    case GiveUp => GiveUpKeepsInv(shards, s, s');
    case NextPhase => NextPhaseKeepsInv(shards, s, s');
    case Collect => CollectKeepsInv(shards, s, s');
    case Start(l) => StartKeepsInv(shards, s, l, s');
    case Finish(l, result) => FinishKeepsInv(shards, s, l, result, s');
    case Cancel => CancelKeepsInv(shards, s, s');
  }
}
