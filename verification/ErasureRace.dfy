/**
 Why the safety of an erasure speaks of enabled upserts and stores: a run in
 which the handler of a connection update reads an enabled connection, a whole
 erasure of its holder completes, and only then does the handler publish what
 it had read. The rows stay disabled, yet the next message is saved.
 */
module ErasureRace {
  import opened Prelude
  import opened TenantData
  import opened TenantGuard
  import opened BusinessService
  import opened ErasureSystem
  import ER = ErasureRequests
  import CC = ConnectionCache

  const OWNER: int := 0
  const HOLDER: int := 5
  const CONNECTION: ConnId := 1
  const CODE: ER.Hash := 9
  const MESSAGE: nat := 7

  /** The threads: the update handler, the erasure, the save. */
  const UPDATE: ThreadId := 1
  const ERASURE: ThreadId := 2
  const SAVE: ThreadId := 3

  const REPORT: Reported := Reported(CONNECTION, HOLDER, true, true)
  const ENABLED: CC.Connection := CC.Connection(CONNECTION, OWNER, HOLDER, true, true)

  const CODE_SENT: ER.Request := ER.NewRequest(CODE, HOLDER, CONNECTION, 0)

  /** Every choice of a step that goes well, at instant zero. */
  function Plainly(start: Phase): Input {
    Input(0, false, false, false, false, BadRequest, MESSAGE, {}, start)
  }

  // ---------------------------------------------------------------------
  // The run, component by component
  // ---------------------------------------------------------------------

  function TablesAt(k: nat): Tables {
    Tables(map[HOLDER := 0], 1, map[CONNECTION := ENABLED.(isEnabled := k < 6)], {})
  }

  function CacheAt(k: nat, cfg: CC.Config): CC.State {
    if k < 7 then CC.EMPTY
    else if k < 16 then CC.State([], {OWNER})
    else CC.State([CC.Entry(CONNECTION, CC.Resolved(ENABLED), cfg.ttl)], {})
  }

  function RequestAt(k: nat): ER.Request {
    if k < 5 then CODE_SENT
    else if k < 14 then CODE_SENT.(status := ER.Consumed, consumedAt := Some(0))
    else CODE_SENT.(status := ER.Completed, consumedAt := Some(0), completedAt := Some(0),
                    telegramUserId := None, connectionId := None)
  }

  function DataAt(k: nat): Data {
    var rows := if k < 21 then {} else {Row(OWNER, MESSAGE)};
    Data(rows, rows, {}, {}, {})
  }

  function LocksAt(k: nat): map<int, Lock> {
    if k < 4 then map[]
    else if k < 15 then map[OWNER := Lock({}, Some(ERASURE))]
    else if k < 19 then map[OWNER := FREE]
    else map[OWNER := Lock({SAVE}, None)]
  }

  function UpdateAt(k: nat): Phase {
    if k < 2 then Upserting(REPORT, Lifecycle) else if k < 16 then Publishing(ENABLED, Lifecycle) else Idle
  }

  function StageAt(k: nat): Stage {
    if k == 4 then AtClaim else if k == 5 then AtDisableRows else if k == 6 then AtDisableCache
    else if k == 7 then AtOutbox else if k == 8 then AtFiles else if k == 9 then AtMediaRows
    else if k == 10 then AtTree else if k == 11 then AtMessages else if k == 12 then AtOthers else AtComplete
  }

  function ErasureAt(k: nat): Phase {
    if k == 3 then WaitingExclusive(OWNER, CODE) else if k < 14 then Erasing(OWNER, CODE, StageAt(k))
    else if k == 14 then ReleasingExclusive(OWNER) else Idle
  }

  function SaveAt(k: nat): Phase {
    if k == 17 then Looking(CONNECTION, First(SaveJob))
    else if k == 18 then WaitingShared(OWNER, SaveWork(CONNECTION))
    else if k == 19 then Looking(CONNECTION, Under(OWNER, SaveJob))
    else if k == 20 then Saving(OWNER, ENABLED)
    else Cataloguing(OWNER, ENABLED)
  }

  function ThreadsAt(k: nat): map<ThreadId, Phase> {
    if k == 0 then map[]
    else if k < 3 then map[UPDATE := UpdateAt(k)]
    else if k < 17 then map[UPDATE := UpdateAt(k), ERASURE := ErasureAt(k)]
    else map[UPDATE := Idle, ERASURE := Idle, SAVE := SaveAt(k)]
  }

  function StateAt(k: nat, cfg: CC.Config): State {
    State(TablesAt(k), CacheAt(k, cfg), map[OWNER := [RequestAt(k)]], DataAt(k), LocksAt(k), ThreadsAt(k),
          if 6 <= k < 16 then {OWNER} else {},
          if 7 <= k < 16 then {OWNER} else {},
          if 14 <= k < 16 then {OWNER} else {})
  }

  function EventAt(k: nat): Event {
    if k == 0 then ThreadEvent(UPDATE, Plainly(Upserting(REPORT, Lifecycle)))
    else if k == 2 then ThreadEvent(ERASURE, Plainly(WaitingExclusive(OWNER, CODE)))
    else if k == 16 then ThreadEvent(SAVE, Plainly(Looking(CONNECTION, First(SaveJob))))
    else ThreadEvent(if k == 1 || k == 15 then UPDATE else if k < 15 then ERASURE else SAVE, Plainly(Idle))
  }

  function ShownAt(k: nat): Label {
    if k == 1 || k == 15 then ReEnabled(OWNER)
    else if k == 5 then RowsDisabled(OWNER)
    else if k == 13 then Completed(OWNER)
    else Quiet
  }

  predicate StepsTo(k: nat, cfg: CC.Config) {
    Next(StateAt(k, cfg), EventAt(k), StateAt(k + 1, cfg), ShownAt(k), cfg)
  }

  lemma UpdateIsRead(k: nat, cfg: CC.Config)
    requires k < 2
    ensures StepsTo(k, cfg)
  {
    assert ENABLED.(isEnabled := true) == ENABLED;
    assert StateAt(k + 1, cfg).threads == StateAt(k, cfg).threads[UPDATE := UpdateAt(k + 1)];
    assert TablesAt(k).conns[CONNECTION := ENABLED] == TablesAt(k).conns;
    assert NOBODY - {OWNER} == NOBODY;
  }

  const NO_ROWS: set<Row> := {}
  const NO_READERS: set<ThreadId> := {}
  const NOBODY: set<int> := {}

  lemma NothingToErase()
    ensures Without({}, OWNER) == {} && WithoutPicked({}, OWNER, {}) == {}
  {
  }

  lemma ErasureMoves(k: nat, cfg: CC.Config)
    requires 2 <= k < 15
    ensures StateAt(k + 1, cfg).threads == StateAt(k, cfg).threads[ERASURE := ErasureAt(k + 1)]
    ensures PhaseOf(StateAt(k, cfg), ERASURE) == if k == 2 then Idle else ErasureAt(k)
  {
  }

  lemma ErasureIsLetIn(k: nat, cfg: CC.Config)
    requires 2 <= k < 5
    ensures StepsTo(k, cfg)
  {
    ErasureMoves(k, cfg);
    OnlyRequest(RequestAt(k), RequestAt(k + 1));
    assert StateAt(k, cfg).requests[OWNER := [RequestAt(k + 1)]] == StateAt(k + 1, cfg).requests;
    if k == 3 {
      assert LocksAt(3)[OWNER := WriteLock(FREE, ERASURE)] == LocksAt(4);
    }
  }

  lemma OnlyRequest(r: ER.Request, r': ER.Request)
    requires r.hash == CODE
    ensures ER.HashAt([r], CODE) == 0 && [r][0 := r'] == [r'] && ER.DeleteOthers([r], CODE) == [r]
  {
    assert [r][1..] == [];
  }

  lemma ErasureDisables(k: nat, cfg: CC.Config)
    requires 5 <= k < 7
    ensures StepsTo(k, cfg)
  {
    ErasureMoves(k, cfg);
    assert DisableRows(TablesAt(5), OWNER).conns == TablesAt(6).conns;
    assert CC.DisableOwner(CC.EMPTY, OWNER) == CC.State([], {OWNER});
  }

  lemma ErasureDeletes(k: nat, cfg: CC.Config)
    requires 7 <= k < 12
    ensures StepsTo(k, cfg)
  {
    ErasureMoves(k, cfg);
    NothingToErase();
  }

  lemma ErasureCompletes(k: nat, cfg: CC.Config)
    requires 12 <= k < 15
    ensures StepsTo(k, cfg)
  {
    ErasureMoves(k, cfg);
    OnlyRequest(RequestAt(k), RequestAt(k + 1));
    assert StateAt(k, cfg).requests[OWNER := [RequestAt(k + 1)]] == StateAt(k + 1, cfg).requests;
    assert NOBODY + {OWNER} == {OWNER};
    assert LocksAt(14)[OWNER := WriteUnlock(LocksAt(14)[OWNER])] == LocksAt(15);
  }

  lemma UpdateIsPublished(cfg: CC.Config)
    requires cfg.max >= 1
    ensures StepsTo(15, cfg)
  {
    assert StateAt(16, cfg).threads == StateAt(15, cfg).threads[UPDATE := Idle];
    assert CC.Store(CacheAt(15, cfg), ENABLED, 0, cfg) == CacheAt(16, cfg);
  }

  lemma CachedAsEnabled(k: nat, cfg: CC.Config)
    requires k >= 16 && cfg.ttl > 0
    ensures var cache := CacheAt(k, cfg);
      CC.Lookup(cache, CONNECTION, 0) == (cache, Some(CC.Entry(CONNECTION, CC.Resolved(ENABLED), cfg.ttl)))
  {
    var cache := CacheAt(k, cfg);
    assert [cache.entries[0]] + CC.Without(cache.entries, 0) == cache.entries;
  }

  lemma SaveMoves(k: nat, cfg: CC.Config)
    requires 16 <= k < 21
    ensures StateAt(k + 1, cfg).threads == StateAt(k, cfg).threads[SAVE := SaveAt(k + 1)]
    ensures PhaseOf(StateAt(k, cfg), SAVE) == if k == 16 then Idle else SaveAt(k)
  {
  }

  /** The two resolutions of the save, each a hit. */
  lemma SaveResolves(k: nat, cfg: CC.Config)
    requires (k == 17 || k == 19) && cfg.ttl > 0
    ensures StepsTo(k, cfg)
  {
    SaveMoves(k, cfg);
    CachedAsEnabled(k, cfg);
  }

  lemma SaveWrites(k: nat, cfg: CC.Config)
    requires k == 16 || k == 18 || k == 20
    ensures StepsTo(k, cfg)
  {
    SaveMoves(k, cfg);
    assert NO_READERS + {SAVE} == {SAVE};
    assert LocksAt(18)[OWNER := ReadLock(FREE, SAVE)] == LocksAt(19);
    assert NO_ROWS + {Row(OWNER, MESSAGE)} == {Row(OWNER, MESSAGE)};
  }

  /** An enabled connection read before the erasure and published after it brings
      the tenant back: its rows stay disabled, and its next message is saved. */
  lemma AnEnabledStoreInFlightRevivesTheTenant(cfg: CC.Config)
    returns (ss: seq<State>, evs: seq<Event>, shown: seq<Label>)
    requires cfg.max >= 1 && cfg.ttl > 0
    ensures IsRun(ss, evs, shown, cfg) && |evs| == 21
    ensures shown[5] == RowsDisabled(OWNER) && shown[13] == Completed(OWNER)
    ensures Empty(ss[14].data, OWNER) && !Empty(ss[21].data, OWNER) && RowsDisabledOf(ss[21].tables, OWNER)
    ensures forall m :: 5 < m < 21 && shown[m] == ReEnabled(OWNER) ==> PhaseOf(ss[m], UPDATE).Publishing?
  {
    ss := seq(22, k requires 0 <= k < 22 => StateAt(k, cfg));
    evs := seq(21, k requires 0 <= k < 21 => EventAt(k));
    shown := seq(21, k requires 0 <= k < 21 => ShownAt(k));
    forall k | 0 <= k < 21 ensures Next(ss[k], evs[k], ss[k + 1], shown[k], cfg) {
      if k < 2 { UpdateIsRead(k, cfg); }
      else if k < 5 { ErasureIsLetIn(k, cfg); }
      else if k < 7 { ErasureDisables(k, cfg); }
      else if k < 12 { ErasureDeletes(k, cfg); }
      else if k < 15 { ErasureCompletes(k, cfg); }
      else if k == 15 { UpdateIsPublished(cfg); }
      else if k == 17 || k == 19 { SaveResolves(k, cfg); }
      else { SaveWrites(k, cfg); }
    }
    assert Row(OWNER, MESSAGE) in ss[21].data.messages;
  }
}
