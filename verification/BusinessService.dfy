/**
 Resolution of Business connections: cache, then table, then Telegram API.

 Each elementary effect of the chain is a function on values (`UpsertUser`,
 `Upsert`, `DisableRows`, `Served`), because the concurrent system interleaves
 them one by one. The class `Service` composes them as one caller does.
 */
module BusinessService {
  import opened Prelude
  import opened ConnectionCache

  /** The users table (Telegram id to internal id, `nextUser` being the serial),
      the table of connections with the Telegram id its join adds, and the
      onboarding allowlist (empty: everyone is admitted). */
  datatype Tables = Tables(users: map<int, nat>, nextUser: nat, conns: map<ConnId, Connection>, allowed: set<int>)

  /** A connection as Telegram describes it. */
  datatype Reported = Reported(id: ConnId, telegramUserId: int, canReply: bool, isEnabled: bool)

  datatype ResolveError = EmptyId | OwnerNotAllowed | ConnectionUnknown | OwnerConflict | Transient

  datatype Outcome = Found(conn: Connection) | Failed(error: ResolveError)

  /** What getBusinessConnection answers: a 400, any other failure, or a connection. */
  datatype ApiAnswer = BadRequest | ApiFailure | Described(reported: Reported)

  const NO_ID: ConnId := 0

  predicate OwnerAllowed(t: Tables, telegramUserId: int) {
    t.allowed == {} || telegramUserId in t.allowed
  }

  /** Rows and users agree, and no two Telegram accounts share an internal id. */
  ghost predicate WellFormedTables(t: Tables) {
    && (forall tg :: tg in t.users ==> t.users[tg] < t.nextUser)
    && (forall a, b :: a in t.users && b in t.users && t.users[a] == t.users[b] ==> a == b)
    && (forall id :: id in t.conns ==>
      && t.conns[id].id == id
      && t.conns[id].ownerTelegramUserId in t.users
      && t.users[t.conns[id].ownerTelegramUserId] == t.conns[id].ownerUserId)
  }

  function UpsertUser(t: Tables, telegramUserId: int): (Tables, nat) {
    if telegramUserId in t.users then (t, t.users[telegramUserId])
    else (t.(users := t.users[telegramUserId := t.nextUser], nextUser := t.nextUser + 1), t.nextUser)
  }

  /** The upsert of a reported connection. The owner of an existing row never
      moves: a report naming another one updates nothing. */
  function Upsert(t: Tables, rep: Reported): (Tables, Outcome) {
    if rep.id == NO_ID || rep.telegramUserId == 0 then
      (t, Failed(Transient))
    else if !OwnerAllowed(t, rep.telegramUserId) then
      (t, Failed(OwnerNotAllowed))
    else
      var (t1, owner) := UpsertUser(t, rep.telegramUserId);
      var conn := Connection(rep.id, owner, rep.telegramUserId, rep.canReply, rep.isEnabled);
      if rep.id in t1.conns && t1.conns[rep.id].ownerUserId != owner then
        (t1, Failed(OwnerConflict))
      else
        (t1.(conns := t1.conns[rep.id := conn]), Found(conn))
  }

  function DisableRows(t: Tables, owner: int): Tables {
    t.(conns := map id | id in t.conns ::
      if t.conns[id].ownerUserId == owner then t.conns[id].(isEnabled := false) else t.conns[id])
  }

  /** What a cached entry answers, if it settles the resolution. */
  function Served(t: Tables, found: Option<Entry>): Option<Outcome> {
    if found.None? then None
    else
      match found.value.verdict
      case Unknown => Some(Failed(ConnectionUnknown))
      case Refused(tg) => if OwnerAllowed(t, tg) then None else Some(Failed(OwnerNotAllowed))
      case Resolved(conn) =>
        if OwnerAllowed(t, conn.ownerTelegramUserId) then Some(Found(conn)) else Some(Failed(OwnerNotAllowed))
  }

  /** The cache missed and the table holds the connection. */
  function FromRow(t: Tables, c: State, id: ConnId, now: Time, cfg: Config): (Tables, State, Outcome)
    requires id in t.conns
  {
    var row := t.conns[id];
    if OwnerAllowed(t, row.ownerTelegramUserId) then
      (t, StoreDB(c, row, now, cfg), Found(row))
    else
      (t, Put(c, id, Refused(row.ownerTelegramUserId), now, cfg), Failed(OwnerNotAllowed))
  }

  /** The last resort: neither cached nor in the table. */
  function FromApi(t: Tables, c: State, id: ConnId, now: Time, api: ApiAnswer, cfg: Config)
    : (Tables, State, Outcome)
  {
    match api
    case BadRequest => (t, Put(c, id, Unknown, now, cfg), Failed(ConnectionUnknown))
    case ApiFailure => (t, c, Failed(Transient))
    case Described(rep) =>
      if rep.id != id then (t, c, Failed(Transient))
      else
        var (t1, outcome) := Upsert(t, rep);
        match outcome
        case Found(conn) => (t1, Store(c, conn, now, cfg), outcome)
        case Failed(e) =>
          (t1, if e.OwnerNotAllowed? then Put(c, id, Refused(rep.telegramUserId), now, cfg) else c, outcome)
  }

  /** One whole resolution by a single caller. */
  function ResolveSpec(t: Tables, c: State, id: ConnId, now: Time, dbOk: bool, api: ApiAnswer, cfg: Config)
    : (Tables, State, Outcome)
  {
    if id == NO_ID then (t, c, Failed(EmptyId))
    else
      var (c1, found) := Lookup(c, id, now);
      match Served(t, found)
      case Some(answer) => (t, c1, answer)
      case None =>
        if !dbOk then (t, c1, Failed(Transient))
        else if id in t.conns then FromRow(t, c1, id, now, cfg)
        else FromApi(t, c1, id, now, api, cfg)
  }

  class Service {
    var tables: Tables
    const cache: Cache

    constructor (tables: Tables, cache: Cache)
      ensures this.tables == tables && this.cache == cache
    {
      this.tables := tables;
      this.cache := cache;
    }

    method UpsertFromTelegram(rep: Reported) returns (outcome: Outcome)
      modifies this
      ensures (tables, outcome) == Upsert(old(tables), rep)
    {
      if rep.id == NO_ID || rep.telegramUserId == 0 {
        return Failed(Transient);
      }
      if !OwnerAllowed(tables, rep.telegramUserId) {
        return Failed(OwnerNotAllowed);
      }
      var owner: nat;
      if rep.telegramUserId in tables.users {
        owner := tables.users[rep.telegramUserId];
      } else {
        owner := tables.nextUser;
        tables := tables.(users := tables.users[rep.telegramUserId := owner], nextUser := owner + 1);
      }
      var conn := Connection(rep.id, owner, rep.telegramUserId, rep.canReply, rep.isEnabled);
      if rep.id in tables.conns && tables.conns[rep.id].ownerUserId != owner {
        return Failed(OwnerConflict);
      }
      tables := tables.(conns := tables.conns[rep.id := conn]);
      return Found(conn);
    }

    method Resolve(id: ConnId, now: Time, dbOk: bool, api: ApiAnswer) returns (outcome: Outcome)
      requires cache.Valid()
      modifies this, cache, cache.cells
      ensures cache.Valid() && fresh(cache.cells - old(cache.cells))
      ensures (tables, cache.Model(), outcome)
           == ResolveSpec(old(tables), old(cache.Model()), id, now, dbOk, api, cache.cfg)
    {
      if id == NO_ID {
        return Failed(EmptyId);
      }
      var found := cache.LookupEntry(id, now);
      var served := Served(tables, found);
      if served.Some? {
        return served.value;
      }
      if !dbOk {
        return Failed(Transient);
      }
      if id in tables.conns {
        var row := tables.conns[id];
        if !OwnerAllowed(tables, row.ownerTelegramUserId) {
          cache.StoreRefused(id, row.ownerTelegramUserId, now);
          return Failed(OwnerNotAllowed);
        }
        cache.StoreFromDB(row, now);
        return Found(row);
      }
      outcome := ResolveThroughApi(id, now, api);
    }

    method ResolveThroughApi(id: ConnId, now: Time, api: ApiAnswer) returns (outcome: Outcome)
      requires cache.Valid() && id != NO_ID && id !in tables.conns
      modifies this, cache, cache.cells
      ensures cache.Valid() && fresh(cache.cells - old(cache.cells))
      ensures (tables, cache.Model(), outcome)
           == FromApi(old(tables), old(cache.Model()), id, now, api, cache.cfg)
    {
      match api
      case BadRequest =>
        cache.StoreUnknown(id, now);
        return Failed(ConnectionUnknown);
      case ApiFailure =>
        return Failed(Transient);
      case Described(rep) =>
        if rep.id != id {
          return Failed(Transient);
        }
        outcome := UpsertFromTelegram(rep);
        match outcome {
          case Found(conn) => cache.StoreConnection(conn, now);
          case Failed(e) =>
            if e.OwnerNotAllowed? {
              cache.StoreRefused(id, rep.telegramUserId, now);
            }
        }
    }

    /** The business_connection update: the only way an owner comes back. */
    method HandleBusinessConnection(rep: Reported, now: Time) returns (outcome: Outcome)
      requires cache.Valid()
      modifies this, cache, cache.cells
      ensures cache.Valid() && fresh(cache.cells - old(cache.cells))
      ensures (tables, outcome) == Upsert(old(tables), rep)
      ensures cache.Model() ==
        if outcome.Found? then Store(old(cache.Model()), outcome.conn, now, cache.cfg) else old(cache.Model())
    {
      outcome := UpsertFromTelegram(rep);
      if outcome.Found? {
        cache.StoreConnection(outcome.conn, now);
      }
    }

    /** First step of an erasure: the table, then the cache. A failed UPDATE
        leaves both as they were. */
    method DisableOwner(owner: int, updateOk: bool) returns (changed: Option<nat>)
      requires cache.Valid()
      modifies this, cache, cache.cells
      ensures cache.Valid() && cache.cells == old(cache.cells)
      ensures changed.Some? == updateOk
      ensures !updateOk ==> tables == old(tables) && cache.Model() == old(cache.Model())
      ensures updateOk ==> tables == DisableRows(old(tables), owner)
      ensures updateOk ==> cache.Model() == ConnectionCache.DisableOwner(old(cache.Model()), owner)
      ensures updateOk ==> changed.value == |EnabledRows(old(tables), owner)|
    {
      if !updateOk {
        return None;
      }
      changed := Some(|EnabledRows(tables, owner)|);
      tables := DisableRows(tables, owner);
      cache.DisableOwnerEntries(owner);
    }
  }

  function EnabledRows(t: Tables, owner: int): set<ConnId> {
    set id | id in t.conns && t.conns[id].ownerUserId == owner && t.conns[id].isEnabled
  }

  // ---------------------------------------------------------------------
  // What the chain guarantees
  // ---------------------------------------------------------------------

  /** Everything cached as resolved is a row of the table, with the same owner. */
  ghost predicate Known(t: Tables, conn: Connection) {
    conn.id in t.conns && t.conns[conn.id].ownerUserId == conn.ownerUserId
  }

  ghost predicate Coherent(t: Tables, c: State) {
    && WellFormedTables(t)
    && forall e :: e in c.entries && e.verdict.Resolved? ==> e.id == e.verdict.conn.id && Known(t, e.verdict.conn)
  }

  /** Rows are never removed and never change owner. */
  ghost predicate OwnersKept(t: Tables, t': Tables) {
    forall id :: id in t.conns ==> id in t'.conns && t'.conns[id].ownerUserId == t.conns[id].ownerUserId
  }

  lemma UserUpserted(t: Tables, telegramUserId: int)
    requires WellFormedTables(t)
    ensures var (t1, owner) := UpsertUser(t, telegramUserId);
      && WellFormedTables(t1) && t1.conns == t.conns && t1.allowed == t.allowed
      && telegramUserId in t1.users && t1.users[telegramUserId] == owner
      && forall tg :: tg in t.users ==> tg in t1.users && t1.users[tg] == t.users[tg]
  {
  }

  lemma RowWritten(t: Tables, conn: Connection)
    requires WellFormedTables(t) && conn.ownerTelegramUserId in t.users
    requires t.users[conn.ownerTelegramUserId] == conn.ownerUserId
    requires conn.id in t.conns ==> t.conns[conn.id].ownerUserId == conn.ownerUserId
    ensures var t' := t.(conns := t.conns[conn.id := conn]); WellFormedTables(t') && OwnersKept(t, t')
  {
  }

  /** A report is taken exactly if it is complete, its holder is admitted, and the
      connection is new or already theirs. It then replaces that one row; refused,
      it changes no row. Rows never change owner, nor users their id. */
  lemma UpsertKeepsOwners(t: Tables, rep: Reported)
    requires WellFormedTables(t)
    ensures var (t', outcome) := Upsert(t, rep);
      && WellFormedTables(t') && OwnersKept(t, t') && t'.allowed == t.allowed
      && (forall tg :: tg in t.users ==> tg in t'.users && t'.users[tg] == t.users[tg])
      && (forall tg :: tg in t'.users ==> tg in t.users || tg == rep.telegramUserId)
      && (outcome.Found? <==>
        && rep.id != 0 && rep.telegramUserId != 0 && (t.allowed == {} || rep.telegramUserId in t.allowed)
        && (rep.id in t.conns ==> t.conns[rep.id].ownerTelegramUserId == rep.telegramUserId))
      && (outcome.Found? ==>
        && rep.telegramUserId in t'.users
        && outcome.conn == Connection(rep.id, t'.users[rep.telegramUserId], rep.telegramUserId,
                                      rep.canReply, rep.isEnabled)
        && t'.conns == t.conns[rep.id := outcome.conn])
      && (outcome.Failed? ==> t'.conns == t.conns)
      && (outcome.Failed? ==>
        outcome.error == if rep.id == 0 || rep.telegramUserId == 0 then Transient
                         else if t.allowed != {} && rep.telegramUserId !in t.allowed then OwnerNotAllowed
                         else OwnerConflict)
  {
    if rep.id != NO_ID && rep.telegramUserId != 0 && OwnerAllowed(t, rep.telegramUserId) {
      UserUpserted(t, rep.telegramUserId);
      var (t1, owner) := UpsertUser(t, rep.telegramUserId);
      if rep.id in t.conns && t.conns[rep.id].ownerUserId != owner {
        assert Upsert(t, rep) == (t1, Failed(OwnerConflict));
      } else {
        var conn := Connection(rep.id, owner, rep.telegramUserId, rep.canReply, rep.isEnabled);
        RowWritten(t1, conn);
        assert Upsert(t, rep) == (t1.(conns := t1.conns[rep.id := conn]), Found(conn));
      }
    }
  }

  /** A disable of one holder: their connections are disabled and otherwise as they
      were, nobody else's changes, and no row or user appears or goes. */
  ghost predicate OnlyDisabled(t: Tables, t': Tables, owner: int) {
    && t'.users == t.users && t'.nextUser == t.nextUser && t'.allowed == t.allowed
    && t'.conns.Keys == t.conns.Keys
    && forall id :: id in t.conns ==>
      var c, c' := t.conns[id], t'.conns[id];
      if c.ownerUserId != owner then c' == c
      else c' == Connection(c.id, owner, c.ownerTelegramUserId, c.canReply, false)
  }

  lemma DisableRowsDisablesOneHolder(t: Tables, owner: int)
    ensures OnlyDisabled(t, DisableRows(t, owner), owner)
  {
  }

  /** There is one way to disable a holder. */
  lemma OnlyDisabledIsUnique(t: Tables, t1: Tables, t2: Tables, owner: int)
    requires OnlyDisabled(t, t1, owner) && OnlyDisabled(t, t2, owner)
    ensures t1 == t2
  {
    assert forall id :: id in t1.conns ==> t1.conns[id] == t2.conns[id];
  }

  lemma DisableRowsKeepsOwners(t: Tables, owner: int)
    requires WellFormedTables(t)
    ensures WellFormedTables(DisableRows(t, owner)) && OwnersKept(t, DisableRows(t, owner))
  {
  }

  lemma CoherentPut(t: Tables, c: State, id: ConnId, v: Verdict, now: Time, cfg: Config)
    requires Coherent(t, c) && (v.Resolved? ==> v.conn.id == id && Known(t, v.conn))
    ensures Coherent(t, Put(c, id, v, now, cfg))
  {
    var i := Find(c.entries, id);
    forall e | e in Put(c, id, v, now, cfg).entries ensures e in c.entries || e == Entry(id, v, now + cfg.ttl) {
    }
  }

  lemma CoherentStoreDB(t: Tables, c: State, row: Connection, now: Time, cfg: Config)
    requires Coherent(t, c) && Known(t, row)
    ensures Coherent(t, StoreDB(c, row, now, cfg))
  {
    match StoreDBVerdict(c, row)
    case None =>
    case Some(v) => CoherentPut(t, c, row.id, v, now, cfg);
  }

  lemma CoherentStore(t: Tables, c: State, conn: Connection, now: Time, cfg: Config)
    requires Coherent(t, c) && Known(t, conn)
    ensures Coherent(t, Store(c, conn, now, cfg))
  {
    var marked := if conn.isEnabled then c.disabledOwners - {conn.ownerUserId}
                  else c.disabledOwners + {conn.ownerUserId};
    CoherentPut(t, c.(disabledOwners := marked), conn.id, Resolved(conn), now, cfg);
  }

  lemma CoherentLookup(t: Tables, c: State, id: ConnId, now: Time)
    requires Coherent(t, c)
    ensures var (c', found) := Lookup(c, id, now);
      && Coherent(t, c')
      && (found.Some? ==> found.value.id == id && found.value in c.entries)
  {
  }

  lemma CoherentDisable(t: Tables, c: State, owner: int)
    requires Coherent(t, c)
    ensures Coherent(DisableRows(t, owner), ConnectionCache.DisableOwner(c, owner))
  {
    DisableRowsKeepsOwners(t, owner);
    forall e | e in ConnectionCache.DisableOwner(c, owner).entries && e.verdict.Resolved?
      ensures e.id == e.verdict.conn.id && Known(DisableRows(t, owner), e.verdict.conn)
    {
      var i :| 0 <= i < |c.entries| && Patched(c.entries, owner)[i] == e;
      assert c.entries[i] in c.entries;
    }
  }

  /** What every path of a resolution keeps and answers. */
  ghost predicate Follows(t: Tables, id: ConnId, t': Tables, c': State, outcome: Outcome) {
    && Coherent(t', c') && OwnersKept(t, t')
    && (outcome.Found? ==>
      && outcome.conn.id == id
      && (t.allowed == {} || outcome.conn.ownerTelegramUserId in t.allowed)
      && Known(t', outcome.conn))
  }

  /** Whatever path answers, a resolution names a connection of that very id,
      of an admitted holder, whose owner is the owner the table has for it --
      and has always had: no resolution moves a connection between tenants. */
  lemma ResolutionFollowsTheTable(
    t: Tables, c: State, id: ConnId, now: Time, dbOk: bool, api: ApiAnswer, cfg: Config)
    requires Coherent(t, c)
    ensures var (t', c', outcome) := ResolveSpec(t, c, id, now, dbOk, api, cfg);
      Follows(t, id, t', c', outcome)
  {
    CoherentLookup(t, c, id, now);
    var (c1, found) := Lookup(c, id, now);
    HitFollowsTheTable(t, c, id, found);
    if id in t.conns {
      RowBranchFollowsTheTable(t, c1, id, now, cfg);
    }
    ApiBranchFollowsTheTable(t, c1, id, now, api, cfg);
  }

  lemma HitFollowsTheTable(t: Tables, c: State, id: ConnId, found: Option<Entry>)
    requires Coherent(t, c) && (found.Some? ==> found.value.id == id && found.value in c.entries)
    ensures Served(t, found).Some? ==> Follows(t, id, t, c, Served(t, found).value)
  {
  }

  lemma RowBranchFollowsTheTable(t: Tables, c: State, id: ConnId, now: Time, cfg: Config)
    requires Coherent(t, c) && id in t.conns
    ensures var (t', c', outcome) := FromRow(t, c, id, now, cfg); Follows(t, id, t', c', outcome)
  {
    CoherentStoreDB(t, c, t.conns[id], now, cfg);
    CoherentPut(t, c, id, Refused(t.conns[id].ownerTelegramUserId), now, cfg);
  }

  lemma ApiBranchFollowsTheTable(t: Tables, c: State, id: ConnId, now: Time, api: ApiAnswer, cfg: Config)
    requires Coherent(t, c)
    ensures var (t', c', outcome) := FromApi(t, c, id, now, api, cfg); Follows(t, id, t', c', outcome)
  {
    CoherentPut(t, c, id, Unknown, now, cfg);
    if api.Described? && api.reported.id == id {
      var rep := api.reported;
      UpsertKeepsOwners(t, rep);
      var (t1, outcome) := Upsert(t, rep);
      CoherentPut(t1, c, id, Refused(rep.telegramUserId), now, cfg);
      if outcome.Found? {
        CoherentStore(t1, c, outcome.conn, now, cfg);
      }
    }
  }

  /** Who answers a resolution, and what. A live cache entry settles it, unless it
      refused a holder since admitted; then the row of the table does, as it is;
      then what Telegram reports of that very id, once it was taken in. Holders
      off the allowlist are refused whoever answers. */
  lemma WhatAResolutionAnswers(
    t: Tables, c: State, id: ConnId, now: Time, dbOk: bool, api: ApiAnswer, cfg: Config)
    requires WellFormedTables(t)
    ensures var outcome := ResolveSpec(t, c, id, now, dbOk, api, cfg).2;
      var found := Lookup(c, id, now).1;
      var refuses := (tg: int) => t.allowed != {} && tg !in t.allowed;
      if id == 0 then outcome == Failed(EmptyId)
      else if found.Some? && found.value.verdict.Unknown? then outcome == Failed(ConnectionUnknown)
      else if found.Some? && found.value.verdict.Resolved? then
        outcome == if refuses(found.value.verdict.conn.ownerTelegramUserId) then Failed(OwnerNotAllowed)
                   else Found(found.value.verdict.conn)
      else if found.Some? && refuses(found.value.verdict.ownerTelegramUserId) then outcome == Failed(OwnerNotAllowed)
      else if !dbOk then outcome == Failed(Transient)
      else if id in t.conns then
        outcome == if refuses(t.conns[id].ownerTelegramUserId) then Failed(OwnerNotAllowed) else Found(t.conns[id])
      else
        match api
        case BadRequest => outcome == Failed(ConnectionUnknown)
        case ApiFailure => outcome == Failed(Transient)
        case Described(rep) =>
          if rep.id != id || rep.telegramUserId == 0 then outcome == Failed(Transient)
          else if refuses(rep.telegramUserId) then outcome == Failed(OwnerNotAllowed)
          else
            && outcome.Found?
            && outcome.conn.id == id && outcome.conn.ownerTelegramUserId == rep.telegramUserId
            && outcome.conn.canReply == rep.canReply && outcome.conn.isEnabled == rep.isEnabled
  {
    if api.Described? && id !in t.conns {
      UpsertKeepsOwners(t, api.reported);
    }
  }

  /** After a disable, only an enabled report of that very holder can make a
      resolution answer with an enabled connection of theirs. */
  lemma DisabledOwnerResolvesDisabled(
    t: Tables, c: State, owner: int, id: ConnId, now: Time, dbOk: bool, api: ApiAnswer, cfg: Config)
    requires Coherent(t, c)
    requires api.Described? && api.reported.isEnabled && id !in t.conns ==>
      UpsertUser(t, api.reported.telegramUserId).1 != owner
    ensures var after := ResolveSpec(DisableRows(t, owner), ConnectionCache.DisableOwner(c, owner),
                                     id, now, dbOk, api, cfg).2;
      after.Found? && after.conn.ownerUserId == owner ==> !after.conn.isEnabled
  {
    var t1, c1 := DisableRows(t, owner), ConnectionCache.DisableOwner(c, owner);
    CoherentDisable(t, c, owner);
    CoherentLookup(t1, c1, id, now);
    assert OwnerOff(c1, owner);
    var found := Lookup(c1, id, now).1;
    if found.Some? {
      assert !IsEnabledFor(found.value.verdict, owner);
    }
  }
}
