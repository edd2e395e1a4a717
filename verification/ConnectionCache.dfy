/**
 The resolution cache of Business connections: bounded, expiring, LRU, with the
 set of owners an erasure turned off.

 The first half is the value-level specification, one function per operation.
 The class `Cache` is the in-place structure (a map onto shared list elements,
 and the recency list), proved operation by operation against it. The runs at
 the end are over arbitrary sequences of operations.
 */
module ConnectionCache {
  import opened Prelude

  /** A connection id: an opaque token, only ever compared. */
  type ConnId = nat

  datatype Connection = Connection(
    id: ConnId,
    ownerUserId: int,
    ownerTelegramUserId: int,
    canReply: bool,
    isEnabled: bool)

  /** What a resolution settled on. */
  datatype Verdict = Resolved(conn: Connection) | Unknown | Refused(ownerTelegramUserId: int)

  datatype Entry = Entry(id: ConnId, verdict: Verdict, expiresAt: Time)

  /** `entries` is the recency list, most recently used first. */
  datatype State = State(entries: seq<Entry>, disabledOwners: set<int>)

  datatype Config = Config(ttl: Time, max: nat)

  const EMPTY: State := State([], {})

  // ---------------------------------------------------------------------
  // Specification
  // ---------------------------------------------------------------------

  predicate IsEnabledFor(v: Verdict, owner: int) {
    v.Resolved? && v.conn.ownerUserId == owner && v.conn.isEnabled
  }

  function Disable(v: Verdict, owner: int): (r: Verdict)
    ensures !IsEnabledFor(r, owner)
    ensures r.Resolved? == v.Resolved?
  {
    if v.Resolved? && v.conn.ownerUserId == owner then v.(conn := v.conn.(isEnabled := false)) else v
  }

  /** First position at or after `from` holding `id`, or the length. */
  function FindFrom(entries: seq<Entry>, id: ConnId, from: nat): (i: nat)
    requires from <= |entries|
    ensures from <= i <= |entries|
    ensures i < |entries| ==> entries[i].id == id
    ensures forall j :: from <= j < i ==> entries[j].id != id
    decreases |entries| - from
  {
    if from == |entries| || entries[from].id == id then from else FindFrom(entries, id, from + 1)
  }

  /** Position of `id` in the recency list, or its length. */
  function Find(entries: seq<Entry>, id: ConnId): (i: nat)
    ensures i <= |entries|
    ensures i < |entries| ==> entries[i].id == id
    ensures forall j :: 0 <= j < i ==> entries[j].id != id
  {
    FindFrom(entries, id, 0)
  }

  predicate Holds(s: State, id: ConnId) {
    Find(s.entries, id) < |s.entries|
  }

  function Without<T>(entries: seq<T>, i: nat): (r: seq<T>)
    requires i < |entries|
    ensures |r| == |entries| - 1
    ensures forall k :: 0 <= k < |r| ==> r[k] == entries[if k < i then k else k + 1]
  {
    seq(|entries| - 1, k requires 0 <= k < |entries| - 1 => entries[if k < i then k else k + 1])
  }

  ghost predicate DistinctIds(entries: seq<Entry>) {
    forall i, j :: 0 <= i < j < |entries| ==> entries[i].id != entries[j].id
  }

  lemma FindAt(entries: seq<Entry>, i: nat)
    requires DistinctIds(entries) && i < |entries|
    ensures Find(entries, entries[i].id) == i
  {
  }

  function Lookup(s: State, id: ConnId, now: Time): (State, Option<Entry>) {
    var i := Find(s.entries, id);
    if i == |s.entries| then
      (s, None)
    else if now >= s.entries[i].expiresAt then
      (s.(entries := Without(s.entries, i)), None)
    else
      (s.(entries := [s.entries[i]] + Without(s.entries, i)), Some(s.entries[i]))
  }

  /** One eviction, of the last entry, past the bound. */
  function Trimmed(entries: seq<Entry>, max: nat): seq<Entry> {
    if |entries| > max then entries[..|entries| - 1] else entries
  }

  /** At the front: overwriting the entry of that id, or evicting past the bound. */
  function Placed(entries: seq<Entry>, e: Entry, max: nat): seq<Entry> {
    var i := Find(entries, e.id);
    if i < |entries| then [e] + Without(entries, i) else Trimmed([e] + entries, max)
  }

  function Put(s: State, id: ConnId, v: Verdict, now: Time, cfg: Config): State {
    s.(entries := Placed(s.entries, Entry(id, v, now + cfg.ttl), cfg.max))
  }

  function Store(s: State, conn: Connection, now: Time, cfg: Config): State {
    var marked :=
      if conn.isEnabled then s.disabledOwners - {conn.ownerUserId} else s.disabledOwners + {conn.ownerUserId};
    Put(s.(disabledOwners := marked), conn.id, Resolved(conn), now, cfg)
  }

  /** What `storeDB` memoises for a row read from the table, if anything. */
  function StoreDBVerdict(s: State, conn: Connection): Option<Verdict> {
    if !conn.isEnabled then
      Some(Resolved(conn))
    else
      var i := Find(s.entries, conn.id);
      if i < |s.entries| && s.entries[i].verdict.Resolved? && !s.entries[i].verdict.conn.isEnabled then
        None
      else if conn.ownerUserId in s.disabledOwners then
        Some(Resolved(conn.(isEnabled := false)))
      else
        Some(Resolved(conn))
  }

  function StoreDB(s: State, conn: Connection, now: Time, cfg: Config): State {
    match StoreDBVerdict(s, conn)
    case None => s
    case Some(v) => Put(s, conn.id, v, now, cfg)
  }

  function Patched(entries: seq<Entry>, owner: int): (r: seq<Entry>)
    ensures |r| == |entries|
    ensures forall i :: 0 <= i < |r| ==> r[i] == entries[i].(verdict := Disable(entries[i].verdict, owner))
  {
    seq(|entries|, i requires 0 <= i < |entries| =>
      entries[i].(verdict := Disable(entries[i].verdict, owner)))
  }

  function DisableOwner(s: State, owner: int): State {
    State(Patched(s.entries, owner), s.disabledOwners + {owner})
  }

  // ---------------------------------------------------------------------
  // The structure itself
  // ---------------------------------------------------------------------

  /** One cell of the recency list; shared with the map that indexes it. */
  class Element {
    var entry: Entry

    constructor (entry: Entry)
      ensures this.entry == entry
    {
      this.entry := entry;
    }
  }

  /** First position at or after `from` of a cell in the recency list, or its length. */
  function PositionFrom(order: seq<Element>, element: Element, from: nat): (i: nat)
    requires from <= |order|
    ensures from <= i <= |order|
    ensures i < |order| ==> order[i] == element
    ensures forall j :: from <= j < i ==> order[j] != element
    decreases |order| - from
  {
    if from == |order| || order[from] == element then from else PositionFrom(order, element, from + 1)
  }

  /** The map and the list are in bijection, the list holding `contents`. */
  ghost predicate Indexed(byId: map<ConnId, Element>, order: seq<Element>, contents: seq<Entry>) {
    && |order| == |contents|
    && DistinctIds(contents)
    && (forall i :: 0 <= i < |contents| ==> contents[i].id in byId && byId[contents[i].id] == order[i])
    && (forall id {:trigger Find(contents, id)} :: id in byId ==> Find(contents, id) < |contents|)
  }

  lemma DistinctWithout(contents: seq<Entry>, p: nat)
    requires DistinctIds(contents) && p < |contents|
    ensures DistinctIds(Without(contents, p))
    ensures forall k :: 0 <= k < |Without(contents, p)| ==> Without(contents, p)[k].id != contents[p].id
  {
  }

  lemma FindWithout(contents: seq<Entry>, p: nat, id: ConnId)
    requires DistinctIds(contents) && p < |contents| && id != contents[p].id && Find(contents, id) < |contents|
    ensures Find(Without(contents, p), id) < |Without(contents, p)|
  {
    DistinctWithout(contents, p);
    var k := Find(contents, id);
    FindAt(Without(contents, p), if k < p then k else k - 1);
  }

  lemma IndexedWithout(byId: map<ConnId, Element>, order: seq<Element>, contents: seq<Entry>, p: nat)
    requires Indexed(byId, order, contents) && p < |contents|
    ensures Indexed(byId - {contents[p].id}, Without(order, p), Without(contents, p))
  {
    DistinctWithout(contents, p);
    forall id | id in byId && id != contents[p].id ensures Find(Without(contents, p), id) < |Without(contents, p)| {
      FindWithout(contents, p, id);
    }
  }

  lemma FindPushed(contents: seq<Entry>, entry: Entry, id: ConnId)
    requires DistinctIds(contents) && Find(contents, entry.id) == |contents|
    ensures DistinctIds([entry] + contents) && Find([entry] + contents, entry.id) == 0
    ensures Find(contents, id) < |contents| ==> Find([entry] + contents, id) < |contents| + 1
  {
    var grown := [entry] + contents;
    if Find(contents, id) < |contents| {
      FindAt(grown, Find(contents, id) + 1);
    }
  }

  lemma IndexedPush(byId: map<ConnId, Element>, order: seq<Element>, contents: seq<Entry>,
                    element: Element, entry: Entry)
    requires Indexed(byId, order, contents) && Find(contents, entry.id) == |contents|
    ensures Indexed(byId[entry.id := element], [element] + order, [entry] + contents)
  {
    var grown := [entry] + contents;
    FindPushed(contents, entry, entry.id);
    forall id | id in byId ensures Find(grown, id) < |grown| {
      assert Find(contents, id) < |contents|;
      FindPushed(contents, entry, id);
    }
  }

  lemma IndexedMove(byId: map<ConnId, Element>, order: seq<Element>, contents: seq<Entry>, p: nat)
    requires Indexed(byId, order, contents) && p < |contents|
    ensures Indexed(byId, [order[p]] + Without(order, p), [contents[p]] + Without(contents, p))
  {
    IndexedWithout(byId, order, contents, p);
    var rest := Without(contents, p);
    var id := contents[p].id;
    forall j | 0 <= j < |rest| ensures rest[j].id != id {
    }
    IndexedPush(byId - {id}, Without(order, p), rest, order[p], contents[p]);
    assert (byId - {id})[id := order[p]] == byId;
  }

  /** Rewriting cells in place, ids kept, changes no link. */
  lemma IndexedRewritten(byId: map<ConnId, Element>, order: seq<Element>, was: seq<Entry>, now: seq<Entry>)
    requires Indexed(byId, order, was) && |now| == |was|
    requires forall i :: 0 <= i < |was| ==> now[i].id == was[i].id
    ensures Indexed(byId, order, now)
  {
    forall id | id in byId ensures Find(now, id) < |now| {
      FindAt(now, Find(was, id));
    }
  }

  class Cache {
    const cfg: Config
    var byId: map<ConnId, Element>
    var order: seq<Element>
    var disabledOwners: set<int>
    /** What the cells of `order` hold, in order. */
    ghost var contents: seq<Entry>
    /** Every cell this cache ever allocated. */
    ghost var cells: set<Element>

    ghost predicate Linked()
      reads this, cells
    {
      && Indexed(byId, order, contents)
      && forall i :: 0 <= i < |order| ==> order[i] in cells && order[i].entry == contents[i]
    }

    /** Every operation starts and ends with the bound in force. */
    ghost predicate Valid()
      reads this, cells
    {
      Linked() && |order| <= cfg.max
    }

    ghost function Model(): State
      reads this
    {
      State(contents, disabledOwners)
    }

    constructor (cfg: Config)
      ensures Valid() && Model() == EMPTY && this.cfg == cfg
    {
      this.cfg := cfg;
      byId := map[];
      order := [];
      disabledOwners := {};
      contents := [];
      cells := {};
    }

    lemma IndexIsExact(id: ConnId)
      requires Linked()
      ensures id in byId <==> Find(contents, id) < |contents|
      ensures id in byId ==> byId[id] == order[Find(contents, id)]
      ensures id in byId ==> PositionFrom(order, byId[id], 0) == Find(contents, id)
    {
      var i := Find(contents, id);
      if i < |contents| {
        assert order[i] == byId[contents[i].id];
        forall j | 0 <= j < i ensures order[j] != order[i] {
          assert order[j].entry == contents[j];
        }
      }
    }

    /** Unlinks the cell of `id` from both the map and the list. */
    method Remove(id: ConnId)
      requires Linked() && id in byId
      modifies this`byId, this`order, this`contents
      ensures Linked()
      ensures contents == Without(old(contents), Find(old(contents), id))
      ensures order == Without(old(order), Find(old(contents), id))
    {
      IndexIsExact(id);
      var p := PositionFrom(order, byId[id], 0);
      IndexedWithout(byId, order, contents, p);
      byId := byId - {id};
      order := Without(order, p);
      contents := Without(contents, p);
    }

    method MoveToFront(id: ConnId)
      requires Linked() && id in byId
      modifies this`order, this`contents
      ensures Linked()
      ensures var p := Find(old(contents), id);
        contents == [old(contents)[p]] + Without(old(contents), p)
    {
      IndexIsExact(id);
      var p := PositionFrom(order, byId[id], 0);
      IndexedMove(byId, order, contents, p);
      order := [order[p]] + Without(order, p);
      contents := [contents[p]] + Without(contents, p);
    }

    method LookupEntry(id: ConnId, now: Time) returns (found: Option<Entry>)
      requires Valid()
      modifies this`byId, this`order, this`contents
      ensures Valid()
      ensures (Model(), found) == Lookup(old(Model()), id, now)
    {
      IndexIsExact(id);
      if id !in byId {
        return None;
      }
      var entry := byId[id].entry;
      if now >= entry.expiresAt {
        Remove(id);
        return None;
      }
      MoveToFront(id);
      return Some(entry);
    }

    method PutEntry(id: ConnId, v: Verdict, now: Time)
      requires Valid()
      modifies this, cells
      ensures Valid()
      ensures Model() == Put(old(Model()), id, v, now, cfg)
      ensures fresh(cells - old(cells))
    {
      var entry := Entry(id, v, now + cfg.ttl);
      if id in byId {
        Overwrite(entry);
      } else {
        Insert(entry);
      }
    }

    /** A put on a new id. */
    method Insert(entry: Entry)
      requires Valid() && entry.id !in byId
      modifies this`byId, this`order, this`contents, this`cells
      ensures Valid()
      ensures fresh(cells - old(cells))
      ensures contents == Placed(old(contents), entry, cfg.max)
    {
      PushFront(entry);
      Trim();
    }

    /** A put on an id already held: overwritten in its cell, then moved. */
    method Overwrite(entry: Entry)
      requires Valid() && entry.id in byId
      modifies this`order, this`contents, cells
      ensures Valid() && byId == old(byId)
      ensures contents == Placed(old(contents), entry, cfg.max)
    {
      ghost var p := Find(contents, entry.id);
      ghost var was := contents;
      Replace(entry);
      MoveToFront(entry.id);
      assert Without(was[p := entry], p) == Without(was, p);
    }

    /** One eviction per insertion is enough to restore the bound. */
    method Trim()
      requires Linked() && |order| <= cfg.max + 1
      modifies this`byId, this`order, this`contents
      ensures Valid()
      ensures contents == Trimmed(old(contents), cfg.max)
    {
      if |order| > cfg.max {
        var back := order[|order| - 1];
        FindAt(contents, |contents| - 1);
        Remove(back.entry.id);
        assert contents == old(contents)[..|old(contents)| - 1];
      }
    }

    /** Overwrites the cell of an id in place. */
    method Replace(entry: Entry)
      requires Linked() && entry.id in byId
      modifies this`contents, cells
      ensures Linked()
      ensures var p := Find(old(contents), entry.id);
        p < |old(contents)| && contents == old(contents)[p := entry] && Find(contents, entry.id) == p
    {
      IndexIsExact(entry.id);
      var element := byId[entry.id];
      ghost var p := Find(contents, entry.id);
      element.entry := entry;
      IndexedRewritten(byId, order, contents, contents[p := entry]);
      contents := contents[p := entry];
      FindAt(contents, p);
    }

    /** Inserts a new cell, eviction aside. */
    method PushFront(entry: Entry)
      requires Linked() && entry.id !in byId
      modifies this`byId, this`order, this`contents, this`cells
      ensures Linked()
      ensures Find(old(contents), entry.id) == |old(contents)|
      ensures contents == [entry] + old(contents)
      ensures fresh(cells - old(cells))
    {
      IndexIsExact(entry.id);
      var element := new Element(entry);
      IndexedPush(byId, order, contents, element, entry);
      order := [element] + order;
      byId := byId[entry.id := element];
      contents := [entry] + contents;
      cells := cells + {element};
    }

    method StoreConnection(conn: Connection, now: Time)
      requires Valid()
      modifies this, cells
      ensures Valid()
      ensures Model() == Store(old(Model()), conn, now, cfg)
      ensures fresh(cells - old(cells))
    {
      if conn.isEnabled {
        disabledOwners := disabledOwners - {conn.ownerUserId};
      } else {
        disabledOwners := disabledOwners + {conn.ownerUserId};
      }
      PutEntry(conn.id, Resolved(conn), now);
    }

    method StoreFromDB(conn: Connection, now: Time)
      requires Valid()
      modifies this, cells
      ensures Valid()
      ensures Model() == StoreDB(old(Model()), conn, now, cfg)
      ensures fresh(cells - old(cells))
    {
      IndexIsExact(conn.id);
      if !conn.isEnabled {
        PutEntry(conn.id, Resolved(conn), now);
        return;
      }
      if conn.id in byId {
        var existing := byId[conn.id].entry;
        if existing.verdict.Resolved? && !existing.verdict.conn.isEnabled {
          return;
        }
      }
      var downgraded := conn;
      if conn.ownerUserId in disabledOwners {
        downgraded := conn.(isEnabled := false);
      }
      PutEntry(conn.id, Resolved(downgraded), now);
    }

    method StoreUnknown(id: ConnId, now: Time)
      requires Valid()
      modifies this, cells
      ensures Valid() && Model() == Put(old(Model()), id, Unknown, now, cfg)
      ensures fresh(cells - old(cells))
    {
      PutEntry(id, Unknown, now);
    }

    method StoreRefused(id: ConnId, ownerTelegramUserId: int, now: Time)
      requires Valid()
      modifies this, cells
      ensures Valid() && Model() == Put(old(Model()), id, Refused(ownerTelegramUserId), now, cfg)
      ensures fresh(cells - old(cells))
    {
      PutEntry(id, Refused(ownerTelegramUserId), now);
    }

    /** Patches the cells in the map's own, arbitrary, iteration order. */
    method DisableOwnerEntries(owner: int)
      requires Valid()
      modifies this`disabledOwners, this`contents, cells
      ensures Valid()
      ensures Model() == DisableOwner(old(Model()), owner)
    {
      disabledOwners := disabledOwners + {owner};
      CellsDiffer();
      PatchAll(owner);
      IndexedRewritten(byId, order, contents, Patched(contents, owner));
      contents := Patched(contents, owner);
    }

    method PatchAll(owner: int)
      requires Linked() && Apart()
      modifies cells
      ensures forall i :: 0 <= i < |order| ==> order[i].entry == Patched(contents, owner)[i]
    {
      var todo := byId.Keys;
      ghost var after := Patched(contents, owner);
      while todo != {}
        invariant todo <= byId.Keys
        invariant forall i :: 0 <= i < |order| && contents[i].id in todo ==> order[i].entry == contents[i]
        invariant forall i :: 0 <= i < |order| && contents[i].id !in todo ==> order[i].entry == after[i]
        decreases todo
      {
        var id :| id in todo;
        PatchById(id, owner);
        todo := todo - {id};
      }
    }

    ghost predicate Apart()
      reads this
    {
      forall i, j :: 0 <= i < j < |order| ==> order[i] != order[j]
    }

    lemma CellsDiffer()
      requires Linked()
      ensures Apart()
    {
    }

    /** Patches the one cell of an id. */
    method PatchById(id: ConnId, owner: int)
      requires Indexed(byId, order, contents) && Apart() && id in byId
      requires forall i :: 0 <= i < |order| ==> order[i] in cells
      modifies cells
      ensures forall i :: 0 <= i < |order| && contents[i].id == id ==>
        order[i].entry == old(order[i].entry).(verdict := Disable(old(order[i].entry).verdict, owner))
      ensures forall i :: 0 <= i < |order| && contents[i].id != id ==> order[i].entry == old(order[i].entry)
    {
      ghost var p := Find(contents, id);
      assert order[p] == byId[id];
      PatchCell(byId[id], owner);
    }

    method PatchCell(element: Element, owner: int)
      modifies element
      ensures element.entry == old(element.entry).(verdict := Disable(old(element.entry).verdict, owner))
    {
      var entry := element.entry;
      if entry.verdict.Resolved? && entry.verdict.conn.ownerUserId == owner {
        element.entry := entry.(verdict := Resolved(entry.verdict.conn.(isEnabled := false)));
      }
    }
  }

  // ---------------------------------------------------------------------
  // Runs
  // ---------------------------------------------------------------------

  datatype Op =
    | LookupOp(id: ConnId)
    | StoreOp(conn: Connection)
    | StoreDBOp(conn: Connection)
    | StoreUnknownOp(id: ConnId)
    | StoreRefusedOp(id: ConnId, ownerTelegramUserId: int)
    | DisableOp(owner: int)

  datatype Event = Event(op: Op, now: Time)

  function Apply(s: State, ev: Event, cfg: Config): State {
    match ev.op
    case LookupOp(id) => Lookup(s, id, ev.now).0
    case StoreOp(conn) => Store(s, conn, ev.now, cfg)
    case StoreDBOp(conn) => StoreDB(s, conn, ev.now, cfg)
    case StoreUnknownOp(id) => Put(s, id, Unknown, ev.now, cfg)
    case StoreRefusedOp(id, tg) => Put(s, id, Refused(tg), ev.now, cfg)
    case DisableOp(owner) => DisableOwner(s, owner)
  }

  function Run(s: State, evs: seq<Event>, cfg: Config): State {
    if evs == [] then s else Apply(Run(s, evs[..|evs| - 1], cfg), evs[|evs| - 1], cfg)
  }

  ghost predicate WellFormed(s: State, cfg: Config) {
    DistinctIds(s.entries) && |s.entries| <= cfg.max
  }

  lemma PutWellFormed(s: State, id: ConnId, v: Verdict, now: Time, cfg: Config)
    requires WellFormed(s, cfg)
    ensures WellFormed(Put(s, id, v, now, cfg), cfg)
  {
    var i := Find(s.entries, id);
    if i < |s.entries| {
      forall j | 0 <= j < |s.entries| && j != i ensures s.entries[j].id != id {
      }
    }
  }

  lemma ApplyWellFormed(s: State, ev: Event, cfg: Config)
    requires WellFormed(s, cfg)
    ensures WellFormed(Apply(s, ev, cfg), cfg)
  {
    match ev.op
    case LookupOp(id) =>
    case StoreOp(conn) =>
      var marked := if conn.isEnabled then s.disabledOwners - {conn.ownerUserId}
                    else s.disabledOwners + {conn.ownerUserId};
      PutWellFormed(s.(disabledOwners := marked), conn.id, Resolved(conn), ev.now, cfg);
    case StoreDBOp(conn) =>
      match StoreDBVerdict(s, conn) {
        case None =>
        case Some(v) => PutWellFormed(s, conn.id, v, ev.now, cfg);
      }
    case StoreUnknownOp(id) => PutWellFormed(s, id, Unknown, ev.now, cfg);
    case StoreRefusedOp(id, tg) => PutWellFormed(s, id, Refused(tg), ev.now, cfg);
    case DisableOp(o) =>
  }

  lemma {:induction false} RunWellFormed(s: State, evs: seq<Event>, cfg: Config)
    requires WellFormed(s, cfg)
    ensures WellFormed(Run(s, evs, cfg), cfg)
  {
    if evs != [] {
      RunWellFormed(s, evs[..|evs| - 1], cfg);
      ApplyWellFormed(Run(s, evs[..|evs| - 1], cfg), evs[|evs| - 1], cfg);
    }
  }

  // --- What each operation says of the others -----------------------------

  /** An owner is marked by its disable or a disabled store of its own, and only an
      enabled store of its own takes the mark away. */
  lemma MarksOfAStep(s: State, ev: Event, cfg: Config, owner: int)
    ensures owner in Apply(s, ev, cfg).disabledOwners <==>
      || ev.op == DisableOp(owner)
      || (ev.op.StoreOp? && ev.op.conn.ownerUserId == owner && !ev.op.conn.isEnabled)
      || (owner in s.disabledOwners
          && !(ev.op.StoreOp? && ev.op.conn.ownerUserId == owner && ev.op.conn.isEnabled))
  {
  }

  /** Disabling an owner changes what is answered of its own connections, from
      enabled to disabled, and nothing of anyone else's. */
  lemma OnlyThatOwnerIsDisabled(s: State, owner: int, id: ConnId, now: Time)
    ensures var before, after := Lookup(s, id, now).1, Lookup(DisableOwner(s, owner), id, now).1;
      && (before.Some? <==> after.Some?)
      && (before.Some? ==>
        && after.value.id == before.value.id && after.value.expiresAt == before.value.expiresAt
        && after.value.verdict ==
          match before.value.verdict {
            case Resolved(conn) =>
              if conn.ownerUserId == owner
              then Resolved(Connection(conn.id, owner, conn.ownerTelegramUserId, conn.canReply, false))
              else Resolved(conn)
            case other => other
          })
  {
    SameIdsSamePlace(s.entries, Patched(s.entries, owner), id, 0);
  }

  lemma {:induction false} SameIdsSamePlace(a: seq<Entry>, b: seq<Entry>, id: ConnId, from: nat)
    requires |a| == |b| && from <= |a| && forall i :: 0 <= i < |a| ==> a[i].id == b[i].id
    ensures FindFrom(a, id, from) == FindFrom(b, id, from)
    decreases |a| - from
  {
    if from < |a| {
      SameIdsSamePlace(a, b, id, from + 1);
    }
  }

  /** What a row read from the table comes to, for as long as it lasts: a disabled
      row is served as it is, an enabled one never over a cached disabled entry of
      that id, disabled if its owner is marked, and as it is otherwise. */
  lemma WhatAReadMemoises(s: State, row: Connection, put: Time, now: Time, cfg: Config)
    requires DistinctIds(s.entries) && cfg.max > 0 && now < put + cfg.ttl
    ensures var stale := row.isEnabled
        && exists e :: e in s.entries && e.id == row.id && e.verdict.Resolved? && !e.verdict.conn.isEnabled;
      var after := StoreDB(s, row, put, cfg);
      if stale then after == s
      else
        var found := Lookup(after, row.id, now).1;
        && found.Some? && found.value.expiresAt == put + cfg.ttl
        && found.value.verdict ==
          Resolved(Connection(row.id, row.ownerUserId, row.ownerTelegramUserId, row.canReply,
                              row.isEnabled && row.ownerUserId !in s.disabledOwners))
  {
    var i := Find(s.entries, row.id);
    if i < |s.entries| {
      assert s.entries[i] in s.entries;
    }
    if e :| e in s.entries && e.id == row.id && e.verdict.Resolved? && !e.verdict.conn.isEnabled {
      MemberIsHeld(s.entries, e);
    }
  }

  // --- A disabled owner stays disabled -----------------------------------

  /** The owner is marked and none of its cached connections resolves as enabled. */
  ghost predicate OwnerOff(s: State, owner: int) {
    && owner in s.disabledOwners
    && forall e :: e in s.entries ==> !IsEnabledFor(e.verdict, owner)
  }

  predicate ReEnables(op: Op, owner: int) {
    op.StoreOp? && op.conn.isEnabled && op.conn.ownerUserId == owner
  }

  lemma PutKeepsOff(s: State, id: ConnId, v: Verdict, now: Time, cfg: Config, owner: int)
    requires OwnerOff(s, owner) && !IsEnabledFor(v, owner)
    ensures OwnerOff(Put(s, id, v, now, cfg), owner)
  {
    var t := Put(s, id, v, now, cfg);
    forall e | e in t.entries ensures e == Entry(id, v, now + cfg.ttl) || e in s.entries {
    }
  }

  lemma ApplyKeepsOff(s: State, ev: Event, cfg: Config, owner: int)
    requires OwnerOff(s, owner) && !ReEnables(ev.op, owner)
    ensures OwnerOff(Apply(s, ev, cfg), owner)
  {
    match ev.op
    case LookupOp(id) =>
    case StoreOp(conn) =>
      var marked := if conn.isEnabled then s.disabledOwners - {conn.ownerUserId}
                    else s.disabledOwners + {conn.ownerUserId};
      PutKeepsOff(s.(disabledOwners := marked), conn.id, Resolved(conn), ev.now, cfg, owner);
    case StoreDBOp(conn) =>
      match StoreDBVerdict(s, conn) {
        case None =>
        case Some(v) => PutKeepsOff(s, conn.id, v, ev.now, cfg, owner);
      }
    case StoreUnknownOp(id) => PutKeepsOff(s, id, Unknown, ev.now, cfg, owner);
    case StoreRefusedOp(id, tg) => PutKeepsOff(s, id, Refused(tg), ev.now, cfg, owner);
    case DisableOp(o) =>
  }

  lemma {:induction false} RunKeepsOff(s: State, evs: seq<Event>, cfg: Config, owner: int)
    requires OwnerOff(s, owner)
    requires forall ev :: ev in evs ==> !ReEnables(ev.op, owner)
    ensures OwnerOff(Run(s, evs, cfg), owner)
  {
    if evs != [] {
      RunKeepsOff(s, evs[..|evs| - 1], cfg, owner);
      ApplyKeepsOff(Run(s, evs[..|evs| - 1], cfg), evs[|evs| - 1], cfg, owner);
    }
  }

  /** Whatever the cache held, and whatever happens after except an enabled
      `store` for that owner, no lookup returns an enabled connection of an
      owner that was disabled: stale database reads included. */
  lemma DisabledOwnerNeverResolvesEnabled(
    s: State, owner: int, evs: seq<Event>, cfg: Config, id: ConnId, now: Time)
    requires forall ev :: ev in evs ==> !ReEnables(ev.op, owner)
    ensures var found := Lookup(Run(DisableOwner(s, owner), evs, cfg), id, now).1;
      found.Some? ==> !IsEnabledFor(found.value.verdict, owner)
  {
    RunKeepsOff(DisableOwner(s, owner), evs, cfg, owner);
  }

  /** The exception is real: an enabled `store` is served at once. */
  lemma ReconnectResolvesEnabled(s: State, conn: Connection, put: Time, now: Time, cfg: Config)
    requires conn.isEnabled && cfg.max > 0 && now < put + cfg.ttl
    ensures var found := Lookup(Store(DisableOwner(s, conn.ownerUserId), conn, put, cfg), conn.id, now).1;
      found.Some? && IsEnabledFor(found.value.verdict, conn.ownerUserId)
  {
  }

  // --- A hit is the last put, still fresh ---------------------------------

  datatype Stamp = Stamp(verdict: Verdict, putAt: Time)

  /** What an operation writes, and under which id. */
  function Written(s: State, op: Op): Option<(ConnId, Verdict)> {
    match op
    case LookupOp(_) => None
    case StoreOp(conn) => Some((conn.id, Resolved(conn)))
    case StoreDBOp(conn) =>
      (match StoreDBVerdict(s, conn) case None => None case Some(v) => Some((conn.id, v)))
    case StoreUnknownOp(id) => Some((id, Unknown))
    case StoreRefusedOp(id, tg) => Some((id, Refused(tg)))
    case DisableOp(_) => None
  }

  function StampAfter(before: Option<Stamp>, id: ConnId, wrote: Option<(ConnId, Verdict)>, ev: Event): Option<Stamp> {
    if wrote.Some? && wrote.value.0 == id then
      Some(Stamp(wrote.value.1, ev.now))
    else if before.Some? && ev.op.DisableOp? then
      Some(before.value.(verdict := Disable(before.value.verdict, ev.op.owner)))
    else
      before
  }

  /** The history of one id, with no bound, no eviction and no expiry: the last
      verdict written for it, as later disables left it, and when it was put. */
  function LastPut(evs: seq<Event>, id: ConnId, cfg: Config): Option<Stamp> {
    if evs == [] then None
    else
      var prefix, last := evs[..|evs| - 1], evs[|evs| - 1];
      StampAfter(LastPut(prefix, id, cfg), id, Written(Run(EMPTY, prefix, cfg), last.op), last)
  }

  ghost predicate Agrees(entries: seq<Entry>, evs: seq<Event>, cfg: Config) {
    forall e :: e in entries ==> LastPut(evs, e.id, cfg) == Some(Stamp(e.verdict, e.expiresAt - cfg.ttl))
  }

  /** `e` is the entry `entries` holds for its id. */
  ghost predicate IsHeld(entries: seq<Entry>, e: Entry) {
    Find(entries, e.id) < |entries| && entries[Find(entries, e.id)] == e
  }

  lemma PutEntries(s: State, id: ConnId, v: Verdict, now: Time, cfg: Config, e: Entry)
    requires WellFormed(s, cfg) && e in Put(s, id, v, now, cfg).entries
    ensures if e.id == id then e == Entry(id, v, now + cfg.ttl) else IsHeld(s.entries, e)
  {
    var i := Find(s.entries, id);
    if e != Entry(id, v, now + cfg.ttl) {
      var k :| 0 <= k < |s.entries| && s.entries[k] == e && (i < |s.entries| ==> k != i);
      FindAt(s.entries, k);
    }
  }

  /** `e` is what the operation wrote, or else the entry `s` held for its id,
      patched by a disable. */
  ghost predicate CameFrom(s: State, ev: Event, cfg: Config, e: Entry) {
    var w := Written(s, ev.op);
    if w.Some? && w.value.0 == e.id then e == Entry(e.id, w.value.1, ev.now + cfg.ttl)
    else
      var i := Find(s.entries, e.id);
      && i < |s.entries|
      && e == if ev.op.DisableOp? then s.entries[i].(verdict := Disable(s.entries[i].verdict, ev.op.owner))
              else s.entries[i]
  }

  lemma MemberIsHeld(entries: seq<Entry>, e: Entry)
    requires DistinctIds(entries) && e in entries
    ensures IsHeld(entries, e)
  {
    var k :| 0 <= k < |entries| && entries[k] == e;
    FindAt(entries, k);
  }

  lemma LookupEntries(s: State, id: ConnId, now: Time, e: Entry)
    requires e in Lookup(s, id, now).0.entries
    ensures e in s.entries
  {
  }

  lemma PatchedEntries(entries: seq<Entry>, owner: int, e: Entry)
    requires DistinctIds(entries) && e in Patched(entries, owner)
    ensures var i := Find(entries, e.id);
      i < |entries| && e == entries[i].(verdict := Disable(entries[i].verdict, owner))
  {
    var k :| 0 <= k < |entries| && Patched(entries, owner)[k] == e;
    FindAt(entries, k);
  }

  lemma EntriesAfter(s: State, ev: Event, cfg: Config, e: Entry)
    requires WellFormed(s, cfg) && e in Apply(s, ev, cfg).entries
    ensures CameFrom(s, ev, cfg, e)
  {
    match ev.op
    case LookupOp(id) =>
      LookupEntries(s, id, ev.now, e);
      MemberIsHeld(s.entries, e);
    case DisableOp(owner) => PatchedEntries(s.entries, owner, e);
    case StoreOp(conn) =>
      var marked := if conn.isEnabled then s.disabledOwners - {conn.ownerUserId}
                    else s.disabledOwners + {conn.ownerUserId};
      PutEntries(s.(disabledOwners := marked), conn.id, Resolved(conn), ev.now, cfg, e);
    case StoreDBOp(conn) =>
      match StoreDBVerdict(s, conn) {
        case None => MemberIsHeld(s.entries, e);
        case Some(v) => PutEntries(s, conn.id, v, ev.now, cfg, e);
      }
    case StoreUnknownOp(id) => PutEntries(s, id, Unknown, ev.now, cfg, e);
    case StoreRefusedOp(id, tg) => PutEntries(s, id, Refused(tg), ev.now, cfg, e);
  }

  lemma AgreesStep(s: State, ev: Event, cfg: Config, e: Entry, before: Option<Stamp>)
    requires CameFrom(s, ev, cfg, e)
    requires var i := Find(s.entries, e.id);
      i < |s.entries| ==> before == Some(Stamp(s.entries[i].verdict, s.entries[i].expiresAt - cfg.ttl))
    ensures StampAfter(before, e.id, Written(s, ev.op), ev) == Some(Stamp(e.verdict, e.expiresAt - cfg.ttl))
  {
  }

  lemma LastPutUnfold(evs: seq<Event>, id: ConnId, cfg: Config)
    requires evs != []
    ensures var prefix, last := evs[..|evs| - 1], evs[|evs| - 1];
      LastPut(evs, id, cfg)
        == StampAfter(LastPut(prefix, id, cfg), id, Written(Run(EMPTY, prefix, cfg), last.op), last)
  {
  }

  lemma {:induction false} EntriesAgree(evs: seq<Event>, cfg: Config)
    ensures Agrees(Run(EMPTY, evs, cfg).entries, evs, cfg)
  {
    if evs != [] {
      var prefix, ev := evs[..|evs| - 1], evs[|evs| - 1];
      EntriesAgree(prefix, cfg);
      RunWellFormed(EMPTY, prefix, cfg);
      var s := Run(EMPTY, prefix, cfg);
      forall e | e in Apply(s, ev, cfg).entries
        ensures LastPut(evs, e.id, cfg) == Some(Stamp(e.verdict, e.expiresAt - cfg.ttl))
      {
        EntriesAfter(s, ev, cfg, e);
        EntryAgreesAfter(s, evs, cfg, e);
      }
    }
  }

  lemma EntryAgreesAfter(s: State, evs: seq<Event>, cfg: Config, e: Entry)
    requires evs != [] && s == Run(EMPTY, evs[..|evs| - 1], cfg)
    requires Agrees(s.entries, evs[..|evs| - 1], cfg)
    requires CameFrom(s, evs[|evs| - 1], cfg, e)
    ensures LastPut(evs, e.id, cfg) == Some(Stamp(e.verdict, e.expiresAt - cfg.ttl))
  {
    var prefix, ev := evs[..|evs| - 1], evs[|evs| - 1];
    var i := Find(s.entries, e.id);
    if i < |s.entries| {
      assert s.entries[i] in s.entries;
    }
    AgreesStep(s, ev, cfg, e, LastPut(prefix, e.id, cfg));
    LastPutUnfold(evs, e.id, cfg);
  }

  /** After any history, a hit returns exactly the last verdict put for that
      id, as later disables patched it, and put less than one TTL ago. */
  lemma HitIsLastPutAndFresh(evs: seq<Event>, cfg: Config, id: ConnId, now: Time)
    ensures var found := Lookup(Run(EMPTY, evs, cfg), id, now).1;
      found.Some? ==>
        && LastPut(evs, id, cfg) == Some(Stamp(found.value.verdict, found.value.expiresAt - cfg.ttl))
        && now - cfg.ttl < found.value.expiresAt - cfg.ttl
  {
    var s := Run(EMPTY, evs, cfg);
    EntriesAgree(evs, cfg);
    var i := Find(s.entries, id);
    if i < |s.entries| {
      assert s.entries[i] in s.entries;
    }
  }

  // --- Least recently used ---------------------------------------------

  /** The id an operation makes the most recently used one, if any. */
  function Used(s: State, ev: Event): Option<ConnId> {
    if ev.op.LookupOp? then
      (if Lookup(s, ev.op.id, ev.now).1.Some? then Some(ev.op.id) else None)
    else
      match Written(s, ev.op) case None => None case Some(w) => Some(w.0)
  }

  /** Index, from 1, of the last operation of the history that used `id`; 0 if none did. */
  function LastUse(evs: seq<Event>, id: ConnId, cfg: Config): (n: nat)
    ensures n <= |evs|
  {
    if evs == [] then 0
    else if Used(Run(EMPTY, evs[..|evs| - 1], cfg), evs[|evs| - 1]) == Some(id) then |evs|
    else LastUse(evs[..|evs| - 1], id, cfg)
  }

  ghost predicate ByRecency(entries: seq<Entry>, evs: seq<Event>, cfg: Config) {
    && (forall i :: 0 <= i < |entries| ==> 0 < LastUse(evs, entries[i].id, cfg))
    && (forall i, j :: 0 <= i < j < |entries| ==>
      LastUse(evs, entries[i].id, cfg) > LastUse(evs, entries[j].id, cfg))
  }

  /** What an operation does to the order: the id it uses goes first, and every
      other id that is still held keeps its place relative to the others. */
  ghost predicate MovesOnly(before: seq<Entry>, after: seq<Entry>, used: Option<ConnId>) {
    && (forall i :: 0 <= i < |after| && used == Some(after[i].id) ==> i == 0)
    && (forall i :: 0 <= i < |after| && used != Some(after[i].id) ==> Find(before, after[i].id) < |before|)
    && (forall i, j :: 0 <= i < j < |after| && used != Some(after[i].id) ==>
      Find(before, after[i].id) < Find(before, after[j].id))
  }

  /** `after` is `before` with some entries gone, in the same order, behind
      `front` entries that were not there; `src` says where each came from. */
  lemma SelectionMovesOnly(
    before: seq<Entry>, after: seq<Entry>, used: Option<ConnId>, front: nat, src: seq<nat>)
    requires DistinctIds(before) && DistinctIds(after)
    requires front <= 1 && |src| == |after|
    requires front <= |after|
    requires used.Some? && |after| > 0 ==> front == 1 && after[0].id == used.value
    requires forall k :: front <= k < |after| ==> src[k] < |before| && before[src[k]].id == after[k].id
    requires forall k, l :: front <= k < l < |after| ==> src[k] < src[l]
    requires front == 1 ==> used == Some(after[0].id)
    ensures MovesOnly(before, after, used)
  {
    forall k | front <= k < |after| ensures Find(before, after[k].id) == src[k] {
      FindAt(before, src[k]);
    }
  }

  /** Where the entries of `[_] + Without(entries, i)` come from. */
  function MoveSources(n: nat, i: nat): seq<nat>
    requires i < n
  {
    seq(n, k => if k == 0 then i else if k <= i then k - 1 else k)
  }

  lemma InPlaceMovesOnly(before: seq<Entry>, after: seq<Entry>)
    requires DistinctIds(before) && |after| == |before|
    requires forall k :: 0 <= k < |after| ==> after[k].id == before[k].id
    ensures MovesOnly(before, after, None)
  {
    SelectionMovesOnly(before, after, None, 0, seq(|before|, k => k));
  }

  lemma PutMovesOnly(s: State, id: ConnId, v: Verdict, now: Time, cfg: Config)
    requires WellFormed(s, cfg)
    ensures MovesOnly(s.entries, Put(s, id, v, now, cfg).entries, Some(id))
  {
    PutWellFormed(s, id, v, now, cfg);
    var i := Find(s.entries, id);
    var after := Put(s, id, v, now, cfg).entries;
    if |after| == 0 {
    } else if i < |s.entries| {
      SelectionMovesOnly(s.entries, after, Some(id), 1, MoveSources(|s.entries|, i));
    } else {
      SelectionMovesOnly(s.entries, after, Some(id), 1, seq(|after|, k => if k == 0 then 0 else k - 1));
    }
  }

  lemma LookupMovesOnly(s: State, id: ConnId, now: Time, cfg: Config)
    requires WellFormed(s, cfg)
    ensures var (t, found) := Lookup(s, id, now);
      MovesOnly(s.entries, t.entries, if found.Some? then Some(id) else None)
  {
    var i := Find(s.entries, id);
    if i == |s.entries| {
      InPlaceMovesOnly(s.entries, s.entries);
    } else if now >= s.entries[i].expiresAt {
      DropMovesOnly(s.entries, i);
    } else {
      FrontMovesOnly(s.entries, i);
    }
  }

  lemma DropMovesOnly(entries: seq<Entry>, i: nat)
    requires DistinctIds(entries) && i < |entries|
    ensures MovesOnly(entries, Without(entries, i), None)
  {
    SelectionMovesOnly(entries, Without(entries, i), None, 0, seq(|entries| - 1, k => if k < i then k else k + 1));
  }

  lemma FrontMovesOnly(entries: seq<Entry>, i: nat)
    requires DistinctIds(entries) && i < |entries|
    ensures MovesOnly(entries, [entries[i]] + Without(entries, i), Some(entries[i].id))
  {
    var after := [entries[i]] + Without(entries, i);
    assert forall k :: 0 <= k < |after| ==> after[k] == entries[MoveSources(|entries|, i)[k]];
    SelectionMovesOnly(entries, after, Some(entries[i].id), 1, MoveSources(|entries|, i));
  }

  lemma ApplyMovesOnly(s: State, ev: Event, cfg: Config)
    requires WellFormed(s, cfg)
    ensures MovesOnly(s.entries, Apply(s, ev, cfg).entries, Used(s, ev))
  {
    match ev.op
    case LookupOp(id) => LookupMovesOnly(s, id, ev.now, cfg);
    case StoreOp(conn) =>
      var marked := if conn.isEnabled then s.disabledOwners - {conn.ownerUserId}
                    else s.disabledOwners + {conn.ownerUserId};
      PutMovesOnly(s.(disabledOwners := marked), conn.id, Resolved(conn), ev.now, cfg);
    case StoreDBOp(conn) =>
      match StoreDBVerdict(s, conn) {
        case None => InPlaceMovesOnly(s.entries, s.entries);
        case Some(v) => PutMovesOnly(s, conn.id, v, ev.now, cfg);
      }
    case StoreUnknownOp(id) => PutMovesOnly(s, id, Unknown, ev.now, cfg);
    case StoreRefusedOp(id, tg) => PutMovesOnly(s, id, Refused(tg), ev.now, cfg);
    case DisableOp(owner) => InPlaceMovesOnly(s.entries, Patched(s.entries, owner));
  }

  /** The recency list is always sorted by last use, most recent first. */
  lemma {:induction false} ListIsSortedByLastUse(evs: seq<Event>, cfg: Config)
    ensures ByRecency(Run(EMPTY, evs, cfg).entries, evs, cfg)
  {
    if evs != [] {
      var prefix, ev := evs[..|evs| - 1], evs[|evs| - 1];
      var s := Run(EMPTY, prefix, cfg);
      ListIsSortedByLastUse(prefix, cfg);
      RunWellFormed(EMPTY, prefix, cfg);
      ApplyMovesOnly(s, ev, cfg);
      var t := Apply(s, ev, cfg).entries;
      forall i | 0 <= i < |t|
        ensures LastUse(evs, t[i].id, cfg) ==
                if Used(s, ev) == Some(t[i].id) then |evs| else LastUse(prefix, t[i].id, cfg)
      {
      }
      forall i, j | 0 <= i < j < |t|
        ensures LastUse(evs, t[i].id, cfg) > LastUse(evs, t[j].id, cfg)
      {
        if Used(s, ev) != Some(t[i].id) {
          assert s.entries[Find(s.entries, t[i].id)].id == t[i].id;
          assert s.entries[Find(s.entries, t[j].id)].id == t[j].id;
        }
      }
      forall i | 0 <= i < |t| ensures 0 < LastUse(evs, t[i].id, cfg) {
        if Used(s, ev) != Some(t[i].id) {
          assert s.entries[Find(s.entries, t[i].id)].id == t[i].id;
        }
      }
    }
  }

  lemma PutIntoFull(s: State, id: ConnId, v: Verdict, now: Time, cfg: Config)
    requires WellFormed(s, cfg) && |s.entries| == cfg.max > 0 && !Holds(s, id)
    ensures var t := Put(s, id, v, now, cfg);
      var n := |s.entries|;
      && t.entries == [Entry(id, v, now + cfg.ttl)] + s.entries[..n - 1]
      && !Holds(t, s.entries[n - 1].id)
  {
    var t := Put(s, id, v, now, cfg);
    var n := |s.entries|;
    forall k | 0 <= k < |t.entries| ensures t.entries[k].id != s.entries[n - 1].id {
      assert k > 0 ==> t.entries[k] == s.entries[k - 1];
    }
  }

  /** A put of a new id into a full cache drops exactly one entry: the one whose
      last use is the oldest of all. */
  lemma EvictsTheLeastRecentlyUsed(evs: seq<Event>, cfg: Config, id: ConnId, v: Verdict, now: Time)
    requires var s := Run(EMPTY, evs, cfg); |s.entries| == cfg.max > 0 && !Holds(s, id)
    ensures var s := Run(EMPTY, evs, cfg);
      var t := Put(s, id, v, now, cfg);
      var victim := s.entries[|s.entries| - 1];
      && t.entries[1..] == s.entries[..|s.entries| - 1]
      && !Holds(t, victim.id)
      && forall e :: e in s.entries && e != victim ==>
        LastUse(evs, e.id, cfg) > LastUse(evs, victim.id, cfg)
  {
    var s := Run(EMPTY, evs, cfg);
    RunWellFormed(EMPTY, evs, cfg);
    PutIntoFull(s, id, v, now, cfg);
    ListIsSortedByLastUse(evs, cfg);
  }

  // --- The bound only ever costs the entries that fell behind ------------

  predicate Touches(op: Op, id: ConnId) {
    match op
    case LookupOp(x) => x == id
    case StoreOp(conn) => conn.id == id
    case StoreDBOp(conn) => conn.id == id
    case StoreUnknownOp(x) => x == id
    case StoreRefusedOp(x, _) => x == id
    case DisableOp(_) => false
  }

  /** The entry of `id` is held until `until`, and every entry in front of it
      belongs to `others`. */
  ghost predicate SafeBehind(s: State, id: ConnId, until: Time, others: set<ConnId>) {
    var i := Find(s.entries, id);
    && i < |s.entries|
    && until <= s.entries[i].expiresAt
    && forall j :: 0 <= j < i ==> s.entries[j].id in others
  }

  ghost predicate SafeAt(entries: seq<Entry>, i: nat, id: ConnId, until: Time, others: set<ConnId>) {
    && i < |entries| && entries[i].id == id && until <= entries[i].expiresAt
    && forall j :: 0 <= j < i ==> entries[j].id in others
  }

  lemma SafeBehindIffSafeAt(s: State, i: nat, id: ConnId, until: Time, others: set<ConnId>)
    requires DistinctIds(s.entries) && SafeAt(s.entries, i, id, until, others)
    ensures SafeBehind(s, id, until, others)
  {
    FindAt(s.entries, i);
  }

  lemma MovedToFrontKeepsSafe(entries: seq<Entry>, k: nat, e: Entry, i: nat,
                              id: ConnId, until: Time, others: set<ConnId>)
    requires SafeAt(entries, i, id, until, others) && k < |entries| && k != i && e.id in others
    ensures SafeAt([e] + Without(entries, k), if k < i then i else i + 1, id, until, others)
  {
  }

  lemma PushedKeepsSafe(entries: seq<Entry>, e: Entry, i: nat, max: nat,
                        id: ConnId, until: Time, others: set<ConnId>)
    requires SafeAt(entries, i, id, until, others) && i + 1 < max && e.id in others
    requires |entries| <= max
    ensures SafeAt(Trimmed([e] + entries, max), i + 1, id, until, others)
  {
  }

  lemma {:induction false} PrefixFitsIn(entries: seq<Entry>, n: nat, ids: set<ConnId>)
    requires DistinctIds(entries) && n <= |entries|
    requires forall j :: 0 <= j < n ==> entries[j].id in ids
    ensures n <= |ids|
  {
    if n > 0 {
      PrefixFitsIn(entries, n - 1, ids - {entries[n - 1].id});
    }
  }

  lemma PutKeepsSafe(s: State, x: ConnId, v: Verdict, now: Time, cfg: Config,
                     id: ConnId, until: Time, others: set<ConnId>)
    requires WellFormed(s, cfg) && SafeBehind(s, id, until, others)
    requires x != id && x in others && |others| < cfg.max
    ensures SafeBehind(Put(s, x, v, now, cfg), id, until, others)
  {
    var i, k := Find(s.entries, id), Find(s.entries, x);
    var t := Put(s, x, v, now, cfg);
    var e := Entry(x, v, now + cfg.ttl);
    PutWellFormed(s, x, v, now, cfg);
    if k < |s.entries| {
      MovedToFrontKeepsSafe(s.entries, k, e, i, id, until, others);
      SafeBehindIffSafeAt(t, if k < i then i else i + 1, id, until, others);
    } else {
      PrefixFitsIn(s.entries, i, others - {x});
      PushedKeepsSafe(s.entries, e, i, cfg.max, id, until, others);
      SafeBehindIffSafeAt(t, i + 1, id, until, others);
    }
  }

  lemma ApplyKeepsSafe(s: State, ev: Event, cfg: Config, id: ConnId, until: Time, others: set<ConnId>)
    requires WellFormed(s, cfg) && SafeBehind(s, id, until, others)
    requires ev.now < until && |others| < cfg.max
    requires Touches(ev.op, id) ==> ev.op.LookupOp?
    requires forall x :: Touches(ev.op, x) && x != id ==> x in others
    ensures SafeBehind(Apply(s, ev, cfg), id, until, others)
  {
    match ev.op
    case LookupOp(x) =>
      assert Touches(ev.op, x);
      LookupKeepsSafe(s, x, ev.now, cfg, id, until, others);
    case StoreOp(conn) =>
      assert Touches(ev.op, conn.id);
      var marked := if conn.isEnabled then s.disabledOwners - {conn.ownerUserId}
                    else s.disabledOwners + {conn.ownerUserId};
      PutKeepsSafe(s.(disabledOwners := marked), conn.id, Resolved(conn), ev.now, cfg, id, until, others);
    case StoreDBOp(conn) =>
      assert Touches(ev.op, conn.id);
      match StoreDBVerdict(s, conn) {
        case None =>
        case Some(v) => PutKeepsSafe(s, conn.id, v, ev.now, cfg, id, until, others);
      }
    case StoreUnknownOp(x) =>
      assert Touches(ev.op, x);
      PutKeepsSafe(s, x, Unknown, ev.now, cfg, id, until, others);
    case StoreRefusedOp(x, tg) =>
      assert Touches(ev.op, x);
      PutKeepsSafe(s, x, Refused(tg), ev.now, cfg, id, until, others);
    case DisableOp(owner) =>
      var i := Find(s.entries, id);
      FindAt(s.entries, i);
      FindAt(Patched(s.entries, owner), i);
  }

  lemma LookupKeepsSafe(s: State, x: ConnId, now: Time, cfg: Config,
                        id: ConnId, until: Time, others: set<ConnId>)
    requires WellFormed(s, cfg) && SafeBehind(s, id, until, others)
    requires now < until && (x != id ==> x in others)
    ensures SafeBehind(Lookup(s, x, now).0, id, until, others)
  {
    var i, k := Find(s.entries, id), Find(s.entries, x);
    var t := Lookup(s, x, now).0;
    ApplyWellFormed(s, Event(LookupOp(x), now), cfg);
    if x == id {
      SafeBehindIffSafeAt(t, 0, id, until, others);
    } else if k < |s.entries| {
      if now >= s.entries[k].expiresAt {
        SafeBehindIffSafeAt(t, if k < i then i - 1 else i, id, until, others);
      } else {
        MovedToFrontKeepsSafe(s.entries, k, s.entries[k], i, id, until, others);
        SafeBehindIffSafeAt(t, if k < i then i else i + 1, id, until, others);
      }
    }
  }

  lemma {:induction false} RunKeepsSafe(
    s: State, evs: seq<Event>, cfg: Config, id: ConnId, until: Time, others: set<ConnId>)
    requires WellFormed(s, cfg) && SafeBehind(s, id, until, others) && |others| < cfg.max
    requires forall ev :: ev in evs ==> ev.now < until && (Touches(ev.op, id) ==> ev.op.LookupOp?)
    requires forall ev, x :: ev in evs && Touches(ev.op, x) && x != id ==> x in others
    ensures SafeBehind(Run(s, evs, cfg), id, until, others)
  {
    if evs != [] {
      var prefix := evs[..|evs| - 1];
      RunKeepsSafe(s, prefix, cfg, id, until, others);
      RunWellFormed(s, prefix, cfg);
      ApplyKeepsSafe(Run(s, prefix, cfg), evs[|evs| - 1], cfg, id, until, others);
    }
  }

  /** An entry is never lost before its TTL while fewer than `max` other ids
      were touched since it was put. */
  lemma RetainedWhileFewOthersAreUsed(
    s: State, id: ConnId, v: Verdict, put: Time, evs: seq<Event>, others: set<ConnId>, now: Time, cfg: Config)
    requires WellFormed(s, cfg) && |others| < cfg.max
    requires now < put + cfg.ttl
    requires forall ev :: ev in evs ==> ev.now < put + cfg.ttl && (Touches(ev.op, id) ==> ev.op.LookupOp?)
    requires forall ev, x :: ev in evs && Touches(ev.op, x) && x != id ==> x in others
    ensures var found := Lookup(Run(Put(s, id, v, put, cfg), evs, cfg), id, now).1;
      found.Some? && found.value.id == id
  {
    var t := Put(s, id, v, put, cfg);
    PutWellFormed(s, id, v, put, cfg);
    FindAt(t.entries, 0);
    RunKeepsSafe(t, evs, cfg, id, put + cfg.ttl, others);
  }
}
