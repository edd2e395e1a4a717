/** What the capture of each tenant left behind, in the database and on disk. */
module TenantData {

  datatype Row = Row(owner: int, key: nat)

  /** `outbox` rows are keyed by the message they announce; `disk` rows are the
      files of the tenant's storage subtree. */
  datatype Data = Data(
    messages: set<Row>,
    chats: set<Row>,
    outbox: set<Row>,
    media: set<Row>,
    disk: set<Row>)

  predicate NoneOf(rows: set<Row>, owner: int) {
    forall r :: r in rows ==> r.owner != owner
  }

  function Without(rows: set<Row>, owner: int): (r: set<Row>)
    ensures NoneOf(r, owner)
  {
    set row | row in rows && row.owner != owner
  }

  /** Rows of other owners, and those of `owner` not picked. */
  function WithoutPicked(rows: set<Row>, owner: int, picked: set<nat>): set<Row> {
    set row | row in rows && !(row.owner == owner && row.key in picked)
  }

  predicate Empty(d: Data, owner: int) {
    && NoneOf(d.messages, owner)
    && NoneOf(d.chats, owner)
    && NoneOf(d.outbox, owner)
    && NoneOf(d.media, owner)
    && NoneOf(d.disk, owner)
  }

  /** The rows of other owners are the same in both. */
  ghost predicate OthersKept(rows: set<Row>, rows': set<Row>, owner: int) {
    forall r: Row :: r.owner != owner ==> (r in rows <==> r in rows')
  }

  /** Two contents that differ in the rows and files of `owner` only. */
  ghost predicate SameForOthers(d: Data, d': Data, owner: int) {
    && OthersKept(d.messages, d'.messages, owner)
    && OthersKept(d.chats, d'.chats, owner)
    && OthersKept(d.outbox, d'.outbox, owner)
    && OthersKept(d.media, d'.media, owner)
    && OthersKept(d.disk, d'.disk, owner)
  }

  /** Emptied of one owner, two sets that agree on all others are one. */
  lemma NothingButOthers(rows: set<Row>, rows': set<Row>, owner: int)
    requires NoneOf(rows, owner) && NoneOf(rows', owner) && OthersKept(rows, rows', owner)
    ensures rows == rows'
  {
    assert forall r: Row :: r in rows <==> r in rows';
  }

  /** Retention: any of the tenant's rows and files may go, nothing appears. */
  function Shrunk(d: Data, owner: int, picked: set<nat>): Data {
    Data(WithoutPicked(d.messages, owner, picked), d.chats, WithoutPicked(d.outbox, owner, picked),
         WithoutPicked(d.media, owner, picked), WithoutPicked(d.disk, owner, picked))
  }

  predicate AddsNothing(rows: set<Row>, rows': set<Row>, owner: int) {
    forall r :: r in rows' && r.owner == owner ==> r in rows
  }

  predicate GrowsNothing(d: Data, d': Data, owner: int) {
    && AddsNothing(d.messages, d'.messages, owner)
    && AddsNothing(d.chats, d'.chats, owner)
    && AddsNothing(d.outbox, d'.outbox, owner)
    && AddsNothing(d.media, d'.media, owner)
    && AddsNothing(d.disk, d'.disk, owner)
  }
}
