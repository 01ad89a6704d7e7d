/** The three committed tables, the pending writes of one open transaction, and what a
    commit does to the tables. */
module Tables {
  import opened Domain

  datatype Tables = Tables(
    links: map<Uuid, AccountLink>,
    keys: map<string, IdempotencyRecord>,
    outbox: map<Uuid, OutboxEvent>)

  /** Rows a transaction has written but not committed, and the outbox rows it has locked. */
  datatype Tx = Tx(
    links: map<Uuid, AccountLink>,
    keys: map<string, IdempotencyRecord>,
    events: map<Uuid, OutboxEvent>,
    marks: map<Uuid, Time>,
    claims: set<Uuid>)

  const EMPTY_TX := Tx(map[], map[], map[], map[], {})

  function Marked(outbox: map<Uuid, OutboxEvent>, marks: map<Uuid, Time>): map<Uuid, OutboxEvent> {
    map id | id in outbox :: if id in marks then outbox[id].(publishedAt := Some(marks[id])) else outbox[id]
  }

  function Commit(t: Tables, tx: Tx): Tables {
    Tables(t.links + tx.links, t.keys + tx.keys, Marked(t.outbox + tx.events, tx.marks))
  }

  function Ids(rows: seq<OutboxEvent>): set<Uuid> {
    set row | row in rows :: row.id
  }

  predicate Distinct(rows: seq<OutboxEvent>) {
    forall i, j :: 0 <= i < j < |rows| ==> rows[i].id != rows[j].id
  }

  predicate Claimable(outbox: map<Uuid, OutboxEvent>, locked: set<Uuid>, id: Uuid) {
    id in outbox && outbox[id].publishedAt.None? && id !in locked
  }

  predicate CreationOrdered(rows: seq<OutboxEvent>) {
    forall i, j :: 0 <= i < j < |rows| ==> rows[i].createdAt <= rows[j].createdAt
  }

  /** Whether `rows` is one possible answer of the claiming query: unpublished rows nobody has
      locked, oldest first, as many as there are up to `limit`.  Ties may fall either way. */
  predicate IsClaim(outbox: map<Uuid, OutboxEvent>, locked: set<Uuid>, limit: nat, rows: seq<OutboxEvent>) {
    && |rows| <= limit
    && Distinct(rows)
    && CreationOrdered(rows)
    && (forall row | row in rows :: Claimable(outbox, locked, row.id) && outbox[row.id] == row)
    && (forall id | id in outbox && Claimable(outbox, locked, id) && id !in Ids(rows) ::
          |rows| == limit && forall row | row in rows :: row.createdAt <= outbox[id].createdAt)
  }
}
