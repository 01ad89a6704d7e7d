/** The inductive invariant of the step system, one predicate per concern. */
module Invariant {
  import opened Domain
  import opened Tables
  import opened Protocol

  // ---- Requests ----

  predicate OwnLink(call: Call, link: AccountLink, issued: set<Uuid>) {
    link == NewLink(link.id, call) && Valid(link) && link.id in issued
  }

  function WinnerTx(cfg: Config, call: Call, link: AccountLink): Tx {
    EMPTY_TX.(links := map[link.id := link],
              keys := if call.key == "" then map[] else map[call.key := NewRecord(cfg, call, link)])
  }

  /** The uncommitted writes of a request follow from where it stands. */
  function ExpectedTx(cfg: Config, q: Request): Option<Tx> {
    match q.pc
    case Saving => Some(EMPTY_TX)
    case Inserting(link) => Some(EMPTY_TX.(links := map[link.id := link]))
    case CommittingLoss(link) => Some(EMPTY_TX.(links := map[link.id := link]))
    case Announcing(link) => Some(WinnerTx(cfg, q.call, link))
    case CommittingWin(link, event) => Some(WinnerTx(cfg, q.call, link).(events := map[event.id := event]))
    case _ => None
  }

  predicate ResponseOk(cfg: Config, db: Tables, call: Call, response: Response) {
    match response
    case Success(link, created) =>
      && link.id in db.links && db.links[link.id] == link
      && (created ==> link == NewLink(link.id, call))
      && (call.key == "" ==> created)
      && (call.key != "" ==> call.key in db.keys && db.keys[call.key].accountLinkId == link.id
                             && db.keys[call.key].requestHash == RequestHash(cfg, call))
    case Conflict =>
      call.key != "" && call.key in db.keys && db.keys[call.key].requestHash != RequestHash(cfg, call)
    case Failed(reason) => reason.CallFailed? || reason.Crashed? || reason.InvalidRequest?
  }

  predicate PcOk(cfg: Config, db: Tables, issued: set<Uuid>, call: Call, pc: Pc) {
    match pc
    case Lookup => call.key != ""
    case Begin => true
    case Saving => true
    case Inserting(link) => call.key != "" && OwnLink(call, link, issued)
    case Announcing(link) => OwnLink(call, link, issued)
    case CommittingWin(link, event) =>
      OwnLink(call, link, issued) && event.id in issued && event == CreatedEvent(event.id, link, event.createdAt)
    case CommittingLoss(link) => OwnLink(call, link, issued) && call.key != "" && call.key in db.keys
    case Reread => call.key != "" && call.key in db.keys
    case Replaying(rec) =>
      call.key != "" && call.key in db.keys && rec == db.keys[call.key] && rec.requestHash == RequestHash(cfg, call)
    case Finished(response) => ResponseOk(cfg, db, call, response)
  }

  predicate RequestOk(cfg: Config, db: Tables, issued: set<Uuid>, q: Request) {
    q.tx == ExpectedTx(cfg, q) && PcOk(cfg, db, issued, q.call, q.pc)
  }

  ghost predicate RequestsOk(cfg: Config, s: State) {
    forall r | r in s.reqs :: RequestOk(cfg, s.db, s.issued, s.reqs[r])
  }

  /** The identifiers a request has put in its transaction and not yet committed. */
  function PendingLinks(q: Request): set<Uuid> {
    if q.tx.Some? then q.tx.value.links.Keys else {}
  }

  function PendingEvents(q: Request): set<Uuid> {
    if q.tx.Some? then q.tx.value.events.Keys else {}
  }

  function PendingKeys(q: Request): set<string> {
    if q.tx.Some? then q.tx.value.keys.Keys else {}
  }

  ghost predicate Apart(a: Request, b: Request) {
    && PendingLinks(a) !! PendingLinks(b)
    && PendingEvents(a) !! PendingEvents(b)
    && PendingKeys(a) !! PendingKeys(b)
  }

  /** What one transaction has pending, no other has pending and no table holds. */
  ghost predicate PendingOk(s: State) {
    && (forall r | r in s.reqs ::
          && PendingLinks(s.reqs[r]) !! s.db.links.Keys
          && PendingEvents(s.reqs[r]) !! s.db.outbox.Keys
          && PendingKeys(s.reqs[r]) !! s.db.keys.Keys)
    && (forall r, o | r in s.reqs && o in s.reqs && r != o :: Apart(s.reqs[r], s.reqs[o]))
  }

  predicate Created(q: Request) {
    q.pc.Finished? && q.pc.response.Success? && q.pc.response.created
  }

  /** No link is reported as newly created to two requests. */
  ghost predicate OneCreator(s: State) {
    forall r, o | r in s.reqs && o in s.reqs && r != o && Created(s.reqs[r]) && Created(s.reqs[o]) ::
      s.reqs[r].pc.response.link.id != s.reqs[o].pc.response.link.id
  }

  // ---- Tables ----

  predicate StoredLink(id: Uuid, link: AccountLink) {
    link.id == id && Valid(link) && link.status == STATUS_PENDING
  }

  predicate OriginOk(db: Tables, id: Uuid, origin: Origin) {
    match origin
    case Keyed(key, e) =>
      key in db.keys && db.keys[key].accountLinkId == id && e in db.outbox && db.outbox[e].aggregateId == id
    case Keyless(e) => e in db.outbox && db.outbox[e].aggregateId == id
    case LostRace => true
  }

  predicate KeyOk(cfg: Config, db: Tables, origin: map<Uuid, Origin>, key: string)
    requires key in db.keys
  {
    var rec := db.keys[key];
    && key != "" && rec.key == key
    && rec.accountLinkId in db.links
    && rec.requestHash == cfg.hash(Joined(db.links[rec.accountLinkId].userId,
                                          db.links[rec.accountLinkId].externalInstitution))
    && rec.accountLinkId in origin && origin[rec.accountLinkId].Keyed? && origin[rec.accountLinkId].key == key
  }

  predicate RowOk(db: Tables, origin: map<Uuid, Origin>, e: Uuid)
    requires e in db.outbox
  {
    var row := db.outbox[e];
    && row.aggregateId in db.links
    && row == CreatedEvent(e, db.links[row.aggregateId], row.createdAt).(publishedAt := row.publishedAt)
    && row.aggregateId in origin && !origin[row.aggregateId].LostRace? && origin[row.aggregateId].eventId == e
  }

  ghost predicate TablesOk(cfg: Config, s: State) {
    && s.origin.Keys == s.db.links.Keys
    && s.db.links.Keys <= s.issued
    && s.db.outbox.Keys <= s.issued
    && (forall id | id in s.db.links :: StoredLink(id, s.db.links[id]))
    && (forall id | id in s.origin :: OriginOk(s.db, id, s.origin[id]))
    && (forall key | key in s.db.keys :: KeyOk(cfg, s.db, s.origin, key))
    && (forall e | e in s.db.outbox :: RowOk(s.db, s.origin, e))
  }

  // ---- Ticks and the publish log ----

  ghost predicate Delivered(log: seq<PublishCall>, e: Uuid, at: Time) {
    exists n :: 0 <= n < |log| && log[n].ok && log[n].event.outboxId == e && log[n].event.publishedAt == at
  }

  function Deliveries(log: seq<PublishCall>, e: Uuid): nat {
    if log == [] then 0
    else Deliveries(log[..|log| - 1], e) + (if log[|log| - 1].ok && log[|log| - 1].event.outboxId == e then 1 else 0)
  }

  /** All calls for a row, whatever came of them: a call that reports a failure may have reached the
      broker. */
  function CallsFor(log: seq<PublishCall>, e: Uuid): nat {
    if log == [] then 0
    else CallsFor(log[..|log| - 1], e) + (if log[|log| - 1].event.outboxId == e then 1 else 0)
  }

  predicate Holds(outbox: map<Uuid, OutboxEvent>, row: OutboxEvent) {
    row.id in outbox && outbox[row.id] == row && row.publishedAt.None?
  }

  /** The rows this tick has published so far. */
  function Sent(t: Tick): set<Uuid> {
    match t.pc
    case Publishing(rows, i) => if i <= |rows| then Ids(rows[..i]) else {}
    case Marking(rows, i, _) => if i < |rows| then Ids(rows[..i + 1]) else {}
    case _ => {}
  }

  ghost predicate BatchOk(outbox: map<Uuid, OutboxEvent>, log: seq<PublishCall>, rows: seq<OutboxEvent>, i: nat, tx: Tx) {
    && i <= |rows| && Distinct(rows)
    && (forall row | row in rows :: Holds(outbox, row))
    && tx.links == map[] && tx.keys == map[] && tx.events == map[]
    && tx.claims == Ids(rows)
    && tx.marks.Keys == Ids(rows[..i])
    && (forall e | e in tx.marks :: Delivered(log, e, tx.marks[e]))
  }

  ghost predicate TickOk(outbox: map<Uuid, OutboxEvent>, log: seq<PublishCall>, t: Tick) {
    match t.pc
    case Waiting => t.tx.None?
    case Claiming => t.tx == Some(EMPTY_TX)
    case Publishing(rows, i) => t.tx.Some? && BatchOk(outbox, log, rows, i, t.tx.value)
    case Marking(rows, i, now) =>
      t.tx.Some? && i < |rows| && BatchOk(outbox, log, rows, i, t.tx.value) && Delivered(log, rows[i].id, now)
    case Ended(_) => t.tx.None?
  }

  ghost predicate TicksOk(s: State) {
    && (forall p | p in s.ticks :: TickOk(s.db.outbox, s.log, s.ticks[p]))
    && (forall p, o | p in s.ticks && o in s.ticks && p != o :: ClaimsOf(s.ticks[p]) !! ClaimsOf(s.ticks[o]))
  }

  predicate CallOk(outbox: map<Uuid, OutboxEvent>, event: PublishedEvent) {
    event.outboxId in outbox && event == Message(outbox[event.outboxId], event.publishedAt)
  }

  ghost predicate LogOk(s: State) {
    && (forall call | call in s.log :: CallOk(s.db.outbox, call.event))
    && (forall e | e in s.db.outbox && s.db.outbox[e].publishedAt.Some? ::
          Delivered(s.log, e, s.db.outbox[e].publishedAt.value))
  }

  ghost predicate InFlight(s: State, e: Uuid) {
    exists p :: p in s.ticks && e in Sent(s.ticks[p])
  }

  predicate IsMarked(outbox: map<Uuid, OutboxEvent>, e: Uuid) {
    e in outbox && outbox[e].publishedAt.Some?
  }

  ghost predicate CallBound(s: State, e: Uuid) {
    CallsFor(s.log, e) <= s.aborts[e] + (if IsMarked(s.db.outbox, e) || InFlight(s, e) then 1 else 0)
  }

  ghost predicate CallsOk(s: State) {
    forall e :: CallBound(s, e)
  }

  ghost predicate Inv(cfg: Config, s: State) {
    && RequestsOk(cfg, s)
    && PendingOk(s)
    && OneCreator(s)
    && TablesOk(cfg, s)
    && TicksOk(s)
    && LogOk(s)
    && CallsOk(s)
  }
}
