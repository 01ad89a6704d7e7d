/** The service as a system of interleaved steps: any number of `Create` requests and
    `PublishOnce` ticks over one PostgreSQL database at Read Committed.  A step is one call to
    the database or the publisher together with the local code up to the next call.  A call
    that returns an error and the deferred rollback it leads to are one step. */
module Protocol {
  import opened Domain
  import opened Tables

  /** `hash` stands for sha256Hex; `poolSize` bounds the open connections. */
  datatype Config = Config(hash: string -> string, poolSize: nat)

  datatype Call = Call(key: string, userId: string, externalInstitution: string)

  datatype Reason =
    | CallFailed          // a database, marshalling or commit error
    | Crashed             // the process died
    | InvalidRequest      // the new link did not validate
    | KeyUnreadable       // "idempotency key existed but could not be read"
    | MissingLink         // "idempotency record referenced missing AccountLink"
    | InvalidLink         // a stored link did not validate when read back

  datatype Response =
    | Success(link: AccountLink, created: bool)
    | Conflict
    | Failed(reason: Reason)

  /** Where a request stands; the next call it makes gives the constructor its name. */
  datatype Pc =
    | Lookup
    | Begin
    | Saving
    | Inserting(link: AccountLink)
    | Announcing(link: AccountLink)
    | CommittingWin(link: AccountLink, event: OutboxEvent)
    | CommittingLoss(link: AccountLink)
    | Reread
    | Replaying(rec: IdempotencyRecord)
    | Finished(response: Response)

  datatype Request = Request(call: Call, pc: Pc, tx: Option<Tx>)

  /** Where a `PublishOnce` tick stands. `Publishing(rows, i)` with i == |rows| commits next. */
  datatype TickPc =
    | Waiting
    | Claiming
    | Publishing(rows: seq<OutboxEvent>, i: nat)
    | Marking(rows: seq<OutboxEvent>, i: nat, now: Time)
    | Ended(ok: bool)

  datatype Tick = Tick(batchSize: int, pc: TickPc, tx: Option<Tx>)

  datatype PublishCall = PublishCall(event: PublishedEvent, ok: bool)

  /** How the transaction that committed a link went; recorded when it commits. */
  datatype Origin =
    | Keyed(key: string, eventId: Uuid)
    | Keyless(eventId: Uuid)
    | LostRace

  /** The committed tables, every request and tick, the identifiers handed out so far, and three
      histories: how each link came to be committed, all `Publish` calls in order, and for each
      row the number of aborted ticks that had claimed it. */
  datatype State = State(
    db: Tables,
    reqs: map<nat, Request>,
    ticks: map<nat, Tick>,
    issued: set<Uuid>,
    origin: map<Uuid, Origin>,
    log: seq<PublishCall>,
    aborts: multiset<Uuid>)

  const INIT := State(Tables(map[], map[], map[]), map[], map[], {}, map[], [], multiset{})

  /** A commit that lands may still report an error to its caller. */
  datatype Fate = Reported | Unreported

  datatype Action =
    | Arrive(r: nat, call: Call)
    | FindKey(r: nat)
    | LoadLink(r: nat)
    | BeginReq(r: nat)
    | SaveLink(r: nat, id: Uuid)
    | InsertKey(r: nat)
    | AddEvent(r: nat, id: Uuid, at: Time)
    | CommitReq(r: nat, fate: Fate)
    | FailReq(r: nat, crash: bool)
    | StartTick(p: nat, batchSize: int)
    | BeginTick(p: nat)
    | Claim(p: nat, rows: seq<OutboxEvent>)
    | RejectClaim(p: nat)
    | Publish(p: nat, now: Time)
    | Mark(p: nat)
    | CommitTick(p: nat, fate: Fate)
    | FailTick(p: nat, now: Time)   // an error return or a crash

  datatype Actor = Client(r: nat) | Worker(p: nat)

  function ActorOf(a: Action): Actor {
    match a
    case Arrive(r, _) => Client(r)
    case FindKey(r) => Client(r)
    case LoadLink(r) => Client(r)
    case BeginReq(r) => Client(r)
    case SaveLink(r, _) => Client(r)
    case InsertKey(r) => Client(r)
    case AddEvent(r, _, _) => Client(r)
    case CommitReq(r, _) => Client(r)
    case FailReq(r, _) => Client(r)
    case StartTick(p, _) => Worker(p)
    case BeginTick(p) => Worker(p)
    case Claim(p, _) => Worker(p)
    case RejectClaim(p) => Worker(p)
    case Publish(p, _) => Worker(p)
    case Mark(p) => Worker(p)
    case CommitTick(p, _) => Worker(p)
    case FailTick(p, _) => Worker(p)
  }

  function Joined(userId: string, externalInstitution: string): string {
    userId + "|" + externalInstitution
  }

  function RequestHash(cfg: Config, call: Call): string {
    cfg.hash(Joined(call.userId, call.externalInstitution))
  }

  // ---- Connections and locks ----

  function OpenReqs(s: State): set<nat> {
    set r | r in s.reqs && s.reqs[r].tx.Some?
  }

  function OpenTicks(s: State): set<nat> {
    set p | p in s.ticks && s.ticks[p].tx.Some?
  }

  predicate ConnectionFree(cfg: Config, s: State) {
    |OpenReqs(s)| + |OpenTicks(s)| < cfg.poolSize
  }

  /** Nobody but `me` has a transaction open. */
  ghost predicate Quiet(cfg: Config, s: State, me: nat) {
    && cfg.poolSize >= 1
    && (forall o | o in s.reqs && o != me :: s.reqs[o].tx.None?)
    && (forall p | p in s.ticks :: s.ticks[p].tx.None?)
  }

  lemma QuietIsFree(cfg: Config, s: State, me: nat)
    requires Quiet(cfg, s, me) && (me in s.reqs ==> s.reqs[me].tx.None?)
    ensures ConnectionFree(cfg, s)
  {
    assert OpenReqs(s) == {} && OpenTicks(s) == {};
  }

  predicate HoldsKey(q: Request, key: string) {
    q.tx.Some? && key in q.tx.value.keys
  }

  /** Some other transaction has inserted `key` and not finished: TryInsert waits for it. */
  predicate KeyLocked(s: State, r: nat, key: string) {
    exists o | o in s.reqs :: o != r && HoldsKey(s.reqs[o], key)
  }

  function ClaimsOf(t: Tick): set<Uuid> {
    if t.tx.Some? then t.tx.value.claims else {}
  }

  function Locked(s: State): set<Uuid> {
    set p, id | p in s.ticks && id in ClaimsOf(s.ticks[p]) :: id
  }

  // ---- Requests ----

  function NewLink(id: Uuid, call: Call): AccountLink {
    AccountLink(id, call.userId, call.externalInstitution, STATUS_PENDING)
  }

  function NewRecord(cfg: Config, call: Call, link: AccountLink): IdempotencyRecord {
    IdempotencyRecord(call.key, RequestHash(cfg, call), link.id)
  }

  /** What FindByKey leads to: replay decides on the hash before it reads the link. */
  function AfterFind(cfg: Config, s: State, q: Request): Pc {
    if q.call.key in s.db.keys then
      var rec := s.db.keys[q.call.key];
      if rec.requestHash != RequestHash(cfg, q.call) then Finished(Conflict) else Replaying(rec)
    else if q.pc.Lookup? then Begin
    else Finished(Failed(KeyUnreadable))
  }

  function AfterLoad(s: State, rec: IdempotencyRecord): Pc {
    if rec.accountLinkId !in s.db.links then Finished(Failed(MissingLink))
    else if !Valid(s.db.links[rec.accountLinkId]) then Finished(Failed(InvalidLink))
    else Finished(Success(s.db.links[rec.accountLinkId], false))
  }

  function AfterSave(q: Request, id: Uuid): Request
    requires q.tx.Some?
  {
    var link := NewLink(id, q.call);
    if !Valid(link) then q.(pc := Finished(Failed(InvalidRequest)), tx := None)
    else q.(pc := if q.call.key == "" then Announcing(link) else Inserting(link),
            tx := Some(q.tx.value.(links := q.tx.value.links[id := link])))
  }

  function AfterInsert(cfg: Config, s: State, q: Request): Request
    requires q.tx.Some? && q.pc.Inserting?
  {
    var key := q.call.key;
    if key in s.db.keys then q.(pc := CommittingLoss(q.pc.link))
    else q.(pc := Announcing(q.pc.link),
            tx := Some(q.tx.value.(keys := q.tx.value.keys[key := NewRecord(cfg, q.call, q.pc.link)])))
  }

  function AfterAdd(q: Request, id: Uuid, at: Time): Request
    requires q.tx.Some? && q.pc.Announcing?
  {
    var event := CreatedEvent(id, q.pc.link, at);
    q.(pc := CommittingWin(q.pc.link, event), tx := Some(q.tx.value.(events := q.tx.value.events[id := event])))
  }

  function OriginOf(q: Request): Origin
    requires q.pc.CommittingWin? || q.pc.CommittingLoss?
  {
    if q.pc.CommittingLoss? then LostRace
    else if q.call.key == "" then Keyless(q.pc.event.id)
    else Keyed(q.call.key, q.pc.event.id)
  }

  function AfterCommit(q: Request, fate: Fate): Request
    requires q.pc.CommittingWin? || q.pc.CommittingLoss?
  {
    q.(tx := None,
       pc := if fate.Unreported? then Finished(Failed(CallFailed))
             else if q.pc.CommittingWin? then Finished(Success(q.pc.link, true))
             else Reread)
  }

  // ---- The step relation ----

  predicate AtRequestCommit(s: State, r: nat) {
    r in s.reqs && (s.reqs[r].pc.CommittingWin? || s.reqs[r].pc.CommittingLoss?) && s.reqs[r].tx.Some?
  }

  predicate AtPublish(s: State, p: nat) {
    p in s.ticks && s.ticks[p].pc.Publishing? && s.ticks[p].pc.i < |s.ticks[p].pc.rows|
  }

  predicate AtTickCommit(s: State, p: nat) {
    p in s.ticks && s.ticks[p].pc.Publishing? && s.ticks[p].pc.i == |s.ticks[p].pc.rows| && s.ticks[p].tx.Some?
  }

  predicate Enabled(cfg: Config, s: State, a: Action) {
    match a
    case Arrive(r, call) => r !in s.reqs
    case FindKey(r) => r in s.reqs && (s.reqs[r].pc.Lookup? || s.reqs[r].pc.Reread?) && ConnectionFree(cfg, s)
    case LoadLink(r) => r in s.reqs && s.reqs[r].pc.Replaying? && ConnectionFree(cfg, s)
    case BeginReq(r) => r in s.reqs && s.reqs[r].pc.Begin? && ConnectionFree(cfg, s)
    case SaveLink(r, id) =>
      r in s.reqs && s.reqs[r].pc.Saving? && s.reqs[r].tx.Some? && id !in s.issued && id != NIL_UUID
    case InsertKey(r) =>
      r in s.reqs && s.reqs[r].pc.Inserting? && s.reqs[r].tx.Some? && !KeyLocked(s, r, s.reqs[r].call.key)
    case AddEvent(r, id, _) =>
      r in s.reqs && s.reqs[r].pc.Announcing? && s.reqs[r].tx.Some? && id !in s.issued && id != NIL_UUID
    case CommitReq(r, _) => AtRequestCommit(s, r)
    case FailReq(r, _) => r in s.reqs && !s.reqs[r].pc.Finished?
    case StartTick(p, _) => p !in s.ticks
    case BeginTick(p) => p in s.ticks && s.ticks[p].pc.Waiting? && ConnectionFree(cfg, s)
    case Claim(p, rows) =>
      p in s.ticks && s.ticks[p].pc.Claiming? && s.ticks[p].tx.Some? && s.ticks[p].batchSize >= 0
      && IsClaim(s.db.outbox, Locked(s), s.ticks[p].batchSize, rows)
    case RejectClaim(p) => p in s.ticks && s.ticks[p].pc.Claiming? && s.ticks[p].batchSize < 0
    case Publish(p, _) => AtPublish(s, p)
    case Mark(p) =>
      p in s.ticks && s.ticks[p].pc.Marking? && s.ticks[p].tx.Some? && s.ticks[p].pc.i < |s.ticks[p].pc.rows|
    case CommitTick(p, _) => AtTickCommit(s, p)
    case FailTick(p, _) => p in s.ticks && !s.ticks[p].pc.Ended?
  }

  function PutReq(s: State, r: nat, q: Request): State {
    s.(reqs := s.reqs[r := q])
  }

  function PutTick(s: State, p: nat, t: Tick): State {
    s.(ticks := s.ticks[p := t])
  }

  /** A request's commit lands; it also enters the history of its link. */
  function AfterCommitReq(s: State, r: nat, fate: Fate): State
    requires AtRequestCommit(s, r)
  {
    var q := s.reqs[r];
    PutReq(s, r, AfterCommit(q, fate)).(
      db := Commit(s.db, q.tx.value), origin := s.origin[q.pc.link.id := OriginOf(q)])
  }

  function AfterPublish(s: State, p: nat, now: Time): State
    requires AtPublish(s, p)
  {
    var Publishing(rows, i) := s.ticks[p].pc;
    PutTick(s, p, s.ticks[p].(pc := Marking(rows, i, now))).(
      log := s.log + [PublishCall(Message(rows[i], now), true)])
  }

  function AfterCommitTick(s: State, p: nat, fate: Fate): State
    requires AtTickCommit(s, p)
  {
    PutTick(s, p, s.ticks[p].(pc := Ended(fate.Reported?), tx := None)).(db := Commit(s.db, s.ticks[p].tx.value))
  }

  /** A tick that fails or dies; at Publish, the unsuccessful call is on record. */
  function AfterFailTick(s: State, p: nat, now: Time): State
    requires p in s.ticks
  {
    var t := s.ticks[p];
    var failing := t.pc.Publishing? && t.pc.i < |t.pc.rows|;
    PutTick(s, p, t.(pc := Ended(false), tx := None)).(
      log := if failing then s.log + [PublishCall(Message(t.pc.rows[t.pc.i], now), false)] else s.log,
      aborts := s.aborts + multiset(ClaimsOf(t)))
  }

  function Apply(cfg: Config, s: State, a: Action): State
    requires Enabled(cfg, s, a)
  {
    match a
    case Arrive(r, call) => PutReq(s, r, Request(call, if call.key == "" then Begin else Lookup, None))
    case FindKey(r) => PutReq(s, r, s.reqs[r].(pc := AfterFind(cfg, s, s.reqs[r])))
    case LoadLink(r) => PutReq(s, r, s.reqs[r].(pc := AfterLoad(s, s.reqs[r].pc.rec)))
    case BeginReq(r) => PutReq(s, r, s.reqs[r].(pc := Saving, tx := Some(EMPTY_TX)))
    case SaveLink(r, id) => PutReq(s, r, AfterSave(s.reqs[r], id)).(issued := s.issued + {id})
    case InsertKey(r) => PutReq(s, r, AfterInsert(cfg, s, s.reqs[r]))
    case AddEvent(r, id, at) => PutReq(s, r, AfterAdd(s.reqs[r], id, at)).(issued := s.issued + {id})
    case CommitReq(r, fate) => AfterCommitReq(s, r, fate)
    case FailReq(r, crash) =>
      PutReq(s, r, s.reqs[r].(pc := Finished(Failed(if crash then Crashed else CallFailed)), tx := None))
    case StartTick(p, batchSize) => PutTick(s, p, Tick(batchSize, Waiting, None))
    case BeginTick(p) => PutTick(s, p, s.ticks[p].(pc := Claiming, tx := Some(EMPTY_TX)))
    case Claim(p, rows) =>
      PutTick(s, p, s.ticks[p].(pc := Publishing(rows, 0), tx := Some(s.ticks[p].tx.value.(claims := Ids(rows)))))
    case RejectClaim(p) => PutTick(s, p, s.ticks[p].(pc := Ended(false), tx := None))
    case Publish(p, now) => AfterPublish(s, p, now)
    case Mark(p) =>
      var Marking(rows, i, now) := s.ticks[p].pc;
      var tx := s.ticks[p].tx.value;
      PutTick(s, p, s.ticks[p].(
        pc := Publishing(rows, i + 1), tx := Some(tx.(marks := tx.marks[rows[i].id := now]))))
    case CommitTick(p, fate) => AfterCommitTick(s, p, fate)
    case FailTick(p, now) => AfterFailTick(s, p, now)
  }

  // ---- Behaviours ----

  /** A finite run: states[k + 1] is what acts[k] makes of states[k]. */
  datatype Behavior = Behavior(states: seq<State>, acts: seq<Action>)

  ghost predicate Follows(cfg: Config, b: Behavior, k: nat)
    requires k < |b.acts| && |b.states| == |b.acts| + 1
  {
    Enabled(cfg, b.states[k], b.acts[k]) && b.states[k + 1] == Apply(cfg, b.states[k], b.acts[k])
  }

  ghost predicate Linked(cfg: Config, b: Behavior) {
    && |b.states| == |b.acts| + 1
    && forall k | 0 <= k < |b.acts| :: Follows(cfg, b, k)
  }

  /** A run of the whole system from empty tables. */
  ghost predicate IsRun(cfg: Config, b: Behavior) {
    Linked(cfg, b) && b.states[0] == INIT
  }
}
