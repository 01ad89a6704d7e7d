/** The shared database and broker as the code sees them: one call at a time, with whatever the
    other requests and ticks do before each call, and with calls that may fail. */
module SharedDatabase {
  import opened Domain
  import opened Tables
  import opened Claims
  import opened Protocol
  import opened Invariant
  import opened Preservation
  import opened Growth
  import opened Reach

  /** `me` stands where it stood. */
  predicate Untouched(s: State, s': State, me: Actor) {
    match me
    case Client(r) => (r in s'.reqs <==> r in s.reqs) && (r in s.reqs ==> s'.reqs[r] == s.reqs[r])
    case Worker(p) => (p in s'.ticks <==> p in s.ticks) && (p in s.ticks ==> s'.ticks[p] == s.ticks[p])
  }

  lemma OthersLeaveMe(cfg: Config, s: State, a: Action, me: Actor)
    requires Enabled(cfg, s, a) && ActorOf(a) != me
    ensures Untouched(s, Apply(cfg, s, a), me) && s.issued <= Apply(cfg, s, a).issued
  {
  }

  /** No table and no request but `r` knows the identifier. */
  ghost predicate KnownOnlyTo(s: State, r: nat, id: Uuid) {
    && id !in s.db.links && id !in s.db.outbox
    && forall o | o in s.reqs && o != r :: id !in PendingLinks(s.reqs[o]) && id !in PendingEvents(s.reqs[o])
  }

  /** The rows that ticks other than `p` have claimed. */
  function LockedByOthers(s: State, p: nat): set<Uuid> {
    set o, id | o in s.ticks && o != p && id in ClaimsOf(s.ticks[o]) :: id
  }

  lemma OwnClaim(s: State, s': State, p: nat)
    requires p in s.ticks && p in s'.ticks && s'.ticks == s.ticks[p := s'.ticks[p]] && ClaimsOf(s.ticks[p]) == {}
    ensures LockedByOthers(s', p) == Locked(s)
  {
    forall id | id in Locked(s) ensures id in LockedByOthers(s', p) {
      var o :| o in s.ticks && id in ClaimsOf(s.ticks[o]);
      assert o != p && s'.ticks[o] == s.ticks[o];
    }
  }

  lemma FreshIsOwn(cfg: Config, s: State, s': State, r: nat, id: Uuid)
    requires Reaches(cfg, INIT, s) && id !in s.issued
    requires s'.db == s.db && r in s'.reqs && s'.reqs == s.reqs[r := s'.reqs[r]]
    ensures KnownOnlyTo(s', r, id)
  {
    ReachableKeepsInv(cfg, s);
    FreshId(cfg, s, id);
  }

  /** A request whose call returned an error: it answers with the error and holds nothing. */
  function CallFailure(q: Request): Request {
    q.(pc := Finished(Failed(CallFailed)), tx := None)
  }

  lemma RowsUnderTheirIds(cfg: Config, s: State)
    requires Reaches(cfg, INIT, s)
    ensures forall e | e in s.db.outbox :: s.db.outbox[e].id == e
  {
    ReachableKeepsInv(cfg, s);
    forall e | e in s.db.outbox ensures s.db.outbox[e].id == e { assert RowOk(s.db, s.origin, e); }
  }

  /** Only request `r` moved, and no table changed. */
  predicate OnlyRequest(s: State, s': State, r: nat) {
    && s'.db == s.db && s'.ticks == s.ticks
    && r in s'.reqs && s'.reqs == s.reqs[r := s'.reqs[r]]
  }

  class Database {
    const cfg: Config
    /** Whether the caller has the database to itself. */
    const solo: bool
    /** Whether every call that can proceed succeeds. */
    const reliable: bool
    var state: State

    ghost predicate Valid()
      reads this
    {
      Reaches(cfg, INIT, state)
    }

    constructor (cfg: Config, solo: bool, reliable: bool)
      ensures this.cfg == cfg && this.solo == solo && this.reliable == reliable && state == INIT && Valid()
    {
      this.cfg := cfg;
      this.solo := solo;
      this.reliable := reliable;
      state := INIT;
      new;
      ReachesSelf(cfg, INIT);
    }

    /** One step of anybody. */
    method Act(a: Action)
      requires Valid() && Enabled(cfg, state, a)
      modifies this
      ensures Valid() && state == Apply(cfg, old(state), a) && Reaches(cfg, old(state), state)
    {
      ReachesStep(cfg, INIT, state, a);
      ReachesSelf(cfg, state);
      ReachesStep(cfg, state, state, a);
      state := Apply(cfg, state, a);
    }

    /** Any number of steps by anyone but `me`. */
    method Interfere(me: Actor)
      requires Valid()
      modifies this
      ensures Valid() && Reaches(cfg, old(state), state) && Untouched(old(state), state, me)
      ensures old(state).issued <= state.issued
      ensures solo ==> state == old(state)
    {
      ReachesSelf(cfg, state);
      var steps: nat := *;
      while steps > 0
        invariant Valid() && Reaches(cfg, old(state), state) && Untouched(old(state), state, me)
        invariant old(state).issued <= state.issued
        invariant solo ==> state == old(state)
      {
        var a: Action := *;
        if !solo && ActorOf(a) != me && Enabled(cfg, state, a) {
          ReachesStep(cfg, old(state), state, a);
          OthersLeaveMe(cfg, state, a, me);
          Act(a);
        }
        steps := steps - 1;
      }
    }

    /** A call made for request `r`: it may fail, and it does fail when it cannot proceed. */
    method Attempt(r: nat, a: Action) returns (ok: bool)
      requires Valid() && ActorOf(a) == Client(r) && r in state.reqs && !state.reqs[r].pc.Finished?
      modifies this
      ensures Valid() && Reaches(cfg, old(state), state)
      ensures if ok then Enabled(cfg, old(state), a) && state == Apply(cfg, old(state), a)
              else state == PutReq(old(state), r, CallFailure(old(state).reqs[r]))
      ensures reliable && Enabled(cfg, old(state), a) ==> ok
    {
      var up: bool := *;
      ok := (up || reliable) && Enabled(cfg, state, a);
      if ok {
        Act(a);
      } else {
        Act(FailReq(r, false));
      }
    }

    /** A number not in use. */
    static method Unused(taken: set<nat>) returns (id: nat)
      ensures id !in taken
    {
      id := *;
      ghost var above := taken;
      while id in taken
        invariant forall x | x in taken && x >= id :: x in above
        decreases |above|
      {
        assert id in above;
        above := above - {id};
        id := id + 1;
      }
    }

    /** A fresh, non-nil identifier. */
    method NewUuid() returns (id: Uuid)
      ensures id !in state.issued && id != NIL_UUID
    {
      id := Unused(state.issued + {NIL_UUID});
    }

    // ---- Calls of a request ----

    /** Where a lookup that answered leaves the request. */
    function AfterLookup(q: Request, found: Option<IdempotencyRecord>): Request {
      match found
      case Some(rec) =>
        q.(pc := if rec.requestHash != RequestHash(cfg, q.call) then Finished(Conflict) else Replaying(rec))
      case None => q.(pc := if q.pc.Lookup? then Begin else Finished(Failed(KeyUnreadable)))
    }

    method FindByKey(r: nat) returns (found: Option<IdempotencyRecord>, ok: bool)
      requires Valid() && r in state.reqs && (state.reqs[r].pc.Lookup? || state.reqs[r].pc.Reread?)
      modifies this
      ensures Valid() && Reaches(cfg, old(state), state) && r in state.reqs
      ensures !ok ==> state.reqs[r] == CallFailure(old(state).reqs[r])
      ensures ok ==> found == (if old(state).reqs[r].call.key in state.db.keys
                               then Some(state.db.keys[old(state).reqs[r].call.key]) else None)
      ensures ok ==> state.reqs[r] == AfterLookup(old(state).reqs[r], found)
      ensures solo ==> OnlyRequest(old(state), state, r)
      ensures solo && reliable && ConnectionFree(cfg, old(state)) ==> ok
    {
      Interfere(Client(r));
      ghost var seen := state;
      var key := state.reqs[r].call.key;
      found := if key in state.db.keys then Some(state.db.keys[key]) else None;
      ok := Attempt(r, FindKey(r));
      ReachesTransitive(cfg, old(state), seen, state);
    }

    method FindById(r: nat, id: Uuid) returns (link: Option<AccountLink>, valid: bool, ok: bool)
      requires Valid() && r in state.reqs && state.reqs[r].pc.Replaying? && state.reqs[r].pc.rec.accountLinkId == id
      modifies this
      ensures Valid() && Reaches(cfg, old(state), state) && r in state.reqs
      ensures !ok ==> state.reqs[r] == CallFailure(old(state).reqs[r])
      ensures ok ==> state.reqs[r] == old(state).reqs[r].(
                pc := match link
                      case None => Finished(Failed(MissingLink))
                      case Some(l) => Finished(if valid then Success(l, false) else Failed(InvalidLink)))
      ensures ok ==> link == (if id in state.db.links then Some(state.db.links[id]) else None)
      ensures ok ==> (valid <==> link.Some? && Domain.Valid(link.value))
      ensures solo ==> OnlyRequest(old(state), state, r)
      ensures solo && reliable && ConnectionFree(cfg, old(state)) ==> ok
    {
      Interfere(Client(r));
      ghost var seen := state;
      link := if id in state.db.links then Some(state.db.links[id]) else None;
      valid := link.Some? && Domain.Valid(link.value);
      ok := Attempt(r, LoadLink(r));
      ReachesTransitive(cfg, old(state), seen, state);
    }

    method BeginTx(r: nat) returns (ok: bool)
      requires Valid() && r in state.reqs && state.reqs[r].pc.Begin?
      modifies this
      ensures Valid() && Reaches(cfg, old(state), state) && r in state.reqs
      ensures state.reqs[r] == if ok then old(state).reqs[r].(pc := Saving, tx := Some(EMPTY_TX))
                               else CallFailure(old(state).reqs[r])
      ensures solo ==> OnlyRequest(old(state), state, r)
      ensures solo && reliable && ConnectionFree(cfg, old(state)) ==> ok
    {
      Interfere(Client(r));
      ghost var seen := state;
      ok := Attempt(r, BeginReq(r));
      ReachesTransitive(cfg, old(state), seen, state);
    }

    method Save(r: nat) returns (link: AccountLink, ok: bool)
      requires Valid() && r in state.reqs && state.reqs[r].pc.Saving? && state.reqs[r].tx.Some?
      modifies this
      ensures Valid() && Reaches(cfg, old(state), state) && r in state.reqs
      ensures state.reqs[r] == if ok then AfterSave(old(state).reqs[r], link.id) else CallFailure(old(state).reqs[r])
      ensures link == NewLink(link.id, old(state).reqs[r].call) && link.id != NIL_UUID
      ensures link.id !in old(state).issued && (ok ==> KnownOnlyTo(state, r, link.id))
      ensures solo ==> OnlyRequest(old(state), state, r)
      ensures solo && reliable ==> ok
    {
      Interfere(Client(r));
      ghost var seen := state;
      var id := NewUuid();
      link := NewLink(id, state.reqs[r].call);
      ok := Attempt(r, SaveLink(r, id));
      FreshIsOwn(cfg, seen, state, r, id);
      ReachesTransitive(cfg, old(state), seen, state);
    }

    method TryInsert(r: nat) returns (inserted: bool, ok: bool)
      requires Valid() && r in state.reqs && state.reqs[r].pc.Inserting? && state.reqs[r].tx.Some?
      modifies this
      ensures Valid() && Reaches(cfg, old(state), state) && r in state.reqs
      ensures !ok ==> state.reqs[r] == CallFailure(old(state).reqs[r])
      ensures ok ==> !KeyLocked(state, r, old(state).reqs[r].call.key)
      ensures ok ==> (inserted <==> old(state).reqs[r].call.key !in state.db.keys)
      ensures ok && inserted ==> state.reqs[r].pc == Announcing(old(state).reqs[r].pc.link)
      ensures ok && !inserted ==> state.reqs[r].pc == CommittingLoss(old(state).reqs[r].pc.link)
      ensures ok ==> state.reqs[r].call == old(state).reqs[r].call
      ensures ok ==> var q := old(state).reqs[r];
                     state.reqs[r].tx == if inserted then
                         Some(q.tx.value.(keys := q.tx.value.keys[q.call.key := NewRecord(cfg, q.call, q.pc.link)]))
                       else q.tx
      ensures solo ==> OnlyRequest(old(state), state, r)
      ensures solo && reliable && !KeyLocked(old(state), r, old(state).reqs[r].call.key) ==> ok
    {
      Interfere(Client(r));
      ghost var seen := state;
      inserted := state.reqs[r].call.key !in state.db.keys;
      ok := Attempt(r, InsertKey(r));
      ReachesTransitive(cfg, old(state), seen, state);
    }

    method Add(r: nat, now: Time) returns (ok: bool)
      requires Valid() && r in state.reqs && state.reqs[r].pc.Announcing? && state.reqs[r].tx.Some?
      modifies this
      ensures Valid() && Reaches(cfg, old(state), state) && r in state.reqs
      ensures !ok ==> state.reqs[r] == CallFailure(old(state).reqs[r])
      ensures ok ==> state.reqs[r].pc.CommittingWin? && state.reqs[r].pc.link == old(state).reqs[r].pc.link
                     && state.reqs[r].call == old(state).reqs[r].call
      ensures ok ==> var q, event := old(state).reqs[r], state.reqs[r].pc.event;
                     && event == CreatedEvent(event.id, q.pc.link, now) && event.id != NIL_UUID
                     && event.id !in old(state).issued && KnownOnlyTo(state, r, event.id)
                     && state.reqs[r].tx == Some(q.tx.value.(events := q.tx.value.events[event.id := event]))
      ensures solo ==> OnlyRequest(old(state), state, r)
      ensures solo && reliable ==> ok
    {
      Interfere(Client(r));
      ghost var seen := state;
      var id := NewUuid();
      ok := Attempt(r, AddEvent(r, id, now));
      FreshIsOwn(cfg, seen, state, r, id);
      ReachesTransitive(cfg, old(state), seen, state);
    }

    /** From where the others have brought the tables, the commit stores all of the transaction or
        none of it; `landed` is what the caller cannot see. */
    method CommitTx(r: nat) returns (ok: bool, ghost found: State, ghost landed: bool)
      requires Valid() && AtRequestCommit(state, r)
      modifies this
      ensures Valid() && Reaches(cfg, old(state), state) && r in state.reqs
      ensures Reaches(cfg, old(state), found) && Untouched(old(state), found, Client(r))
      ensures state == if landed then AfterCommitReq(found, r, if ok then Reported else Unreported)
                       else PutReq(found, r, CallFailure(old(state).reqs[r]))
      ensures ok ==> landed
      ensures state.reqs[r] == if ok then AfterCommit(old(state).reqs[r], Reported)
                               else CallFailure(old(state).reqs[r])
      ensures solo ==> found == old(state)
      ensures solo && reliable ==> ok
    {
      Interfere(Client(r));
      found := state;
      var reported: bool := *;
      reported := reported || reliable;
      ok := Attempt(r, CommitReq(r, if reported then Reported else Unreported));
      assert AfterCommit(found.reqs[r], Unreported) == CallFailure(found.reqs[r]);
      landed := ok;
      ok := ok && reported;
      ReachesTransitive(cfg, old(state), found, state);
    }

    // ---- Calls of a tick ----

    /** A call made for tick `p`; `now` is the time a failing Publish would have carried. */
    method AttemptTick(p: nat, a: Action, now: Time) returns (ok: bool)
      requires Valid() && ActorOf(a) == Worker(p) && p in state.ticks && !state.ticks[p].pc.Ended?
      modifies this
      ensures Valid() && Reaches(cfg, old(state), state)
      ensures if ok then Enabled(cfg, old(state), a) && state == Apply(cfg, old(state), a)
              else state == AfterFailTick(old(state), p, now)
      ensures reliable && Enabled(cfg, old(state), a) ==> ok
    {
      var up: bool := *;
      ok := (up || reliable) && Enabled(cfg, state, a);
      if ok {
        Act(a);
      } else {
        Act(FailTick(p, now));
      }
    }

    /** The answer of the claiming query, oldest row first. */
    static method SelectOldest(outbox: map<Uuid, OutboxEvent>, locked: set<Uuid>, limit: nat) returns (out: seq<OutboxEvent>)
      requires forall e | e in outbox :: outbox[e].id == e
      ensures IsClaim(outbox, locked, limit, out)
    {
      out := [];
      while |out| < limit && Remaining(outbox, locked, out) != {}
        invariant |out| <= limit && IsClaim(outbox, locked, |out|, out)
      {
        OldestExists(outbox, Remaining(outbox, locked, out));
        var id :| id in Remaining(outbox, locked, out) && IsOldest(outbox, Remaining(outbox, locked, out), id);
        NextRow(outbox, locked, out, id);
        out := out + [outbox[id]];
      }
      NothingRemains(outbox, locked, out, limit);
    }

    method BeginWork(p: nat) returns (ok: bool)
      requires Valid() && p in state.ticks && state.ticks[p].pc.Waiting?
      modifies this
      ensures Valid() && Reaches(cfg, old(state), state) && p in state.ticks
      ensures state.ticks[p] == old(state).ticks[p].(
                pc := if ok then Claiming else Ended(false), tx := if ok then Some(EMPTY_TX) else None)
      ensures solo ==> state == PutTick(old(state), p, state.ticks[p]).(aborts := state.aborts)
      ensures solo && reliable && ConnectionFree(cfg, old(state)) ==> ok
    {
      Interfere(Worker(p));
      ghost var seen := state;
      ok := AttemptTick(p, BeginTick(p), 0);
      ReachesTransitive(cfg, old(state), seen, state);
    }

    method FindUnpublishedForUpdateSkipLocked(p: nat) returns (rows: seq<OutboxEvent>, ok: bool)
      requires Valid() && p in state.ticks && state.ticks[p].pc.Claiming? && state.ticks[p].tx == Some(EMPTY_TX)
      modifies this
      ensures Valid() && Reaches(cfg, old(state), state) && p in state.ticks
      ensures ok ==> state.ticks[p] == old(state).ticks[p].(
                       pc := Publishing(rows, 0), tx := Some(EMPTY_TX.(claims := Ids(rows))))
      ensures !ok ==> state.ticks[p] == old(state).ticks[p].(pc := Ended(false), tx := None)
      ensures ok ==>
        old(state).ticks[p].batchSize >= 0
        && IsClaim(state.db.outbox, LockedByOthers(state, p), old(state).ticks[p].batchSize, rows)
      ensures solo && ok ==>
        old(state).ticks[p].batchSize >= 0
        && IsClaim(old(state).db.outbox, Locked(old(state)), old(state).ticks[p].batchSize, rows)
      ensures solo ==> state == PutTick(old(state), p, state.ticks[p]).(aborts := state.aborts)
      ensures solo && reliable && old(state).ticks[p].batchSize >= 0 ==> ok
    {
      Interfere(Worker(p));
      ghost var seen := state;
      rows := [];
      if state.ticks[p].batchSize < 0 {
        Act(RejectClaim(p));
        ok := false;
      } else {
        RowsUnderTheirIds(cfg, state);
        rows := SelectOldest(state.db.outbox, Locked(state), state.ticks[p].batchSize);
        ok := AttemptTick(p, Claim(p, rows), 0);
        if ok { OwnClaim(seen, state, p); }
      }
      ReachesTransitive(cfg, old(state), seen, state);
    }

    method SendEvent(p: nat, now: Time) returns (ok: bool)
      requires Valid() && AtPublish(state, p)
      modifies this
      ensures Valid() && Reaches(cfg, old(state), state) && p in state.ticks
      ensures var t := old(state).ticks[p];
              state.ticks[p] == if ok then t.(pc := Marking(t.pc.rows, t.pc.i, now)) else t.(pc := Ended(false), tx := None)
      ensures solo ==>
        state == PutTick(old(state), p, state.ticks[p]).(
                   aborts := state.aborts,
                   log := old(state).log +
                          [PublishCall(Message(old(state).ticks[p].pc.rows[old(state).ticks[p].pc.i], now), ok)])
      ensures solo && reliable ==> ok
    {
      Interfere(Worker(p));
      ghost var seen := state;
      ok := AttemptTick(p, Protocol.Publish(p, now), now);
      ReachesTransitive(cfg, old(state), seen, state);
    }

    method MarkPublished(p: nat) returns (ok: bool)
      requires Valid() && p in state.ticks && state.ticks[p].pc.Marking? && state.ticks[p].tx.Some?
      requires state.ticks[p].pc.i < |state.ticks[p].pc.rows|
      modifies this
      ensures Valid() && Reaches(cfg, old(state), state) && p in state.ticks
      ensures var t := old(state).ticks[p];
              var Marking(rows, i, now) := t.pc;
              state.ticks[p] ==
              if ok then t.(pc := Publishing(rows, i + 1),
                            tx := Some(t.tx.value.(marks := t.tx.value.marks[rows[i].id := now])))
              else t.(pc := Ended(false), tx := None)
      ensures solo ==> state == PutTick(old(state), p, state.ticks[p]).(aborts := state.aborts)
      ensures solo && reliable ==> ok
    {
      Interfere(Worker(p));
      ghost var seen := state;
      ok := AttemptTick(p, Mark(p), 0);
      ReachesTransitive(cfg, old(state), seen, state);
    }

    /** Likewise for the marks of a tick. */
    method CommitWork(p: nat) returns (ok: bool, ghost found: State, ghost landed: bool)
      requires Valid() && AtTickCommit(state, p)
      modifies this
      ensures Valid() && Reaches(cfg, old(state), state) && p in state.ticks
      ensures Reaches(cfg, old(state), found) && Untouched(old(state), found, Worker(p))
      ensures state.ticks[p] == old(state).ticks[p].(pc := Ended(ok), tx := None)
      ensures ok ==> landed
      ensures state ==
        PutTick(found, p, state.ticks[p]).(
          aborts := state.aborts,
          db := if landed then Commit(found.db, old(state).ticks[p].tx.value) else found.db)
      ensures solo ==> found == old(state)
      ensures solo && reliable ==> ok
    {
      Interfere(Worker(p));
      found := state;
      var reported: bool := *;
      reported := reported || reliable;
      ok := AttemptTick(p, CommitTick(p, if reported then Reported else Unreported), 0);
      landed := ok;
      ok := ok && reported;
      ReachesTransitive(cfg, old(state), found, state);
    }
  }
}
