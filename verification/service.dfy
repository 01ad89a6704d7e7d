/** `AccountLinkService.Create`, call by call, under interference and failures. */
module AccountLinkService {
  import opened Domain
  import opened Tables
  import opened Protocol
  import opened Invariant
  import opened Preservation
  import opened Reach
  import opened SharedDatabase

  // ---- What Create does when nobody disturbs it ----

  /** A link and its event are new, and the record of a keyed create with them. */
  ghost predicate Gained(cfg: Config, db: Tables, db': Tables, call: Call, now: Time, link: AccountLink) {
    && link == AccountLink(link.id, call.userId, call.externalInstitution, "PENDING")
    && link.id != NIL_UUID && link.id !in db.links
    && db'.links == db.links[link.id := link]
    && db'.keys == (if call.key == "" then db.keys
                    else db.keys[call.key := IdempotencyRecord(
                           call.key, cfg.hash(call.userId + "|" + call.externalInstitution), link.id)])
    && exists e :: e !in db.outbox && db'.outbox == db.outbox[e := CreatedEvent(e, link, now)]
  }

  /** What a recorded key is answered. */
  ghost predicate Replayed(cfg: Config, db: Tables, call: Call, rec: IdempotencyRecord, response: Response) {
    if rec.requestHash != cfg.hash(call.userId + "|" + call.externalInstitution) then response == Conflict
    else rec.accountLinkId in db.links && response == Success(db.links[rec.accountLinkId], false)
  }

  /** What the loser of a key race leaves: a link without record or event, and the answer the recorded
      key is given. */
  ghost predicate LostTo(cfg: Config, db: Tables, db': Tables, call: Call, response: Response) {
    && db'.keys == db.keys && db'.outbox == db.outbox
    && (exists id :: id !in db.links &&
          db'.links == db.links[id := AccountLink(id, call.userId, call.externalInstitution, "PENDING")])
    && call.key in db'.keys && Replayed(cfg, db', call, db'.keys[call.key], response)
  }

  /** `Create` by itself: the whole answer and the whole change of the tables. */
  ghost predicate Sequential(cfg: Config, db: Tables, db': Tables, call: Call, now: Time, response: Response) {
    if call.key != "" && call.key in db.keys then
      db' == db && Replayed(cfg, db, call, db.keys[call.key], response)
    else if call.userId == "" || call.externalInstitution == "" then
      db' == db && response == Failed(InvalidRequest)
    else
      && response.Success? && response.created
      && Gained(cfg, db, db', call, now, response.link)
  }

  lemma WinnerGains(cfg: Config, s: State, me: nat)
    requires Reaches(cfg, INIT, s) && AtRequestCommit(s, me) && s.reqs[me].pc.CommittingWin?
    ensures Gained(cfg, s.db, AfterCommitReq(s, me, Reported).db, s.reqs[me].call, s.reqs[me].pc.event.createdAt,
                   s.reqs[me].pc.link)
  {
    ReachableKeepsInv(cfg, s);
    AtCommit(cfg, s, me);
    RequestCommit(cfg, s, me);
    var db', event := AfterCommitReq(s, me, Reported).db, s.reqs[me].pc.event;
    assert db'.outbox == s.db.outbox[event.id := CreatedEvent(event.id, s.reqs[me].pc.link, event.createdAt)];
  }

  /** A record that is replayed has its link, and it validates. */
  lemma ReplayFindsLink(cfg: Config, s: State, me: nat)
    requires Reaches(cfg, INIT, s) && me in s.reqs && s.reqs[me].pc.Replaying?
    ensures var id := s.reqs[me].pc.rec.accountLinkId;
            id in s.db.links && Domain.Valid(s.db.links[id])
  {
    ReachableKeepsInv(cfg, s);
    assert RequestOk(cfg, s.db, s.issued, s.reqs[me]);
    assert KeyOk(cfg, s.db, s.origin, s.reqs[me].call.key);
    assert StoredLink(s.reqs[me].pc.rec.accountLinkId, s.db.links[s.reqs[me].pc.rec.accountLinkId]);
  }

  lemma LoserGains(cfg: Config, s: State, me: nat)
    requires Reaches(cfg, INIT, s) && AtRequestCommit(s, me) && s.reqs[me].pc.CommittingLoss?
    ensures var db', call, link := AfterCommitReq(s, me, Reported).db, s.reqs[me].call, s.reqs[me].pc.link;
            && call.key != "" && call.key in s.db.keys && db'.keys == s.db.keys && db'.outbox == s.db.outbox
            && link.id !in s.db.links && db'.links == s.db.links[link.id := link]
            && link == AccountLink(link.id, call.userId, call.externalInstitution, "PENDING")
  {
    ReachableKeepsInv(cfg, s);
    AtCommit(cfg, s, me);
    RequestCommit(cfg, s, me);
  }

  lemma AnswerIsTrue(cfg: Config, s: State, me: nat)
    requires Reaches(cfg, INIT, s) && me in s.reqs && s.reqs[me].pc.Finished?
    ensures ResponseOk(cfg, s.db, s.reqs[me].call, s.reqs[me].pc.response)
  {
    ReachableKeepsInv(cfg, s);
    assert RequestOk(cfg, s.db, s.issued, s.reqs[me]);
  }

  class AccountLinkService {
    const db: Database

    constructor (db: Database)
      ensures this.db == db
    {
      this.db := db;
    }

    /** Request `me` has answered with `response` and holds no transaction. */
    ghost predicate Answered(me: nat, call: Call, response: Response)
      reads db
    {
      me in db.state.reqs && db.state.reqs[me] == Request(call, Finished(response), None)
    }

    ghost predicate Undisturbed(me: nat)
      reads db
    {
      db.solo && db.reliable && Quiet(db.cfg, db.state, me)
    }

    /** Begin, make a PENDING link under a fresh identifier and save it. */
    method CreateNew(me: nat, call: Call) returns (created: Option<AccountLink>, response: Response)
      requires db.Valid() && me in db.state.reqs && db.state.reqs[me] == Request(call, Begin, None)
      modifies db
      ensures db.Valid() && Reaches(db.cfg, old(db.state), db.state) && me in db.state.reqs
      ensures created.None? ==> Answered(me, call, response)
      ensures created.Some? ==>
                && db.state.reqs[me].call == call && db.state.reqs[me].tx.Some?
                && db.state.reqs[me].pc == if call.key == "" then Announcing(created.value) else Inserting(created.value)
      ensures db.solo ==> OnlyRequest(old(db.state), db.state, me)
      ensures old(Undisturbed(me)) ==>
                if call.userId == "" || call.externalInstitution == "" then
                  created.None? && response == Failed(InvalidRequest)
                else created.Some?
    {
      if Quiet(db.cfg, db.state, me) { QuietIsFree(db.cfg, db.state, me); }
      created, response := None, Failed(CallFailed);
      var ok := db.BeginTx(me);
      if !ok { return; }
      ghost var s1 := db.state;
      var link, saved := db.Save(me);
      ReachesTransitive(db.cfg, old(db.state), s1, db.state);
      if !saved { return; }
      if !Domain.Valid(link) {
        response := Failed(InvalidRequest);
      } else {
        created := Some(link);
      }
    }

    /** The winner's way: write the event, commit, report the link as created. */
    method AnnounceAndCommit(me: nat, call: Call, created: AccountLink, now: Time) returns (response: Response)
      requires db.Valid() && me in db.state.reqs && db.state.reqs[me].call == call
      requires db.state.reqs[me].pc == Announcing(created) && db.state.reqs[me].tx.Some?
      modifies db
      ensures db.Valid() && Reaches(db.cfg, old(db.state), db.state)
      ensures Answered(me, call, response)
      ensures old(Undisturbed(me)) ==>
                && Undisturbed(me) && response == Success(created, true)
                && Gained(db.cfg, old(db.state).db, db.state.db, call, now, created)
    {
      var ok := db.Add(me, now);
      if !ok { return Failed(CallFailed); }
      ghost var s1 := db.state;
      WinnerGains(db.cfg, s1, me);
      ghost var found, landed;
      ok, found, landed := db.CommitTx(me);
      ReachesTransitive(db.cfg, old(db.state), s1, db.state);
      response := if ok then Success(created, true) else Failed(CallFailed);
    }

    method Replay(me: nat, call: Call, rec: IdempotencyRecord) returns (response: Response)
      requires db.Valid() && me in db.state.reqs
      requires db.state.reqs[me] == Request(call, if rec.requestHash != RequestHash(db.cfg, call)
                                                  then Finished(Conflict) else Replaying(rec), None)
      modifies db
      ensures db.Valid() && Reaches(db.cfg, old(db.state), db.state)
      ensures Answered(me, call, response)
      ensures db.solo ==> OnlyRequest(old(db.state), db.state, me)
      ensures old(Undisturbed(me)) ==> Replayed(db.cfg, old(db.state).db, call, rec, response)
    {
      if rec.requestHash != RequestHash(db.cfg, call) {
        ReachesSelf(db.cfg, db.state);
        return Conflict;
      }
      ReplayFindsLink(db.cfg, db.state, me);
      if Quiet(db.cfg, db.state, me) { QuietIsFree(db.cfg, db.state, me); }
      var link, valid, ok := db.FindById(me, rec.accountLinkId);
      if !ok { return Failed(CallFailed); }
      if link.None? { return Failed(MissingLink); }
      response := if valid then Success(link.value, false) else Failed(InvalidLink);
    }

    /** The second look at the key, once the transaction is closed. */
    method Reread(me: nat, call: Call) returns (response: Response)
      requires db.Valid() && me in db.state.reqs && db.state.reqs[me] == Request(call, Protocol.Reread, None)
      modifies db
      ensures db.Valid() && Reaches(db.cfg, old(db.state), db.state)
      ensures Answered(me, call, response)
      ensures db.solo ==> OnlyRequest(old(db.state), db.state, me)
      ensures old(Undisturbed(me)) && call.key in old(db.state).db.keys ==>
                Replayed(db.cfg, old(db.state).db, call, old(db.state).db.keys[call.key], response)
    {
      if Quiet(db.cfg, db.state, me) { QuietIsFree(db.cfg, db.state, me); }
      var rec, ok := db.FindByKey(me);
      if !ok { return Failed(CallFailed); }
      if rec.None? { return Failed(KeyUnreadable); }
      ghost var found := db.state;
      response := Replay(me, call, rec.value);
      ReachesTransitive(db.cfg, old(db.state), found, db.state);
    }

    /** The loser's way: the transaction with the saved link commits all the same, then the
        winner's record is read and replayed. */
    method CommitAndReread(me: nat, call: Call) returns (response: Response)
      requires db.Valid() && AtRequestCommit(db.state, me)
      requires db.state.reqs[me].call == call && db.state.reqs[me].pc.CommittingLoss?
      modifies db
      ensures db.Valid() && Reaches(db.cfg, old(db.state), db.state)
      ensures Answered(me, call, response)
      ensures old(Undisturbed(me)) ==> Undisturbed(me) && LostTo(db.cfg, old(db.state).db, db.state.db, call, response)
    {
      LoserGains(db.cfg, db.state, me);
      var ok;
      ghost var found, landed;
      ok, found, landed := db.CommitTx(me);
      if !ok { return Failed(CallFailed); }
      ghost var committed := db.state;
      response := Reread(me, call);
      ReachesTransitive(db.cfg, old(db.state), committed, db.state);
    }

    /** The transaction of a keyed create, and the second look when the key was taken. */
    method CreateAndRecord(me: nat, call: Call, now: Time) returns (response: Response)
      requires db.Valid() && me in db.state.reqs && db.state.reqs[me] == Request(call, Begin, None) && call.key != ""
      modifies db
      ensures db.Valid() && Reaches(db.cfg, old(db.state), db.state)
      ensures Answered(me, call, response)
      ensures old(Undisturbed(me)) && call.key !in old(db.state).db.keys ==>
                Undisturbed(me) && Sequential(db.cfg, old(db.state).db, db.state.db, call, now, response)
      ensures old(Undisturbed(me)) && call.key in old(db.state).db.keys ==>
                && Undisturbed(me)
                && if call.userId == "" || call.externalInstitution == "" then
                     db.state.db == old(db.state).db && response == Failed(InvalidRequest)
                   else LostTo(db.cfg, old(db.state).db, db.state.db, call, response)
    {
      var created;
      created, response := CreateNew(me, call);
      if created.None? { return; }
      ghost var s1 := db.state;
      var inserted, ok := db.TryInsert(me);
      ReachesTransitive(db.cfg, old(db.state), s1, db.state);
      if !ok { return Failed(CallFailed); }
      ghost var s2 := db.state;
      if inserted {
        response := AnnounceAndCommit(me, call, created.value, now);
      } else {
        response := CommitAndReread(me, call);
      }
      ReachesTransitive(db.cfg, old(db.state), s2, db.state);
    }

    method CreateWithKey(me: nat, call: Call, now: Time) returns (response: Response)
      requires db.Valid() && me in db.state.reqs && db.state.reqs[me] == Request(call, Lookup, None) && call.key != ""
      modifies db
      ensures db.Valid() && Reaches(db.cfg, old(db.state), db.state)
      ensures Answered(me, call, response)
      ensures old(Undisturbed(me)) ==>
                Undisturbed(me) && Sequential(db.cfg, old(db.state).db, db.state.db, call, now, response)
    {
      if Quiet(db.cfg, db.state, me) { QuietIsFree(db.cfg, db.state, me); }
      var rec, ok := db.FindByKey(me);
      if !ok { return Failed(CallFailed); }
      ghost var s1 := db.state;
      if rec.Some? {
        response := Replay(me, call, rec.value);
        ReachesTransitive(db.cfg, old(db.state), s1, db.state);
        return;
      }
      response := CreateAndRecord(me, call, now);
      ReachesTransitive(db.cfg, old(db.state), s1, db.state);
    }

    method CreateNonIdempotent(me: nat, call: Call, now: Time) returns (response: Response)
      requires db.Valid() && me in db.state.reqs && db.state.reqs[me] == Request(call, Begin, None) && call.key == ""
      modifies db
      ensures db.Valid() && Reaches(db.cfg, old(db.state), db.state)
      ensures Answered(me, call, response)
      ensures old(Undisturbed(me)) ==>
                Undisturbed(me) && Sequential(db.cfg, old(db.state).db, db.state.db, call, now, response)
    {
      var created;
      created, response := CreateNew(me, call);
      if created.None? { return; }
      ghost var s1 := db.state;
      response := AnnounceAndCommit(me, call, created.value, now);
      ReachesTransitive(db.cfg, old(db.state), s1, db.state);
    }

    /** Whatever the others do and whichever calls fail, `Create` takes only steps of the system,
        ends with its request answered and no transaction open, and what it answers is true of the
        tables; so everything proved of runs holds of it. Undisturbed it is the sequential create. */
    method Create(me: nat, call: Call, now: Time) returns (response: Response)
      requires db.Valid() && me !in db.state.reqs
      modifies db
      ensures db.Valid() && Reaches(db.cfg, old(db.state), db.state)
      ensures Answered(me, call, response)
      ensures ResponseOk(db.cfg, db.state.db, call, response)
      ensures old(Undisturbed(me)) ==>
                Undisturbed(me) && Sequential(db.cfg, old(db.state).db, db.state.db, call, now, response)
    {
      db.Act(Arrive(me, call));
      ghost var arrived := db.state;
      if call.key == "" {
        response := CreateNonIdempotent(me, call, now);
      } else {
        response := CreateWithKey(me, call, now);
      }
      ReachesTransitive(db.cfg, old(db.state), arrived, db.state);
      AnswerIsTrue(db.cfg, db.state, me);
    }
  }
}
