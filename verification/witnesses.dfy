/** Runs that reach what the laws only allow for: a lost race with its orphan link, and a link handed
    to a request with another payload. */
module Witnesses {
  import opened Domain
  import opened Tables
  import opened Protocol
  import opened Invariant
  import opened Preservation
  import opened Growth
  import opened Reach
  import opened Idempotency

  predicate Storable(call: Call) {
    call.key != "" && call.userId != "" && call.externalInstitution != ""
  }

  /** Requests only, none of them inside a transaction. */
  ghost predicate Calm(cfg: Config, s: State) {
    cfg.poolSize >= 1 && s.ticks == map[] && forall r | r in s.reqs :: s.reqs[r].tx.None?
  }

  lemma CalmIsFree(cfg: Config, s: State, r: nat)
    requires Calm(cfg, s)
    ensures Quiet(cfg, s, r) && ConnectionFree(cfg, s)
  {
    QuietIsFree(cfg, s, r);
  }

  ghost predicate At(s: State, r: nat, call: Call, pc: Pc) {
    r in s.reqs && s.reqs[r] == Request(call, pc, None)
  }

  /** Only `r` moved on, to `pc`, and nothing else happened. */
  ghost predicate Moved(cfg: Config, s: State, s': State, r: nat, call: Call, pc: Pc) {
    && Reaches(cfg, s, s') && Calm(cfg, s')
    && s' == s.(reqs := s.reqs[r := Request(call, pc, None)])
  }

  lemma Arrives(cfg: Config, s: State, r: nat, call: Call) returns (s': State)
    requires Calm(cfg, s) && r !in s.reqs && call.key != ""
    ensures Moved(cfg, s, s', r, call, Lookup)
  {
    s' := PutReq(s, r, Request(call, Lookup, None));
    ReachesSelf(cfg, s);
    ReachesStep(cfg, s, s, Arrive(r, call));
  }

  lemma LooksUp(cfg: Config, s: State, r: nat, call: Call) returns (s': State)
    requires Calm(cfg, s) && (At(s, r, call, Lookup) || At(s, r, call, Reread))
    ensures Moved(cfg, s, s', r, call, AfterFind(cfg, s, s.reqs[r]))
  {
    CalmIsFree(cfg, s, r);
    s' := PutReq(s, r, s.reqs[r].(pc := AfterFind(cfg, s, s.reqs[r])));
    ReachesSelf(cfg, s);
    ReachesStep(cfg, s, s, FindKey(r));
  }

  lemma Loads(cfg: Config, s: State, r: nat, call: Call, rec: IdempotencyRecord) returns (s': State)
    requires Calm(cfg, s) && At(s, r, call, Replaying(rec))
    ensures Moved(cfg, s, s', r, call, AfterLoad(s, rec))
  {
    CalmIsFree(cfg, s, r);
    s' := PutReq(s, r, s.reqs[r].(pc := AfterLoad(s, rec)));
    ReachesSelf(cfg, s);
    ReachesStep(cfg, s, s, LoadLink(r));
  }

  /** `r` begins and saves its link, and stands before the key. */
  lemma Saves(cfg: Config, s: State, r: nat, call: Call, id: Uuid) returns (s': State)
    requires Calm(cfg, s) && At(s, r, call, Begin) && Storable(call)
    requires id !in s.issued && id != NIL_UUID
    ensures Reaches(cfg, s, s') && Quiet(cfg, s', r)
    ensures var link := NewLink(id, call);
            s' == s.(issued := s.issued + {id},
                     reqs := s.reqs[r := Request(call, Inserting(link), Some(EMPTY_TX.(links := map[id := link])))])
  {
    CalmIsFree(cfg, s, r);
    var link := NewLink(id, call);
    var m := PutReq(s, r, Request(call, Saving, Some(EMPTY_TX)));
    ReachesSelf(cfg, s);
    ReachesStep(cfg, s, s, BeginReq(r));
    assert EMPTY_TX.links[id := link] == map[id := link];
    s' := PutReq(m, r, Request(call, Inserting(link), Some(EMPTY_TX.(links := map[id := link])))).(issued := m.issued + {id});
    assert s' == Apply(cfg, m, SaveLink(r, id));
    ReachesStep(cfg, s, m, SaveLink(r, id));
    assert s'.reqs == s.reqs[r := s'.reqs[r]];
  }

  /** What the winner of a free key leaves. */
  ghost predicate Won(cfg: Config, s: State, s': State, r: nat, call: Call, id: Uuid, e: Uuid) {
    var link := NewLink(id, call);
    && Calm(cfg, s') && At(s', r, call, Finished(Success(link, true)))
    && s'.reqs == s.reqs[r := s'.reqs[r]]
    && s'.db.links == s.db.links[id := link] && s'.db.keys == s.db.keys[call.key := NewRecord(cfg, call, link)]
    && s'.issued == s.issued + {id, e}
  }

  lemma CommittedWin(cfg: Config, s: State, s': State, r: nat, call: Call, id: Uuid, e: Uuid, added: State)
    requires Calm(cfg, s) && call.key != "" && AtRequestCommit(added, r) && s' == AfterCommitReq(added, r, Reported)
    requires added.db == s.db && added.ticks == s.ticks && added.issued == s.issued + {id} + {e}
    requires added.reqs == s.reqs[r := added.reqs[r]]
    requires var q, link := added.reqs[r], NewLink(id, call);
             && q.call == call && q.pc == CommittingWin(link, CreatedEvent(e, link, 0))
             && q.tx == Some(WinnerTx(cfg, call, link).(events := map[e := q.pc.event]))
    ensures Won(cfg, s, s', r, call, id, e)
  {
    WinnerCommit(cfg, s.db, call, NewLink(id, call), added.reqs[r].pc.event);
  }

  lemma Wins(cfg: Config, s: State, r: nat, call: Call, id: Uuid, e: Uuid) returns (s': State)
    requires Calm(cfg, s) && At(s, r, call, Begin) && Storable(call) && call.key !in s.db.keys
    requires id !in s.issued && e !in s.issued && id != e && id != NIL_UUID && e != NIL_UUID
    ensures Reaches(cfg, s, s') && Won(cfg, s, s', r, call, id, e)
  {
    var m := Saves(cfg, s, r, call, id);
    var link := NewLink(id, call);
    var inserted := PutReq(m, r, AfterInsert(cfg, m, m.reqs[r]));
    ReachesStep(cfg, s, m, InsertKey(r));
    var added := PutReq(inserted, r, AfterAdd(inserted.reqs[r], e, 0)).(issued := inserted.issued + {e});
    ReachesStep(cfg, s, inserted, AddEvent(r, e, 0));
    assert AtRequestCommit(added, r);
    assert map[][call.key := NewRecord(cfg, call, link)] == map[call.key := NewRecord(cfg, call, link)];
    assert map[][e := added.reqs[r].pc.event] == map[e := added.reqs[r].pc.event];
    s' := AfterCommitReq(added, r, Reported);
    ReachesStep(cfg, s, added, CommitReq(r, Reported));
    CommittedWin(cfg, s, s', r, call, id, e, added);
  }

  /** A request that finds its key taken commits its link as the loser and looks again. */
  lemma Loses(cfg: Config, s: State, r: nat, call: Call, id: Uuid) returns (s': State)
    requires Calm(cfg, s) && At(s, r, call, Begin) && Storable(call) && call.key in s.db.keys
    requires id !in s.issued && id != NIL_UUID
    ensures Reaches(cfg, s, s') && Calm(cfg, s') && At(s', r, call, Reread)
    ensures id in s'.origin && s'.origin[id].LostRace?
    ensures s'.db == s.db.(links := s.db.links[id := NewLink(id, call)])
  {
    var m := Saves(cfg, s, r, call, id);
    var lost := PutReq(m, r, AfterInsert(cfg, m, m.reqs[r]));
    ReachesStep(cfg, s, m, InsertKey(r));
    assert AtRequestCommit(lost, r);
    s' := AfterCommitReq(lost, r, Reported);
    ReachesStep(cfg, s, lost, CommitReq(r, Reported));
    LoserCommit(s.db, NewLink(id, call));
    assert s'.reqs == s.reqs[r := s'.reqs[r]];
  }

  lemma OrphanHasNoEvent(cfg: Config, s: State, id: Uuid)
    requires Reaches(cfg, INIT, s) && id in s.origin && s.origin[id].LostRace?
    ensures id in LostRaces(s) && id in s.db.links && RowsFor(s.db.outbox, id) == {}
  {
    ReachableKeepsInv(cfg, s);
    TablesAreConserved(cfg, s);
  }

  /** The second look at the winner's record and, unless the hashes differ, at its link. */
  lemma Rereads(cfg: Config, s: State, r: nat, call: Call, rec: IdempotencyRecord) returns (s': State)
    requires Calm(cfg, s) && At(s, r, call, Reread) && call.key in s.db.keys && s.db.keys[call.key] == rec
    requires rec.accountLinkId in s.db.links && Valid(s.db.links[rec.accountLinkId])
    ensures Reaches(cfg, s, s') && s'.db == s.db && s'.origin == s.origin
    ensures At(s', r, call, Finished(if rec.requestHash == RequestHash(cfg, call)
                                     then Success(s.db.links[rec.accountLinkId], false) else Conflict))
  {
    s' := LooksUp(cfg, s, r, call);
    if rec.requestHash == RequestHash(cfg, call) {
      var found := s';
      s' := Loads(cfg, found, r, call, rec);
      ReachesTransitive(cfg, s, found, s');
    }
  }

  /** Two requests with one key that both look it up before either commits: the loser leaves a
      committed link without an event, and is answered the winner's link or a conflict, as the hashes
      agree or differ. */
  lemma RaceCanBeLost(cfg: Config, first: Call, second: Call) returns (s: State, orphan: Uuid)
    requires cfg.poolSize >= 1 && Storable(first) && Storable(second) && first.key == second.key
    ensures Reaches(cfg, INIT, s)
    ensures orphan in LostRaces(s) && orphan in s.db.links && RowsFor(s.db.outbox, orphan) == {}
    ensures At(s, 1, second, Finished(if RequestHash(cfg, first) == RequestHash(cfg, second)
                                      then Success(NewLink(1, first), false) else Conflict))
  {
    var s1 := Arrives(cfg, INIT, 0, first);
    var s2 := Arrives(cfg, s1, 1, second);
    var s3 := LooksUp(cfg, s2, 0, first);
    var s4 := LooksUp(cfg, s3, 1, second);
    var s5 := Wins(cfg, s4, 0, first, 1, 2);
    var s6 := Loses(cfg, s5, 1, second, 3);
    s := Rereads(cfg, s6, 1, second, NewRecord(cfg, first, NewLink(1, first)));
    orphan := 3;
    ReachesTransitive(cfg, INIT, s1, s2);
    ReachesTransitive(cfg, INIT, s2, s3);
    ReachesTransitive(cfg, INIT, s3, s4);
    ReachesTransitive(cfg, INIT, s4, s5);
    ReachesTransitive(cfg, INIT, s5, s6);
    ReachesTransitive(cfg, INIT, s6, s);
    OrphanHasNoEvent(cfg, s, orphan);
  }

  /** Any two calls with one key and one request hash: the second is handed the first one's link. */
  lemma SecondIsReplayed(cfg: Config, first: Call, second: Call) returns (s: State)
    requires cfg.poolSize >= 1 && Storable(first) && first.key == second.key
    requires RequestHash(cfg, first) == RequestHash(cfg, second)
    ensures Reaches(cfg, INIT, s)
    ensures At(s, 1, second, Finished(Success(NewLink(1, first), false)))
  {
    var s1 := Arrives(cfg, INIT, 0, first);
    var s2 := LooksUp(cfg, s1, 0, first);
    var s3 := Wins(cfg, s2, 0, first, 1, 2);
    var s4 := Arrives(cfg, s3, 1, second);
    var s5 := LooksUp(cfg, s4, 1, second);
    s := Loads(cfg, s5, 1, second, NewRecord(cfg, first, NewLink(1, first)));
    ReachesTransitive(cfg, INIT, s1, s2);
    ReachesTransitive(cfg, INIT, s2, s3);
    ReachesTransitive(cfg, INIT, s3, s4);
    ReachesTransitive(cfg, INIT, s4, s5);
    ReachesTransitive(cfg, INIT, s5, s);
  }

  /** With '|' allowed in users, a key hands out a link with another payload, whatever the hash. */
  lemma PipeReplaysForeignLink(cfg: Config, key: string) returns (s: State, link: AccountLink)
    requires cfg.poolSize >= 1 && key != ""
    ensures Reaches(cfg, INIT, s)
    ensures At(s, 1, Call(key, "a", "b|c"), Finished(Success(link, false))) && !SamePayload(Call(key, "a", "b|c"), link)
  {
    var first, second := Call(key, "a|b", "c"), Call(key, "a", "b|c");
    assert Joined("a|b", "c") == Joined("a", "b|c");
    s := SecondIsReplayed(cfg, first, second);
    link := NewLink(1, first);
  }
}
