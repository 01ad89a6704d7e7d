/** Every step of the system keeps the invariant. */
module Preservation {
  import opened Domain
  import opened Tables
  import opened Protocol
  import opened Invariant

  // ---- Steps of a request that commit nothing ----

  ghost predicate Separate(s: State, r: nat, q: Request) {
    && PendingLinks(q) !! s.db.links.Keys
    && PendingEvents(q) !! s.db.outbox.Keys
    && PendingKeys(q) !! s.db.keys.Keys
    && (forall o | o in s.reqs && o != r :: Apart(q, s.reqs[o]))
  }

  /** The tick side of the invariant only looks at the outbox, the ticks and the histories. */
  lemma SameTicks(s: State, s': State)
    requires TicksOk(s) && LogOk(s) && CallsOk(s)
    requires s'.ticks == s.ticks && s'.log == s.log && s'.aborts == s.aborts && s'.db == s.db
    ensures TicksOk(s') && LogOk(s') && CallsOk(s')
  {
    forall e ensures CallBound(s', e) {
      assert CallBound(s, e);
      assert InFlight(s, e) ==> InFlight(s', e);
    }
  }

  lemma LocalKeepsInv(cfg: Config, s: State, r: nat, q: Request, issued: set<Uuid>)
    requires Inv(cfg, s)
    requires s.issued <= issued
    requires RequestOk(cfg, s.db, issued, q)
    requires Separate(s, r, q)
    requires !Created(q)
    ensures Inv(cfg, PutReq(s, r, q).(issued := issued))
  {
    var s' := PutReq(s, r, q).(issued := issued);
    forall o | o in s'.reqs ensures RequestOk(cfg, s'.db, s'.issued, s'.reqs[o]) {
      if o != r { assert RequestOk(cfg, s.db, s.issued, s.reqs[o]); }
    }
    forall a, b | a in s'.reqs && b in s'.reqs && a != b ensures Apart(s'.reqs[a], s'.reqs[b]) {
      if a != r && b != r { assert Apart(s.reqs[a], s.reqs[b]); }
    }
    SameTicks(s, s');
  }

  /** Whoever has `r`'s transaction now, a request left with no more pending than before stays apart. */
  lemma StaysSeparate(cfg: Config, s: State, r: nat, q: Request)
    requires Inv(cfg, s) && r in s.reqs
    requires PendingLinks(q) <= PendingLinks(s.reqs[r])
    requires PendingEvents(q) <= PendingEvents(s.reqs[r])
    requires PendingKeys(q) <= PendingKeys(s.reqs[r])
    ensures Separate(s, r, q)
  {
    forall o | o in s.reqs && o != r ensures Apart(q, s.reqs[o]) {
      assert Apart(s.reqs[r], s.reqs[o]);
    }
  }

  /** A fresh identifier is in no table and in no transaction. */
  lemma FreshId(cfg: Config, s: State, id: Uuid)
    requires Inv(cfg, s) && id !in s.issued
    ensures id !in s.db.links && id !in s.db.outbox
    ensures forall o | o in s.reqs :: id !in PendingLinks(s.reqs[o]) && id !in PendingEvents(s.reqs[o])
  {
    forall o | o in s.reqs ensures id !in PendingLinks(s.reqs[o]) && id !in PendingEvents(s.reqs[o]) {
      assert RequestOk(cfg, s.db, s.issued, s.reqs[o]);
    }
  }

  lemma ArriveKeepsInv(cfg: Config, s: State, a: Action)
    requires Inv(cfg, s) && Enabled(cfg, s, a) && a.Arrive?
    ensures Inv(cfg, Apply(cfg, s, a))
  {
    var s' := Apply(cfg, s, a);
    var q := s'.reqs[a.r];
    assert forall o | o in s.reqs && o != a.r :: Apart(q, s.reqs[o]);
    LocalKeepsInv(cfg, s, a.r, q, s.issued);
    assert s' == PutReq(s, a.r, q).(issued := s.issued);
  }

  lemma LookupKeepsInv(cfg: Config, s: State, a: Action)
    requires Inv(cfg, s) && Enabled(cfg, s, a)
    requires a.FindKey? || a.LoadLink? || a.BeginReq? || a.FailReq?
    ensures Inv(cfg, Apply(cfg, s, a))
  {
    var s' := Apply(cfg, s, a);
    var q, p := s'.reqs[a.r], s.reqs[a.r];
    assert RequestOk(cfg, s.db, s.issued, p);
    if a.LoadLink? {
      assert KeyOk(cfg, s.db, s.origin, p.call.key);
      assert StoredLink(p.pc.rec.accountLinkId, s.db.links[p.pc.rec.accountLinkId]);
    }
    StaysSeparate(cfg, s, a.r, q);
    LocalKeepsInv(cfg, s, a.r, q, s.issued);
    assert s' == PutReq(s, a.r, q).(issued := s.issued);
  }

  lemma SaveKeepsInv(cfg: Config, s: State, a: Action)
    requires Inv(cfg, s) && Enabled(cfg, s, a) && a.SaveLink?
    ensures Inv(cfg, Apply(cfg, s, a))
  {
    var s' := Apply(cfg, s, a);
    var q := s'.reqs[a.r];
    assert RequestOk(cfg, s.db, s.issued, s.reqs[a.r]);
    FreshId(cfg, s, a.id);
    assert PendingLinks(q) <= {a.id};
    forall o | o in s.reqs && o != a.r ensures Apart(q, s.reqs[o]) {
      assert a.id !in PendingLinks(s.reqs[o]);
    }
    LocalKeepsInv(cfg, s, a.r, q, s.issued + {a.id});
    assert s' == PutReq(s, a.r, q).(issued := s.issued + {a.id});
  }

  /** An insert that did not have to wait adds a key nobody else has. */
  lemma InsertStaysSeparate(cfg: Config, s: State, r: nat)
    requires RequestsOk(cfg, s) && PendingOk(s) && r in s.reqs && s.reqs[r].pc.Inserting? && s.reqs[r].tx.Some?
    requires !KeyLocked(s, r, s.reqs[r].call.key)
    ensures Separate(s, r, AfterInsert(cfg, s, s.reqs[r]))
  {
    var p, q := s.reqs[r], AfterInsert(cfg, s, s.reqs[r]);
    assert RequestOk(cfg, s.db, s.issued, p);
    forall o | o in s.reqs && o != r ensures Apart(q, s.reqs[o]) {
      assert Apart(p, s.reqs[o]);
      assert !HoldsKey(s.reqs[o], p.call.key);
    }
  }

  lemma InsertKeepsInv(cfg: Config, s: State, a: Action)
    requires Inv(cfg, s) && Enabled(cfg, s, a) && a.InsertKey?
    ensures Inv(cfg, Apply(cfg, s, a))
  {
    var q := AfterInsert(cfg, s, s.reqs[a.r]);
    assert RequestOk(cfg, s.db, s.issued, s.reqs[a.r]);
    InsertStaysSeparate(cfg, s, a.r);
    LocalKeepsInv(cfg, s, a.r, q, s.issued);
    assert Apply(cfg, s, a) == PutReq(s, a.r, q).(issued := s.issued);
  }

  lemma AddKeepsInv(cfg: Config, s: State, a: Action)
    requires Inv(cfg, s) && Enabled(cfg, s, a) && a.AddEvent?
    ensures Inv(cfg, Apply(cfg, s, a))
  {
    var s' := Apply(cfg, s, a);
    var p, q := s.reqs[a.r], s'.reqs[a.r];
    assert RequestOk(cfg, s.db, s.issued, p);
    FreshId(cfg, s, a.id);
    forall o | o in s.reqs && o != a.r ensures Apart(q, s.reqs[o]) {
      assert Apart(p, s.reqs[o]);
      assert a.id !in PendingEvents(s.reqs[o]);
    }
    LocalKeepsInv(cfg, s, a.r, q, s.issued + {a.id});
    assert s' == PutReq(s, a.r, q).(issued := s.issued + {a.id});
  }

  // ---- A request commits ----

  lemma WinnerCommit(cfg: Config, db: Tables, call: Call, link: AccountLink, event: OutboxEvent)
    requires call.key != "" || "" !in db.keys
    ensures Commit(db, WinnerTx(cfg, call, link).(events := map[event.id := event])) ==
            Tables(db.links[link.id := link],
                   if call.key == "" then db.keys else db.keys[call.key := NewRecord(cfg, call, link)],
                   db.outbox[event.id := event])
  {
    var tx := WinnerTx(cfg, call, link).(events := map[event.id := event]);
    assert db.links + tx.links == db.links[link.id := link];
    assert db.outbox + tx.events == db.outbox[event.id := event];
    assert Marked(db.outbox + tx.events, tx.marks) == db.outbox + tx.events;
    if call.key == "" {
      assert db.keys + tx.keys == db.keys;
    } else {
      assert db.keys + tx.keys == db.keys[call.key := NewRecord(cfg, call, link)];
    }
  }

  lemma LoserCommit(db: Tables, link: AccountLink)
    ensures Commit(db, EMPTY_TX.(links := map[link.id := link])) == db.(links := db.links[link.id := link])
  {
    var tx := EMPTY_TX.(links := map[link.id := link]);
    assert db.links + tx.links == db.links[link.id := link];
    assert db.keys + tx.keys == db.keys;
    assert db.outbox + tx.events == db.outbox;
    assert Marked(db.outbox, tx.marks) == db.outbox;
  }

  /** What a request at its commit is about to write: nothing of it is in the tables yet. */
  ghost predicate CommitReady(cfg: Config, s: State, r: nat) {
    && AtRequestCommit(s, r)
    && var q := s.reqs[r];
       && q.tx == ExpectedTx(cfg, q)
       && OwnLink(q.call, q.pc.link, s.issued) && q.pc.link.id !in s.db.links
       && (q.pc.CommittingLoss? ==> q.call.key != "" && q.call.key in s.db.keys)
       && (q.pc.CommittingWin? ==>
             && q.pc.event.id !in s.db.outbox && q.call.key !in s.db.keys && q.pc.event.id in s.issued
             && q.pc.event == CreatedEvent(q.pc.event.id, q.pc.link, q.pc.event.createdAt))
  }

  lemma AtCommit(cfg: Config, s: State, r: nat)
    requires Inv(cfg, s) && AtRequestCommit(s, r)
    ensures CommitReady(cfg, s, r)
  {
    var q := s.reqs[r];
    assert RequestOk(cfg, s.db, s.issued, q);
    assert q.pc.link.id in PendingLinks(q);
    if q.pc.CommittingWin? {
      assert q.pc.event.id in PendingEvents(q);
      if q.call.key == "" {
        assert forall key | key in s.db.keys :: KeyOk(cfg, s.db, s.origin, key);
      } else {
        assert q.call.key in PendingKeys(q);
      }
    }
  }

  /** The tables after a request's commit, row by row. */
  lemma RequestCommit(cfg: Config, s: State, r: nat)
    requires CommitReady(cfg, s, r)
    ensures var q := s.reqs[r];
            && Commit(s.db, q.tx.value) ==
               if q.pc.CommittingLoss? then s.db.(links := s.db.links[q.pc.link.id := q.pc.link])
               else Tables(s.db.links[q.pc.link.id := q.pc.link],
                           if q.call.key == "" then s.db.keys
                           else s.db.keys[q.call.key := NewRecord(cfg, q.call, q.pc.link)],
                           s.db.outbox[q.pc.event.id := q.pc.event])
  {
    var q := s.reqs[r];
    if q.pc.CommittingLoss? {
      LoserCommit(s.db, q.pc.link);
    } else {
      WinnerCommit(cfg, s.db, q.call, q.pc.link, q.pc.event);
    }
  }

  /** The tables gain one link, with its record and event if it won. */
  ghost predicate Grows(cfg: Config, s: State, s': State, id: Uuid) {
    && id !in s.db.links
    && (forall x | x in s.db.links :: x in s'.db.links && s'.db.links[x] == s.db.links[x])
    && (forall x | x in s.origin :: x in s'.origin && s'.origin[x] == s.origin[x])
    && (forall key | key in s.db.keys :: key in s'.db.keys && s'.db.keys[key] == s.db.keys[key])
    && (forall e | e in s.db.outbox :: e in s'.db.outbox && s'.db.outbox[e] == s.db.outbox[e])
    && s'.issued == s.issued && id in s.issued
    && s'.origin.Keys == s.origin.Keys + {id} && s'.db.links.Keys == s.db.links.Keys + {id}
    && StoredLink(id, s'.db.links[id]) && OriginOk(s'.db, id, s'.origin[id])
    && (forall key | key in s'.db.keys && key !in s.db.keys :: KeyOk(cfg, s'.db, s'.origin, key))
    && (forall e | e in s'.db.outbox && e !in s.db.outbox :: e in s.issued && RowOk(s'.db, s'.origin, e))
  }

  lemma LinksGrow(cfg: Config, s: State, s': State, id: Uuid)
    requires TablesOk(cfg, s) && Grows(cfg, s, s', id)
    ensures s'.origin.Keys == s'.db.links.Keys <= s'.issued
    ensures forall x | x in s'.db.links :: StoredLink(x, s'.db.links[x])
    ensures forall x | x in s'.origin :: OriginOk(s'.db, x, s'.origin[x])
  {
    forall x | x in s.origin ensures OriginOk(s'.db, x, s'.origin[x]) { assert OriginOk(s.db, x, s.origin[x]); }
  }

  lemma KeysGrow(cfg: Config, s: State, s': State, id: Uuid)
    requires TablesOk(cfg, s) && Grows(cfg, s, s', id)
    ensures forall key | key in s'.db.keys :: KeyOk(cfg, s'.db, s'.origin, key)
  {
    forall key | key in s.db.keys ensures KeyOk(cfg, s'.db, s'.origin, key) { assert KeyOk(cfg, s.db, s.origin, key); }
  }

  lemma RowsGrow(cfg: Config, s: State, s': State, id: Uuid)
    requires TablesOk(cfg, s) && Grows(cfg, s, s', id)
    ensures s'.db.outbox.Keys <= s'.issued
    ensures forall e | e in s'.db.outbox :: RowOk(s'.db, s'.origin, e)
  {
    forall e | e in s.db.outbox ensures RowOk(s'.db, s'.origin, e) { assert RowOk(s.db, s.origin, e); }
  }

  lemma TablesGrow(cfg: Config, s: State, s': State, id: Uuid)
    requires TablesOk(cfg, s) && Grows(cfg, s, s', id)
    ensures TablesOk(cfg, s')
  {
    LinksGrow(cfg, s, s', id);
    KeysGrow(cfg, s, s', id);
    RowsGrow(cfg, s, s', id);
  }

  lemma NewRowsOk(cfg: Config, s: State, q: Request, id: Uuid)
    requires q.pc.CommittingWin? || q.pc.CommittingLoss?
    requires id == q.pc.link.id && OwnLink(q.call, q.pc.link, s.issued)
    requires id in s.db.links && s.db.links[id] == q.pc.link
    requires id in s.origin && s.origin[id] == OriginOf(q)
    requires q.pc.CommittingWin? ==>
      && q.pc.event.id in s.db.outbox && s.db.outbox[q.pc.event.id] == q.pc.event
      && q.pc.event == CreatedEvent(q.pc.event.id, q.pc.link, q.pc.event.createdAt)
      && (q.call.key != "" ==> q.call.key in s.db.keys && s.db.keys[q.call.key] == NewRecord(cfg, q.call, q.pc.link))
    ensures StoredLink(id, s.db.links[id]) && OriginOk(s.db, id, s.origin[id])
    ensures q.pc.CommittingWin? ==> RowOk(s.db, s.origin, q.pc.event.id)
    ensures q.pc.CommittingWin? && q.call.key != "" ==> KeyOk(cfg, s.db, s.origin, q.call.key)
  {
  }

  lemma WinnerTables(cfg: Config, s: State, s': State, q: Request)
    requires s.origin.Keys == s.db.links.Keys
    requires q.pc.CommittingWin? && OwnLink(q.call, q.pc.link, s.issued) && q.pc.link.id !in s.db.links
    requires q.pc.event.id !in s.db.outbox && q.pc.event.id in s.issued && q.call.key !in s.db.keys
    requires q.pc.event == CreatedEvent(q.pc.event.id, q.pc.link, q.pc.event.createdAt)
    requires s'.db.links == s.db.links[q.pc.link.id := q.pc.link]
    requires s'.db.keys == if q.call.key == "" then s.db.keys
                           else s.db.keys[q.call.key := NewRecord(cfg, q.call, q.pc.link)]
    requires s'.db.outbox == s.db.outbox[q.pc.event.id := q.pc.event]
    requires s'.issued == s.issued && s'.origin == s.origin[q.pc.link.id := OriginOf(q)]
    ensures Grows(cfg, s, s', q.pc.link.id)
  {
    NewRowsOk(cfg, s', q, q.pc.link.id);
  }

  lemma LoserTables(cfg: Config, s: State, s': State, q: Request)
    requires s.origin.Keys == s.db.links.Keys
    requires q.pc.CommittingLoss? && OwnLink(q.call, q.pc.link, s.issued) && q.pc.link.id !in s.db.links
    requires s'.db == s.db.(links := s.db.links[q.pc.link.id := q.pc.link])
    requires s'.issued == s.issued && s'.origin == s.origin[q.pc.link.id := LostRace]
    ensures Grows(cfg, s, s', q.pc.link.id)
  {
    NewRowsOk(cfg, s', q, q.pc.link.id);
  }

  lemma CommitKeepsTables(cfg: Config, s: State, r: nat, fate: Fate)
    requires TablesOk(cfg, s) && CommitReady(cfg, s, r)
    ensures TablesOk(cfg, AfterCommitReq(s, r, fate))
  {
    RequestCommit(cfg, s, r);
    if s.reqs[r].pc.CommittingWin? {
      WinnerTables(cfg, s, AfterCommitReq(s, r, fate), s.reqs[r]);
    } else {
      LoserTables(cfg, s, AfterCommitReq(s, r, fate), s.reqs[r]);
    }
    TablesGrow(cfg, s, AfterCommitReq(s, r, fate), s.reqs[r].pc.link.id);
  }

  /** A table that only gains rows keeps every other request's facts. */
  lemma GrowthKeepsRequest(cfg: Config, db: Tables, db': Tables, issued: set<Uuid>, q: Request)
    requires RequestOk(cfg, db, issued, q)
    requires forall id | id in db.links :: id in db'.links && db'.links[id] == db.links[id]
    requires forall key | key in db.keys :: key in db'.keys && db'.keys[key] == db.keys[key]
    ensures RequestOk(cfg, db', issued, q)
  {
  }

  lemma CommitKeepsRequests(cfg: Config, s: State, r: nat, fate: Fate)
    requires RequestsOk(cfg, s) && CommitReady(cfg, s, r)
    ensures RequestsOk(cfg, AfterCommitReq(s, r, fate))
  {
    var s' := AfterCommitReq(s, r, fate);
    RequestCommit(cfg, s, r);
    forall o | o in s'.reqs ensures RequestOk(cfg, s'.db, s'.issued, s'.reqs[o]) {
      if o != r { GrowthKeepsRequest(cfg, s.db, s'.db, s.issued, s.reqs[o]); }
    }
  }

  /** Moving one transaction's pending rows into the tables leaves the others' pending rows apart. */
  lemma PendingMoves(s: State, s': State, r: nat)
    requires PendingOk(s) && r in s.reqs
    requires r in s'.reqs && s'.reqs[r].tx.None? && s'.reqs == s.reqs[r := s'.reqs[r]]
    requires s'.db.links.Keys <= s.db.links.Keys + PendingLinks(s.reqs[r])
    requires s'.db.outbox.Keys <= s.db.outbox.Keys + PendingEvents(s.reqs[r])
    requires s'.db.keys.Keys <= s.db.keys.Keys + PendingKeys(s.reqs[r])
    ensures PendingOk(s')
  {
    forall o | o in s'.reqs && o != r
      ensures PendingLinks(s'.reqs[o]) !! s'.db.links.Keys
      ensures PendingEvents(s'.reqs[o]) !! s'.db.outbox.Keys
      ensures PendingKeys(s'.reqs[o]) !! s'.db.keys.Keys
    {
      assert Apart(s.reqs[o], s.reqs[r]);
    }
    forall x, o | x in s'.reqs && o in s'.reqs && x != o ensures Apart(s'.reqs[x], s'.reqs[o]) {
      assert Apart(s.reqs[x], s.reqs[o]);
    }
  }

  lemma CommitKeepsPending(cfg: Config, s: State, r: nat, fate: Fate)
    requires PendingOk(s) && CommitReady(cfg, s, r)
    ensures PendingOk(AfterCommitReq(s, r, fate))
  {
    RequestCommit(cfg, s, r);
    PendingMoves(s, AfterCommitReq(s, r, fate), r);
  }

  lemma CommitKeepsCreator(cfg: Config, s: State, r: nat, fate: Fate)
    requires RequestsOk(cfg, s) && OneCreator(s) && CommitReady(cfg, s, r)
    ensures OneCreator(AfterCommitReq(s, r, fate))
  {
    var s' := AfterCommitReq(s, r, fate);
    forall o | o in s'.reqs && o != r && Created(s'.reqs[o])
      ensures s'.reqs[o].pc.response.link.id != s.reqs[r].pc.link.id
    {
      assert RequestOk(cfg, s.db, s.issued, s.reqs[o]);
    }
  }

  lemma RowsArrive(s: State, s': State)
    requires TicksOk(s) && LogOk(s) && CallsOk(s)
    requires s'.ticks == s.ticks && s'.log == s.log && s'.aborts == s.aborts
    requires forall e | e in s.db.outbox :: e in s'.db.outbox && s'.db.outbox[e] == s.db.outbox[e]
    requires forall e | e in s'.db.outbox && e !in s.db.outbox :: s'.db.outbox[e].publishedAt.None?
    ensures TicksOk(s') && LogOk(s') && CallsOk(s')
  {
    forall p | p in s'.ticks ensures TickOk(s'.db.outbox, s'.log, s'.ticks[p]) {
      assert TickOk(s.db.outbox, s.log, s.ticks[p]);
    }
    forall e ensures CallBound(s', e) {
      assert CallBound(s, e);
      assert InFlight(s, e) ==> InFlight(s', e);
    }
  }

  /** A request's commit adds at most one fresh, unpublished row to what ticks and the log see. */
  lemma CommitKeepsTicks(cfg: Config, s: State, r: nat, fate: Fate)
    requires TicksOk(s) && LogOk(s) && CallsOk(s) && CommitReady(cfg, s, r)
    ensures TicksOk(AfterCommitReq(s, r, fate)) && LogOk(AfterCommitReq(s, r, fate)) && CallsOk(AfterCommitReq(s, r, fate))
  {
    RequestCommit(cfg, s, r);
    RowsArrive(s, AfterCommitReq(s, r, fate));
  }

  // ---- Ticks ----

  /** A step that replaces one tick and may add to the log leaves the request side alone. */
  lemma SameRequests(cfg: Config, s: State, s': State)
    requires RequestsOk(cfg, s) && PendingOk(s) && OneCreator(s) && TablesOk(cfg, s)
    requires s'.reqs == s.reqs && s'.db == s.db && s'.issued == s.issued && s'.origin == s.origin
    ensures RequestsOk(cfg, s') && PendingOk(s') && OneCreator(s') && TablesOk(cfg, s')
  {
    forall r, o | r in s'.reqs && o in s'.reqs && r != o ensures Apart(s'.reqs[r], s'.reqs[o]) {
      assert Apart(s.reqs[r], s.reqs[o]);
    }
  }

  lemma AppendDelivered(log: seq<PublishCall>, call: PublishCall, e: Uuid, at: Time)
    requires Delivered(log, e, at) || (call.ok && call.event.outboxId == e && call.event.publishedAt == at)
    ensures Delivered(log + [call], e, at)
  {
    if Delivered(log, e, at) {
      var n :| 0 <= n < |log| && log[n].ok && log[n].event.outboxId == e && log[n].event.publishedAt == at;
      assert (log + [call])[n] == log[n];
    } else {
      assert (log + [call])[|log|] == call;
    }
  }

  lemma AppendCall(log: seq<PublishCall>, call: PublishCall, e: Uuid)
    ensures CallsFor(log + [call], e) == CallsFor(log, e) + (if call.event.outboxId == e then 1 else 0)
  {
    assert (log + [call])[..|log|] == log;
  }

  lemma AppendKeepsTick(outbox: map<Uuid, OutboxEvent>, log: seq<PublishCall>, call: PublishCall, t: Tick)
    requires TickOk(outbox, log, t)
    ensures TickOk(outbox, log + [call], t)
  {
    if t.tx.Some? {
      forall e | e in t.tx.value.marks && Delivered(log, e, t.tx.value.marks[e])
        ensures Delivered(log + [call], e, t.tx.value.marks[e])
      {
        AppendDelivered(log, call, e, t.tx.value.marks[e]);
      }
    }
    if t.pc.Marking? { AppendDelivered(log, call, t.pc.rows[t.pc.i].id, t.pc.now); }
  }

  /** Sent rows are claimed rows. */
  lemma SentIsClaimed(outbox: map<Uuid, OutboxEvent>, log: seq<PublishCall>, t: Tick)
    requires TickOk(outbox, log, t)
    ensures Sent(t) <= ClaimsOf(t)
  {
  }

  /** Only one tick can have sent a row that is still claimed. */
  lemma FlightIsOwn(s: State, p: nat, e: Uuid)
    requires TicksOk(s) && p in s.ticks && e in ClaimsOf(s.ticks[p]) && InFlight(s, e)
    ensures e in Sent(s.ticks[p])
  {
    var o :| o in s.ticks && e in Sent(s.ticks[o]);
    SentIsClaimed(s.db.outbox, s.log, s.ticks[o]);
  }

  /** Replacing a tick by one that holds no more rows and has sent the same ones. */
  lemma TickLocalKeepsInv(cfg: Config, s: State, p: nat, t: Tick)
    requires Inv(cfg, s)
    requires TickOk(s.db.outbox, s.log, t)
    requires forall o | o in s.ticks && o != p :: ClaimsOf(t) !! ClaimsOf(s.ticks[o])
    requires Sent(t) == if p in s.ticks then Sent(s.ticks[p]) else {}
    ensures Inv(cfg, PutTick(s, p, t))
  {
    var s' := PutTick(s, p, t);
    SameRequests(cfg, s, s');
    forall e ensures CallBound(s', e) {
      assert CallBound(s, e);
      if InFlight(s, e) {
        var o :| o in s.ticks && e in Sent(s.ticks[o]);
        assert e in Sent(s'.ticks[o]);
      }
    }
  }

  lemma TickLifeKeepsInv(cfg: Config, s: State, a: Action)
    requires Inv(cfg, s) && Enabled(cfg, s, a) && (a.StartTick? || a.BeginTick? || a.RejectClaim?)
    ensures Inv(cfg, Apply(cfg, s, a))
  {
    if !a.StartTick? { assert TickOk(s.db.outbox, s.log, s.ticks[a.p]); }
    TickLocalKeepsInv(cfg, s, a.p, Apply(cfg, s, a).ticks[a.p]);
  }

  lemma ClaimedRowsHold(outbox: map<Uuid, OutboxEvent>, locked: set<Uuid>, limit: nat, rows: seq<OutboxEvent>)
    requires IsClaim(outbox, locked, limit, rows)
    ensures forall row | row in rows :: Holds(outbox, row) && row.id !in locked
  {
    forall row | row in rows ensures Holds(outbox, row) && row.id !in locked {
      assert Claimable(outbox, locked, row.id);
    }
  }

  lemma ClaimedTick(s: State, p: nat, rows: seq<OutboxEvent>, t: Tick)
    requires p in s.ticks && s.ticks[p].tx == Some(EMPTY_TX) && s.ticks[p].batchSize >= 0
    requires IsClaim(s.db.outbox, Locked(s), s.ticks[p].batchSize, rows)
    requires t.pc == Publishing(rows, 0) && t.tx == Some(EMPTY_TX.(claims := Ids(rows)))
    ensures TickOk(s.db.outbox, s.log, t) && Sent(t) == {}
    ensures forall o | o in s.ticks && o != p :: ClaimsOf(t) !! ClaimsOf(s.ticks[o])
  {
    assert rows[..0] == [];
    ClaimedRowsHold(s.db.outbox, Locked(s), s.ticks[p].batchSize, rows);
    forall o | o in s.ticks && o != p ensures ClaimsOf(t) !! ClaimsOf(s.ticks[o]) {
      assert forall id | id in ClaimsOf(s.ticks[o]) :: id in Locked(s);
    }
  }

  lemma ClaimKeepsInv(cfg: Config, s: State, p: nat, rows: seq<OutboxEvent>)
    requires Inv(cfg, s) && Enabled(cfg, s, Claim(p, rows))
    ensures Inv(cfg, Apply(cfg, s, Claim(p, rows)))
  {
    var t := Apply(cfg, s, Claim(p, rows)).ticks[p];
    assert TickOk(s.db.outbox, s.log, s.ticks[p]);
    ClaimedTick(s, p, rows, t);
    TickLocalKeepsInv(cfg, s, p, t);
  }

  lemma MarkedTick(outbox: map<Uuid, OutboxEvent>, log: seq<PublishCall>, t: Tick, t': Tick)
    requires TickOk(outbox, log, t) && t.pc.Marking?
    requires t'.pc == Publishing(t.pc.rows, t.pc.i + 1)
    requires t'.tx == Some(t.tx.value.(marks := t.tx.value.marks[t.pc.rows[t.pc.i].id := t.pc.now]))
    ensures TickOk(outbox, log, t') && Sent(t') == Sent(t) && ClaimsOf(t') == ClaimsOf(t)
  {
    var Marking(rows, i, now) := t.pc;
    assert rows[..i + 1] == rows[..i] + [rows[i]];
    assert Ids(rows[..i + 1]) == Ids(rows[..i]) + {rows[i].id};
  }

  lemma MarkKeepsInv(cfg: Config, s: State, p: nat)
    requires Inv(cfg, s) && Enabled(cfg, s, Mark(p))
    ensures Inv(cfg, Apply(cfg, s, Mark(p)))
  {
    var t := Apply(cfg, s, Mark(p)).ticks[p];
    MarkedTick(s.db.outbox, s.log, s.ticks[p], t);
    forall o | o in s.ticks && o != p ensures ClaimsOf(t) !! ClaimsOf(s.ticks[o]) {
      assert ClaimsOf(s.ticks[p]) !! ClaimsOf(s.ticks[o]);
    }
    TickLocalKeepsInv(cfg, s, p, t);
  }

  /** Recording a call about a held row keeps the log truthful. */
  lemma LogGrowth(s: State, call: PublishCall)
    requires LogOk(s) && CallOk(s.db.outbox, call.event)
    ensures LogOk(s.(log := s.log + [call]))
  {
    forall e | e in s.db.outbox && s.db.outbox[e].publishedAt.Some?
      ensures Delivered(s.log + [call], e, s.db.outbox[e].publishedAt.value)
    {
      AppendDelivered(s.log, call, e, s.db.outbox[e].publishedAt.value);
    }
  }

  lemma PublishKeepsTicks(cfg: Config, s: State, p: nat, now: Time)
    requires TicksOk(s) && LogOk(s) && AtPublish(s, p)
    ensures TicksOk(AfterPublish(s, p, now)) && LogOk(AfterPublish(s, p, now))
  {
    var s' := AfterPublish(s, p, now);
    var Publishing(rows, i) := s.ticks[p].pc;
    var call := PublishCall(Message(rows[i], now), true);
    assert TickOk(s.db.outbox, s.log, s.ticks[p]);
    assert Holds(s.db.outbox, rows[i]);
    AppendDelivered(s.log, call, rows[i].id, now);
    LogGrowth(s, call);
    forall o | o in s'.ticks ensures TickOk(s'.db.outbox, s'.log, s'.ticks[o]) {
      AppendKeepsTick(s.db.outbox, s.log, call, s.ticks[o]);
    }
    forall x, o | x in s'.ticks && o in s'.ticks && x != o ensures ClaimsOf(s'.ticks[x]) !! ClaimsOf(s'.ticks[o]) {
      assert ClaimsOf(s.ticks[x]) !! ClaimsOf(s.ticks[o]);
    }
  }

  /** The row a tick is about to publish has not been delivered by this or any open tick. */
  lemma NextRowIsUnsent(s: State, p: nat)
    requires TicksOk(s) && p in s.ticks && s.ticks[p].pc.Publishing? && s.ticks[p].pc.i < |s.ticks[p].pc.rows|
    ensures var row := s.ticks[p].pc.rows[s.ticks[p].pc.i];
            Holds(s.db.outbox, row) && !InFlight(s, row.id)
  {
    var Publishing(rows, i) := s.ticks[p].pc;
    assert TickOk(s.db.outbox, s.log, s.ticks[p]);
    assert rows[i] in rows;
    if InFlight(s, rows[i].id) { FlightIsOwn(s, p, rows[i].id); }
  }

  lemma SentGrows(s: State, p: nat, now: Time)
    requires TicksOk(s) && AtPublish(s, p)
    ensures var row := s.ticks[p].pc.rows[s.ticks[p].pc.i];
            Sent(AfterPublish(s, p, now).ticks[p]) == Sent(s.ticks[p]) + {row.id}
  {
    var Publishing(rows, i) := s.ticks[p].pc;
    assert rows[..i + 1] == rows[..i] + [rows[i]];
  }

  lemma InFlightAfter(s: State, p: nat, now: Time, e: Uuid)
    requires TicksOk(s) && AtPublish(s, p)
    ensures var row := s.ticks[p].pc.rows[s.ticks[p].pc.i];
            InFlight(AfterPublish(s, p, now), e) <==> InFlight(s, e) || e == row.id
  {
    var s' := AfterPublish(s, p, now);
    SentGrows(s, p, now);
    if InFlight(s, e) {
      var o :| o in s.ticks && e in Sent(s.ticks[o]);
      assert o in s'.ticks && e in Sent(s'.ticks[o]);
    } else if e == s.ticks[p].pc.rows[s.ticks[p].pc.i].id {
      assert p in s'.ticks && e in Sent(s'.ticks[p]);
    }
    if InFlight(s', e) {
      var o :| o in s'.ticks && e in Sent(s'.ticks[o]);
      assert o in s.ticks && (o != p ==> e in Sent(s.ticks[o]));
    }
  }

  lemma PublishKeepsCalls(cfg: Config, s: State, p: nat, now: Time)
    requires TicksOk(s) && CallsOk(s) && AtPublish(s, p)
    ensures CallsOk(AfterPublish(s, p, now))
  {
    var s' := AfterPublish(s, p, now);
    var row := s.ticks[p].pc.rows[s.ticks[p].pc.i];
    NextRowIsUnsent(s, p);
    forall e ensures CallBound(s', e) {
      assert CallBound(s, e);
      AppendCall(s.log, PublishCall(Message(row, now), true), e);
      InFlightAfter(s, p, now, e);
    }
  }

  lemma FailTickKeepsTicks(cfg: Config, s: State, p: nat, now: Time)
    requires TicksOk(s) && LogOk(s) && p in s.ticks
    ensures TicksOk(AfterFailTick(s, p, now)) && LogOk(AfterFailTick(s, p, now))
  {
    var s' := AfterFailTick(s, p, now);
    var t := s.ticks[p];
    assert TickOk(s.db.outbox, s.log, t);
    if s'.log != s.log {
      var call := PublishCall(Message(t.pc.rows[t.pc.i], now), false);
      assert Holds(s.db.outbox, t.pc.rows[t.pc.i]);
      LogGrowth(s, call);
      forall o | o in s.ticks ensures TickOk(s.db.outbox, s'.log, s.ticks[o]) {
        AppendKeepsTick(s.db.outbox, s.log, call, s.ticks[o]);
      }
    }
  }

  /** A failing call is about a row the tick has claimed and not sent. */
  lemma FailingCall(s: State, p: nat, now: Time, e: Uuid)
    requires TicksOk(s) && p in s.ticks
    ensures CallsFor(AfterFailTick(s, p, now).log, e) <= CallsFor(s.log, e) + 1
    ensures e !in ClaimsOf(s.ticks[p]) || InFlight(s, e) ==>
              CallsFor(AfterFailTick(s, p, now).log, e) == CallsFor(s.log, e)
  {
    var t := s.ticks[p];
    if t.pc.Publishing? && t.pc.i < |t.pc.rows| {
      var row := t.pc.rows[t.pc.i];
      AppendCall(s.log, PublishCall(Message(row, now), false), e);
      NextRowIsUnsent(s, p);
      assert TickOk(s.db.outbox, s.log, t);
      assert row in t.pc.rows;
    }
  }

  lemma ClaimedIsUnmarked(s: State, p: nat, e: Uuid)
    requires TicksOk(s) && p in s.ticks && e in ClaimsOf(s.ticks[p])
    ensures !IsMarked(s.db.outbox, e)
  {
    assert TickOk(s.db.outbox, s.log, s.ticks[p]);
    var row :| row in s.ticks[p].pc.rows && row.id == e;
    assert Holds(s.db.outbox, row);
  }

  lemma FailTickKeepsCalls(cfg: Config, s: State, p: nat, now: Time)
    requires TicksOk(s) && CallsOk(s) && p in s.ticks
    ensures CallsOk(AfterFailTick(s, p, now))
  {
    var s' := AfterFailTick(s, p, now);
    var t := s.ticks[p];
    assert TickOk(s.db.outbox, s.log, t);
    SentIsClaimed(s.db.outbox, s.log, t);
    forall e ensures CallBound(s', e) {
      assert CallBound(s, e);
      FailingCall(s, p, now, e);
      if e in ClaimsOf(t) {
        ClaimedIsUnmarked(s, p, e);
      } else if InFlight(s, e) {
        var o :| o in s.ticks && e in Sent(s.ticks[o]);
        assert e in Sent(s'.ticks[o]);
      }
    }
  }

  /** A tick's commit only fills in `publishedAt` of the rows it had claimed. */
  lemma TickCommit(s: State, p: nat)
    requires TicksOk(s) && p in s.ticks && s.ticks[p].pc.Publishing? && s.ticks[p].tx.Some?
    ensures var tx := s.ticks[p].tx.value;
            Commit(s.db, tx) == s.db.(outbox := Marked(s.db.outbox, tx.marks))
  {
    var tx := s.ticks[p].tx.value;
    assert TickOk(s.db.outbox, s.log, s.ticks[p]);
    assert s.db.outbox + tx.events == s.db.outbox;
    assert s.db.links + tx.links == s.db.links;
    assert s.db.keys + tx.keys == s.db.keys;
  }

  lemma CommitTickKeepsRequests(cfg: Config, s: State, p: nat, fate: Fate)
    requires Inv(cfg, s) && AtTickCommit(s, p)
    ensures var s' := AfterCommitTick(s, p, fate);
            RequestsOk(cfg, s') && PendingOk(s') && OneCreator(s') && TablesOk(cfg, s')
  {
    var s' := AfterCommitTick(s, p, fate);
    TickCommit(s, p);
    forall r | r in s'.reqs ensures RequestOk(cfg, s'.db, s'.issued, s'.reqs[r]) {
      assert RequestOk(cfg, s.db, s.issued, s.reqs[r]);
    }
    forall r, o | r in s'.reqs && o in s'.reqs && r != o ensures Apart(s'.reqs[r], s'.reqs[o]) {
      assert Apart(s.reqs[r], s.reqs[o]);
    }
    forall x | x in s'.origin ensures OriginOk(s'.db, x, s'.origin[x]) { assert OriginOk(s.db, x, s.origin[x]); }
    forall key | key in s'.db.keys ensures KeyOk(cfg, s'.db, s'.origin, key) { assert KeyOk(cfg, s.db, s.origin, key); }
    forall e | e in s'.db.outbox ensures RowOk(s'.db, s'.origin, e) { assert RowOk(s.db, s.origin, e); }
  }

  /** Marking one tick's rows does not touch a row another tick holds. */
  lemma OthersRows(outbox: map<Uuid, OutboxEvent>, log: seq<PublishCall>, o: Tick, t: Tick)
    requires TickOk(outbox, log, o) && TickOk(outbox, log, t)
    requires t.tx.Some? && ClaimsOf(o) !! ClaimsOf(t)
    ensures TickOk(Marked(outbox, t.tx.value.marks), log, o)
  {
    if o.pc.Publishing? || o.pc.Marking? {
      forall row | row in o.pc.rows ensures Holds(Marked(outbox, t.tx.value.marks), row) {
        assert Holds(outbox, row);
        assert row.id in ClaimsOf(o);
        assert t.tx.value.marks.Keys <= ClaimsOf(t);
      }
    }
  }

  lemma CommitTickKeepsTicks(cfg: Config, s: State, p: nat, fate: Fate)
    requires TicksOk(s) && LogOk(s) && AtTickCommit(s, p)
    ensures TicksOk(AfterCommitTick(s, p, fate)) && LogOk(AfterCommitTick(s, p, fate))
  {
    var s' := AfterCommitTick(s, p, fate);
    var t := s.ticks[p];
    TickCommit(s, p);
    assert TickOk(s.db.outbox, s.log, t);
    forall o | o in s'.ticks ensures TickOk(s'.db.outbox, s'.log, s'.ticks[o]) {
      if o != p {
        assert TickOk(s.db.outbox, s.log, s.ticks[o]);
        assert ClaimsOf(s.ticks[o]) !! ClaimsOf(t);
        OthersRows(s.db.outbox, s.log, s.ticks[o], t);
      }
    }
    forall call | call in s'.log ensures CallOk(s'.db.outbox, call.event) {
      assert CallOk(s.db.outbox, call.event);
    }
  }

  /** At its commit a tick has sent and marked exactly what it claimed. */
  lemma AllSentAreMarked(outbox: map<Uuid, OutboxEvent>, log: seq<PublishCall>, t: Tick, e: Uuid)
    requires TickOk(outbox, log, t) && t.pc.Publishing? && t.pc.i == |t.pc.rows| && e in Sent(t)
    ensures IsMarked(Marked(outbox, t.tx.value.marks), e)
  {
    assert t.pc.rows[..t.pc.i] == t.pc.rows;
    var row :| row in t.pc.rows && row.id == e;
    assert Holds(outbox, row);
  }

  lemma CommitTickKeepsCalls(cfg: Config, s: State, p: nat, fate: Fate)
    requires TicksOk(s) && CallsOk(s) && AtTickCommit(s, p)
    ensures CallsOk(AfterCommitTick(s, p, fate))
  {
    var s' := AfterCommitTick(s, p, fate);
    var t := s.ticks[p];
    TickCommit(s, p);
    assert TickOk(s.db.outbox, s.log, t);
    forall e ensures CallBound(s', e) {
      assert CallBound(s, e);
      assert IsMarked(s.db.outbox, e) ==> IsMarked(s'.db.outbox, e);
      if InFlight(s, e) {
        var o :| o in s.ticks && e in Sent(s.ticks[o]);
        if o == p {
          AllSentAreMarked(s.db.outbox, s.log, t, e);
        } else {
          assert e in Sent(s'.ticks[o]);
        }
      }
    }
  }

  // ---- The whole system ----

  lemma CommitReqKeepsInv(cfg: Config, s: State, r: nat, fate: Fate)
    requires Inv(cfg, s) && AtRequestCommit(s, r)
    ensures Inv(cfg, AfterCommitReq(s, r, fate))
  {
    AtCommit(cfg, s, r);
    CommitKeepsTables(cfg, s, r, fate);
    CommitKeepsRequests(cfg, s, r, fate);
    CommitKeepsPending(cfg, s, r, fate);
    CommitKeepsCreator(cfg, s, r, fate);
    CommitKeepsTicks(cfg, s, r, fate);
  }

  lemma PublishKeepsInv(cfg: Config, s: State, p: nat, now: Time)
    requires Inv(cfg, s) && AtPublish(s, p)
    ensures Inv(cfg, AfterPublish(s, p, now))
  {
    SameRequests(cfg, s, AfterPublish(s, p, now));
    PublishKeepsTicks(cfg, s, p, now);
    PublishKeepsCalls(cfg, s, p, now);
  }

  lemma FailTickKeepsInv(cfg: Config, s: State, p: nat, now: Time)
    requires Inv(cfg, s) && p in s.ticks
    ensures Inv(cfg, AfterFailTick(s, p, now))
  {
    SameRequests(cfg, s, AfterFailTick(s, p, now));
    FailTickKeepsTicks(cfg, s, p, now);
    FailTickKeepsCalls(cfg, s, p, now);
  }

  lemma CommitTickKeepsInv(cfg: Config, s: State, p: nat, fate: Fate)
    requires Inv(cfg, s) && AtTickCommit(s, p)
    ensures Inv(cfg, AfterCommitTick(s, p, fate))
  {
    CommitTickKeepsRequests(cfg, s, p, fate);
    CommitTickKeepsTicks(cfg, s, p, fate);
    CommitTickKeepsCalls(cfg, s, p, fate);
  }

  lemma StepKeepsInv(cfg: Config, s: State, a: Action)
    requires Inv(cfg, s) && Enabled(cfg, s, a)
    ensures Inv(cfg, Apply(cfg, s, a))
  {
    match a
    case SaveLink(_, _) => SaveKeepsInv(cfg, s, a);
    case InsertKey(_) => InsertKeepsInv(cfg, s, a);
    case AddEvent(_, _, _) => AddKeepsInv(cfg, s, a);
    case CommitReq(r, fate) => CommitReqKeepsInv(cfg, s, r, fate);
    case Publish(p, now) => PublishKeepsInv(cfg, s, p, now);
    case FailTick(p, now) => FailTickKeepsInv(cfg, s, p, now);
    case CommitTick(p, fate) => CommitTickKeepsInv(cfg, s, p, fate);
    case StartTick(_, _) => TickLifeKeepsInv(cfg, s, a);
    case BeginTick(_) => TickLifeKeepsInv(cfg, s, a);
    case Claim(p, rows) => ClaimKeepsInv(cfg, s, p, rows);
    case RejectClaim(_) => TickLifeKeepsInv(cfg, s, a);
    case Mark(p) => MarkKeepsInv(cfg, s, p);
    case Arrive(_, _) => ArriveKeepsInv(cfg, s, a);
    case FindKey(_) => LookupKeepsInv(cfg, s, a);
    case LoadLink(_) => LookupKeepsInv(cfg, s, a);
    case BeginReq(_) => LookupKeepsInv(cfg, s, a);
    case FailReq(_, _) => LookupKeepsInv(cfg, s, a);
  }

  /** The invariant holds at every point of every run. */
  lemma {:induction false} RunKeepsInv(cfg: Config, b: Behavior, k: nat)
    requires IsRun(cfg, b) && k < |b.states|
    ensures Inv(cfg, b.states[k])
  {
    if k == 0 {
      forall e ensures CallBound(INIT, e) {}
    } else {
      RunKeepsInv(cfg, b, k - 1);
      assert Follows(cfg, b, k - 1);
      StepKeepsInv(cfg, b.states[k - 1], b.acts[k - 1]);
    }
  }
}
