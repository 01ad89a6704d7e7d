/** What no step ever undoes: committed links, records and rows stay, a mark stays, the publish
    log only grows and a response once given stands. */
module Growth {
  import opened Domain
  import opened Tables
  import opened Protocol
  import opened Invariant
  import opened Preservation

  predicate RowKept(row: OutboxEvent, row': OutboxEvent) {
    row' == row || (row.publishedAt.None? && row' == row.(publishedAt := row'.publishedAt))
  }

  ghost predicate KeptTables(s: State, s': State) {
    && (forall id | id in s.db.links :: id in s'.db.links && s'.db.links[id] == s.db.links[id])
    && (forall key | key in s.db.keys :: key in s'.db.keys && s'.db.keys[key] == s.db.keys[key])
    && (forall e | e in s.db.outbox :: e in s'.db.outbox && RowKept(s.db.outbox[e], s'.db.outbox[e]))
    && (forall id | id in s.origin :: id in s'.origin && s'.origin[id] == s.origin[id])
  }

  ghost predicate KeptRequests(s: State, s': State) {
    forall r | r in s.reqs :: r in s'.reqs && s'.reqs[r].call == s.reqs[r].call
                              && (s.reqs[r].pc.Finished? ==> s'.reqs[r] == s.reqs[r])
  }

  ghost predicate Kept(s: State, s': State) {
    KeptTables(s, s') && KeptRequests(s, s') && s.log <= s'.log
  }

  /** A tick's commit leaves every row it does not hold as it was. */
  lemma MarkingKeepsRows(s: State, p: nat)
    requires TicksOk(s) && p in s.ticks && s.ticks[p].pc.Publishing? && s.ticks[p].tx.Some?
    ensures var outbox' := Marked(s.db.outbox, s.ticks[p].tx.value.marks);
            forall e | e in s.db.outbox :: e in outbox' && RowKept(s.db.outbox[e], outbox'[e])
  {
    var t := s.ticks[p];
    assert TickOk(s.db.outbox, s.log, t);
    forall e | e in s.db.outbox && e in t.tx.value.marks ensures s.db.outbox[e].publishedAt.None? {
      var row :| row in t.pc.rows[..t.pc.i] && row.id == e;
      assert Holds(s.db.outbox, row);
    }
  }

  /** Only commits touch the tables. */
  lemma OnlyCommitsWrite(cfg: Config, s: State, a: Action)
    requires Enabled(cfg, s, a)
    ensures !a.CommitReq? && !a.CommitTick? ==> Apply(cfg, s, a).db == s.db
    ensures !a.CommitReq? ==> Apply(cfg, s, a).origin == s.origin
    ensures KeptRequests(s, Apply(cfg, s, a))
    ensures s.log <= Apply(cfg, s, a).log
  {
  }

  lemma TablesGain(s: State, s': State, q: Request)
    requires q.pc.CommittingWin? || q.pc.CommittingLoss?
    requires s.origin.Keys == s.db.links.Keys && q.pc.link.id !in s.db.links
    requires s'.origin == s.origin[q.pc.link.id := OriginOf(q)]
    requires s'.db.links == s.db.links[q.pc.link.id := q.pc.link]
    requires q.pc.CommittingLoss? ==> s'.db.keys == s.db.keys && s'.db.outbox == s.db.outbox
    requires q.pc.CommittingWin? ==>
      && q.pc.event.id !in s.db.outbox && s'.db.outbox == s.db.outbox[q.pc.event.id := q.pc.event]
      && q.call.key !in s.db.keys && s'.db.keys - {q.call.key} == s.db.keys
    ensures KeptTables(s, s')
  {
    forall key | key in s.db.keys ensures key in s'.db.keys && s'.db.keys[key] == s.db.keys[key] {
      assert q.pc.CommittingWin? ==> key in s'.db.keys - {q.call.key};
    }
  }

  lemma CommitKeeps(cfg: Config, s: State, r: nat, fate: Fate)
    requires s.origin.Keys == s.db.links.Keys && CommitReady(cfg, s, r)
    ensures KeptTables(s, AfterCommitReq(s, r, fate))
  {
    RequestCommit(cfg, s, r);
    TablesGain(s, AfterCommitReq(s, r, fate), s.reqs[r]);
  }

  lemma StepKeeps(cfg: Config, s: State, a: Action)
    requires Inv(cfg, s) && Enabled(cfg, s, a)
    ensures Kept(s, Apply(cfg, s, a))
  {
    OnlyCommitsWrite(cfg, s, a);
    if a.CommitReq? {
      AtCommit(cfg, s, a.r);
      CommitKeeps(cfg, s, a.r, a.fate);
    } else if a.CommitTick? {
      TickCommit(s, a.p);
      MarkingKeepsRows(s, a.p);
    }
  }

  lemma KeptTransitive(s: State, m: State, s': State)
    requires Kept(s, m) && Kept(m, s')
    ensures Kept(s, s')
  {
  }

  /** Over any stretch of any run. */
  lemma {:induction false} RunKeeps(cfg: Config, b: Behavior, i: nat, k: nat)
    requires IsRun(cfg, b) && i <= k < |b.states|
    ensures Kept(b.states[i], b.states[k])
    decreases k
  {
    if i < k {
      RunKeeps(cfg, b, i, k - 1);
      RunKeepsInv(cfg, b, k - 1);
      assert Follows(cfg, b, k - 1);
      StepKeeps(cfg, b.states[k - 1], b.acts[k - 1]);
      KeptTransitive(b.states[i], b.states[k - 1], b.states[k]);
    }
  }
}
