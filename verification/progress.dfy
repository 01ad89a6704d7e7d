/** Nothing waits forever: with one connection or more some step that is not a failure is always
    possible while work is unfinished, and every run without new arrivals is bounded. */
module Progress {
  import opened Domain
  import opened Tables
  import opened Protocol
  import opened Invariant
  import opened Preservation
  import opened Claims

  predicate IsArrival(a: Action) {
    a.Arrive? || a.StartTick?
  }

  /** A step of work already in the system whose call succeeds. */
  predicate Advances(a: Action) {
    && !IsArrival(a) && !a.FailReq? && !a.FailTick?
    && (a.CommitReq? || a.CommitTick? ==> a.fate.Reported?)
  }

  ghost predicate Unfinished(s: State) {
    || (exists r :: r in s.reqs && !s.reqs[r].pc.Finished?)
    || (exists p :: p in s.ticks && !s.ticks[p].pc.Ended?)
  }

  ghost predicate CanAdvance(cfg: Config, s: State) {
    exists a :: Advances(a) && Enabled(cfg, s, a)
  }

  lemma {:induction false} FreshIdExists(issued: set<Uuid>) returns (id: Uuid)
    ensures id !in issued && id != NIL_UUID && forall x | x in issued :: x < id
  {
    id := 1;
    if issued != {} {
      var x :| x in issued;
      id := FreshIdExists(issued - {x});
      assert issued == issued - {x} + {x};
      if id <= x { id := x + 1; }
    }
  }

  /** A request asking for a connection holds no transaction. */
  lemma AskersHoldNothing(cfg: Config, s: State, r: nat)
    requires Inv(cfg, s) && r in s.reqs
    requires s.reqs[r].pc.Lookup? || s.reqs[r].pc.Begin? || s.reqs[r].pc.Reread? || s.reqs[r].pc.Replaying?
    ensures s.reqs[r].tx.None?
  {
    assert RequestOk(cfg, s.db, s.issued, s.reqs[r]);
  }

  /** The holder of an uncommitted key is past every wait: its own next call, writing its event or
      committing, can go ahead. */
  lemma KeyHolderAdvances(cfg: Config, s: State, r: nat, key: string)
    requires Inv(cfg, s) && r in s.reqs && HoldsKey(s.reqs[r], key)
    ensures exists a :: Advances(a) && ActorOf(a) == Client(r) && Enabled(cfg, s, a)
  {
    assert RequestOk(cfg, s.db, s.issued, s.reqs[r]);
    if s.reqs[r].pc.Announcing? {
      var id := FreshIdExists(s.issued);
      assert Enabled(cfg, s, AddEvent(r, id, 0));
    } else {
      assert Enabled(cfg, s, CommitReq(r, Reported));
    }
  }

  lemma OpenRequestAdvances(cfg: Config, s: State, r: nat)
    requires Inv(cfg, s) && r in OpenReqs(s)
    ensures CanAdvance(cfg, s)
  {
    var q := s.reqs[r];
    assert RequestOk(cfg, s.db, s.issued, q);
    if q.pc.Saving? {
      var id := FreshIdExists(s.issued);
      assert Enabled(cfg, s, SaveLink(r, id));
    } else if q.pc.Inserting? {
      if KeyLocked(s, r, q.call.key) {
        var o :| o in s.reqs && o != r && HoldsKey(s.reqs[o], q.call.key);
        KeyHolderAdvances(cfg, s, o, q.call.key);
      } else {
        assert Enabled(cfg, s, InsertKey(r));
      }
    } else if q.pc.Announcing? {
      var id := FreshIdExists(s.issued);
      assert Enabled(cfg, s, AddEvent(r, id, 0));
    } else {
      assert Enabled(cfg, s, CommitReq(r, Reported));
    }
  }

  lemma OpenTickAdvances(cfg: Config, s: State, p: nat)
    requires p in OpenTicks(s) && TickOk(s.db.outbox, s.log, s.ticks[p])
    requires forall e | e in s.db.outbox :: s.db.outbox[e].id == e
    ensures CanAdvance(cfg, s)
  {
    var t := s.ticks[p];
    match t.pc
    case Claiming =>
      if t.batchSize < 0 {
        assert Enabled(cfg, s, RejectClaim(p));
      } else {
        var rows := ClaimExists(s.db.outbox, Locked(s), t.batchSize);
        assert Enabled(cfg, s, Claim(p, rows));
      }
    case Publishing(rows, i) =>
      if i < |rows| { assert Enabled(cfg, s, Publish(p, 0)); } else { assert Enabled(cfg, s, CommitTick(p, Reported)); }
    case Marking(_, _, _) => assert Enabled(cfg, s, Mark(p));
  }

  /** With a connection free, whoever is unfinished and holds none can use it. */
  lemma AskerAdvances(cfg: Config, s: State, r: nat)
    requires ConnectionFree(cfg, s) && r in s.reqs && RequestOk(cfg, s.db, s.issued, s.reqs[r])
    requires !s.reqs[r].pc.Finished? && s.reqs[r].tx.None?
    ensures CanAdvance(cfg, s)
  {
    if s.reqs[r].pc.Begin? {
      assert Enabled(cfg, s, BeginReq(r));
    } else if s.reqs[r].pc.Replaying? {
      assert Enabled(cfg, s, LoadLink(r));
    } else {
      assert Enabled(cfg, s, FindKey(r));
    }
  }

  lemma WaiterAdvances(cfg: Config, s: State, p: nat)
    requires ConnectionFree(cfg, s) && p in s.ticks && TickOk(s.db.outbox, s.log, s.ticks[p])
    requires !s.ticks[p].pc.Ended? && s.ticks[p].tx.None?
    ensures CanAdvance(cfg, s)
  {
    assert Enabled(cfg, s, BeginTick(p));
  }

  /** Deadlock freedom: in every reachable state with unfinished work some step advances it. */
  lemma DeadlockFree(cfg: Config, b: Behavior, k: nat)
    requires IsRun(cfg, b) && k < |b.states| && cfg.poolSize >= 1 && Unfinished(b.states[k])
    ensures CanAdvance(cfg, b.states[k])
  {
    var s := b.states[k];
    RunKeepsInv(cfg, b, k);
    if r :| r in OpenReqs(s) {
      OpenRequestAdvances(cfg, s, r);
    } else if p :| p in OpenTicks(s) {
      assert TickOk(s.db.outbox, s.log, s.ticks[p]);
      forall e | e in s.db.outbox ensures s.db.outbox[e].id == e { assert RowOk(s.db, s.origin, e); }
      OpenTickAdvances(cfg, s, p);
    } else if r :| r in s.reqs && !s.reqs[r].pc.Finished? {
      assert r !in OpenReqs(s) && RequestOk(cfg, s.db, s.issued, s.reqs[r]);
      AskerAdvances(cfg, s, r);
    } else {
      var p :| p in s.ticks && !s.ticks[p].pc.Ended?;
      assert p !in OpenTicks(s) && TickOk(s.db.outbox, s.log, s.ticks[p]);
      WaiterAdvances(cfg, s, p);
    }
  }

  // ---- Bounded work ----

  /** The most steps a request, or a tick, can still take. */
  function RequestRank(q: Request): nat {
    match q.pc
    case Lookup => 7
    case Begin => 6
    case Saving => 5
    case Inserting(_) => 4
    case CommittingLoss(_) => 3
    case Announcing(_) => 2
    case Reread => 2
    case CommittingWin(_, _) => 1
    case Replaying(_) => 1
    case Finished(_) => 0
  }

  function TickRank(t: Tick): nat {
    match t.pc
    case Waiting => (if t.batchSize > 0 then 2 * t.batchSize else 0) + 3
    case Claiming => (if t.batchSize > 0 then 2 * t.batchSize else 0) + 2
    case Publishing(rows, i) => if i <= |rows| then 2 * (|rows| - i) + 1 else 1
    case Marking(rows, i, _) => if i <= |rows| then 2 * (|rows| - i) else 1
    case Ended(_) => 0
  }

  ghost function Sum<T>(m: map<nat, T>, rank: T -> nat): nat
    decreases |m|
  {
    if m == map[] then 0 else
      var k :| k in m;
      rank(m[k]) + Sum(m - {k}, rank)
  }

  lemma {:induction false} SumSplit<T>(m: map<nat, T>, rank: T -> nat, k: nat)
    requires k in m
    ensures Sum(m, rank) == rank(m[k]) + Sum(m - {k}, rank)
    decreases |m|
  {
    var j :| j in m && Sum(m, rank) == rank(m[j]) + Sum(m - {j}, rank);
    if j != k {
      SumSplit(m - {j}, rank, k);
      SumSplit(m - {k}, rank, j);
      assert m - {j} - {k} == m - {k} - {j};
    }
  }

  lemma SumUpdate<T>(m: map<nat, T>, rank: T -> nat, k: nat, x: T)
    requires k in m
    ensures Sum(m[k := x], rank) + rank(m[k]) == Sum(m, rank) + rank(x)
  {
    SumSplit(m, rank, k);
    SumSplit(m[k := x], rank, k);
    assert m[k := x] - {k} == m - {k};
  }

  ghost function Work(s: State): nat {
    Sum(s.reqs, RequestRank) + Sum(s.ticks, TickRank)
  }

  lemma RequestStepRank(cfg: Config, s: State, a: Action, r: nat)
    requires Enabled(cfg, s, a) && ActorOf(a) == Client(r) && !a.Arrive?
    requires r in s.reqs && PcOk(cfg, s.db, s.issued, s.reqs[r].call, s.reqs[r].pc)
    ensures var s' := Apply(cfg, s, a);
            && r in s'.reqs && s'.reqs == s.reqs[r := s'.reqs[r]] && s'.ticks == s.ticks
            && RequestRank(s'.reqs[r]) < RequestRank(s.reqs[r])
  {
  }

  lemma TickStepRank(cfg: Config, s: State, a: Action, p: nat)
    requires Enabled(cfg, s, a) && ActorOf(a) == Worker(p) && !a.StartTick?
    requires p in s.ticks && TickOk(s.db.outbox, s.log, s.ticks[p])
    ensures var s' := Apply(cfg, s, a);
            && p in s'.ticks && s'.ticks == s.ticks[p := s'.ticks[p]] && s'.reqs == s.reqs
            && TickRank(s'.ticks[p]) < TickRank(s.ticks[p])
  {
  }

  lemma StepUsesWork(cfg: Config, s: State, a: Action)
    requires Inv(cfg, s) && Enabled(cfg, s, a) && !IsArrival(a)
    ensures Work(Apply(cfg, s, a)) < Work(s)
  {
    var s' := Apply(cfg, s, a);
    match ActorOf(a)
    case Client(r) =>
      assert RequestOk(cfg, s.db, s.issued, s.reqs[r]);
      RequestStepRank(cfg, s, a, r);
      SumUpdate(s.reqs, RequestRank, r, s'.reqs[r]);
    case Worker(p) =>
      assert TickOk(s.db.outbox, s.log, s.ticks[p]);
      TickStepRank(cfg, s, a, p);
      SumUpdate(s.ticks, TickRank, p, s'.ticks[p]);
  }

  /** However the steps interleave and whatever fails, a stretch without arrivals takes at most
      as many steps as there was work at its start. */
  lemma {:induction false} BoundedWork(cfg: Config, b: Behavior, i: nat, k: nat)
    requires IsRun(cfg, b) && i <= k < |b.states|
    requires forall j | i <= j < k :: !IsArrival(b.acts[j])
    ensures k - i + Work(b.states[k]) <= Work(b.states[i])
    decreases k
  {
    if i < k {
      BoundedWork(cfg, b, i, k - 1);
      RunKeepsInv(cfg, b, k - 1);
      assert Follows(cfg, b, k - 1);
      StepUsesWork(cfg, b.states[k - 1], b.acts[k - 1]);
    }
  }
}
