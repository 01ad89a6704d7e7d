/** `OutboxProcessor.PublishOnce` and its repetition by `Start`. */
module OutboxProcessor {
  import opened Domain
  import opened Tables
  import opened Protocol
  import opened Invariant
  import opened Reach
  import opened Ticks
  import opened SharedDatabase

  ghost predicate NobodyClaims(s: State) {
    forall p | p in s.ticks :: ClaimsOf(s.ticks[p]) == {}
  }

  /** A connection can be had and no transaction is open. */
  ghost predicate Idle(cfg: Config, s: State) {
    && cfg.poolSize >= 1
    && (forall r | r in s.reqs :: s.reqs[r].tx.None?)
    && (forall p | p in s.ticks :: s.ticks[p].tx.None?)
  }

  lemma IdleIsFree(cfg: Config, s: State)
    requires Idle(cfg, s)
    ensures ConnectionFree(cfg, s) && NobodyClaims(s)
  {
    assert OpenReqs(s) == {} && OpenTicks(s) == {};
  }

  lemma NothingLocked(s: State)
    requires NobodyClaims(s)
    ensures Locked(s) == {}
  {
  }

  /** From `s` a processor alone ran these ticks and left `s'`. */
  ghost predicate RanAlone(s: State, s': State, batchSize: int, runs: seq<TickRun>) {
    && PossibleRuns(s.db.outbox, batchSize, runs)
    && s'.db == s.db.(outbox := OutboxAfterRuns(s.db.outbox, runs))
    && s'.log == s.log + CallsOfRuns(runs)
    && s'.reqs == s.reqs
    && NobodyClaims(s')
  }

  lemma RanOne(s: State, s': State, batchSize: int, run: TickRun)
    requires PossibleTick(s.db.outbox, batchSize, run) && NobodyClaims(s')
    requires s'.db == s.db.(outbox := OutboxAfter(s.db.outbox, run))
    requires s'.log == s.log + Calls(run) && s'.reqs == s.reqs
    ensures RanAlone(s, s', batchSize, [run])
  {
    SingleRun(s.db.outbox, batchSize, run);
  }

  lemma Regroup(a: seq<PublishCall>, b: seq<PublishCall>, c: seq<PublishCall>)
    ensures a + b + c == a + (b + c)
  {
  }

  lemma RanOneMore(s: State, m: State, s': State, batchSize: int, runs: seq<TickRun>, run: TickRun)
    requires RanAlone(s, m, batchSize, runs) && RanAlone(m, s', batchSize, [run])
    ensures RanAlone(s, s', batchSize, runs + [run])
  {
    SingleRun(m.db.outbox, batchSize, run);
    AppendRun(s.db.outbox, batchSize, runs, run);
    Regroup(s.log, CallsOfRuns(runs), Calls(run));
  }

  /** `n` successful ticks from `s` to `s'`: the outbox is empty exactly if n * B reaches the rows
      there were, and what went out went out once, in creation order. */
  ghost predicate Drained(s: State, s': State, n: nat, batchSize: nat, calls: seq<PublishCall>)
    requires batchSize >= 1
  {
    && (Unpublished(s'.db.outbox) == {} <==> n >= CeilDiv(|Unpublished(s.db.outbox)|, batchSize))
    && s'.log == s.log + calls && InCreationOrder(calls)
    && Unpublished(s'.db.outbox) <= Unpublished(s.db.outbox)
    && forall e :: Deliveries(calls, e) ==
                   if e in Unpublished(s.db.outbox) - Unpublished(s'.db.outbox) then 1 else 0
  }

  lemma DrainedByRuns(s: State, s': State, batchSize: nat, runs: seq<TickRun>)
    requires batchSize >= 1 && RanAlone(s, s', batchSize, runs) && AllCommitted(runs)
    ensures Drained(s, s', |runs|, batchSize, CallsOfRuns(runs))
  {
    Draining(s.db.outbox, batchSize, runs);
    DrainBound(s.db.outbox, batchSize, runs);
  }

  class OutboxProcessor {
    const db: Database
    const batchSize: int

    constructor (db: Database, batchSize: int)
      ensures this.db == db && this.batchSize == batchSize
    {
      this.db := db;
      this.batchSize := batchSize;
    }

    /** Alone, with calls that succeed and a batch size the database accepts. */
    ghost predicate Undisturbed()
      reads db
    {
      db.solo && db.reliable && Idle(db.cfg, db.state) && batchSize >= 0
    }

    /** Nothing but these calls, and steps of `me`, happened from `s` to `s'`. */
    static ghost predicate Sent(s: State, s': State, me: nat, calls: seq<PublishCall>) {
      && s'.db == s.db && s'.reqs == s.reqs
      && me in s'.ticks && s'.ticks == s.ticks[me := s'.ticks[me]]
      && s'.log == s.log + calls
    }

    static lemma EnteredAlike(cfg: Config, s: State, entered: State, me: nat)
      requires Sent(s, entered, me, []) && entered.ticks[me].tx.None?
      ensures NobodyClaims(s) ==> NobodyClaims(entered)
      ensures Idle(cfg, s) ==> NobodyClaims(s) && ConnectionFree(cfg, entered)
    {
      if Idle(cfg, s) {
        IdleIsFree(cfg, s);
        IdleIsFree(cfg, entered);
      }
    }

    /** Nothing but what `run` records, and steps of `me`, happened from `s` to `s'`. */
    static ghost predicate Ran(s: State, s': State, me: nat, run: TickRun)
      requires WellFormed(run)
    {
      && s'.db == s.db.(outbox := OutboxAfter(s.db.outbox, run))
      && s'.log == s.log + Calls(run)
      && s'.reqs == s.reqs
      && me in s'.ticks && s'.ticks == s.ticks[me := s'.ticks[me]]
    }

    static lemma RanSince(s: State, m: State, s': State, me: nat, run: TickRun)
      requires WellFormed(run) && Sent(s, m, me, []) && Ran(m, s', me, run)
      ensures Ran(s, s', me, run)
    {
      assert s.log + [] == s.log;
    }

    ghost predicate AtRow(me: nat, rows: seq<OutboxEvent>, times: seq<Time>)
      reads db
    {
      && |times| <= |rows| && me in db.state.ticks
      && db.state.ticks[me] == Tick(batchSize, Publishing(rows, |times|),
                                    Some(EMPTY_TX.(claims := Ids(rows), marks := Marks(rows, times))))
    }

    /** Begin, and lock a batch. */
    method ClaimBatch(me: nat) returns (rows: seq<OutboxEvent>, ok: bool)
      requires db.Valid() && me in db.state.ticks && db.state.ticks[me] == Tick(batchSize, Waiting, None)
      modifies db
      ensures db.Valid() && Reaches(db.cfg, old(db.state), db.state)
      ensures if ok then AtRow(me, rows, [])
              else me in db.state.ticks && db.state.ticks[me] == Tick(batchSize, Ended(false), None)
      ensures db.solo ==> Sent(old(db.state), db.state, me, [])
      ensures db.solo && ok && NobodyClaims(old(db.state)) ==>
                batchSize >= 0 && IsClaim(old(db.state).db.outbox, {}, batchSize, rows)
      ensures db.solo && db.reliable && batchSize >= 0 && ConnectionFree(db.cfg, old(db.state)) ==> ok
    {
      rows := [];
      ok := db.BeginWork(me);
      if !ok { return; }
      ghost var before := db.state;
      rows, ok := db.FindUnpublishedForUpdateSkipLocked(me);
      ReachesTransitive(db.cfg, old(db.state), before, db.state);
      if db.solo && NobodyClaims(old(db.state)) { NothingLocked(before); }
    }

    static lemma SentIsRan(s: State, s': State, me: nat, run: TickRun)
      requires WellFormed(run) && !Landed(run) && Sent(s, s', me, Calls(run))
      ensures Ran(s, s', me, run)
    {
    }

    /** Only the outbox changed, as `run` ended. */
    static ghost predicate Committing(s: State, s': State, me: nat, run: TickRun)
      requires WellFormed(run)
    {
      && s'.db == s.db.(outbox := OutboxAfter(s.db.outbox, run))
      && s'.log == s.log && s'.reqs == s.reqs
      && me in s'.ticks && s'.ticks == s.ticks[me := s'.ticks[me]]
    }

    static lemma RanAfterSending(s: State, m: State, s': State, me: nat, run: TickRun)
      requires WellFormed(run) && !run.end.PublishFailed?
      requires Sent(s, m, me, SentCalls(run.rows, run.times)) && Committing(m, s', me, run)
      ensures Ran(s, s', me, run)
    {
    }

    static lemma OnlyMarks(db: Tables, tx: Tx)
      requires tx.links == map[] && tx.keys == map[] && tx.events == map[]
      ensures Commit(db, tx) == db.(outbox := Marked(db.outbox, tx.marks))
    {
      assert db.links + tx.links == db.links;
      assert db.keys + tx.keys == db.keys;
      assert db.outbox + tx.events == db.outbox;
    }

    method CommitBatch(me: nat, rows: seq<OutboxEvent>, ghost times: seq<Time>) returns (ok: bool, ghost run: TickRun)
      requires db.Valid() && AtRow(me, rows, times) && |times| == |rows|
      modifies db
      ensures db.Valid() && Reaches(db.cfg, old(db.state), db.state)
      ensures me in db.state.ticks && db.state.ticks[me] == Tick(batchSize, Ended(ok), None)
      ensures run.rows == rows && run.times == times
      ensures run.end == Committed || run.end == CommitUnreported || run.end == CommitFailed
      ensures ok <==> run.end.Committed?
      ensures db.solo ==> Committing(old(db.state), db.state, me, run)
      ensures db.solo && db.reliable ==> ok
    {
      ghost var found, landed;
      ok, found, landed := db.CommitWork(me);
      run := TickRun(rows, times, if ok then Committed else if landed then CommitUnreported else CommitFailed);
      OnlyMarks(old(db.state).db, EMPTY_TX.(claims := Ids(rows), marks := Marks(rows, times)));
    }

    static lemma OneMoreSent(rows: seq<OutboxEvent>, times: seq<Time>, now: Time)
      requires |times| < |rows|
      ensures SentCalls(rows, times + [now]) == SentCalls(rows, times) + [PublishCall(Message(rows[|times|], now), true)]
      ensures Marks(rows, times + [now]) == Marks(rows, times)[rows[|times|].id := now]
    {
      assert (times + [now])[..|times|] == times;
    }

    static lemma SentMore(s: State, m: State, s': State, me: nat, calls: seq<PublishCall>, more: seq<PublishCall>)
      requires Sent(s, m, me, calls) && Sent(m, s', me, more)
      ensures Sent(s, s', me, calls + more)
    {
      Regroup(s.log, calls, more);
    }

    /** The run of a batch that stopped behind `times`, in the call made at `now` or its marking. */
    static ghost function StoppedRun(rows: seq<OutboxEvent>, times: seq<Time>, now: Time, end: TickEnd): TickRun {
      TickRun(rows, if end == MarkFailed then times + [now] else times, end)
    }

    static lemma StoppedRunCalls(rows: seq<OutboxEvent>, times: seq<Time>, now: Time, end: TickEnd)
      requires |times| < |rows| && (end == PublishFailed(now) || end == MarkFailed)
      ensures var run := StoppedRun(rows, times, now, end);
              && WellFormed(run) && !Landed(run)
              && Calls(run) == SentCalls(rows, times) + [PublishCall(Message(rows[|times|], now), end == MarkFailed)]
    {
      OneMoreSent(rows, times, now);
    }

    /** Publish the next row and mark it. */
    method PublishRow(me: nat, rows: seq<OutboxEvent>, ghost times: seq<Time>) returns (ok: bool, now: Time, ghost end: TickEnd)
      requires db.Valid() && AtRow(me, rows, times) && |times| < |rows|
      modifies db
      ensures db.Valid() && Reaches(db.cfg, old(db.state), db.state)
      ensures ok ==> AtRow(me, rows, times + [now])
      ensures !ok ==> me in db.state.ticks && db.state.ticks[me] == Tick(batchSize, Ended(false), None)
      ensures !ok ==> end == PublishFailed(now) || end == MarkFailed
      ensures db.solo && db.reliable ==> ok
      ensures db.solo ==> Sent(old(db.state), db.state, me, [PublishCall(Message(rows[|times|], now), ok || end == MarkFailed)])
    {
      now := *;
      end := PublishFailed(now);
      ok := db.SendEvent(me, now);
      if !ok { return; }
      ghost var before := db.state;
      ok := db.MarkPublished(me);
      ReachesTransitive(db.cfg, old(db.state), before, db.state);
      OneMoreSent(rows, times, now);
      end := MarkFailed;
    }

    /** The loop over a claimed batch, and the commit. */
    method PublishAll(me: nat, rows: seq<OutboxEvent>) returns (ok: bool, ghost run: TickRun)
      requires db.Valid() && AtRow(me, rows, [])
      modifies db
      ensures db.Valid() && Reaches(db.cfg, old(db.state), db.state)
      ensures me in db.state.ticks && db.state.ticks[me] == Tick(batchSize, Ended(ok), None)
      ensures run.rows == rows && WellFormed(run) && !run.end.NotClaimed? && (ok <==> run.end.Committed?)
      ensures db.solo ==> Ran(old(db.state), db.state, me, run)
      ensures db.solo && db.reliable ==> ok
    {
      ghost var times: seq<Time> := [];
      ReachesSelf(db.cfg, db.state);
      for i := 0 to |rows|
        invariant db.Valid() && Reaches(db.cfg, old(db.state), db.state)
        invariant |times| == i && AtRow(me, rows, times)
        invariant db.solo ==> Sent(old(db.state), db.state, me, SentCalls(rows, times))
      {
        ghost var before := db.state;
        var now;
        ghost var end;
        ok, now, end := PublishRow(me, rows, times);
        ReachesTransitive(db.cfg, old(db.state), before, db.state);
        if db.solo {
          SentMore(old(db.state), before, db.state, me, SentCalls(rows, times),
                   [PublishCall(Message(rows[i], now), ok || end == MarkFailed)]);
        }
        if !ok {
          run := StoppedRun(rows, times, now, end);
          StoppedRunCalls(rows, times, now, end);
          if db.solo { SentIsRan(old(db.state), db.state, me, run); }
          return;
        }
        OneMoreSent(rows, times, now);
        times := times + [now];
      }
      ghost var before := db.state;
      ok, run := CommitBatch(me, rows, times);
      ReachesTransitive(db.cfg, old(db.state), before, db.state);
      if db.solo { RanAfterSending(old(db.state), before, db.state, me, run); }
    }

    /** Begin, claim, publish and mark, commit. */
    method RunTick(me: nat) returns (ok: bool, ghost run: TickRun)
      requires db.Valid() && me in db.state.ticks && db.state.ticks[me] == Tick(batchSize, Waiting, None)
      modifies db
      ensures db.Valid() && Reaches(db.cfg, old(db.state), db.state)
      ensures me in db.state.ticks && db.state.ticks[me] == Tick(batchSize, Ended(ok), None)
      ensures WellFormed(run) && (ok <==> run.end.Committed?)
      ensures db.solo ==> Ran(old(db.state), db.state, me, run)
      ensures db.solo && NobodyClaims(old(db.state)) ==> PossibleTick(old(db.state).db.outbox, batchSize, run)
      ensures db.solo && db.reliable && batchSize >= 0 && ConnectionFree(db.cfg, old(db.state)) ==> ok
    {
      run := TickRun([], [], NotClaimed);
      var rows;
      rows, ok := ClaimBatch(me);
      ghost var claimed := db.state;
      if !ok {
        if db.solo { SentIsRan(old(db.state), db.state, me, run); }
        return;
      }
      ok, run := PublishAll(me, rows);
      ReachesTransitive(db.cfg, old(db.state), claimed, db.state);
      if db.solo { RanSince(old(db.state), claimed, db.state, me, run); }
    }

    static lemma RanTick(cfg: Config, s: State, entered: State, s': State, me: nat, batchSize: int, run: TickRun)
      requires Sent(s, entered, me, []) && WellFormed(run) && Ran(entered, s', me, run) && s'.ticks[me].tx.None?
      requires NobodyClaims(s) ==> PossibleTick(s.db.outbox, batchSize, run)
      ensures NobodyClaims(s) ==> RanAlone(s, s', batchSize, [run])
      ensures Idle(cfg, s) ==> Idle(cfg, s')
    {
      RanSince(s, entered, s', me, run);
      if NobodyClaims(s) { RanOne(s, s', batchSize, run); }
    }

    method Enter(me: nat)
      requires db.Valid() && me !in db.state.ticks
      modifies db
      ensures db.Valid() && Reaches(db.cfg, old(db.state), db.state)
      ensures Sent(old(db.state), db.state, me, [])
      ensures db.state.ticks[me] == Tick(batchSize, Waiting, None)
    {
      db.Act(StartTick(me, batchSize));
    }

    /** One tick under interference and failures takes only steps of the system and ends with its
        transaction closed; alone, it does exactly what `run` records, and undisturbed it commits. */
    method PublishOnce(me: nat) returns (ok: bool, ghost run: TickRun)
      requires db.Valid() && me !in db.state.ticks
      modifies db
      ensures db.Valid() && Reaches(db.cfg, old(db.state), db.state)
      ensures me in db.state.ticks && db.state.ticks[me] == Tick(batchSize, Ended(ok), None)
      ensures ok <==> run.end.Committed?
      ensures db.solo && NobodyClaims(old(db.state)) ==> RanAlone(old(db.state), db.state, batchSize, [run])
      ensures old(Undisturbed()) ==> ok && Undisturbed()
    {
      Enter(me);
      ghost var entered := db.state;
      if db.solo { EnteredAlike(db.cfg, old(db.state), entered, me); }
      ok, run := RunTick(me);
      ReachesTransitive(db.cfg, old(db.state), entered, db.state);
      if db.solo { RanTick(db.cfg, old(db.state), entered, db.state, me, batchSize, run); }
    }

    /** `n` ticks one after the other, as `Start` runs them before its context ends; a failed tick
        is logged and the next one follows. */
    method Start(n: nat) returns (ghost runs: seq<TickRun>)
      requires db.Valid()
      modifies db
      ensures db.Valid() && Reaches(db.cfg, old(db.state), db.state) && |runs| == n
      ensures db.solo && NobodyClaims(old(db.state)) ==> RanAlone(old(db.state), db.state, batchSize, runs)
      ensures old(Undisturbed()) ==> AllCommitted(runs) && Undisturbed()
      ensures old(Undisturbed()) && batchSize >= 1 ==>
                Drained(old(db.state), db.state, n, batchSize, CallsOfRuns(runs))
    {
      runs := [];
      ReachesSelf(db.cfg, db.state);
      for k := 0 to n
        invariant db.Valid() && Reaches(db.cfg, old(db.state), db.state) && |runs| == k
        invariant db.solo && NobodyClaims(old(db.state)) ==> RanAlone(old(db.state), db.state, batchSize, runs)
        invariant old(Undisturbed()) ==> AllCommitted(runs) && Undisturbed()
      {
        ghost var before := db.state;
        var me := Database.Unused(db.state.ticks.Keys);
        var ok;
        ghost var run;
        ok, run := PublishOnce(me);
        ReachesTransitive(db.cfg, old(db.state), before, db.state);
        if db.solo && NobodyClaims(old(db.state)) {
          RanOneMore(old(db.state), before, db.state, batchSize, runs, run);
        }
        runs := runs + [run];
      }
      if old(Undisturbed()) && batchSize >= 1 {
        IdleIsFree(db.cfg, old(db.state));
        DrainedByRuns(old(db.state), db.state, batchSize, runs);
      }
    }
  }
}
