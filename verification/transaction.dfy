/** `PostgresTx`: one transaction handle, committed or rolled back once, whatever is called later. */
module Transaction {
  import opened Domain
  import opened Tables
  import opened Protocol

  /** What the driver makes of a commit of an open transaction: it lands, and may say so or not, or
      it is lost. */
  datatype CommitEnd = Lands(fate: Fate) | Lost

  datatype HandleCall = CommitCall(end: CommitEnd) | RollbackCall(works: bool)

  /** The handle and the committed tables behind it. */
  datatype Handle = Handle(open: bool, db: Tables)

  function Stored(db: Tables, tx: Tx): Tables {
    Commit(db, tx)
  }

  function AfterCall(h: Handle, tx: Tx, call: HandleCall): Handle {
    Handle(false, if h.open && call.CommitCall? && call.end.Lands? then Stored(h.db, tx) else h.db)
  }

  /** Whether the call returns nil: a closed transaction is no error. */
  predicate ReturnsNil(h: Handle, call: HandleCall) {
    !h.open || match call
               case CommitCall(end) => end == Lands(Reported)
               case RollbackCall(works) => works
  }

  function AfterCalls(h: Handle, tx: Tx, calls: seq<HandleCall>): Handle {
    if calls == [] then h else AfterCall(AfterCalls(h, tx, calls[..|calls| - 1]), tx, calls[|calls| - 1])
  }

  class PostgresTx {
    const tx: Tx
    var open: bool
    var db: Tables

    function State(): Handle
      reads this
    {
      Handle(open, db)
    }

    constructor (tx: Tx, db: Tables)
      ensures this.tx == tx && State() == Handle(true, db)
    {
      this.tx := tx;
      this.db := db;
      open := true;
    }

    method CommitTx(end: CommitEnd) returns (ok: bool)
      modifies this
      ensures State() == AfterCall(old(State()), tx, CommitCall(end))
      ensures ok <==> ReturnsNil(old(State()), CommitCall(end))
      ensures !open && db == if old(open) && end.Lands? then Commit(old(db), tx) else old(db)
      ensures ok <==> !old(open) || end == Lands(Reported)
    {
      if !open { return true; }
      open := false;
      if end.Lands? {
        db := Commit(db, tx);
        return end.fate.Reported?;
      }
      return false;
    }

    method RollbackTx(works: bool) returns (ok: bool)
      modifies this
      ensures State() == AfterCall(old(State()), tx, RollbackCall(works))
      ensures ok <==> ReturnsNil(old(State()), RollbackCall(works))
      ensures !open && db == old(db)
      ensures ok <==> !old(open) || works
    {
      if !open { return true; }
      open := false;
      return works;
    }
  }

  /** Only the first call on a handle can store anything: all or nothing, and once. */
  lemma {:induction false} StoresOnce(db: Tables, tx: Tx, calls: seq<HandleCall>)
    requires calls != []
    ensures AfterCalls(Handle(true, db), tx, calls) ==
            Handle(false, if calls[0].CommitCall? && calls[0].end.Lands? then Stored(db, tx) else db)
  {
    var init := calls[..|calls| - 1];
    if init == [] {
      assert AfterCalls(Handle(true, db), tx, init) == Handle(true, db);
    } else {
      StoresOnce(db, tx, init);
    }
  }

  /** A deferred rollback changes nothing that earlier calls stored, and says nil after any of them. */
  lemma DeferredRollback(db: Tables, tx: Tx, calls: seq<HandleCall>, works: bool)
    ensures var before := AfterCalls(Handle(true, db), tx, calls);
            && AfterCalls(Handle(true, db), tx, calls + [RollbackCall(works)]) == Handle(false, before.db)
            && (calls != [] ==> ReturnsNil(before, RollbackCall(works)))
  {
    assert (calls + [RollbackCall(works)])[..|calls|] == calls;
    if calls != [] { StoresOnce(db, tx, calls); }
  }

  /** Nil from Commit means the writes are stored, provided it is the first call: after a rollback it
      is nil too, and nothing is stored. */
  lemma NilMeansStored(db: Tables, tx: Tx, before: seq<HandleCall>, end: CommitEnd)
    requires Stored(db, tx) != db && ReturnsNil(AfterCalls(Handle(true, db), tx, before), CommitCall(end))
    ensures AfterCalls(Handle(true, db), tx, before + [CommitCall(end)]).db == Stored(db, tx) <==>
            before == [] || (before[0].CommitCall? && before[0].end.Lands?)
  {
    assert (before + [CommitCall(end)])[..|before|] == before;
    if before != [] { StoresOnce(db, tx, before); }
  }

  /** The commit of a request and its deferred rollback are the one commit step of the system; a lost
      commit or an error return and the deferred rollback leave the tables to the others. */
  lemma DeferredRollbackIsNoStep(s: State, r: nat, fate: Fate, works: bool)
    requires AtRequestCommit(s, r)
    ensures AfterCalls(Handle(true, s.db), s.reqs[r].tx.value, [CommitCall(Lands(fate)), RollbackCall(works)]).db ==
            AfterCommitReq(s, r, fate).db
    ensures AfterCalls(Handle(true, s.db), s.reqs[r].tx.value, [CommitCall(Lost), RollbackCall(works)]).db == s.db
    ensures AfterCalls(Handle(true, s.db), s.reqs[r].tx.value, [RollbackCall(works)]).db == s.db
  {
    StoresOnce(s.db, s.reqs[r].tx.value, [CommitCall(Lands(fate)), RollbackCall(works)]);
    StoresOnce(s.db, s.reqs[r].tx.value, [CommitCall(Lost), RollbackCall(works)]);
    StoresOnce(s.db, s.reqs[r].tx.value, [RollbackCall(works)]);
  }

  /** The same for a tick. */
  lemma DeferredRollbackIsNoTickStep(s: State, p: nat, fate: Fate, works: bool)
    requires AtTickCommit(s, p)
    ensures AfterCalls(Handle(true, s.db), s.ticks[p].tx.value, [CommitCall(Lands(fate)), RollbackCall(works)]).db ==
            AfterCommitTick(s, p, fate).db
    ensures AfterCalls(Handle(true, s.db), s.ticks[p].tx.value, [CommitCall(Lost), RollbackCall(works)]).db == s.db
    ensures AfterCalls(Handle(true, s.db), s.ticks[p].tx.value, [RollbackCall(works)]).db == s.db
  {
    StoresOnce(s.db, s.ticks[p].tx.value, [CommitCall(Lands(fate)), RollbackCall(works)]);
    StoresOnce(s.db, s.ticks[p].tx.value, [CommitCall(Lost), RollbackCall(works)]);
    StoresOnce(s.db, s.ticks[p].tx.value, [RollbackCall(works)]);
  }
}
