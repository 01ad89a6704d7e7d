/** What a series of `PublishOnce` ticks does when one processor has the outbox to itself:
    retries repeat exactly the rows before the failure, and successful ticks drain the table in
    creation order. */
module Ticks {
  import opened Domain
  import opened Tables
  import opened Protocol
  import opened Invariant
  import opened Claims

  datatype TickEnd =
    | Committed              // nil was returned
    | CommitUnreported       // the commit landed but an error was returned
    | NotClaimed             // Begin or the claiming query failed
    | PublishFailed(now: Time)
    | MarkFailed
    | CommitFailed

  /** One tick: the rows it claimed, when it published the first of them, and how it ended. */
  datatype TickRun = TickRun(rows: seq<OutboxEvent>, times: seq<Time>, end: TickEnd)

  predicate WellFormed(t: TickRun) {
    && |t.times| <= |t.rows|
    && match t.end
       case Committed => |t.times| == |t.rows|
       case CommitUnreported => |t.times| == |t.rows|
       case CommitFailed => |t.times| == |t.rows|
       case NotClaimed => t.rows == []
       case PublishFailed(_) => |t.times| < |t.rows|
       case MarkFailed => |t.times| > 0
  }

  /** The calls that put the first rows on the wire, one for each time. */
  function SentCalls(rows: seq<OutboxEvent>, times: seq<Time>): seq<PublishCall>
    requires |times| <= |rows|
  {
    seq(|times|, i requires 0 <= i < |times| => PublishCall(Message(rows[i], times[i]), true))
  }

  function Calls(t: TickRun): seq<PublishCall>
    requires WellFormed(t)
  {
    SentCalls(t.rows, t.times) +
    (if t.end.PublishFailed? then [PublishCall(Message(t.rows[|t.times|], t.end.now), false)] else [])
  }

  function Marks(rows: seq<OutboxEvent>, times: seq<Time>): map<Uuid, Time>
    requires |times| <= |rows|
  {
    if times == [] then map[]
    else Marks(rows, times[..|times| - 1])[rows[|times| - 1].id := times[|times| - 1]]
  }

  predicate Landed(t: TickRun) {
    t.end.Committed? || t.end.CommitUnreported?
  }

  function OutboxAfter(outbox: map<Uuid, OutboxEvent>, t: TickRun): map<Uuid, OutboxEvent>
    requires WellFormed(t)
  {
    if Landed(t) then Marked(outbox, Marks(t.rows, t.times)) else outbox
  }

  /** `t` is a possible tick of a processor alone with this outbox. */
  predicate PossibleTick(outbox: map<Uuid, OutboxEvent>, batchSize: int, t: TickRun) {
    && WellFormed(t)
    && (!t.end.NotClaimed? ==> batchSize >= 0 && IsClaim(outbox, {}, batchSize, t.rows))
  }

  // ---- A series of ticks ----

  function OutboxAfterRuns(outbox: map<Uuid, OutboxEvent>, runs: seq<TickRun>): map<Uuid, OutboxEvent> {
    if runs == [] then outbox
    else
      var before := OutboxAfterRuns(outbox, runs[..|runs| - 1]);
      if WellFormed(runs[|runs| - 1]) then OutboxAfter(before, runs[|runs| - 1]) else before
  }

  ghost predicate PossibleRuns(outbox: map<Uuid, OutboxEvent>, batchSize: int, runs: seq<TickRun>) {
    runs != [] ==>
      && PossibleRuns(outbox, batchSize, runs[..|runs| - 1])
      && PossibleTick(OutboxAfterRuns(outbox, runs[..|runs| - 1]), batchSize, runs[|runs| - 1])
  }

  function CallsOfRuns(runs: seq<TickRun>): seq<PublishCall> {
    if runs == [] then []
    else CallsOfRuns(runs[..|runs| - 1]) + (if WellFormed(runs[|runs| - 1]) then Calls(runs[|runs| - 1]) else [])
  }

  lemma AppendRun(outbox: map<Uuid, OutboxEvent>, batchSize: int, runs: seq<TickRun>, t: TickRun)
    requires PossibleRuns(outbox, batchSize, runs) && PossibleTick(OutboxAfterRuns(outbox, runs), batchSize, t)
    ensures PossibleRuns(outbox, batchSize, runs + [t])
    ensures OutboxAfterRuns(outbox, runs + [t]) == OutboxAfter(OutboxAfterRuns(outbox, runs), t)
    ensures CallsOfRuns(runs + [t]) == CallsOfRuns(runs) + Calls(t)
  {
    assert (runs + [t])[..|runs|] == runs;
  }

  lemma SingleRun(outbox: map<Uuid, OutboxEvent>, batchSize: int, t: TickRun)
    ensures PossibleRuns(outbox, batchSize, [t]) <==> PossibleTick(outbox, batchSize, t)
    ensures PossibleTick(outbox, batchSize, t) ==>
              OutboxAfterRuns(outbox, [t]) == OutboxAfter(outbox, t) && CallsOfRuns([t]) == Calls(t)
  {
    assert [t][..0] == [];
    assert OutboxAfterRuns(outbox, []) == outbox && CallsOfRuns([]) == [];
    assert PossibleRuns(outbox, batchSize, []);
    if PossibleTick(outbox, batchSize, t) { assert [] + Calls(t) == Calls(t); }
  }

  // ---- Counting deliveries ----

  lemma {:induction false} DeliveriesAdd(a: seq<PublishCall>, b: seq<PublishCall>, e: Uuid)
    ensures Deliveries(a + b, e) == Deliveries(a, e) + Deliveries(b, e)
  {
    if b == [] {
      assert a + b == a;
    } else {
      DeliveriesAdd(a, b[..|b| - 1], e);
      assert (a + b)[..|a + b| - 1] == a + b[..|b| - 1];
    }
  }

  /** Distinct rows are each sent once: a row is counted exactly if its place was reached. */
  lemma {:induction false} SentOnce(rows: seq<OutboxEvent>, times: seq<Time>, e: Uuid)
    requires |times| <= |rows| && Distinct(rows)
    ensures Deliveries(SentCalls(rows, times), e) == if e in Ids(rows[..|times|]) then 1 else 0
  {
    if times != [] {
      var n := |times| - 1;
      SentOnce(rows, times[..n], e);
      var calls := SentCalls(rows, times);
      assert calls[..n] == SentCalls(rows, times[..n]);
      assert rows[..|times|] == rows[..n] + [rows[n]];
      assert Ids(rows[..|times|]) == Ids(rows[..n]) + {rows[n].id};
      assert rows[n].id !in Ids(rows[..n]);
    }
  }

  lemma CallsCount(t: TickRun, e: Uuid)
    requires WellFormed(t) && Distinct(t.rows)
    ensures Deliveries(Calls(t), e) == if e in Ids(t.rows[..|t.times|]) then 1 else 0
  {
    SentOnce(t.rows, t.times, e);
    if t.end.PublishFailed? {
      var last := [PublishCall(Message(t.rows[|t.times|], t.end.now), false)];
      DeliveriesAdd(SentCalls(t.rows, t.times), last, e);
      assert last[..0] == [] && Deliveries(last[..0], e) == 0;
    } else {
      assert Calls(t) == SentCalls(t.rows, t.times);
    }
  }

  // ---- Failing ticks ----

  predicate FailsAt(t: TickRun, batch: seq<OutboxEvent>, position: nat) {
    t.rows == batch && |t.times| == position < |batch| && t.end.PublishFailed?
  }

  lemma InPrefix(batch: seq<OutboxEvent>, position: nat, j: nat)
    requires Distinct(batch) && position <= |batch| && j < |batch|
    ensures batch[j].id in Ids(batch[..position]) <==> j < position
  {
    if j < position { assert batch[..position][j] == batch[j]; }
  }

  lemma CallsAreBeforeFailure(t: TickRun, batch: seq<OutboxEvent>, position: nat)
    requires FailsAt(t, batch, position)
    ensures forall call | call in Calls(t) ::
              exists j :: 0 <= j <= position && call.event.outboxId == batch[j].id && (call.ok <==> j < position)
  {
    forall call | call in Calls(t)
      ensures exists j :: 0 <= j <= position && call.event.outboxId == batch[j].id && (call.ok <==> j < position)
    {
      var n :| 0 <= n < |Calls(t)| && Calls(t)[n] == call;
      assert call.event.outboxId == batch[n].id;
    }
  }

  /** k ticks that fail publishing the event at one position of one batch: each event before it
      goes out exactly k times, nothing is marked, and no event behind it is ever passed on. */
  lemma {:induction false} FailingTicks(outbox: map<Uuid, OutboxEvent>, runs: seq<TickRun>, batch: seq<OutboxEvent>, position: nat)
    requires Distinct(batch) && position < |batch|
    requires forall t | t in runs :: FailsAt(t, batch, position)
    ensures OutboxAfterRuns(outbox, runs) == outbox
    ensures forall j | 0 <= j < |batch| ::
              Deliveries(CallsOfRuns(runs), batch[j].id) == if j < position then |runs| else 0
    ensures forall call | call in CallsOfRuns(runs) ::
              exists j :: 0 <= j <= position && call.event.outboxId == batch[j].id && (call.ok <==> j < position)
  {
    if runs != [] {
      var rest, t := runs[..|runs| - 1], runs[|runs| - 1];
      assert t in runs && WellFormed(t);
      FailingTicks(outbox, rest, batch, position);
      forall j | 0 <= j < |batch|
        ensures Deliveries(CallsOfRuns(runs), batch[j].id) == if j < position then |runs| else 0
      {
        DeliveriesAdd(CallsOfRuns(rest), Calls(t), batch[j].id);
        CallsCount(t, batch[j].id);
        InPrefix(batch, position, j);
      }
      CallsAreBeforeFailure(t, batch, position);
    }
  }

  /** Ticks that keep failing at one position do see one batch: the outbox stays as it is, and
      without ties in creation time it has just one oldest batch. */
  lemma {:induction false} FailingTicksSeeOneBatch(
    outbox: map<Uuid, OutboxEvent>,
    batchSize: nat,
    runs: seq<TickRun>,
    batch: seq<OutboxEvent>,
    position: nat)
    requires IsClaim(outbox, {}, batchSize, batch) && NoTies(outbox, {}) && PossibleRuns(outbox, batchSize, runs)
    requires forall t | t in runs :: t.end.PublishFailed? && |t.times| == position
    ensures OutboxAfterRuns(outbox, runs) == outbox
    ensures forall t | t in runs :: FailsAt(t, batch, position)
  {
    if runs != [] {
      var n := |runs| - 1;
      FailingTicksSeeOneBatch(outbox, batchSize, runs[..n], batch, position);
      assert runs[n] in runs;
      ClaimIsUnique(outbox, {}, batchSize, runs[n].rows, batch);
      forall t | t in runs ensures FailsAt(t, batch, position) { assert t in runs[..n] || t == runs[n]; }
    }
  }

  // ---- Draining ----

  function Unpublished(outbox: map<Uuid, OutboxEvent>): set<Uuid> {
    set e | e in outbox && outbox[e].publishedAt.None?
  }

  lemma {:induction false} MarksAreRows(rows: seq<OutboxEvent>, times: seq<Time>)
    requires |times| <= |rows|
    ensures Marks(rows, times).Keys == Ids(rows[..|times|])
  {
    if times != [] {
      var n := |times| - 1;
      MarksAreRows(rows, times[..n]);
      assert rows[..|times|] == rows[..n] + [rows[n]];
    }
  }

  lemma ClaimIsUnpublished(outbox: map<Uuid, OutboxEvent>, limit: nat, rows: seq<OutboxEvent>)
    requires IsClaim(outbox, {}, limit, rows)
    ensures Ids(rows) <= Unpublished(outbox)
    ensures forall row | row in rows :: outbox[row.id] == row
    ensures |rows| < limit ==> Ids(rows) == Unpublished(outbox)
    ensures forall e | e in Unpublished(outbox) - Ids(rows) :: forall row | row in rows :: row.createdAt <= outbox[e].createdAt
  {
    forall e | e in Ids(rows) ensures e in Unpublished(outbox) {
      var row :| row in rows && row.id == e;
      assert Claimable(outbox, {}, row.id);
    }
    forall e | e in Unpublished(outbox) - Ids(rows) ensures Claimable(outbox, {}, e) {}
  }

  lemma LandedMarks(outbox: map<Uuid, OutboxEvent>, t: TickRun)
    requires WellFormed(t) && Landed(t)
    ensures Unpublished(OutboxAfter(outbox, t)) == Unpublished(outbox) - Ids(t.rows)
    ensures forall e | e in Unpublished(OutboxAfter(outbox, t)) :: OutboxAfter(outbox, t)[e] == outbox[e]
  {
    MarksAreRows(t.rows, t.times);
    assert t.rows[..|t.times|] == t.rows;
  }

  lemma SizeLeft(all: set<Uuid>, taken: set<Uuid>)
    requires taken <= all
    ensures |all - taken| == |all| - |taken|
  {
    assert all == (all - taken) + taken;
  }

  /** A committed tick takes the oldest rows out of the unpublished ones, up to the batch size. */
  lemma CommittedTick(outbox: map<Uuid, OutboxEvent>, batchSize: nat, t: TickRun)
    requires PossibleTick(outbox, batchSize, t) && t.end.Committed?
    ensures var left := Unpublished(OutboxAfter(outbox, t));
            && left == Unpublished(outbox) - Ids(t.rows) && Ids(t.rows) <= Unpublished(outbox)
            && |left| == (if |Unpublished(outbox)| < batchSize then 0 else |Unpublished(outbox)| - batchSize)
  {
    LandedMarks(outbox, t);
    ClaimIsUnpublished(outbox, batchSize, t.rows);
    DistinctIds(t.rows);
    SizeLeft(Unpublished(outbox), Ids(t.rows));
  }

  predicate InCreationOrder(calls: seq<PublishCall>) {
    forall i, j | 0 <= i < j < |calls| :: calls[i].event.createdAt <= calls[j].event.createdAt
  }

  ghost predicate BeforeRemaining(calls: seq<PublishCall>, outbox: map<Uuid, OutboxEvent>) {
    forall call, e | call in calls && e in Unpublished(outbox) :: call.event.createdAt <= outbox[e].createdAt
  }

  lemma ClaimContinuesOrder(calls: seq<PublishCall>, outbox: map<Uuid, OutboxEvent>, limit: nat, rows: seq<OutboxEvent>, times: seq<Time>)
    requires IsClaim(outbox, {}, limit, rows) && |times| == |rows|
    requires InCreationOrder(calls) && BeforeRemaining(calls, outbox)
    ensures InCreationOrder(calls + SentCalls(rows, times))
  {
    ClaimIsUnpublished(outbox, limit, rows);
    var sent := SentCalls(rows, times);
    forall i, j | 0 <= i < |calls| && 0 <= j < |sent| ensures calls[i].event.createdAt <= sent[j].event.createdAt {
      assert calls[i] in calls && rows[j] in rows;
      assert rows[j].id in Unpublished(outbox);
    }
  }

  lemma CommittedTickKeepsOrder(calls: seq<PublishCall>, outbox: map<Uuid, OutboxEvent>, batchSize: nat, t: TickRun)
    requires PossibleTick(outbox, batchSize, t) && t.end.Committed?
    requires InCreationOrder(calls) && BeforeRemaining(calls, outbox)
    ensures InCreationOrder(calls + Calls(t)) && BeforeRemaining(calls + Calls(t), OutboxAfter(outbox, t))
  {
    assert Calls(t) == SentCalls(t.rows, t.times);
    ClaimContinuesOrder(calls, outbox, batchSize, t.rows, t.times);
    LandedMarks(outbox, t);
    ClaimIsUnpublished(outbox, batchSize, t.rows);
    forall call, e | call in calls + Calls(t) && e in Unpublished(OutboxAfter(outbox, t))
      ensures call.event.createdAt <= OutboxAfter(outbox, t)[e].createdAt
    {
      assert e in Unpublished(outbox) - Ids(t.rows);
      if call in Calls(t) {
        var n :| 0 <= n < |Calls(t)| && Calls(t)[n] == call;
        assert t.rows[n] in t.rows;
      }
    }
  }

  ghost predicate AllCommitted(runs: seq<TickRun>) {
    forall t | t in runs :: t.end.Committed?
  }

  /** What is left after the runs, and how often each row went out to get there. */
  ghost predicate SentExactlyOnce(outbox: map<Uuid, OutboxEvent>, runs: seq<TickRun>) {
    && Unpublished(OutboxAfterRuns(outbox, runs)) <= Unpublished(outbox)
    && forall e :: Deliveries(CallsOfRuns(runs), e) ==
                   if e in Unpublished(outbox) - Unpublished(OutboxAfterRuns(outbox, runs)) then 1 else 0
  }

  lemma CommittedTickSends(outbox: map<Uuid, OutboxEvent>, batchSize: nat, runs: seq<TickRun>)
    requires runs != [] && runs[|runs| - 1].end.Committed?
    requires PossibleTick(OutboxAfterRuns(outbox, runs[..|runs| - 1]), batchSize, runs[|runs| - 1])
    requires SentExactlyOnce(outbox, runs[..|runs| - 1])
    ensures SentExactlyOnce(outbox, runs)
  {
    var rest, t := runs[..|runs| - 1], runs[|runs| - 1];
    CommittedTick(OutboxAfterRuns(outbox, rest), batchSize, t);
    assert t.rows[..|t.times|] == t.rows;
    forall e
      ensures Deliveries(CallsOfRuns(runs), e) ==
              if e in Unpublished(outbox) - Unpublished(OutboxAfterRuns(outbox, runs)) then 1 else 0
    {
      DeliveriesAdd(CallsOfRuns(rest), Calls(t), e);
      CallsCount(t, e);
    }
  }

  lemma OneMore(k: nat, d: nat)
    requires k > 0
    ensures k * d == (k - 1) * d + d
  {
  }

  /** With N unpublished rows and batch size B, after k successful ticks N - k * B rows are left, or
      none; every row that is no longer left went out exactly once, no other row went out, and the
      publish sequence of all ticks together is in creation order. */
  lemma {:induction false} Draining(outbox: map<Uuid, OutboxEvent>, batchSize: nat, runs: seq<TickRun>)
    requires PossibleRuns(outbox, batchSize, runs) && AllCommitted(runs)
    ensures |Unpublished(OutboxAfterRuns(outbox, runs))| ==
            if |runs| * batchSize < |Unpublished(outbox)| then |Unpublished(outbox)| - |runs| * batchSize else 0
    ensures SentExactlyOnce(outbox, runs)
    ensures InCreationOrder(CallsOfRuns(runs)) && BeforeRemaining(CallsOfRuns(runs), OutboxAfterRuns(outbox, runs))
  {
    if runs != [] {
      var rest, t := runs[..|runs| - 1], runs[|runs| - 1];
      var before := OutboxAfterRuns(outbox, rest);
      assert t in runs;
      Draining(outbox, batchSize, rest);
      CommittedTick(before, batchSize, t);
      CommittedTickKeepsOrder(CallsOfRuns(rest), before, batchSize, t);
      CommittedTickSends(outbox, batchSize, runs);
      OneMore(|runs|, batchSize);
    }
  }

  function CeilDiv(n: nat, d: nat): nat
    requires d >= 1
  {
    (n + d - 1) / d
  }

  lemma {:induction false} CeilDivBound(n: nat, d: nat, k: nat)
    requires d >= 1
    ensures k * d >= n <==> k >= CeilDiv(n, d)
  {
    var q := CeilDiv(n, d);
    var r := (n + d - 1) % d;
    assert n + d - 1 == q * d + r;
    if k >= q {
      assert (k - q) * d >= 0;
      assert k * d == q * d + (k - q) * d;
    } else {
      assert (q - 1 - k) * d >= 0;
      assert (q - 1) * d == k * d + (q - 1 - k) * d;
      assert q * d == (q - 1) * d + d;
    }
  }

  /** Exactly ceil(N / B) successful ticks empty the outbox: fewer leave rows, as many leave none. */
  lemma DrainBound(outbox: map<Uuid, OutboxEvent>, batchSize: nat, runs: seq<TickRun>)
    requires batchSize >= 1 && PossibleRuns(outbox, batchSize, runs) && AllCommitted(runs)
    ensures Unpublished(OutboxAfterRuns(outbox, runs)) == {} <==> |runs| >= CeilDiv(|Unpublished(outbox)|, batchSize)
  {
    Draining(outbox, batchSize, runs);
    CeilDivBound(|Unpublished(outbox)|, batchSize, |runs|);
  }
}
