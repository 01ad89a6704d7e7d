/** What the outbox guarantees over every run: exclusive claims, no publishing after a committed
    mark, a delivery behind every mark, bounded duplicates, and only true messages. */
module OutboxLaws {
  import opened Domain
  import opened Tables
  import opened Protocol
  import opened Invariant
  import opened Preservation
  import opened Growth
  import opened Idempotency

  /** No row is claimed by two open ticks, and a claimed row is stored and not marked. */
  lemma ClaimsAreExclusive(cfg: Config, b: Behavior, k: nat, p: nat, e: Uuid)
    requires IsRun(cfg, b) && k < |b.states|
    requires p in b.states[k].ticks && e in ClaimsOf(b.states[k].ticks[p])
    ensures e in b.states[k].db.outbox && b.states[k].db.outbox[e].publishedAt.None?
    ensures forall o | o in b.states[k].ticks && o != p :: e !in ClaimsOf(b.states[k].ticks[o])
  {
    var s := b.states[k];
    RunKeepsInv(cfg, b, k);
    assert TickOk(s.db.outbox, s.log, s.ticks[p]);
    var row :| row in s.ticks[p].pc.rows && row.id == e;
    assert Holds(s.db.outbox, row);
    assert forall o | o in s.ticks && o != p :: ClaimsOf(s.ticks[p]) !! ClaimsOf(s.ticks[o]);
  }

  /** Step `j` passes row `e` to Publish. */
  predicate Publishes(s: State, s': State, e: Uuid) {
    |s'.log| == |s.log| + 1 && s'.log[|s.log|].event.outboxId == e
  }

  lemma PublishesUnmarked(cfg: Config, s: State, a: Action, e: Uuid)
    requires Inv(cfg, s) && Enabled(cfg, s, a) && Publishes(s, Apply(cfg, s, a), e)
    ensures e in s.db.outbox && s.db.outbox[e].publishedAt.None?
  {
    assert a.Publish? || a.FailTick?;
    NextRowIsUnsent(s, a.p);
  }

  /** Once the mark of a row is committed, no later step passes that row to Publish. */
  lemma NoPublishAfterMark(cfg: Config, b: Behavior, i: nat, j: nat, e: Uuid)
    requires IsRun(cfg, b) && i <= j < |b.acts| && IsMarked(b.states[i].db.outbox, e)
    ensures !Publishes(b.states[j], b.states[j + 1], e)
  {
    RunKeeps(cfg, b, i, j);
    RunKeepsInv(cfg, b, j);
    assert Follows(cfg, b, j);
    assert RowKept(b.states[i].db.outbox[e], b.states[j].db.outbox[e]);
    if Publishes(b.states[j], b.states[j + 1], e) {
      PublishesUnmarked(cfg, b.states[j], b.acts[j], e);
    }
  }

  lemma {:induction false} CountsDelivery(log: seq<PublishCall>, e: Uuid, at: Time)
    requires Delivered(log, e, at)
    ensures Deliveries(log, e) >= 1
  {
    var n :| 0 <= n < |log| && log[n].ok && log[n].event.outboxId == e && log[n].event.publishedAt == at;
    if n < |log| - 1 {
      assert log[..|log| - 1][n] == log[n];
      CountsDelivery(log[..|log| - 1], e, at);
    }
  }

  /** Whenever a row is marked, a successful Publish of it with that very time is already on record. */
  lemma MarkedWasDelivered(cfg: Config, b: Behavior, k: nat, e: Uuid)
    requires IsRun(cfg, b) && k < |b.states| && IsMarked(b.states[k].db.outbox, e)
    ensures Delivered(b.states[k].log, e, b.states[k].db.outbox[e].publishedAt.value)
    ensures Deliveries(b.states[k].log, e) >= 1
  {
    RunKeepsInv(cfg, b, k);
    CountsDelivery(b.states[k].log, e, b.states[k].db.outbox[e].publishedAt.value);
  }

  predicate AbortsClaimOf(s: State, a: Action, e: Uuid) {
    a.FailTick? && a.p in s.ticks && e in ClaimsOf(s.ticks[a.p])
  }

  /** How many ticks that had claimed `e` were aborted in the first `k` steps. */
  ghost function AbortedTicks(b: Behavior, k: nat, e: Uuid): nat
    requires k <= |b.acts| && |b.states| == |b.acts| + 1
  {
    if k == 0 then 0
    else AbortedTicks(b, k - 1, e) + (if AbortsClaimOf(b.states[k - 1], b.acts[k - 1], e) then 1 else 0)
  }

  lemma {:induction false} AbortsAreCounted(cfg: Config, b: Behavior, k: nat, e: Uuid)
    requires IsRun(cfg, b) && k < |b.states|
    ensures b.states[k].aborts[e] == AbortedTicks(b, k, e)
  {
    if k > 0 {
      assert Follows(cfg, b, k - 1);
      AbortsAreCounted(cfg, b, k - 1, e);
    }
  }

  lemma {:induction false} DeliveriesAreCalls(log: seq<PublishCall>, e: Uuid)
    ensures Deliveries(log, e) <= CallsFor(log, e)
  {
    if log != [] { DeliveriesAreCalls(log[..|log| - 1], e); }
  }

  /** At-least-once with a bound: an event is passed to Publish, let alone delivered, at most once
      more than the number of aborted ticks that had claimed it; at most as often as that while it is
      neither marked nor published by an open tick. */
  lemma DuplicateBound(cfg: Config, b: Behavior, k: nat, e: Uuid)
    requires IsRun(cfg, b) && k < |b.states|
    ensures Deliveries(b.states[k].log, e) <= CallsFor(b.states[k].log, e) <= AbortedTicks(b, k, e) + 1
    ensures !IsMarked(b.states[k].db.outbox, e) && !InFlight(b.states[k], e) ==>
              CallsFor(b.states[k].log, e) <= AbortedTicks(b, k, e)
  {
    RunKeepsInv(cfg, b, k);
    AbortsAreCounted(cfg, b, k, e);
    assert CallBound(b.states[k], e);
    DeliveriesAreCalls(b.states[k].log, e);
  }

  /** Every Publish call, successful or not, carries the identifier, user, institution and PENDING
      status of a link still stored unchanged, and the link and the event were committed by one
      transaction. */
  lemma OnlyTrueMessages(cfg: Config, b: Behavior, k: nat, n: nat)
    requires IsRun(cfg, b) && k < |b.states| && n < |b.states[k].log|
    ensures var s := b.states[k];
            var message := s.log[n].event;
            && message.aggregateId in s.db.links && message.outboxId in s.db.outbox
            && var link, row := s.db.links[message.aggregateId], s.db.outbox[message.outboxId];
            && message.payload == Payload(link.id, link.userId, link.externalInstitution, "PENDING")
            && link.status == "PENDING" && message.payload.id == message.aggregateId
            && message.eventType == "AccountLinkCreated" && message.aggregateType == "AccountLink"
            && message.createdAt == row.createdAt && row.aggregateId == message.aggregateId
            && message.aggregateId in s.origin && !s.origin[message.aggregateId].LostRace?
            && s.origin[message.aggregateId].eventId == message.outboxId
            && exists j :: 0 <= j < k && CommittedAt(b, j, message.aggregateId, s.origin[message.aggregateId])
  {
    var s := b.states[k];
    RunKeepsInv(cfg, b, k);
    var message := s.log[n].event;
    assert CallOk(s.db.outbox, message);
    assert RowOk(s.db, s.origin, message.outboxId);
    assert StoredLink(message.aggregateId, s.db.links[message.aggregateId]);
    EventMeaning(message.outboxId, s.db.links[message.aggregateId], message.createdAt);
    OriginIsHistory(cfg, b, k, message.aggregateId);
  }
}
