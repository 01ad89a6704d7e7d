/** What lies behind an outcome: the step that made a request or a tick fail or succeed, the call that
    dated an event, and what may fail at all. */
module Causes {
  import opened Domain
  import opened Tables
  import opened Protocol
  import opened Invariant
  import opened Preservation
  import opened Growth

  // ---- Requests ----

  /** The own step of `r` that leads to a failed answer. */
  ghost predicate FailsBy(s: State, r: nat, a: Action, reason: Reason) {
    match reason
    case CallFailed => a == FailReq(r, false) || a == CommitReq(r, Unreported)
    case Crashed => a == FailReq(r, true)
    case InvalidRequest =>
      a.SaveLink? && a.r == r && r in s.reqs
      && (s.reqs[r].call.userId == "" || s.reqs[r].call.externalInstitution == "")
    case KeyUnreadable => false
    case MissingLink => false
    case InvalidLink => false
  }

  ghost predicate FailedWith(s: State, r: nat, reason: Reason) {
    r in s.reqs && s.reqs[r].pc == Finished(Failed(reason))
  }

  lemma NewFailure(cfg: Config, s: State, a: Action, r: nat, reason: Reason)
    requires Enabled(cfg, s, a)
    requires FailedWith(Apply(cfg, s, a), r, reason) && !FailedWith(s, r, reason)
    requires reason.CallFailed? || reason.Crashed? || reason.InvalidRequest?
    ensures FailsBy(s, r, a, reason)
  {
  }

  lemma NoDefensiveError(cfg: Config, s: State, r: nat, reason: Reason)
    requires Inv(cfg, s) && FailedWith(s, r, reason)
    ensures reason.CallFailed? || reason.Crashed? || reason.InvalidRequest?
  {
    assert RequestOk(cfg, s.db, s.issued, s.reqs[r]);
  }

  ghost predicate HasCause(b: Behavior, k: nat, r: nat, reason: Reason)
    requires k <= |b.acts| && |b.states| == |b.acts| + 1
  {
    exists j :: 0 <= j < k && FailsBy(b.states[j], r, b.acts[j], reason)
  }

  /** No request fails of itself: an error comes from a call of its own that failed or a commit of its
      own that did not report, a crash from a crash, and a refusal from a blank user or institution. */
  lemma {:induction false} FailureHasCause(cfg: Config, b: Behavior, k: nat, r: nat, reason: Reason)
    requires IsRun(cfg, b) && k < |b.states| && FailedWith(b.states[k], r, reason)
    ensures HasCause(b, k, r, reason)
  {
    if k > 0 {
      assert Follows(cfg, b, k - 1);
      if FailedWith(b.states[k - 1], r, reason) {
        FailureHasCause(cfg, b, k - 1, r, reason);
      } else {
        RunKeepsInv(cfg, b, k);
        NoDefensiveError(cfg, b.states[k], r, reason);
        NewFailure(cfg, b.states[k - 1], b.acts[k - 1], r, reason);
      }
    }
  }

  // ---- Ticks ----

  ghost predicate EndedWith(s: State, p: nat, ok: bool) {
    p in s.ticks && s.ticks[p].pc == Ended(ok)
  }

  /** The own step of `p` that ends it. */
  ghost predicate EndsBy(s: State, p: nat, a: Action, ok: bool) {
    if ok then a == CommitTick(p, Reported)
    else
      || a == CommitTick(p, Unreported) || (a.FailTick? && a.p == p)
      || (a == RejectClaim(p) && p in s.ticks && s.ticks[p].batchSize < 0)
  }

  lemma NewEnd(cfg: Config, s: State, a: Action, p: nat, ok: bool)
    requires Enabled(cfg, s, a) && EndedWith(Apply(cfg, s, a), p, ok) && !EndedWith(s, p, ok)
    ensures EndsBy(s, p, a, ok)
  {
  }

  /** A tick returns nil only from its own reported commit, and an error only from a call of its own
      that failed, a commit that did not report, or a negative batch size. */
  lemma {:induction false} EndHasCause(cfg: Config, b: Behavior, k: nat, p: nat, ok: bool)
    requires IsRun(cfg, b) && k < |b.states| && EndedWith(b.states[k], p, ok)
    ensures exists j :: 0 <= j < k && EndsBy(b.states[j], p, b.acts[j], ok)
  {
    if k > 0 {
      assert Follows(cfg, b, k - 1);
      if EndedWith(b.states[k - 1], p, ok) {
        EndHasCause(cfg, b, k - 1, p, ok);
      } else {
        NewEnd(cfg, b.states[k - 1], b.acts[k - 1], p, ok);
      }
    }
  }

  // ---- What may fail ----

  /** At every step of an unfinished request the call may fail or the process die, which stores
      nothing, and a commit may land and not report. */
  lemma RequestMayFail(cfg: Config, s: State, r: nat, crash: bool)
    requires r in s.reqs && !s.reqs[r].pc.Finished?
    ensures Enabled(cfg, s, FailReq(r, crash)) && Apply(cfg, s, FailReq(r, crash)).db == s.db
    ensures Enabled(cfg, s, CommitReq(r, Reported)) ==>
              && Enabled(cfg, s, CommitReq(r, Unreported))
              && Apply(cfg, s, CommitReq(r, Unreported)).db == Apply(cfg, s, CommitReq(r, Reported)).db
              && FailedWith(Apply(cfg, s, CommitReq(r, Unreported)), r, CallFailed)
  {
  }

  lemma TickMayFail(cfg: Config, s: State, p: nat, now: Time)
    requires p in s.ticks && !s.ticks[p].pc.Ended?
    ensures Enabled(cfg, s, FailTick(p, now)) && Apply(cfg, s, FailTick(p, now)).db == s.db
    ensures Enabled(cfg, s, CommitTick(p, Reported)) ==>
              && Enabled(cfg, s, CommitTick(p, Unreported))
              && Apply(cfg, s, CommitTick(p, Unreported)).db == Apply(cfg, s, CommitTick(p, Reported)).db
              && EndedWith(Apply(cfg, s, CommitTick(p, Unreported)), p, false)
  {
  }

  // ---- Connections ----

  lemma OpenedBy(cfg: Config, s: State, a: Action)
    requires Enabled(cfg, s, a)
    ensures var s' := Apply(cfg, s, a);
            && OpenReqs(s') <= OpenReqs(s) + (if a.BeginReq? then {a.r} else {})
            && OpenTicks(s') <= OpenTicks(s) + (if a.BeginTick? then {a.p} else {})
    ensures a.BeginReq? || a.BeginTick? || a.FindKey? || a.LoadLink? ==>
              |OpenReqs(s)| + |OpenTicks(s)| < cfg.poolSize
  {
  }

  lemma NotMore<T>(a: set<T>, b: set<T>)
    requires a <= b
    ensures |a| <= |b|
  {
    assert b == a + (b - a);
  }

  lemma AtMostOneMore<T>(a: set<T>, b: set<T>, x: T)
    requires a <= b + {x}
    ensures |a| <= |b| + 1
  {
    NotMore(a, b + {x});
    if x in b { assert b + {x} == b; }
  }

  /** The open transactions never outnumber the connections of the pool. */
  lemma {:induction false} PoolIsNeverExceeded(cfg: Config, b: Behavior, k: nat)
    requires IsRun(cfg, b) && k < |b.states|
    ensures |OpenReqs(b.states[k])| + |OpenTicks(b.states[k])| <= cfg.poolSize
  {
    if k > 0 {
      var s, a, s' := b.states[k - 1], b.acts[k - 1], b.states[k];
      assert Follows(cfg, b, k - 1);
      PoolIsNeverExceeded(cfg, b, k - 1);
      OpenedBy(cfg, s, a);
      if a.BeginReq? {
        AtMostOneMore(OpenReqs(s'), OpenReqs(s), a.r);
      } else {
        NotMore(OpenReqs(s'), OpenReqs(s));
      }
      if a.BeginTick? {
        AtMostOneMore(OpenTicks(s'), OpenTicks(s), a.p);
      } else {
        NotMore(OpenTicks(s'), OpenTicks(s));
      }
    } else {
      assert OpenReqs(INIT) == {} && OpenTicks(INIT) == {};
    }
  }

  // ---- When an event was made ----

  ghost predicate Dated(b: Behavior, k: nat, e: Uuid, at: Time)
    requires k <= |b.acts|
  {
    exists j :: 0 <= j < k && b.acts[j].AddEvent? && b.acts[j].id == e && b.acts[j].at == at
  }

  ghost predicate Announces(s: State, r: nat, e: Uuid, at: Time) {
    r in s.reqs && s.reqs[r].pc.CommittingWin? && s.reqs[r].pc.event.id == e && s.reqs[r].pc.event.createdAt == at
  }

  lemma NewAnnouncement(cfg: Config, s: State, a: Action, r: nat, e: Uuid, at: Time)
    requires Enabled(cfg, s, a) && Announces(Apply(cfg, s, a), r, e, at) && !Announces(s, r, e, at)
    ensures a == AddEvent(r, e, at)
  {
  }

  lemma {:induction false} AnnouncedIsDated(cfg: Config, b: Behavior, k: nat, r: nat, e: Uuid, at: Time)
    requires IsRun(cfg, b) && k < |b.states| && Announces(b.states[k], r, e, at)
    ensures Dated(b, k, e, at)
  {
    if k > 0 {
      assert Follows(cfg, b, k - 1);
      if Announces(b.states[k - 1], r, e, at) {
        AnnouncedIsDated(cfg, b, k - 1, r, e, at);
      } else {
        NewAnnouncement(cfg, b.states[k - 1], b.acts[k - 1], r, e, at);
      }
    }
  }

  lemma NewRow(cfg: Config, s: State, a: Action, e: Uuid)
    requires Inv(cfg, s) && Enabled(cfg, s, a) && e in Apply(cfg, s, a).db.outbox && e !in s.db.outbox
    ensures a.CommitReq? && Announces(s, a.r, e, Apply(cfg, s, a).db.outbox[e].createdAt)
  {
    OnlyCommitsWrite(cfg, s, a);
    if a.CommitTick? { TickCommit(s, a.p); }
    AtCommit(cfg, s, a.r);
    RequestCommit(cfg, s, a.r);
  }

  lemma RowKeepsDate(cfg: Config, s: State, a: Action, e: Uuid)
    requires Inv(cfg, s) && Enabled(cfg, s, a) && e in s.db.outbox
    ensures var s' := Apply(cfg, s, a);
            e in s'.db.outbox && s'.db.outbox[e].createdAt == s.db.outbox[e].createdAt
  {
    StepKeeps(cfg, s, a);
    assert RowKept(s.db.outbox[e], Apply(cfg, s, a).db.outbox[e]);
  }

  /** The creation time of a row is the time of the call that wrote it. */
  lemma {:induction false} RowIsDated(cfg: Config, b: Behavior, k: nat, e: Uuid)
    requires IsRun(cfg, b) && k < |b.states| && e in b.states[k].db.outbox
    ensures Dated(b, k, e, b.states[k].db.outbox[e].createdAt)
  {
    if k > 0 {
      var s, a := b.states[k - 1], b.acts[k - 1];
      assert Follows(cfg, b, k - 1);
      RunKeepsInv(cfg, b, k - 1);
      if e in s.db.outbox {
        RowKeepsDate(cfg, s, a, e);
        RowIsDated(cfg, b, k - 1, e);
      } else {
        NewRow(cfg, s, a, e);
        AnnouncedIsDated(cfg, b, k - 1, a.r, e, b.states[k].db.outbox[e].createdAt);
      }
    }
  }
}
