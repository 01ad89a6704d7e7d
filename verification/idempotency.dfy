/** What an idempotency key guarantees over every interleaving of requests, failures, crashes
    and commits that land but report an error. */
module Idempotency {
  import opened Domain
  import opened Tables
  import opened Protocol
  import opened Invariant
  import opened Preservation
  import opened Growth

  // ---- The atomic map that the system refines ----

  datatype Entry = Entry(requestHash: string, link: AccountLink)

  type KeyMap = map<string, Entry>

  function Abstract(db: Tables): KeyMap {
    map key | key in db.keys && db.keys[key].accountLinkId in db.links ::
      Entry(db.keys[key].requestHash, db.links[db.keys[key].accountLinkId])
  }

  /** `Create` as one indivisible operation; `minted` is the link it would make. */
  function AtomicCreate(cfg: Config, m: KeyMap, call: Call, minted: AccountLink): (KeyMap, Response) {
    if call.key !in m then (m[call.key := Entry(RequestHash(cfg, call), minted)], Success(minted, true))
    else if m[call.key].requestHash != RequestHash(cfg, call) then (m, Conflict)
    else (m, Success(m[call.key].link, false))
  }

  ghost predicate Referenced(db: Tables) {
    forall key | key in db.keys :: db.keys[key].accountLinkId in db.links
  }

  lemma TablesAreReferenced(cfg: Config, s: State)
    requires TablesOk(cfg, s)
    ensures Referenced(s.db)
  {
    forall key | key in s.db.keys ensures s.db.keys[key].accountLinkId in s.db.links {
      assert KeyOk(cfg, s.db, s.origin, key);
    }
  }

  lemma SameAbstract(db: Tables, db': Tables)
    requires Referenced(db) && db'.keys == db.keys
    requires forall id | id in db.links :: id in db'.links && db'.links[id] == db.links[id]
    ensures Abstract(db') == Abstract(db)
  {
  }

  lemma AbstractGains(db: Tables, db': Tables, rec: IdempotencyRecord, link: AccountLink)
    requires Referenced(db) && rec.accountLinkId == link.id && link.id !in db.links
    requires db'.links == db.links[link.id := link] && db'.keys == db.keys[rec.key := rec]
    ensures Abstract(db') == Abstract(db)[rec.key := Entry(rec.requestHash, link)]
  {
  }

  predicate WinsKey(s: State, a: Action) {
    a.CommitReq? && a.r in s.reqs && s.reqs[a.r].pc.CommittingWin? && s.reqs[a.r].call.key != ""
  }

  /** Every step either leaves the abstract map alone or is one atomic create that finds its key
      free: a winner's commit, whether or not the winner hears of it. */
  lemma Simulation(cfg: Config, s: State, a: Action)
    requires Inv(cfg, s) && Enabled(cfg, s, a)
    ensures var s' := Apply(cfg, s, a);
            if WinsKey(s, a) then
              AtomicCreate(cfg, Abstract(s.db), s.reqs[a.r].call, s.reqs[a.r].pc.link) ==
              (Abstract(s'.db), Success(s.reqs[a.r].pc.link, true))
            else Abstract(s'.db) == Abstract(s.db)
  {
    TablesAreReferenced(cfg, s);
    if a.CommitReq? {
      var q := s.reqs[a.r];
      AtCommit(cfg, s, a.r);
      RequestCommit(cfg, s, a.r);
      if WinsKey(s, a) {
        AbstractGains(s.db, Apply(cfg, s, a).db, NewRecord(cfg, q.call, q.pc.link), q.pc.link);
      } else {
        SameAbstract(s.db, Apply(cfg, s, a).db);
      }
    } else {
      OnlyCommitsWrite(cfg, s, a);
      if a.CommitTick? { TickCommit(s, a.p); }
      SameAbstract(s.db, Apply(cfg, s, a).db);
    }
  }

  /** Step `j` of the run is where request `r` takes effect with this response: its own winning
      commit, or its own lookup of the key. */
  ghost predicate TakesEffect(cfg: Config, b: Behavior, j: nat, r: nat, call: Call, response: Response, minted: AccountLink)
    requires Linked(cfg, b) && j < |b.acts|
  {
    && (b.acts[j] == FindKey(r) || (b.acts[j] == CommitReq(r, Reported) && WinsKey(b.states[j], b.acts[j])))
    && r in b.states[j].reqs && b.states[j].reqs[r].call == call && !b.states[j].reqs[r].pc.Finished?
    && AtomicCreate(cfg, Abstract(b.states[j].db), call, minted) == (Abstract(b.states[j + 1].db), response)
  }

  ghost predicate Effective(cfg: Config, b: Behavior, k: nat, r: nat, call: Call, response: Response)
    requires Linked(cfg, b) && k < |b.states|
  {
    exists j: nat, minted :: j < k && TakesEffect(cfg, b, j, r, call, response, minted)
  }

  predicate Answered(response: Response) {
    response.Success? || response.Conflict?
  }

  /** The answer a request has, or will have once it has loaded the link it replays. */
  function Answer(db: Tables, q: Request): Option<Response> {
    match q.pc
    case Finished(response) => if Answered(response) then Some(response) else None
    case Replaying(rec) =>
      if rec.accountLinkId in db.links then Some(Success(db.links[rec.accountLinkId], false)) else None
    case _ => None
  }

  /** A request that replays a record will find the link. */
  lemma ReplayHasAnswer(cfg: Config, s: State, q: Request)
    requires TablesOk(cfg, s) && RequestOk(cfg, s.db, s.issued, q) && q.pc.Replaying?
    ensures Answer(s.db, q).Some?
  {
    assert KeyOk(cfg, s.db, s.origin, q.call.key);
  }

  lemma OthersLeaveRequest(cfg: Config, s: State, a: Action, r: nat)
    requires Enabled(cfg, s, a) && ActorOf(a) != Client(r) && r in Apply(cfg, s, a).reqs
    ensures r in s.reqs && Apply(cfg, s, a).reqs[r] == s.reqs[r]
  {
  }

  lemma OwnStepAnswers(cfg: Config, s: State, a: Action, r: nat)
    requires Enabled(cfg, s, a) && ActorOf(a) == Client(r)
    requires Answer(Apply(cfg, s, a).db, Apply(cfg, s, a).reqs[r]).Some?
    ensures a == FindKey(r) || a == CommitReq(r, Reported) || a == LoadLink(r)
  {
  }

  /** A request gets its answer only from its own lookup or its own reported winning commit. */
  lemma WhoAnswers(cfg: Config, s: State, a: Action, r: nat)
    requires Inv(cfg, s) && Enabled(cfg, s, a)
    requires r in Apply(cfg, s, a).reqs && Answer(Apply(cfg, s, a).db, Apply(cfg, s, a).reqs[r]).Some?
    requires r !in s.reqs || Answer(s.db, s.reqs[r]).None?
    ensures a == FindKey(r) || a == CommitReq(r, Reported)
  {
    if ActorOf(a) == Client(r) {
      OwnStepAnswers(cfg, s, a, r);
    } else {
      OthersLeaveRequest(cfg, s, a, r);
    }
    if r in s.reqs && s.reqs[r].pc.Replaying? {
      assert RequestOk(cfg, s.db, s.issued, s.reqs[r]);
      ReplayHasAnswer(cfg, s, s.reqs[r]);
    }
  }

  /** A lookup answers from the record as the atomic create does. */
  lemma LookupAnswers(cfg: Config, s: State, q: Request, minted: AccountLink)
    requires Referenced(s.db) && q.call.key in s.db.keys
    requires s.db.keys[q.call.key].accountLinkId in s.db.links
    ensures AtomicCreate(cfg, Abstract(s.db), q.call, minted) ==
            (Abstract(s.db), Answer(s.db, q.(pc := AfterFind(cfg, s, q))).value)
    ensures Answer(s.db, q.(pc := AfterFind(cfg, s, q))).Some?
  {
  }

  lemma FindAnswersAtomically(cfg: Config, s: State, r: nat, minted: AccountLink)
    requires TablesOk(cfg, s) && Enabled(cfg, s, FindKey(r))
    requires Answer(s.db, s.reqs[r].(pc := AfterFind(cfg, s, s.reqs[r]))).Some?
    ensures AtomicCreate(cfg, Abstract(s.db), s.reqs[r].call, minted) ==
            (Abstract(s.db), Answer(s.db, s.reqs[r].(pc := AfterFind(cfg, s, s.reqs[r]))).value)
  {
    TablesAreReferenced(cfg, s);
    LookupAnswers(cfg, s, s.reqs[r], minted);
  }

  lemma CommitAnswersAtomically(cfg: Config, s: State, r: nat)
    requires Inv(cfg, s) && AtRequestCommit(s, r) && s.reqs[r].call.key != "" && s.reqs[r].pc.CommittingWin?
    ensures AtomicCreate(cfg, Abstract(s.db), s.reqs[r].call, s.reqs[r].pc.link) ==
            (Abstract(AfterCommitReq(s, r, Reported).db), Success(s.reqs[r].pc.link, true))
  {
    Simulation(cfg, s, CommitReq(r, Reported));
  }

  lemma StepAnswers(cfg: Config, b: Behavior, k: nat, r: nat)
    requires IsRun(cfg, b) && k < |b.acts|
    requires r in b.states[k + 1].reqs && b.states[k + 1].reqs[r].call.key != ""
    requires Answer(b.states[k + 1].db, b.states[k + 1].reqs[r]).Some?
    requires r !in b.states[k].reqs || Answer(b.states[k].db, b.states[k].reqs[r]).None?
    ensures Effective(cfg, b, k + 1, r, b.states[k + 1].reqs[r].call,
                      Answer(b.states[k + 1].db, b.states[k + 1].reqs[r]).value)
  {
    var s, a, s' := b.states[k], b.acts[k], b.states[k + 1];
    assert Follows(cfg, b, k);
    RunKeepsInv(cfg, b, k);
    WhoAnswers(cfg, s, a, r);
    var q := s.reqs[r];
    var answer := Answer(s'.db, s'.reqs[r]).value;
    if a.FindKey? {
      assert s'.db == s.db && s'.reqs[r] == q.(pc := AfterFind(cfg, s, q));
      FindAnswersAtomically(cfg, s, r, NewLink(0, q.call));
      assert TakesEffect(cfg, b, k, r, q.call, answer, NewLink(0, q.call));
    } else {
      assert s' == AfterCommitReq(s, r, Reported);
      CommitAnswersAtomically(cfg, s, r);
      assert TakesEffect(cfg, b, k, r, q.call, answer, q.pc.link);
    }
  }

  lemma AnswerStands(cfg: Config, s: State, a: Action, r: nat)
    requires Inv(cfg, s) && Enabled(cfg, s, a)
    requires r in s.reqs && Answer(s.db, s.reqs[r]).Some?
    requires r in Apply(cfg, s, a).reqs && Answer(Apply(cfg, s, a).db, Apply(cfg, s, a).reqs[r]).Some?
    ensures Answer(Apply(cfg, s, a).db, Apply(cfg, s, a).reqs[r]) == Answer(s.db, s.reqs[r])
    ensures Apply(cfg, s, a).reqs[r].call == s.reqs[r].call
  {
    StepKeeps(cfg, s, a);
    if ActorOf(a) == Client(r) {
      OwnStepAnswers(cfg, s, a, r);
    } else {
      OthersLeaveRequest(cfg, s, a, r);
    }
  }

  /** Linearizability: each success, replay or conflict a keyed request is given is what one
      atomic create would have answered at one of that request's own steps. */
  lemma {:induction false} Linearizable(cfg: Config, b: Behavior, k: nat, r: nat)
    requires IsRun(cfg, b) && k < |b.states|
    requires r in b.states[k].reqs && b.states[k].reqs[r].call.key != ""
    requires Answer(b.states[k].db, b.states[k].reqs[r]).Some?
    ensures Effective(cfg, b, k, r, b.states[k].reqs[r].call, Answer(b.states[k].db, b.states[k].reqs[r]).value)
  {
    if k > 0 {
      assert Follows(cfg, b, k - 1);
      if r in b.states[k - 1].reqs && Answer(b.states[k - 1].db, b.states[k - 1].reqs[r]).Some? {
        RunKeepsInv(cfg, b, k - 1);
        AnswerStands(cfg, b.states[k - 1], b.acts[k - 1], r);
        Linearizable(cfg, b, k - 1, r);
      } else {
        StepAnswers(cfg, b, k - 1, r);
      }
    }
  }

  // ---- Exactly once ----

  function RowsFor(outbox: map<Uuid, OutboxEvent>, id: Uuid): set<Uuid> {
    set e | e in outbox && outbox[e].aggregateId == id
  }

  lemma RowsForLink(cfg: Config, s: State, id: Uuid)
    requires TablesOk(cfg, s) && id in s.db.links
    ensures RowsFor(s.db.outbox, id) == if s.origin[id].LostRace? then {} else {s.origin[id].eventId}
  {
    assert OriginOk(s.db, id, s.origin[id]);
    forall e | e in RowsFor(s.db.outbox, id)
      ensures !s.origin[id].LostRace? && e == s.origin[id].eventId
    {
      assert RowOk(s.db, s.origin, e);
    }
  }

  /** The effect of a key: one stored link that is nobody else's, with exactly one outbox row. */
  ghost predicate OneEffect(s: State, key: string)
    requires key in s.db.keys
  {
    var id := s.db.keys[key].accountLinkId;
    && key != "" && id in s.db.links
    && |RowsFor(s.db.outbox, id)| == 1
    && forall other | other in s.db.keys && other != key :: s.db.keys[other].accountLinkId != id
  }

  lemma KeyHasOneEffect(cfg: Config, s: State, key: string)
    requires TablesOk(cfg, s) && key in s.db.keys
    ensures OneEffect(s, key)
  {
    assert KeyOk(cfg, s.db, s.origin, key);
    RowsForLink(cfg, s, s.db.keys[key].accountLinkId);
    forall other | other in s.db.keys && other != key
      ensures s.db.keys[other].accountLinkId != s.db.keys[key].accountLinkId
    {
      assert KeyOk(cfg, s.db, s.origin, other);
    }
  }

  /** In every reachable state a recorded key has exactly one effect, and its record and link are
      still the same at every later point of the run. */
  lemma ExactlyOneEffect(cfg: Config, b: Behavior, i: nat, k: nat, key: string)
    requires IsRun(cfg, b) && i <= k < |b.states| && key in b.states[i].db.keys
    ensures var id := b.states[i].db.keys[key].accountLinkId;
            && key in b.states[k].db.keys && b.states[k].db.keys[key] == b.states[i].db.keys[key]
            && id in b.states[i].db.links && id in b.states[k].db.links
            && b.states[k].db.links[id] == b.states[i].db.links[id]
    ensures OneEffect(b.states[k], key)
  {
    RunKeepsInv(cfg, b, i);
    RunKeepsInv(cfg, b, k);
    RunKeeps(cfg, b, i, k);
    KeyHasOneEffect(cfg, b.states[i], key);
    KeyHasOneEffect(cfg, b.states[k], key);
  }

  /** Two successful requests with one key were given the same link, and at most one of them was
      told it had created it. */
  lemma SuccessesAgree(cfg: Config, b: Behavior, k: nat, r: nat, o: nat)
    requires IsRun(cfg, b) && k < |b.states| && r != o
    requires r in b.states[k].reqs && o in b.states[k].reqs
    requires b.states[k].reqs[r].pc.Finished? && b.states[k].reqs[r].pc.response.Success?
    requires b.states[k].reqs[o].pc.Finished? && b.states[k].reqs[o].pc.response.Success?
    requires b.states[k].reqs[r].call.key == b.states[k].reqs[o].call.key != ""
    ensures b.states[k].reqs[r].pc.response.link == b.states[k].reqs[o].pc.response.link
    ensures !(b.states[k].reqs[r].pc.response.created && b.states[k].reqs[o].pc.response.created)
  {
    var s := b.states[k];
    RunKeepsInv(cfg, b, k);
    assert RequestOk(cfg, s.db, s.issued, s.reqs[r]) && RequestOk(cfg, s.db, s.issued, s.reqs[o]);
  }

  /** Without a key every success is a link of its own. */
  lemma KeylessCreatesAreApart(cfg: Config, b: Behavior, k: nat, r: nat, o: nat)
    requires IsRun(cfg, b) && k < |b.states| && r != o
    requires r in b.states[k].reqs && o in b.states[k].reqs
    requires b.states[k].reqs[r].pc.Finished? && b.states[k].reqs[r].pc.response.Success?
    requires b.states[k].reqs[o].pc.Finished? && b.states[k].reqs[o].pc.response.Success?
    requires b.states[k].reqs[r].call.key == b.states[k].reqs[o].call.key == ""
    ensures b.states[k].reqs[r].pc.response.created && b.states[k].reqs[o].pc.response.created
    ensures b.states[k].reqs[r].pc.response.link.id != b.states[k].reqs[o].pc.response.link.id
  {
    var s := b.states[k];
    RunKeepsInv(cfg, b, k);
    assert RequestOk(cfg, s.db, s.issued, s.reqs[r]) && RequestOk(cfg, s.db, s.issued, s.reqs[o]);
  }

  /** The three defensive errors are never returned in any run. */
  lemma DefensiveErrorsUnreachable(cfg: Config, b: Behavior, k: nat, r: nat)
    requires IsRun(cfg, b) && k < |b.states| && r in b.states[k].reqs
    ensures var pc := b.states[k].reqs[r].pc;
            pc != Finished(Failed(KeyUnreadable)) && pc != Finished(Failed(MissingLink)) && pc != Finished(Failed(InvalidLink))
  {
    RunKeepsInv(cfg, b, k);
    assert RequestOk(cfg, b.states[k].db, b.states[k].issued, b.states[k].reqs[r]);
  }

  // ---- Replay fidelity ----

  ghost predicate CollisionFree(cfg: Config) {
    forall x, y :: cfg.hash(x) == cfg.hash(y) ==> x == y
  }

  predicate SamePayload(call: Call, link: AccountLink) {
    call.userId == link.userId && call.externalInstitution == link.externalInstitution
  }

  /** With a collision-free hash, a finished keyed request saw the joined payload of the recorded
      link equal its own exactly if it succeeded, and differ exactly if it was a conflict. */
  lemma ReplayComparesJoined(cfg: Config, b: Behavior, k: nat, r: nat)
    requires IsRun(cfg, b) && k < |b.states| && CollisionFree(cfg)
    requires r in b.states[k].reqs && b.states[k].reqs[r].call.key != ""
    requires b.states[k].reqs[r].pc.Finished? && Answered(b.states[k].reqs[r].pc.response)
    ensures var s := b.states[k];
            var Request(call, pc, _) := s.reqs[r];
            && call.key in s.db.keys && s.db.keys[call.key].accountLinkId in s.db.links
            && var link := s.db.links[s.db.keys[call.key].accountLinkId];
               && (pc.response.Success? ==> pc.response.link == link)
               && (pc.response.Success? <==>
                   Joined(call.userId, call.externalInstitution) == Joined(link.userId, link.externalInstitution))
  {
    var s := b.states[k];
    RunKeepsInv(cfg, b, k);
    assert RequestOk(cfg, s.db, s.issued, s.reqs[r]);
    assert KeyOk(cfg, s.db, s.origin, s.reqs[r].call.key);
  }

  /** Joining user and institution with '|' is injective where the user has no '|'. */
  lemma {:induction false} JoinedInjective(u: string, i: string, v: string, j: string)
    requires '|' !in u && '|' !in v && Joined(u, i) == Joined(v, j)
    ensures u == v && i == j
  {
    assert Joined(u, i)[0] == Joined(v, j)[0];
    if u != "" && v != "" {
      assert Joined(u[1..], i) == Joined(u, i)[1..] == Joined(v, j)[1..] == Joined(v[1..], j);
      JoinedInjective(u[1..], i, v[1..], j);
      assert u == [u[0]] + u[1..] && v == [v[0]] + v[1..];
    } else {
      assert i == Joined(u, i)[|u| + 1..] && j == Joined(v, j)[|v| + 1..];
    }
  }

  /** Where the commit of link `id` stands in the run: step `j`, by a request whose transaction
      held the link and, unless the race was lost, the event recorded for it. */
  ghost predicate CommittedAt(b: Behavior, j: nat, id: Uuid, origin: Origin)
    requires j < |b.acts| && |b.states| == |b.acts| + 1
  {
    && b.acts[j].CommitReq? && b.acts[j].r in b.states[j].reqs
    && var q := b.states[j].reqs[b.acts[j].r];
       && (q.pc.CommittingWin? || q.pc.CommittingLoss?) && q.tx.Some?
       && q.tx.value.links == map[id := q.pc.link] && q.pc.link == NewLink(id, q.call)
       && origin == OriginOf(q)
       && (!origin.LostRace? ==>
             origin.eventId in q.tx.value.events
             && q.tx.value.events[origin.eventId].payload == PayloadOf(q.pc.link))
       && (origin.LostRace? ==> q.call.key != "" && q.call.key in b.states[j].db.keys && q.tx.value.events == map[])
  }

  lemma OriginIsNew(cfg: Config, s: State, a: Action, id: Uuid)
    requires Inv(cfg, s) && Enabled(cfg, s, a) && id !in s.origin && id in Apply(cfg, s, a).origin
    ensures a.CommitReq? && CommitReady(cfg, s, a.r) && s.reqs[a.r].pc.link.id == id
    ensures Apply(cfg, s, a).origin[id] == OriginOf(s.reqs[a.r])
  {
    OnlyCommitsWrite(cfg, s, a);
    AtCommit(cfg, s, a.r);
  }

  /** The recorded origin of a link is the story of the transaction that committed it. */
  lemma {:induction false} OriginIsHistory(cfg: Config, b: Behavior, k: nat, id: Uuid)
    requires IsRun(cfg, b) && k < |b.states| && id in b.states[k].origin
    ensures exists j :: 0 <= j < k && CommittedAt(b, j, id, b.states[k].origin[id])
  {
    if k > 0 {
      var s, a := b.states[k - 1], b.acts[k - 1];
      assert Follows(cfg, b, k - 1);
      if id in s.origin {
        RunKeeps(cfg, b, k - 1, k);
        OriginIsHistory(cfg, b, k - 1, id);
      } else {
        RunKeepsInv(cfg, b, k - 1);
        OriginIsNew(cfg, s, a, id);
        assert CommittedAt(b, k - 1, id, b.states[k].origin[id]);
      }
    }
  }

  lemma NewLinkFromCall(cfg: Config, s: State, a: Action, id: Uuid)
    requires Inv(cfg, s) && Enabled(cfg, s, a) && id !in s.db.links && id in Apply(cfg, s, a).db.links
    ensures ActorOf(a).Client? && ActorOf(a).r in s.reqs
    ensures SamePayload(s.reqs[ActorOf(a).r].call, Apply(cfg, s, a).db.links[id])
  {
    OnlyCommitsWrite(cfg, s, a);
    if a.CommitTick? { TickCommit(s, a.p); }
    AtCommit(cfg, s, a.r);
    RequestCommit(cfg, s, a.r);
  }

  lemma KeptPayload(s: State, s': State, o: nat, id: Uuid)
    requires KeptRequests(s, s') && o in s.reqs && id in s'.db.links && SamePayload(s.reqs[o].call, s'.db.links[id])
    ensures o in s'.reqs && SamePayload(s'.reqs[o].call, s'.db.links[id])
  {
  }

  /** Every stored link carries the payload of some request. */
  lemma {:induction false} LinksComeFromCalls(cfg: Config, b: Behavior, k: nat, id: Uuid)
    requires IsRun(cfg, b) && k < |b.states| && id in b.states[k].db.links
    ensures exists o :: o in b.states[k].reqs && SamePayload(b.states[k].reqs[o].call, b.states[k].db.links[id])
  {
    if k > 0 {
      var s, a, s' := b.states[k - 1], b.acts[k - 1], b.states[k];
      assert Follows(cfg, b, k - 1);
      RunKeepsInv(cfg, b, k - 1);
      StepKeeps(cfg, s, a);
      if id in s.db.links {
        LinksComeFromCalls(cfg, b, k - 1, id);
        var o :| o in s.reqs && SamePayload(s.reqs[o].call, s.db.links[id]);
        KeptPayload(s, s', o, id);
      } else {
        NewLinkFromCall(cfg, s, a, id);
        KeptPayload(s, s', ActorOf(a).r, id);
      }
    }
  }

  /** With users free of '|' as well, success means the caller's own payload and conflict means
      a different one. */
  lemma ReplayFidelity(cfg: Config, b: Behavior, k: nat, r: nat)
    requires IsRun(cfg, b) && k < |b.states| && CollisionFree(cfg)
    requires forall o | o in b.states[k].reqs :: '|' !in b.states[k].reqs[o].call.userId
    requires r in b.states[k].reqs && b.states[k].reqs[r].call.key != ""
    requires b.states[k].reqs[r].pc.Finished? && Answered(b.states[k].reqs[r].pc.response)
    ensures var s := b.states[k];
            var Request(call, pc, _) := s.reqs[r];
            && call.key in s.db.keys && s.db.keys[call.key].accountLinkId in s.db.links
            && var link := s.db.links[s.db.keys[call.key].accountLinkId];
               && (pc.response.Success? <==> SamePayload(call, link))
               && (pc.response.Success? ==> pc.response.link == link)
               && (pc.response.Conflict? <==> !SamePayload(call, link))
  {
    var s := b.states[k];
    ReplayComparesJoined(cfg, b, k, r);
    var call := s.reqs[r].call;
    var link := s.db.links[s.db.keys[call.key].accountLinkId];
    LinksComeFromCalls(cfg, b, k, s.db.keys[call.key].accountLinkId);
    if Joined(call.userId, call.externalInstitution) == Joined(link.userId, link.externalInstitution) {
      JoinedInjective(call.userId, call.externalInstitution, link.userId, link.externalInstitution);
    }
  }

  // ---- Conservation ----

  function LostRaces(s: State): set<Uuid> {
    set id | id in s.origin && s.origin[id].LostRace?
  }

  function KeylessCreates(s: State): set<Uuid> {
    set id | id in s.origin && s.origin[id].Keyless?
  }

  ghost predicate Injective<X, Y>(m: map<X, Y>) {
    forall x, y | x in m && y in m && m[x] == m[y] :: x == y
  }

  lemma {:induction false} SameSize<X, Y>(m: map<X, Y>)
    requires Injective(m)
    ensures |m.Values| == |m|
    decreases |m|
  {
    if m != map[] {
      var x :| x in m;
      var rest := m - {x};
      SameSize(rest);
      assert m.Values == rest.Values + {m[x]} by {
        forall v | v in m.Values ensures v in rest.Values + {m[x]} {
          var y :| y in m && m[y] == v;
          assert y != x ==> y in rest && rest[y] == v;
        }
      }
    }
  }

  /** Every link with an event has one row, and every row is the event of one link. */
  lemma RowsMatchLinks(cfg: Config, s: State)
    requires TablesOk(cfg, s)
    ensures |s.db.outbox| == |s.db.links.Keys - LostRaces(s)|
  {
    var aggregate := map e | e in s.db.outbox :: s.db.outbox[e].aggregateId;
    forall x, y | x in aggregate && y in aggregate && aggregate[x] == aggregate[y] ensures x == y {
      assert RowOk(s.db, s.origin, x) && RowOk(s.db, s.origin, y);
    }
    SameSize(aggregate);
    forall id | id in s.db.links.Keys - LostRaces(s) ensures id in aggregate.Values {
      assert OriginOk(s.db, id, s.origin[id]);
      assert s.origin[id].eventId in aggregate;
    }
    forall id | id in aggregate.Values ensures id in s.db.links.Keys - LostRaces(s) {
      var e :| e in aggregate && aggregate[e] == id;
      assert RowOk(s.db, s.origin, e);
    }
    assert aggregate.Values == s.db.links.Keys - LostRaces(s);
    assert aggregate.Keys == s.db.outbox.Keys;
  }

  lemma KeysMatchLinks(cfg: Config, s: State)
    requires TablesOk(cfg, s)
    ensures |s.db.keys| == |s.db.links.Keys - LostRaces(s) - KeylessCreates(s)|
  {
    var linkOf := map key | key in s.db.keys :: s.db.keys[key].accountLinkId;
    forall x, y | x in linkOf && y in linkOf && linkOf[x] == linkOf[y] ensures x == y {
      assert KeyOk(cfg, s.db, s.origin, x) && KeyOk(cfg, s.db, s.origin, y);
    }
    SameSize(linkOf);
    var keyed := s.db.links.Keys - LostRaces(s) - KeylessCreates(s);
    forall id | id in keyed ensures id in linkOf.Values {
      assert OriginOk(s.db, id, s.origin[id]);
      assert s.origin[id].key in linkOf;
    }
    forall id | id in linkOf.Values ensures id in keyed {
      var key :| key in linkOf && linkOf[key] == id;
      assert KeyOk(cfg, s.db, s.origin, key);
    }
    assert linkOf.Values == keyed;
    assert linkOf.Keys == s.db.keys.Keys;
  }

  ghost predicate Conserved(s: State) {
    && |s.db.links| == |s.db.outbox| + |LostRaces(s)|
    && |s.db.outbox| == |s.db.keys| + |KeylessCreates(s)|
    && forall id | id in s.db.links :: (RowsFor(s.db.outbox, id) == {} <==> id in LostRaces(s))
  }

  lemma TablesAreConserved(cfg: Config, s: State)
    requires TablesOk(cfg, s)
    ensures Conserved(s)
  {
    RowsMatchLinks(cfg, s);
    KeysMatchLinks(cfg, s);
    var withRow := s.db.links.Keys - LostRaces(s);
    assert s.db.links.Keys == withRow + LostRaces(s);
    assert withRow == (withRow - KeylessCreates(s)) + KeylessCreates(s);
    forall id | id in s.db.links ensures RowsFor(s.db.outbox, id) == {} <==> id in LostRaces(s) {
      RowsForLink(cfg, s, id);
      if id !in LostRaces(s) { assert s.origin[id].eventId in RowsFor(s.db.outbox, id); }
    }
  }

  /** In every reachable state links = rows + lost races and rows = records + keyless creates,
      and a link is without a row exactly when it lost its race. */
  lemma Conservation(cfg: Config, b: Behavior, k: nat)
    requires IsRun(cfg, b) && k < |b.states|
    ensures Conserved(b.states[k])
  {
    RunKeepsInv(cfg, b, k);
    TablesAreConserved(cfg, b.states[k]);
  }
}
