/** The retrying HTTP transport, with an account of every response body it was handed. */
module Retry {
  import opened Domain

  const SERVER_ERROR := 500

  /** A response body by identity; a response may have none. */
  type Body = nat

  datatype Response = Response(status: int, body: Option<Body>)

  /** One attempt: the request could not be cloned, or the base transport was called. It may return
      a response, an error, both or neither. */
  datatype Outcome =
    | NotCloned
    | Called(result: Option<Response>, error: Option<nat>)

  datatype Failure = NotReplayable | CallError(error: nat) | NoResponse

  datatype Reply = Got(response: Response) | Failed(failure: Failure)

  predicate ServerError(o: Outcome) {
    o.Called? && o.error.None? && o.result.Some? && o.result.value.status >= SERVER_ERROR
  }

  /** The retry policy does not go on after a nil error. */
  predicate Succeeds(o: Outcome) {
    o.Called? && o.error.None? && !ServerError(o)
  }

  function ReplyOf(o: Outcome): Reply {
    match o
    case NotCloned => Failed(NotReplayable)
    case Called(result, error) =>
      if error.Some? then Failed(CallError(error.value))
      else if result.None? then Failed(NoResponse)
      else Got(result.value)
  }

  /** The attempts of a whole round trip: up to the first nil error, at most `retryMax + 1`. */
  predicate Complete(outcomes: seq<Outcome>, retryMax: nat) {
    && 1 <= |outcomes| <= retryMax + 1
    && (forall i | 0 <= i < |outcomes| - 1 :: !Succeeds(outcomes[i]))
    && (Succeeds(outcomes[|outcomes| - 1]) || |outcomes| == retryMax + 1)
  }

  function BodyOf(o: Outcome): Option<Body> {
    if o.Called? && o.result.Some? then o.result.value.body else None
  }

  function BodyLog(body: Option<Body>): seq<Body> {
    if body.Some? then [body.value] else []
  }

  // ---- What the attempts leave held and drained ----

  /** The response remembered between attempts. */
  function Held(outcomes: seq<Outcome>): Option<Response> {
    if outcomes == [] then None
    else
      var o := outcomes[|outcomes| - 1];
      if o.Called? && o.error.None? then o.result else Held(outcomes[..|outcomes| - 1])
  }

  function DrainedNow(held: Option<Response>, o: Outcome): seq<Body> {
    if o.Called? && o.error.Some? then BodyLog(BodyOf(o))
    else if ServerError(o) && held.Some? && held.value.body != BodyOf(o) then BodyLog(held.value.body)
    else []
  }

  /** The bodies drained and closed, in order. */
  function Drained(outcomes: seq<Outcome>): seq<Body> {
    if outcomes == [] then []
    else
      var before := outcomes[..|outcomes| - 1];
      Drained(before) + DrainedNow(Held(before), outcomes[|outcomes| - 1])
  }

  lemma Attempted(before: seq<Outcome>, o: Outcome)
    ensures Held(before + [o]) == if o.Called? && o.error.None? then o.result else Held(before)
    ensures Drained(before + [o]) == Drained(before) + DrainedNow(Held(before), o)
  {
    assert (before + [o])[..|before|] == before;
  }

  class Transport {
    const retryMax: nat
    /** Every body drained and closed so far. */
    var drained: seq<Body>

    constructor (retryMax: nat)
      ensures this.retryMax == retryMax && drained == []
    {
      this.retryMax := retryMax;
      drained := [];
    }

    method DrainAndClose(body: Option<Body>)
      modifies this
      ensures drained == old(drained) + BodyLog(body)
    {
      if body.None? { return; }
      drained := drained + [body.value];
    }

    /** The base transport answers whatever it likes. */
    method CallBase() returns (result: Option<Response>, error: Option<nat>) {
      result := *;
      error := *;
    }

    /** One attempt. `statusFailed` tells a response at 500 or above from other failures. */
    method Attempt(hasBody: bool, hasGetBody: bool, lastResp: Option<Response>)
      returns (held: Option<Response>, failure: Option<Failure>, statusFailed: bool, ghost o: Outcome)
      modifies this
      ensures o.NotCloned? <==> hasBody && !hasGetBody
      ensures held == if o.Called? && o.error.None? then o.result else lastResp
      ensures drained == old(drained) + DrainedNow(lastResp, o)
      ensures statusFailed <==> ServerError(o)
      ensures failure.None? && !statusFailed <==> Succeeds(o)
      ensures failure.Some? ==> ReplyOf(o) == Failed(failure.value)
    {
      held, failure, statusFailed := lastResp, None, false;
      if hasBody && !hasGetBody {
        return lastResp, Some(NotReplayable), false, NotCloned;
      }
      var result, callErr := CallBase();
      o := Called(result, callErr);
      if callErr.Some? {
        if result.Some? { DrainAndClose(result.value.body); }
        failure := Some(CallError(callErr.value));
      } else if result.Some? && result.value.status >= SERVER_ERROR {
        if lastResp.Some? && lastResp.value.body != result.value.body {
          DrainAndClose(lastResp.value.body);
        }
        held, statusFailed := result, true;
      } else {
        held := result;
      }
    }

    /** The reply is that of the last attempt. */
    method RoundTrip(hasBody: bool, hasGetBody: bool) returns (reply: Reply, ghost outcomes: seq<Outcome>)
      modifies this
      ensures Complete(outcomes, retryMax)
      ensures forall o | o in outcomes :: o.NotCloned? <==> hasBody && !hasGetBody
      ensures forall i | 0 <= i < |outcomes| - 1 ::
                outcomes[i].NotCloned? || outcomes[i].error.Some?
                || (outcomes[i].result.Some? && outcomes[i].result.value.status >= 500)
      ensures match outcomes[|outcomes| - 1]
              case NotCloned => reply == Failed(NotReplayable)
              case Called(_, Some(e)) => reply == Failed(CallError(e))
              case Called(Some(response), None) => reply == Got(response)
              case Called(None, None) => reply == Failed(NoResponse)
      ensures reply.Got? ==> reply.response.status < 500 || |outcomes| == retryMax + 1
      ensures reply.Failed? && reply.failure != NoResponse ==> |outcomes| == retryMax + 1
      ensures drained == old(drained) + Drained(outcomes)
    {
      var attempt := 0;
      var lastResp: Option<Response> := None;
      var failure: Option<Failure>;
      var statusFailed;
      ghost var o;
      outcomes := [];
      while true
        invariant attempt == |outcomes| <= retryMax
        invariant forall o | o in outcomes :: !Succeeds(o) && (o.NotCloned? <==> hasBody && !hasGetBody)
        invariant lastResp == Held(outcomes)
        invariant drained == old(drained) + Drained(outcomes)
        decreases retryMax - attempt
      {
        attempt := attempt + 1;
        lastResp, failure, statusFailed, o := Attempt(hasBody, hasGetBody, lastResp);
        Attempted(outcomes, o);
        outcomes := outcomes + [o];
        if (failure.None? && !statusFailed) || attempt > retryMax { break; }
      }
      if statusFailed && lastResp.Some? { return Got(lastResp.value), outcomes; }
      if failure.Some? { return Failed(failure.value), outcomes; }
      if lastResp.None? { return Failed(NoResponse), outcomes; }
      reply := Got(lastResp.value);
    }
  }

  // ---- The account ----

  /** Every response comes with a body of its own. */
  predicate DistinctBodies(outcomes: seq<Outcome>) {
    forall i, j | 0 <= i < j < |outcomes| && BodyOf(outcomes[i]).Some? :: BodyOf(outcomes[i]) != BodyOf(outcomes[j])
  }

  /** Attempt `i` got a response at 500 or above and no later one did. */
  predicate Latest(outcomes: seq<Outcome>, i: int) {
    && 0 <= i < |outcomes| && ServerError(outcomes[i])
    && forall k | i < k < |outcomes| :: !ServerError(outcomes[k])
  }

  lemma LatestAfter(before: seq<Outcome>, o: Outcome, i: int)
    ensures Latest(before + [o], i) <==> if ServerError(o) then i == |before| else Latest(before, i)
  {
    var outcomes := before + [o];
    if Latest(before, i) && !ServerError(o) {
      assert Latest(outcomes, i);
    }
    if Latest(outcomes, i) && i != |before| {
      assert !ServerError(outcomes[|before|]);
      forall k | i < k < |before| ensures !ServerError(before[k]) { assert outcomes[k] == before[k]; }
    }
  }

  predicate NoneSucceeds(outcomes: seq<Outcome>) {
    forall o | o in outcomes :: !Succeeds(o)
  }

  /** Only unsuccessful attempts so far: what is held is the latest response at 500 or above. */
  lemma {:induction false} HeldIsLatest(outcomes: seq<Outcome>)
    requires NoneSucceeds(outcomes)
    ensures Held(outcomes).None? ==> forall i :: !Latest(outcomes, i)
    ensures Held(outcomes).Some? ==> exists i :: Latest(outcomes, i) && Held(outcomes) == outcomes[i].result
  {
    if outcomes != [] {
      var n := |outcomes| - 1;
      var before, o := outcomes[..n], outcomes[n];
      assert outcomes == before + [o];
      HeldIsLatest(before);
      Attempted(before, o);
      forall i ensures Latest(outcomes, i) <==> if ServerError(o) then i == n else Latest(before, i) {
        LatestAfter(before, o, i);
      }
      assert !Succeeds(o);
      if ServerError(o) { assert Latest(outcomes, n); }
    }
  }

  predicate NoRepeats(log: seq<Body>) {
    forall i, j | 0 <= i < j < |log| :: log[i] != log[j]
  }

  function LatestIn(outcomes: seq<Outcome>): set<int> {
    set i | 0 <= i < |outcomes| && Latest(outcomes, i)
  }

  predicate Handed(outcomes: seq<Outcome>, b: Body) {
    exists i | 0 <= i < |outcomes| :: BodyOf(outcomes[i]) == Some(b)
  }

  /** No body is drained twice, only bodies handed out are, and all but those at `open`. */
  predicate Accounts(outcomes: seq<Outcome>, drained: seq<Body>, open: set<int>) {
    && NoRepeats(drained)
    && (forall b | b in drained :: Handed(outcomes, b))
    && forall i | 0 <= i < |outcomes| && BodyOf(outcomes[i]).Some? ::
         BodyOf(outcomes[i]).value in drained <==> i !in open
  }

  lemma BodyIsNew(before: seq<Outcome>, o: Outcome)
    requires DistinctBodies(before + [o])
    ensures forall b: Body | Handed(before, b) :: Handed(before + [o], b) && BodyOf(o) != Some(b)
  {
    var outcomes := before + [o];
    forall b: Body | Handed(before, b) ensures Handed(outcomes, b) && BodyOf(o) != Some(b) {
      var i :| 0 <= i < |before| && BodyOf(before[i]) == Some(b);
      assert BodyOf(outcomes[i]) == Some(b) && BodyOf(outcomes[i]) != BodyOf(outcomes[|before|]);
    }
  }

  lemma NextIsOpen(before: seq<Outcome>, o: Outcome, drained: seq<Body>)
    requires DistinctBodies(before + [o]) && Accounts(before, drained, {})
    ensures Accounts(before + [o], drained, {|before|})
  {
    var outcomes := before + [o];
    forall i | 0 <= i < |before| ensures outcomes[i] == before[i] {}
    assert outcomes[|before|] == o;
    BodyIsNew(before, o);
  }

  lemma ErrorIsDrained(before: seq<Outcome>, o: Outcome, drained: seq<Body>, open: set<int>)
    requires DistinctBodies(before + [o]) && |before| !in open
    requires Accounts(before, drained, open)
    ensures Accounts(before + [o], drained + BodyLog(BodyOf(o)), open)
  {
    var outcomes := before + [o];
    forall i | 0 <= i < |before| ensures outcomes[i] == before[i] {}
    assert outcomes[|before|] == o;
    BodyIsNew(before, o);
  }

  /** The one body still open is the held one: draining it too leaves none. */
  lemma HeldIsOpen(before: seq<Outcome>, drained: seq<Body>)
    requires DistinctBodies(before) && NoneSucceeds(before)
    requires Accounts(before, drained, LatestIn(before))
    ensures Held(before).Some? ==> Accounts(before, drained + BodyLog(Held(before).value.body), {})
    ensures Held(before).Some? && Held(before).value.body.Some? ==> Handed(before, Held(before).value.body.value)
    ensures Held(before).None? ==> LatestIn(before) == {}
  {
    HeldIsLatest(before);
    if Held(before).Some? {
      var h :| Latest(before, h) && Held(before) == before[h].result;
      assert BodyOf(before[h]) == Held(before).value.body;
      forall i | Latest(before, i) ensures i == h {}
    }
  }

  lemma HeldIsDrained(before: seq<Outcome>, o: Outcome, drained: seq<Body>)
    requires DistinctBodies(before + [o]) && DistinctBodies(before) && NoneSucceeds(before) && ServerError(o)
    requires Accounts(before, drained, LatestIn(before))
    ensures Accounts(before + [o], drained + DrainedNow(Held(before), o), {|before|})
  {
    HeldIsOpen(before, drained);
    BodyIsNew(before, o);
    if Held(before).Some? {
      var held := Held(before).value.body;
      assert DrainedNow(Held(before), o) == BodyLog(held);
      NextIsOpen(before, o, drained + BodyLog(held));
    } else {
      assert drained + [] == drained;
      NextIsOpen(before, o, drained);
    }
  }

  lemma LatestStep(before: seq<Outcome>, o: Outcome)
    ensures LatestIn(before + [o]) == if ServerError(o) then {|before|} else LatestIn(before)
  {
    forall i ensures Latest(before + [o], i) <==> if ServerError(o) then i == |before| else Latest(before, i) {
      LatestAfter(before, o, i);
    }
  }

  lemma FailsOnceMore(before: seq<Outcome>, o: Outcome)
    requires DistinctBodies(before + [o]) && DistinctBodies(before) && NoneSucceeds(before) && !Succeeds(o)
    requires Accounts(before, Drained(before), LatestIn(before))
    ensures Accounts(before + [o], Drained(before + [o]), LatestIn(before + [o]))
  {
    Attempted(before, o);
    LatestStep(before, o);
    if ServerError(o) {
      HeldIsDrained(before, o, Drained(before));
    } else {
      assert DrainedNow(Held(before), o) == BodyLog(BodyOf(o));
      ErrorIsDrained(before, o, Drained(before), LatestIn(before));
    }
  }

  /** While only unsuccessful attempts were made exactly the held body is open. */
  lemma {:induction false} DrainedWhileFailing(outcomes: seq<Outcome>)
    requires NoneSucceeds(outcomes) && DistinctBodies(outcomes)
    ensures Accounts(outcomes, Drained(outcomes), LatestIn(outcomes))
  {
    if outcomes != [] {
      var before, o := outcomes[..|outcomes| - 1], outcomes[|outcomes| - 1];
      assert o in outcomes && outcomes == before + [o];
      DrainedWhileFailing(before);
      FailsOnceMore(before, o);
    }
  }

  /** The body that is neither drained nor returned: that of the latest response at 500 or above,
      when the last attempt was none. */
  predicate Leaked(outcomes: seq<Outcome>, i: int) {
    i < |outcomes| - 1 && Latest(outcomes, i)
  }

  predicate Returned(outcomes: seq<Outcome>, i: int) {
    i == |outcomes| - 1 >= 0 && ReplyOf(outcomes[i]).Got?
  }

  function ReturnedOrLeaked(outcomes: seq<Outcome>): set<int> {
    set i | 0 <= i < |outcomes| && (Returned(outcomes, i) || Leaked(outcomes, i))
  }

  /** It only matters which of the attempts with a body are open. */
  lemma SameOpen(outcomes: seq<Outcome>, drained: seq<Body>, open: set<int>, open': set<int>)
    requires Accounts(outcomes, drained, open)
    requires forall i | 0 <= i < |outcomes| && BodyOf(outcomes[i]).Some? :: i in open <==> i in open'
    ensures Accounts(outcomes, drained, open')
  {
  }

  lemma SuccessIsOpen(before: seq<Outcome>, o: Outcome, drained: seq<Body>)
    requires DistinctBodies(before + [o]) && Succeeds(o)
    requires Accounts(before, drained, LatestIn(before))
    ensures Accounts(before + [o], drained, LatestIn(before) + {|before|})
  {
    var outcomes := before + [o];
    forall i | 0 <= i < |before| ensures outcomes[i] == before[i] {}
    assert outcomes[|before|] == o;
    BodyIsNew(before, o);
  }

  lemma AccountingOfSuccess(before: seq<Outcome>, o: Outcome)
    requires DistinctBodies(before + [o]) && NoneSucceeds(before) && Succeeds(o)
    ensures Accounts(before + [o], Drained(before + [o]), ReturnedOrLeaked(before + [o]))
  {
    var outcomes := before + [o];
    forall i, j | 0 <= i < j < |before| && BodyOf(before[i]).Some? ensures BodyOf(before[i]) != BodyOf(before[j]) {
      assert outcomes[i] == before[i] && outcomes[j] == before[j];
    }
    DrainedWhileFailing(before);
    Attempted(before, o);
    forall i ensures Latest(outcomes, i) <==> Latest(before, i) { LatestAfter(before, o, i); }
    assert Drained(outcomes) == Drained(before);
    SuccessIsOpen(before, o, Drained(before));
    SameOpen(outcomes, Drained(before), LatestIn(before) + {|before|}, ReturnedOrLeaked(outcomes));
  }

  /** No body is drained twice, only bodies handed out are, and of those exactly the returned and
      the leaked one are not. */
  lemma Accounting(outcomes: seq<Outcome>, retryMax: nat)
    requires Complete(outcomes, retryMax) && DistinctBodies(outcomes)
    ensures Accounts(outcomes, Drained(outcomes), ReturnedOrLeaked(outcomes))
  {
    var n := |outcomes| - 1;
    if Succeeds(outcomes[n]) {
      AccountingOfSuccess(outcomes[..n], outcomes[n]);
      assert outcomes == outcomes[..n] + [outcomes[n]];
    } else {
      DrainedWhileFailing(outcomes);
      assert ReturnedOrLeaked(outcomes) == LatestIn(outcomes);
    }
  }

  predicate Carries(o: Outcome, body: Option<Body>) {
    o.Called? && o.error.None? && o.result.Some? && o.result.value.status >= 500 && o.result.value.body == body
  }

  lemma NoDrainOfShared(held: Option<Response>, o: Outcome, body: Option<Body>)
    requires Carries(o, body) && (held.Some? ==> held.value.body == body)
    ensures DrainedNow(held, o) == []
  {
  }

  /** Answers at 500 or above that all carry one body leave it open: it is never drained for the next. */
  lemma {:induction false} SharedBodyStaysOpen(outcomes: seq<Outcome>, body: Option<Body>)
    requires forall i | 0 <= i < |outcomes| :: Carries(outcomes[i], body)
    ensures Drained(outcomes) == []
    ensures Held(outcomes).Some? ==> Held(outcomes).value.body == body
  {
    if outcomes != [] {
      var before, o := outcomes[..|outcomes| - 1], outcomes[|outcomes| - 1];
      SharedBodyStaysOpen(before, body);
      NoDrainOfShared(Held(before), o, body);
    }
  }

  /** A single answer ends the attempts exactly if its status is below 500. */
  lemma StatusDecides(status: int, body: Option<Body>, retryMax: nat)
    requires retryMax >= 1
    ensures Complete([Called(Some(Response(status, body)), None)], retryMax) <==> status < 500
  {
    var outcomes := [Called(Some(Response(status, body)), None)];
    assert |outcomes| == 1;
  }

  /** The account written out: the body that attempt `i` was handed stays open exactly if it is
      returned, or attempt `i` got the latest answer at 500 or above and the last attempt got none. */
  lemma AccountingWrittenOut(outcomes: seq<Outcome>, retryMax: nat, i: nat, body: Body)
    requires Complete(outcomes, retryMax) && DistinctBodies(outcomes)
    requires i < |outcomes| && outcomes[i].Called? && outcomes[i].result.Some?
    requires outcomes[i].result.value.body == Some(body)
    ensures body !in Drained(outcomes) <==>
            && outcomes[i].error.None?
            && (i == |outcomes| - 1
                || (outcomes[i].result.value.status >= 500
                    && forall k | i < k < |outcomes| && outcomes[k].Called? && outcomes[k].result.Some? ::
                         outcomes[k].error.Some? || outcomes[k].result.value.status < 500))
  {
    Accounting(outcomes, retryMax);
    assert BodyOf(outcomes[i]) == Some(body);
    assert body !in Drained(outcomes) <==> Returned(outcomes, i) || Leaked(outcomes, i);
    assert Latest(outcomes, i) <==>
           ServerError(outcomes[i]) && forall k | i < k < |outcomes| :: !ServerError(outcomes[k]);
  }

  /** Every body but the returned one is drained exactly when the last attempt got a response at 500
      or above, or none did, or the latest that did has no body. */
  lemma NothingLeaksWhen(outcomes: seq<Outcome>, retryMax: nat)
    requires Complete(outcomes, retryMax) && DistinctBodies(outcomes)
    ensures (forall i | 0 <= i < |outcomes| && BodyOf(outcomes[i]).Some? ::
               Returned(outcomes, i) || BodyOf(outcomes[i]).value in Drained(outcomes)) <==>
            ServerError(outcomes[|outcomes| - 1])
            || (forall i | Leaked(outcomes, i) :: BodyOf(outcomes[i]).None?)
  {
    Accounting(outcomes, retryMax);
  }

  /** A response at 500 and then one at 200: the first body is left open. */
  lemma RecoveryLeaks(first: Body, second: Body)
    requires first != second
    ensures var a, b := Called(Some(Response(500, Some(first))), None), Called(Some(Response(200, Some(second))), None);
            Complete([a, b], 3) && ReplyOf(b) == Got(Response(200, Some(second))) && first !in Drained([a, b])
  {
    var a, b := Called(Some(Response(500, Some(first))), None), Called(Some(Response(200, Some(second))), None);
    Attempted([], a);
    Attempted([a], b);
    assert [] + [a] == [a] && [a] + [b] == [a, b];
  }
}
