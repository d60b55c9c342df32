/**
 * The token-refresh coordinator of the app's HTTP client
 * (KilimoMobileApp/src/services/apiClient.ts). The event loop runs one
 * callback at a time, so each stretch of code between two awaits is one
 * step here: a failed response reaching the interceptor, the stored
 * refresh token being read, the refresh exchange succeeding or failing,
 * and the storage clear after a failure completing.
 *
 * `Coordinator` is the state the steps act on and `OnResponseError` and
 * its siblings say what each step does to it; the class `ApiClient` keeps
 * the same state in fields and performs the steps in place.
 */
module ApiClient {
  import opened Common
  import opened Storage

  /** The parts of a request the interceptors read and write. */
  datatype Request = Request(id: nat, authorization: Option<string>, retry: bool)

  /** Why a refresh failed. */
  datatype Reason = NoRefreshToken | ExchangeFailed(message: string) {
    function Message(): string {
      match this
      case NoRefreshToken => "No refresh token available"
      case ExchangeFailed(m) => m
    }
  }

  /** How `processQueue` settled a parked request. */
  datatype Settlement = Replayed(request: Request) | Rejected(request: Request, reason: Reason)

  /** Where the interceptor call that started the refresh is suspended. */
  datatype Phase =
    | Idle
    | ReadingRefreshToken(origin: Request)
    | Exchanging(origin: Request, refreshToken: string)
    | Clearing(origin: Request, reason: Reason)

  /** What the interceptor's promise for a failed response does. */
  datatype Outcome =
    | RejectOriginal
    | Queued
    | Pending
    | Replay(request: Request)
    | RejectRefresh(reason: Reason)

  /** `isRefreshing`, `failedQueue`, the suspended initiator, and every settlement so far. */
  datatype Coordinator = Coordinator(
    isRefreshing: bool,
    failedQueue: seq<Request>,
    phase: Phase,
    settled: seq<Settlement>)

  datatype Step = Step(next: Coordinator, outcome: Outcome)

  const Start := Coordinator(false, [], Idle, [])

  /** The request with the header `Authorization: Bearer <token>`. */
  function WithBearer(req: Request, token: string): Request {
    req.(authorization := Some("Bearer " + token))
  }

  function Settle(req: Request, error: Option<Reason>, token: string): Settlement {
    if error.Some? then Rejected(req, error.value) else Replayed(WithBearer(req, token))
  }

  /**
   * `processQueue(error, token)`: every parked request, in order, is
   * rejected with the error if there is one and otherwise replayed with
   * the token; a replayed request keeps its `_retry` flag.
   */
  function SettleAll(queue: seq<Request>, error: Option<Reason>, token: string): (r: seq<Settlement>)
    ensures |r| == |queue|
    ensures error.Some? ==> forall i :: 0 <= i < |queue| ==> r[i] == Rejected(queue[i], error.value)
    ensures error.None? ==>
              forall i :: 0 <= i < |queue| ==>
                r[i].Replayed? && r[i].request.id == queue[i].id && r[i].request.retry == queue[i].retry
                && r[i].request.authorization == Some("Bearer " + token)
  {
    if |queue| == 0 then []
    else SettleAll(queue[..|queue| - 1], error, token) + [Settle(queue[|queue| - 1], error, token)]
  }

  /**
   * The response interceptor on a failure with `status` (None when there
   * was no response). Anything but a 401 on a first attempt is rejected
   * untouched; a 401 during a refresh is parked; a 401 otherwise marks the
   * request retried and starts the one refresh.
   */
  function OnResponseError(c: Coordinator, req: Request, status: Option<int>): (s: Step)
    ensures status != Some(401) || req.retry ==> s == Step(c, RejectOriginal)
    ensures status == Some(401) && !req.retry && c.isRefreshing ==>
              s == Step(c.(failedQueue := c.failedQueue + [req]), Queued)
    ensures status == Some(401) && !req.retry && !c.isRefreshing ==>
              && s.outcome == Pending && s.next.isRefreshing && s.next.failedQueue == c.failedQueue
              && s.next.phase == ReadingRefreshToken(req.(retry := true)) && s.next.settled == c.settled
    ensures c.isRefreshing ==> s.next.phase == c.phase
  {
    if status != Some(401) || req.retry then Step(c, RejectOriginal)
    else if c.isRefreshing then Step(c.(failedQueue := c.failedQueue + [req]), Queued)
    else Step(c.(isRefreshing := true, phase := ReadingRefreshToken(req.(retry := true))), Pending)
  }

  /** A failed refresh: every parked request is rejected, the queue emptied, and storage clearing begins. */
  function Fail(c: Coordinator, reason: Reason): (s: Step)
    requires !c.phase.Idle?
    ensures s.next.failedQueue == [] && s.next.isRefreshing == c.isRefreshing && s.outcome == Pending
    ensures s.next.settled == c.settled + SettleAll(c.failedQueue, Some(reason), "")
    ensures s.next.phase == Clearing(c.phase.origin, reason)
  {
    Step(c.(settled := c.settled + SettleAll(c.failedQueue, Some(reason), ""), failedQueue := [],
            phase := Clearing(c.phase.origin, reason)), Pending)
  }

  /** After `getRefreshToken`: without a truthy token the refresh fails at once, otherwise the exchange is sent. */
  function OnRefreshTokenRead(c: Coordinator, token: Option<string>): (s: Step)
    requires c.phase.ReadingRefreshToken?
    ensures !Truthy(token) ==> s == Fail(c, NoRefreshToken)
    ensures Truthy(token) ==> s == Step(c.(phase := Exchanging(c.phase.origin, token.value)), Pending)
  {
    if !Truthy(token) then Fail(c, NoRefreshToken)
    else Step(c.(phase := Exchanging(c.phase.origin, token.value)), Pending)
  }

  /**
   * The exchange succeeded with a new access token (the tokens are saved
   * by the class): every parked request is replayed with it, the queue is
   * emptied, the initiator is sent again with it, and the refresh is over.
   */
  function OnRefreshSucceeded(c: Coordinator, accessToken: string): (s: Step)
    requires c.phase.Exchanging?
    ensures s.next == Coordinator(false, [], Idle, c.settled + SettleAll(c.failedQueue, None, accessToken))
    ensures s.outcome == Replay(WithBearer(c.phase.origin, accessToken))
  {
    Step(Coordinator(false, [], Idle, c.settled + SettleAll(c.failedQueue, None, accessToken)),
         Replay(WithBearer(c.phase.origin, accessToken)))
  }

  /** The exchange threw. */
  function OnRefreshFailed(c: Coordinator, message: string): (s: Step)
    requires c.phase.Exchanging?
    ensures s == Fail(c, ExchangeFailed(message))
  {
    Fail(c, ExchangeFailed(message))
  }

  /**
   * `await StorageService.clearAll()` returned, as the code is written: the
   * initiator is rejected and `isRefreshing` reset, but requests parked
   * while the clear was in flight stay in the queue.
   */
  function OnClearFinishedAsWritten(c: Coordinator): (s: Step)
    requires c.phase.Clearing?
    ensures s.next == c.(isRefreshing := false, phase := Idle)
    ensures s.outcome == RejectRefresh(c.phase.reason)
  {
    Step(c.(isRefreshing := false, phase := Idle), RejectRefresh(c.phase.reason))
  }

  /**
   * The same step as evidently intended: requests parked during the clear
   * are rejected with the same reason before the refresh ends.
   */
  function OnClearFinished(c: Coordinator): (s: Step)
    requires c.phase.Clearing?
    ensures s.next == Coordinator(false, [], Idle, c.settled + SettleAll(c.failedQueue, Some(c.phase.reason), ""))
    ensures s.outcome == RejectRefresh(c.phase.reason)
  {
    Step(Coordinator(false, [], Idle, c.settled + SettleAll(c.failedQueue, Some(c.phase.reason), "")),
         RejectRefresh(c.phase.reason))
  }

  /**
   * The coordinator's invariant: a refresh is in flight exactly when an
   * initiator is suspended, that initiator is marked retried, and nothing
   * is parked while no refresh is in flight.
   */
  predicate Inv(c: Coordinator) {
    && (c.isRefreshing <==> !c.phase.Idle?)
    && (!c.isRefreshing ==> c.failedQueue == [])
    && (!c.phase.Idle? ==> c.phase.origin.retry)
  }

  /**
   * Every step keeps the invariant, so at most one refresh is ever in
   * flight and, once it ends, no request is left parked. Parked requests
   * are never lost or settled twice: each step either keeps the queue or
   * moves all of it, in order, into the settlements.
   */
  lemma StepsKeepInv(c: Coordinator, req: Request, status: Option<int>, token: Option<string>,
                     accessToken: string, message: string)
    requires Inv(c)
    ensures Inv(OnResponseError(c, req, status).next)
    ensures c.phase.ReadingRefreshToken? ==> Inv(OnRefreshTokenRead(c, token).next)
    ensures c.phase.Exchanging? ==> Inv(OnRefreshSucceeded(c, accessToken).next)
    ensures c.phase.Exchanging? ==> Inv(OnRefreshFailed(c, message).next)
    ensures c.phase.Clearing? ==> Inv(OnClearFinished(c).next)
  {
  }

  /** A burst of 401s arriving while a refresh is in flight: the fold of `OnResponseError` over them. */
  function ArriveAll(c: Coordinator, reqs: seq<Request>): (r: Coordinator)
    ensures c.isRefreshing ==> r.isRefreshing && r.phase == c.phase && r.settled == c.settled
    decreases |reqs|
  {
    if |reqs| == 0 then c
    else ArriveAll(OnResponseError(c, reqs[0], Some(401)).next, reqs[1..])
  }

  /** During a refresh, first-attempt 401s are parked in arrival order and start nothing. */
  lemma {:induction false} ArrivalsAreParked(c: Coordinator, reqs: seq<Request>)
    requires c.isRefreshing
    requires forall i :: 0 <= i < |reqs| ==> !reqs[i].retry
    ensures ArriveAll(c, reqs) == c.(failedQueue := c.failedQueue + reqs)
    decreases |reqs|
  {
    if |reqs| > 0 {
      var c1 := OnResponseError(c, reqs[0], Some(401)).next;
      ArrivalsAreParked(c1, reqs[1..]);
      assert c.failedQueue + [reqs[0]] + reqs[1..] == c.failedQueue + reqs by {
        assert reqs == [reqs[0]] + reqs[1..];
      }
    }
  }

  /**
   * Any number of 401s that arrive during one refresh share it: a single
   * exchange runs, each parked request is replayed with the same new
   * access token and keeps its unset `_retry` flag, the initiator is
   * replayed with that token, and the coordinator is idle and empty again.
   */
  lemma BurstSharesOneRefresh(first: Request, rest: seq<Request>, refreshToken: string, accessToken: string)
    requires !first.retry && refreshToken != ""
    requires forall i :: 0 <= i < |rest| ==> !rest[i].retry
    ensures var s1 := OnResponseError(Start, first, Some(401));
      var c2 := ArriveAll(s1.next, rest);
      var s3 := OnRefreshTokenRead(c2, Some(refreshToken));
      var s4 := OnRefreshSucceeded(s3.next, accessToken);
      && s1.outcome == Pending
      && s4.outcome == Replay(WithBearer(first.(retry := true), accessToken))
      && s4.next.failedQueue == [] && !s4.next.isRefreshing
      && |s4.next.settled| == |rest|
      && forall i :: 0 <= i < |rest| ==>
           s4.next.settled[i] == Replayed(WithBearer(rest[i], accessToken)) && !s4.next.settled[i].request.retry
  {
    var s1 := OnResponseError(Start, first, Some(401));
    ArrivalsAreParked(s1.next, rest);
    var c2 := ArriveAll(s1.next, rest);
    assert c2.failedQueue == rest;
    var s3 := OnRefreshTokenRead(c2, Some(refreshToken));
    var s4 := OnRefreshSucceeded(s3.next, accessToken);
    forall i | 0 <= i < |rest|
      ensures s4.next.settled[i] == Replayed(WithBearer(rest[i], accessToken))
    {
      assert s4.next.settled[i].request == WithBearer(rest[i], accessToken);
    }
  }

  /**
   * As written, a 401 that arrives while the storage clear after a failed
   * refresh is in flight is parked and then left behind: the refresh ends
   * with the request still queued and unsettled, breaking `Inv`. It stays
   * pending until some later 401 starts another refresh, if one ever does.
   */
  lemma StrandedDuringClear(first: Request, late: Request)
    requires !first.retry && !late.retry
    ensures var s1 := OnResponseError(Start, first, Some(401));
      var s2 := OnRefreshTokenRead(s1.next, None);
      var s3 := OnResponseError(s2.next, late, Some(401));
      var s4 := OnClearFinishedAsWritten(s3.next);
      && s3.outcome == Queued
      && s4.outcome == RejectRefresh(NoRefreshToken)
      && !s4.next.isRefreshing && s4.next.failedQueue == [late] && s4.next.settled == []
      && !Inv(s4.next)
  {
    var s1 := OnResponseError(Start, first, Some(401));
    var s2 := OnRefreshTokenRead(s1.next, None);
    assert SettleAll([], Some(NoRefreshToken), "") == [];
  }

  /** With the intended step the same request is rejected with the refresh's reason. */
  lemma LateArrivalRejected(first: Request, late: Request)
    requires !first.retry && !late.retry
    ensures var s1 := OnResponseError(Start, first, Some(401));
      var s2 := OnRefreshTokenRead(s1.next, None);
      var s3 := OnResponseError(s2.next, late, Some(401));
      var s4 := OnClearFinished(s3.next);
      s4.next == Coordinator(false, [], Idle, [Rejected(late, NoRefreshToken)]) && Inv(s4.next)
  {
    var s1 := OnResponseError(Start, first, Some(401));
    var s2 := OnRefreshTokenRead(s1.next, None);
    assert SettleAll([], Some(NoRefreshToken), "") == [];
    var s3 := OnResponseError(s2.next, late, Some(401));
    assert SettleAll([late], Some(NoRefreshToken), "") == [Rejected(late, NoRefreshToken)];
  }

  class ApiClient {
    var isRefreshing: bool
    var failedQueue: seq<Request>
    var phase: Phase
    var settled: seq<Settlement>
    const storage: StorageService

    function State(): Coordinator
      reads this
    {
      Coordinator(isRefreshing, failedQueue, phase, settled)
    }

    constructor (storage: StorageService)
      ensures State() == Start && this.storage == storage
    {
      isRefreshing := false;
      failedQueue := [];
      phase := Idle;
      settled := [];
      this.storage := storage;
    }

    /** The request interceptor: the stored access token, when truthy, is attached as a bearer token. */
    method RequestInterceptor(req: Request, readFails: bool) returns (out: Request)
      ensures var token := Read(storage.items, AccessToken, readFails);
        out == if Truthy(token) then WithBearer(req, token.value) else req
    {
      var token := storage.GetAccessToken(readFails);
      if Truthy(token) {
        out := req.(authorization := Some("Bearer " + token.value));
      } else {
        out := req;
      }
    }

    /** `processQueue(error, token)` over `failedQueue`, recording each settlement. */
    method ProcessQueue(error: Option<Reason>, token: string)
      modifies this
      ensures settled == old(settled) + SettleAll(failedQueue, error, token)
      ensures isRefreshing == old(isRefreshing) && failedQueue == old(failedQueue) && phase == old(phase)
    {
      for i := 0 to |failedQueue|
        invariant isRefreshing == old(isRefreshing) && failedQueue == old(failedQueue) && phase == old(phase)
        invariant settled == old(settled) + SettleAll(failedQueue[..i], error, token)
      {
        var prom := failedQueue[i];
        if error.Some? {
          settled := settled + [Rejected(prom, error.value)];
        } else {
          settled := settled + [Replayed(prom.(authorization := Some("Bearer " + token)))];
        }
        assert failedQueue[..i + 1][..i] == failedQueue[..i];
      }
      assert failedQueue[..|failedQueue|] == failedQueue;
    }

    /** The response interceptor's synchronous part for a failed response. */
    method HandleResponseError(req: Request, status: Option<int>) returns (outcome: Outcome)
      modifies this
      ensures var s := OnResponseError(old(State()), req, status);
        State() == s.next && outcome == s.outcome
    {
      if status != Some(401) || req.retry {
        return RejectOriginal;
      }
      if isRefreshing {
        failedQueue := failedQueue + [req];
        return Queued;
      }
      var origin := req.(retry := true);
      isRefreshing := true;
      phase := ReadingRefreshToken(origin);
      outcome := Pending;
    }

    /** Resumes after `getRefreshToken`; a missing token fails the refresh and starts clearing storage. */
    method RefreshTokenRead(readFails: bool) returns (outcome: Outcome)
      requires phase.ReadingRefreshToken?
      modifies this, storage
      ensures var token := Read(old(storage.items), RefreshToken, readFails);
        var s := OnRefreshTokenRead(old(State()), token);
        && State() == s.next && outcome == s.outcome
        && storage.items == if Truthy(token) then old(storage.items) else map[]
    {
      var refreshToken := storage.GetRefreshToken(readFails);
      if !Truthy(refreshToken) {
        var reason := NoRefreshToken;
        ProcessQueue(Some(reason), "");
        failedQueue := [];
        storage.ClearAll();
        phase := Clearing(phase.origin, reason);
        return Pending;
      }
      phase := Exchanging(phase.origin, refreshToken.value);
      outcome := Pending;
    }

    /** Resumes after a successful exchange: save both tokens, replay everything, end the refresh. */
    method RefreshSucceeded(accessToken: string, refreshToken: string) returns (outcome: Outcome)
      requires phase.Exchanging?
      modifies this, storage
      ensures var s := OnRefreshSucceeded(old(State()), accessToken);
        State() == s.next && outcome == s.outcome
      ensures storage.items == old(storage.items)[AccessToken := accessToken][RefreshToken := refreshToken]
    {
      storage.SaveTokens(accessToken, refreshToken);
      ProcessQueue(None, accessToken);
      failedQueue := [];
      var origin := phase.origin.(authorization := Some("Bearer " + accessToken));
      outcome := Replay(origin);
      isRefreshing := false;
      phase := Idle;
    }

    /** Resumes after the exchange threw: reject everything parked and start clearing storage. */
    method RefreshFailed(message: string) returns (outcome: Outcome)
      requires phase.Exchanging?
      modifies this, storage
      ensures var s := OnRefreshFailed(old(State()), message);
        State() == s.next && outcome == s.outcome
      ensures storage.items == map[]
    {
      var reason := ExchangeFailed(message);
      ProcessQueue(Some(reason), "");
      failedQueue := [];
      storage.ClearAll();
      phase := Clearing(phase.origin, reason);
      outcome := Pending;
    }

    /** Resumes after the storage clear: settle late arrivals, reject the initiator, end the refresh. */
    method ClearFinished() returns (outcome: Outcome)
      requires phase.Clearing?
      modifies this
      ensures var s := OnClearFinished(old(State()));
        State() == s.next && outcome == s.outcome
    {
      var reason := phase.reason;
      ProcessQueue(Some(reason), "");
      failedQueue := [];
      outcome := RejectRefresh(reason);
      isRefreshing := false;
      phase := Idle;
    }
  }
}
