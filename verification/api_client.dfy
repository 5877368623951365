/** The HTTP client's interceptors (services/apiClient.ts): the bearer-token
    request interceptor and the single-flight refresh-on-401 coordinator,
    modelled as a sequential event-driven machine. Each event is one
    non-suspending stretch of the asynchronous interceptor. */
module ApiClient {
  import opened Wrappers
  import opened ErrorUtils
  import opened TokenStore

  const AuthorizationHeader := "Authorization"

  function Bearer(token: string): string {
    "Bearer " + token
  }

  /** A request configuration: an opaque identity standing for method, path
      and body, its headers, and the `_retry` mark. */
  datatype Request = Request(id: nat, headers: map<string, string>, retried: bool)

  /** The request interceptor: attach `Authorization: Bearer <token>` when an
      access token is stored. */
  function AttachToken(req: Request, store: Store): (r: Request)
    ensures r.id == req.id && r.retried == req.retried
    ensures r.headers - {AuthorizationHeader} == req.headers - {AuthorizationHeader}
    ensures Present(store.access) ==>
      AuthorizationHeader in r.headers && r.headers[AuthorizationHeader] == Bearer(store.access.value)
    ensures !Present(store.access) ==> r == req
  {
    if Present(store.access) then req.(headers := req.headers[AuthorizationHeader := Bearer(store.access.value)])
    else req
  }

  /** Attaching twice is attaching once. */
  lemma AttachTokenIdempotent(req: Request, store: Store)
    ensures AttachToken(AttachToken(req, store), store) == AttachToken(req, store)
  {
  }

  /** `error.response?.status === 401`. */
  predicate Is401(e: RawError) {
    e.Transport? && e.response.Some? && e.response.value.status == 401
  }

  /** The refresh attempt of the request that became the refresher: it is
      suspended either on reading the refresh token or on the refresh call. */
  datatype Stage = ReadingRefreshToken | AwaitingRefresh(refreshToken: string)

  datatype Attempt = Attempt(original: Request, error: RawError, stage: Stage)

  /** A failed call on its way out through the logout branch: suspended on
      `await deleteAccessToken()`, then on `await deleteRefreshToken()`, and
      rejected with its parsed error once both have settled. */
  datatype Teardown = Teardown(original: Request, error: RawError, accessDeleted: bool)

  /** The module-level `isRefreshing` flag and `failedQueue`, the token store,
      the client's default `Authorization` header, the suspended refresher,
      and the calls suspended in the token teardown. */
  datatype Coordinator = Coordinator(
    refreshing: bool,
    queue: seq<Request>,
    store: Store,
    defaultAuthorization: Option<string>,
    attempt: Option<Attempt>,
    teardowns: seq<Teardown>)

  function Start(store: Store): Coordinator {
    Coordinator(false, [], store, None, None, [])
  }

  /** The flag is set exactly while a refresher is suspended; the refresher's
      request is marked retried and failed with a 401, and so did every call
      in the teardown. */
  predicate Valid(c: Coordinator) {
    && (c.refreshing <==> c.attempt.Some?)
    && (c.attempt.Some? ==> c.attempt.value.original.retried && Is401(c.attempt.value.error))
    && (forall k :: 0 <= k < |c.teardowns| ==> c.teardowns[k].original.retried && Is401(c.teardowns[k].error))
  }

  datatype Event =
    | RequestFailed(req: Request, error: RawError) // the response interceptor's error handler runs
    | RefreshTokenRead                             // `await getRefreshToken()` settles
    | RefreshSucceeded(accessToken: string)        // POST /auth/refresh resolves
    | RefreshFailed(error: RawError)               // POST /auth/refresh rejects
    | AccessTokenDeleted(k: nat)                   // teardown `k`'s `await deleteAccessToken()` settles
    | RefreshTokenDeleted(k: nat)                  // teardown `k`'s `await deleteRefreshToken()` settles

  /** The events that can occur in a state: the two refresh settlements only
      while the refresher is suspended at the matching point, the two
      deletions only for a teardown suspended on them. */
  predicate Enabled(c: Coordinator, e: Event) {
    match e
    case RequestFailed(_, _) => true
    case RefreshTokenRead => c.attempt.Some? && c.attempt.value.stage.ReadingRefreshToken?
    case RefreshSucceeded(_) => c.attempt.Some? && c.attempt.value.stage.AwaitingRefresh?
    case RefreshFailed(_) => c.attempt.Some? && c.attempt.value.stage.AwaitingRefresh?
    case AccessTokenDeleted(k) => k < |c.teardowns| && !c.teardowns[k].accessDeleted
    case RefreshTokenDeleted(k) => k < |c.teardowns| && c.teardowns[k].accessDeleted
  }

  /** What a step does outside the coordinator's own state. */
  datatype Output =
    | Queued(req: Request)                          // the caller waits in the queue
    | ReadRefreshToken                              // the refresher reads the refresh token
    | PostRefresh(refreshToken: string)             // POST /auth/refresh is issued
    | Replay(req: Request)                          // a queued entry is resolved by re-issuing it
    | RejectQueued(req: Request, cause: RawError)   // a queued entry is rejected
    | Retry(req: Request)                           // the refresher's own request is re-issued
    | Reject(req: Request, error: AppError)         // the failing call is rejected

  datatype Step = Step(next: Coordinator, out: seq<Output>)

  /** A queued config with its header overwritten by the new token. */
  function WithBearer(req: Request, token: string): Request {
    req.(headers := req.headers[AuthorizationHeader := Bearer(token)])
  }

  /** `processQueue(null, token)`: the `forEach` over the queue, re-issuing each
      entry with the new token. */
  function Replays(queue: seq<Request>, token: string): (out: seq<Output>)
    // one replay per entry, in queue order: the same request, now carrying the new token
    ensures |out| == |queue|
    ensures forall i :: 0 <= i < |queue| ==>
      && out[i].Replay? && out[i].req.id == queue[i].id && out[i].req.retried == queue[i].retried
      && out[i].req.headers - {AuthorizationHeader} == queue[i].headers - {AuthorizationHeader}
      && AuthorizationHeader in out[i].req.headers && out[i].req.headers[AuthorizationHeader] == Bearer(token)
    decreases |queue|
  {
    if |queue| == 0 then []
    else [Replay(WithBearer(queue[0], token))] + Replays(queue[1..], token)
  }

  /** `processQueue(err)`: the `forEach` over the queue, rejecting each entry
      with the raw error. */
  function Rejections(queue: seq<Request>, error: RawError): (out: seq<Output>)
    // one rejection per entry, in queue order, each carrying the raw error unparsed
    ensures |out| == |queue|
    ensures forall i :: 0 <= i < |queue| ==> out[i].RejectQueued? && out[i].req == queue[i] && out[i].cause == error
    decreases |queue|
  {
    if |queue| == 0 then []
    else [RejectQueued(queue[0], error)] + Rejections(queue[1..], error)
  }

  /** A replayed entry goes back through the request interceptor, which finds
      the new token already saved: it sends exactly the header the replay set,
      and it is what the interceptor would have attached to the original. */
  lemma {:induction false} ReplayMatchesInterceptor(queue: seq<Request>, token: string, store: Store)
    requires store.access == Some(token) && token != ""
    ensures forall i :: 0 <= i < |queue| ==>
      && AttachToken(Replays(queue, token)[i].req, store) == Replays(queue, token)[i].req
      && AttachToken(queue[i], store) == Replays(queue, token)[i].req
    decreases |queue|
  {
    if |queue| > 0 {
      ReplayMatchesInterceptor(queue[1..], token, store);
      var out := Replays(queue, token);
      forall i | 0 <= i < |queue|
        ensures AttachToken(out[i].req, store) == out[i].req && AttachToken(queue[i], store) == out[i].req
      {
        if i > 0 {
          assert out[i] == Replays(queue[1..], token)[i - 1];
          assert queue[i] == queue[1..][i - 1];
        }
      }
    }
  }

  /** Draining the queue in two parts is draining it at once. */
  lemma {:induction false} ProcessQueueSplits(q1: seq<Request>, q2: seq<Request>, token: string, error: RawError)
    ensures Replays(q1 + q2, token) == Replays(q1, token) + Replays(q2, token)
    ensures Rejections(q1 + q2, error) == Rejections(q1, error) + Rejections(q2, error)
    decreases |q1|
  {
    if |q1| > 0 {
      assert (q1 + q2)[1..] == q1[1..] + q2;
      ProcessQueueSplits(q1[1..], q2, token, error);
    } else {
      assert q1 + q2 == q2;
    }
  }

  /** The response interceptor's error handler up to its first suspension. */
  function OnRequestFailed(c: Coordinator, req: Request, error: RawError): (s: Step)
    requires Valid(c)
    ensures Valid(s.next)
    // a 401 during a refresh only queues the unmarked request
    ensures Is401(error) && !req.retried && c.refreshing ==>
      s.next == c.(queue := c.queue + [req]) && s.out == [Queued(req)] && !s.next.queue[|c.queue|].retried
    // a 401 with no refresh running makes this request the refresher
    ensures Is401(error) && !req.retried && !c.refreshing ==>
      && s.next == c.(refreshing := true, attempt := Some(Attempt(req.(retried := true), error, ReadingRefreshToken)))
      && s.out == [ReadRefreshToken]
    // a second 401 on a retried request heads for the token teardown and
    // never queues or refreshes
    ensures Is401(error) && req.retried ==>
      && s.next == c.(teardowns := c.teardowns + [Teardown(req, error, false)])
      && s.out == []
    // every other failure passes through, canonicalised, with nothing changed
    ensures !Is401(error) ==> s.next == c && s.out == [Reject(req, ParseApiError(error))]
  {
    if Is401(error) && !req.retried then
      if c.refreshing then Step(c.(queue := c.queue + [req]), [Queued(req)])
      else
        var attempt := Attempt(req.(retried := true), error, ReadingRefreshToken);
        Step(c.(refreshing := true, attempt := Some(attempt)), [ReadRefreshToken])
    else if Is401(error) then
      Step(c.(teardowns := c.teardowns + [Teardown(req, error, false)]), [])
    else
      Step(c, [Reject(req, ParseApiError(error))])
  }

  /** The refresher resumes after reading the refresh token. */
  function OnRefreshTokenRead(c: Coordinator): (s: Step)
    requires Valid(c) && Enabled(c, RefreshTokenRead)
    ensures Valid(s.next)
    // with a refresh token, the refresh endpoint is called with it and nothing else changes
    ensures Present(c.store.refresh) ==>
      && s.next == c.(attempt := Some(c.attempt.value.(stage := AwaitingRefresh(c.store.refresh.value))))
      && s.out == [PostRefresh(c.store.refresh.value)]
    // without one: no call, the flag is cleared, the refresher heads for the
    // token teardown, and queued entries stay pending
    ensures !Present(c.store.refresh) ==>
      && s.next == c.(refreshing := false, attempt := None,
                      teardowns := c.teardowns + [Teardown(c.attempt.value.original, c.attempt.value.error, false)])
      && s.out == []
  {
    var a := c.attempt.value;
    if Present(c.store.refresh) then
      Step(c.(attempt := Some(a.(stage := AwaitingRefresh(c.store.refresh.value)))), [PostRefresh(c.store.refresh.value)])
    else
      Step(c.(refreshing := false, attempt := None, teardowns := c.teardowns + [Teardown(a.original, a.error, false)]), [])
  }

  /** The refresh call resolved with a new access token. The suspension on
      `await saveAccessToken` is folded into this step: a 401 arriving during
      it is queued and replayed just as one arriving before the resolution. */
  function OnRefreshSucceeded(c: Coordinator, token: string): (s: Step)
    requires Valid(c) && Enabled(c, RefreshSucceeded(token))
    ensures Valid(s.next)
    ensures !s.next.refreshing && s.next.queue == [] && s.next.teardowns == c.teardowns
    // the new token is saved and becomes the default header; the refresh token is kept
    ensures s.next.store == c.store.(access := Some(token))
    ensures s.next.defaultAuthorization == Some(Bearer(token))
    // queued entries are replayed in order with the new token, then the original is retried
    ensures s.out == Replays(c.queue, token) + [Retry(c.attempt.value.original)]
  {
    Step(c.(refreshing := false, queue := [], store := c.store.(access := Some(token)),
            defaultAuthorization := Some(Bearer(token)), attempt := None),
         Replays(c.queue, token) + [Retry(c.attempt.value.original)])
  }

  /** The refresh call rejected: the catch drains the queue, the finally
      clears the flag, and the refresher heads for the token teardown. */
  function OnRefreshFailed(c: Coordinator, error: RawError): (s: Step)
    requires Valid(c) && Enabled(c, RefreshFailed(error))
    ensures Valid(s.next)
    // queued entries get the raw refresh error; the tokens are still stored
    ensures s.next == c.(refreshing := false, queue := [], attempt := None,
                         teardowns := c.teardowns + [Teardown(c.attempt.value.original, c.attempt.value.error, false)])
    ensures s.out == Rejections(c.queue, error)
  {
    var a := c.attempt.value;
    Step(c.(refreshing := false, queue := [], attempt := None, teardowns := c.teardowns + [Teardown(a.original, a.error, false)]),
         Rejections(c.queue, error))
  }

  /** Teardown `k`'s access-token deletion settled. */
  function OnAccessTokenDeleted(c: Coordinator, k: nat): (s: Step)
    requires Valid(c) && Enabled(c, AccessTokenDeleted(k))
    ensures Valid(s.next)
    ensures s.next.store == c.store.(access := None) && s.out == []
    ensures |s.next.teardowns| == |c.teardowns| && s.next.teardowns[k].accessDeleted
    ensures forall j :: 0 <= j < |c.teardowns| && j != k ==> s.next.teardowns[j] == c.teardowns[j]
    ensures s.next.teardowns[k].original == c.teardowns[k].original && s.next.teardowns[k].error == c.teardowns[k].error
    ensures s.next.(store := c.store, teardowns := c.teardowns) == c
  {
    Step(c.(store := c.store.(access := None), teardowns := c.teardowns[k := c.teardowns[k].(accessDeleted := true)]), [])
  }

  /** Teardown `k`'s refresh-token deletion settled: the call is rejected with
      its parsed error and leaves the teardown. */
  function OnRefreshTokenDeleted(c: Coordinator, k: nat): (s: Step)
    requires Valid(c) && Enabled(c, RefreshTokenDeleted(k))
    ensures Valid(s.next)
    ensures s.next.store == c.store.(refresh := None)
    ensures s.out == [Reject(c.teardowns[k].original, ParseApiError(c.teardowns[k].error))]
    ensures s.next.teardowns == c.teardowns[..k] + c.teardowns[k + 1..]
    ensures s.next.(store := c.store, teardowns := c.teardowns) == c
  {
    var t := c.teardowns[k];
    var rest := c.teardowns[..k] + c.teardowns[k + 1..];
    assert forall j :: 0 <= j < |rest| ==> rest[j] == c.teardowns[if j < k then j else j + 1];
    Step(c.(store := c.store.(refresh := None), teardowns := rest), [Reject(t.original, ParseApiError(t.error))])
  }

  /** A teardown run to completion: whatever else is going on, both tokens
      end deleted, the call is rejected with its own parsed 401, and nothing
      else changes. */
  lemma {:induction false} TeardownCompletes(c: Coordinator, k: nat)
    requires Valid(c) && Enabled(c, AccessTokenDeleted(k))
    ensures var first := OnAccessTokenDeleted(c, k);
      var second := OnRefreshTokenDeleted(first.next, k);
      && second.next == c.(store := Store(None, None), teardowns := c.teardowns[..k] + c.teardowns[k + 1..])
      && first.out + second.out == [Reject(c.teardowns[k].original, ParseApiError(c.teardowns[k].error))]
  {
    var first := OnAccessTokenDeleted(c, k);
    assert first.next.teardowns[..k] == c.teardowns[..k];
    assert first.next.teardowns[k + 1..] == c.teardowns[k + 1..];
  }

  function Handle(c: Coordinator, e: Event): (s: Step)
    requires Valid(c) && Enabled(c, e)
    ensures Valid(s.next)
  {
    match e
    case RequestFailed(req, error) => OnRequestFailed(c, req, error)
    case RefreshTokenRead => OnRefreshTokenRead(c)
    case RefreshSucceeded(token) => OnRefreshSucceeded(c, token)
    case RefreshFailed(error) => OnRefreshFailed(c, error)
    case AccessTokenDeleted(k) => OnAccessTokenDeleted(c, k)
    case RefreshTokenDeleted(k) => OnRefreshTokenDeleted(c, k)
  }

  /** A burst of requests failing one after another with the same error. */
  function Burst(c: Coordinator, reqs: seq<Request>, error: RawError): (s: Step)
    requires Valid(c)
    ensures Valid(s.next)
    decreases |reqs|
  {
    if |reqs| == 0 then Step(c, [])
    else
      var first := OnRequestFailed(c, reqs[0], error);
      var rest := Burst(first.next, reqs[1..], error);
      Step(rest.next, first.out + rest.out)
  }

  function CountReads(out: seq<Output>): nat {
    if |out| == 0 then 0 else (if out[0].ReadRefreshToken? then 1 else 0) + CountReads(out[1..])
  }

  function CountPosts(out: seq<Output>): nat {
    if |out| == 0 then 0 else (if out[0].PostRefresh? then 1 else 0) + CountPosts(out[1..])
  }

  lemma {:induction false} CountsAppend(a: seq<Output>, b: seq<Output>)
    ensures CountReads(a + b) == CountReads(a) + CountReads(b)
    ensures CountPosts(a + b) == CountPosts(a) + CountPosts(b)
  {
    if |a| > 0 {
      assert (a + b)[0] == a[0];
      assert (a + b)[1..] == a[1..] + b;
      CountsAppend(a[1..], b);
    } else {
      assert a + b == b;
    }
  }

  predicate AllUnmarked(reqs: seq<Request>) {
    forall i :: 0 <= i < |reqs| ==> !reqs[i].retried
  }

  /** Single flight: a burst of 401s on unmarked requests starts at most one
      refresh; every request after the refresher is queued in arrival order,
      unmarked, and the token store is untouched. */
  lemma {:induction false} BurstStartsOneRefresh(c: Coordinator, reqs: seq<Request>, error: RawError)
    requires Valid(c) && Is401(error) && AllUnmarked(reqs) && |reqs| > 0
    ensures var s := Burst(c, reqs, error);
      && s.next.refreshing
      && CountReads(s.out) == (if c.refreshing then 0 else 1)
      && CountPosts(s.out) == 0
      && s.next.queue == c.queue + (if c.refreshing then reqs else reqs[1..])
      && s.next.store == c.store
      && s.next.defaultAuthorization == c.defaultAuthorization
      && s.next.teardowns == c.teardowns
      && s.next.attempt == (if c.refreshing then c.attempt
                            else Some(Attempt(reqs[0].(retried := true), error, ReadingRefreshToken)))
    decreases |reqs|
  {
    var first := OnRequestFailed(c, reqs[0], error);
    var rest := Burst(first.next, reqs[1..], error);
    CountsAppend(first.out, rest.out);
    if |reqs| == 1 {
      assert reqs[1..] == [];
    } else {
      BurstStartsOneRefresh(first.next, reqs[1..], error);
      if c.refreshing {
        assert c.queue + [reqs[0]] + reqs[1..] == c.queue + reqs;
      }
    }
  }

  /** The state a burst from an idle client leaves: the first request is the
      refresher, suspended on reading the refresh token, the rest are queued. */
  function AfterBurst(store: Store, reqs: seq<Request>, error: RawError): Coordinator
    requires |reqs| > 0
  {
    Coordinator(true, reqs[1..], store, None, Some(Attempt(reqs[0].(retried := true), error, ReadingRefreshToken)), [])
  }

  lemma {:induction false} BurstFromIdle(store: Store, reqs: seq<Request>, error: RawError)
    requires Is401(error) && AllUnmarked(reqs) && |reqs| > 0
    ensures Burst(Start(store), reqs, error).next == AfterBurst(store, reqs, error)
    ensures CountReads(Burst(Start(store), reqs, error).out) == 1
    ensures CountPosts(Burst(Start(store), reqs, error).out) == 0
  {
    BurstStartsOneRefresh(Start(store), reqs, error);
    assert [] + reqs[1..] == reqs[1..];
  }

  /** A burst from an idle client followed by a successful refresh: exactly one
      token read and one refresh call, every queued request replayed with the
      new token in arrival order, the refresher's request retried last, and
      the client idle with the new access token. */
  lemma {:induction false} BurstThenRefreshSucceeds(store: Store, reqs: seq<Request>, error: RawError, token: string)
    requires Is401(error) && AllUnmarked(reqs) && |reqs| > 0 && Present(store.refresh)
    ensures
      var burst := Burst(Start(store), reqs, error);
      burst.next == AfterBurst(store, reqs, error) &&
      var read := OnRefreshTokenRead(burst.next);
      var done := OnRefreshSucceeded(read.next, token);
      && CountReads(burst.out + read.out + done.out) == 1
      && CountPosts(burst.out + read.out + done.out) == 1
      && done.out == Replays(reqs[1..], token) + [Retry(reqs[0].(retried := true))]
      && !done.next.refreshing && done.next.queue == [] && done.next.attempt.None? && done.next.teardowns == []
      && done.next.store == store.(access := Some(token))
      && done.next.defaultAuthorization == Some(Bearer(token))
  {
    BurstFromIdle(store, reqs, error);
    var burst := Burst(Start(store), reqs, error);
    var read := OnRefreshTokenRead(burst.next);
    var done := OnRefreshSucceeded(read.next, token);
    assert CountReads(read.out) == 0 && CountPosts(read.out) == 1;
    assert CountReads(done.out) == 0 && CountPosts(done.out) == 0 by {
      NoReadsOrPosts(done.out);
    }
    CountsAppend(burst.out, read.out);
    CountsAppend(burst.out + read.out, done.out);
  }

  /** A burst from an idle client followed by a failed refresh: every queued
      request rejected with the raw refresh error and the flag cleared while
      both tokens are still stored; once the teardown completes, the
      refresher is rejected with its own parsed 401, both tokens are gone and
      the client is idle. */
  lemma {:induction false} BurstThenRefreshFails(store: Store, reqs: seq<Request>, error: RawError, refreshError: RawError)
    requires Is401(error) && AllUnmarked(reqs) && |reqs| > 0 && Present(store.refresh)
    ensures
      var burst := Burst(Start(store), reqs, error);
      burst.next == AfterBurst(store, reqs, error) &&
      var read := OnRefreshTokenRead(burst.next);
      var failed := OnRefreshFailed(read.next, refreshError);
      && CountPosts(burst.out + read.out + failed.out) == 1
      && failed.out == Rejections(reqs[1..], refreshError)
      && failed.next == Coordinator(false, [], store, None, None, [Teardown(reqs[0].(retried := true), error, false)])
      && var first := OnAccessTokenDeleted(failed.next, 0);
         var second := OnRefreshTokenDeleted(first.next, 0);
         && first.out + second.out == [Reject(reqs[0].(retried := true), ParseApiError(error))]
         && second.next == Start(Store(None, None))
  {
    BurstFromIdle(store, reqs, error);
    var burst := Burst(Start(store), reqs, error);
    var read := OnRefreshTokenRead(burst.next);
    var failed := OnRefreshFailed(read.next, refreshError);
    assert CountPosts(read.out) == 1;
    assert CountPosts(failed.out) == 0 by {
      NoReadsOrPosts(failed.out);
    }
    CountsAppend(burst.out, read.out);
    CountsAppend(burst.out + read.out, failed.out);
    TeardownCompletes(failed.next, 0);
  }

  /** The teardown window: after a failed refresh the flag is already clear
      but the tokens are not yet deleted, so an unmarked 401 arriving then
      becomes a second refresher and posts the refresh token the server has
      just rejected. */
  lemma {:induction false} SecondRefreshDuringTeardown(
    store: Store, reqs: seq<Request>, error: RawError, refreshError: RawError, late: Request)
    requires Is401(error) && AllUnmarked(reqs) && |reqs| > 0 && Present(store.refresh) && !late.retried
    ensures
      var burst := Burst(Start(store), reqs, error);
      burst.next == AfterBurst(store, reqs, error) &&
      var read := OnRefreshTokenRead(burst.next);
      read.out == [PostRefresh(store.refresh.value)] &&
      var failed := OnRefreshFailed(read.next, refreshError);
      var again := OnRequestFailed(failed.next, late, error);
      && again.out == [ReadRefreshToken]
      && OnRefreshTokenRead(again.next).out == [PostRefresh(store.refresh.value)]
  {
    BurstFromIdle(store, reqs, error);
  }

  /** A burst from an idle client when no refresh token is stored: no refresh
      call, the flag cleared, and once the teardown completes the refresher is
      rejected and both tokens are gone, while every other request is still
      pending in the queue. */
  lemma {:induction false} BurstWithoutRefreshTokenStrandsQueue(store: Store, reqs: seq<Request>, error: RawError)
    requires Is401(error) && AllUnmarked(reqs) && |reqs| > 0 && !Present(store.refresh)
    ensures
      var burst := Burst(Start(store), reqs, error);
      burst.next == AfterBurst(store, reqs, error) &&
      var read := OnRefreshTokenRead(burst.next);
      && CountPosts(burst.out + read.out) == 0
      && read.out == []
      && read.next == Coordinator(false, reqs[1..], store, None, None, [Teardown(reqs[0].(retried := true), error, false)])
      && var first := OnAccessTokenDeleted(read.next, 0);
         var second := OnRefreshTokenDeleted(first.next, 0);
         && first.out + second.out == [Reject(reqs[0].(retried := true), ParseApiError(error))]
         && second.next == Coordinator(false, reqs[1..], Store(None, None), None, None, [])
  {
    BurstFromIdle(store, reqs, error);
    var burst := Burst(Start(store), reqs, error);
    var read := OnRefreshTokenRead(burst.next);
    CountsAppend(burst.out, read.out);
    TeardownCompletes(read.next, 0);
  }

  lemma {:induction false} NoReadsOrPosts(out: seq<Output>)
    requires forall i :: 0 <= i < |out| ==> !out[i].ReadRefreshToken? && !out[i].PostRefresh?
    ensures CountReads(out) == 0 && CountPosts(out) == 0
  {
    if |out| > 0 {
      NoReadsOrPosts(out[1..]);
    }
  }
}
