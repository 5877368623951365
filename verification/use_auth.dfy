/** The authentication hook (hooks/useAuth.ts): what each operation writes to
    the token store, dispatches, and leaves in the hook's own state. */
module UseAuth {
  import opened Wrappers
  import opened ErrorUtils
  import opened TokenStore
  import opened AuthContext
  import ApiClient

  /** The side effects of an operation, in the order they happen. */
  datatype Effect =
    | SaveAccessToken(token: string)
    | SaveRefreshToken(token: string)
    | Dispatch(action: AuthAction)

  /** The effects, the hook's `error` and `isSubmitting` afterwards, and how
      the returned promise settles. */
  datatype Run<T> = Run(effects: seq<Effect>, error: Option<Rejection>, isSubmitting: bool, outcome: Result<T, Rejection>)

  function ApplyToStore(store: Store, effects: seq<Effect>): Store
    decreases |effects|
  {
    if |effects| == 0 then store
    else
      var next := match effects[0]
        case SaveAccessToken(t) => store.(access := Some(t))
        case SaveRefreshToken(t) => store.(refresh := Some(t))
        case Dispatch(_) => store;
      ApplyToStore(next, effects[1..])
  }

  function Dispatched(effects: seq<Effect>): seq<AuthAction>
    decreases |effects|
  {
    if |effects| == 0 then []
    else (if effects[0].Dispatch? then [effects[0].action] else []) + Dispatched(effects[1..])
  }

  /** `login`, given the outcome of POST /auth/login. */
  function Login(response: Result<AuthResponse, Rejection>): (r: Run<()>)
    ensures !r.isSubmitting
    // success: the access token is saved, the refresh token only when the
    // response has one, and LOGIN_SUCCESS is dispatched after both writes
    ensures response.Success? ==>
      && |r.effects| > 0
      && r.effects[|r.effects| - 1] == Dispatch(LoginSuccess(response.value))
      && (forall i :: 0 <= i < |r.effects| - 1 ==> !r.effects[i].Dispatch?)
      && SaveAccessToken(response.value.accessToken) in r.effects
      && (Present(response.value.refreshToken) ==> SaveRefreshToken(response.value.refreshToken.value) in r.effects)
      && (!Present(response.value.refreshToken) ==> forall i :: 0 <= i < |r.effects| ==> !r.effects[i].SaveRefreshToken?)
      && r.error.None? && r.outcome.Success?
    // failure: nothing written or dispatched, the error recorded and rethrown
    ensures response.Failure? ==>
      r.effects == [] && r.error == Some(response.error) && r.outcome == Failure(response.error)
  {
    if response.Failure? then Run([], Some(response.error), false, Failure(response.error))
    else
      var res := response.value;
      var saves := [SaveAccessToken(res.accessToken)] +
        (if Present(res.refreshToken) then [SaveRefreshToken(res.refreshToken.value)] else []);
      Run(saves + [Dispatch(LoginSuccess(res))], None, false, Success(()))
  }

  /** The hook's writes on top of `afterCall`, the store as POST /auth/login
      left it (the response interceptor may have refreshed or deleted tokens
      during the call): after a success the store holds the new access token
      and the refresh token survives a response without one; after a failure
      the hook writes nothing, so the store is as the call left it. */
  lemma LoginStore(afterCall: Store, res: AuthResponse, e: Rejection)
    ensures var after := ApplyToStore(afterCall, Login(Success(res)).effects);
      && after.access == Some(res.accessToken)
      && after.refresh == (if Present(res.refreshToken) then res.refreshToken else afterCall.refresh)
    ensures Dispatched(Login(Success(res)).effects) == [LoginSuccess(res)]
    ensures ApplyToStore(afterCall, Login(Failure(e)).effects) == afterCall
  {
    var effects := Login(Success(res)).effects;
    var store := afterCall;
    var s1 := store.(access := Some(res.accessToken));
    if Present(res.refreshToken) {
      var s2 := s1.(refresh := res.refreshToken);
      assert effects == [SaveAccessToken(res.accessToken), SaveRefreshToken(res.refreshToken.value), Dispatch(LoginSuccess(res))];
      assert effects[1..][1..][1..] == [];
      assert ApplyToStore(store, effects) == ApplyToStore(s1, effects[1..]);
      assert ApplyToStore(s1, effects[1..]) == ApplyToStore(s2, effects[1..][1..]);
      assert ApplyToStore(s2, effects[1..][1..]) == ApplyToStore(s2, []);
      assert Dispatched(effects[1..][1..]) == [LoginSuccess(res)] + Dispatched([]);
    } else {
      assert effects == [SaveAccessToken(res.accessToken), Dispatch(LoginSuccess(res))];
      assert effects[1..][1..] == [];
      assert ApplyToStore(store, effects) == ApplyToStore(s1, effects[1..]);
      assert ApplyToStore(s1, effects[1..]) == ApplyToStore(s1, []);
      assert Dispatched(effects[1..]) == [LoginSuccess(res)] + Dispatched([]);
    }
  }

  /** `logout`, given the outcome of POST /auth/logout: LOGOUT is dispatched
      whether or not the server call fails, and the hook deletes no token. */
  function Logout(server: Result<(), Rejection>): (r: Run<()>)
    ensures Dispatched(r.effects) == [AuthAction.Logout]
    ensures forall i :: 0 <= i < |r.effects| ==> r.effects[i].Dispatch?
    ensures !r.isSubmitting && r.error.None? && r.outcome.Success?
  {
    Run([Dispatch(AuthAction.Logout)], None, false, Success(()))
  }

  /** The hook itself deletes no token: after logout the store is exactly as
      POST /auth/logout left it, while the auth state no longer holds a
      session. */
  lemma LogoutWritesNoToken(afterCall: Store, state: AuthState, server: Result<(), Rejection>)
    ensures ApplyToStore(afterCall, Logout(server).effects) == afterCall
    ensures var s := ReduceAll(state, Dispatched(Logout(server).effects));
      s.session.None? && !s.isAuthenticated && !s.isLoading
  {
    var effects := Logout(server).effects;
    assert effects[1..] == [];
    assert Dispatched(effects) == [AuthAction.Logout];
    assert [AuthAction.Logout][1..] == [];
  }

  /** The logout call through the response interceptor, from coordinator
      state `c`: a failure other than a 401 leaves both stored tokens in place
      after logout, while a 401 on an already retried call sends it through
      the token teardown, which, once complete, leaves the store empty. */
  lemma {:induction false} LogoutThroughInterceptor(
    c: ApiClient.Coordinator, req: ApiClient.Request, error: RawError, state: AuthState)
    requires ApiClient.Valid(c)
    ensures var call := ApiClient.OnRequestFailed(c, req, error);
      !ApiClient.Is401(error) ==>
        ApplyToStore(call.next.store, Logout(Failure(Canonical(ParseApiError(error)))).effects) == c.store
    ensures var call := ApiClient.OnRequestFailed(c, req, error);
      var k := |c.teardowns|;
      ApiClient.Is401(error) && req.retried ==>
        && ApiClient.Enabled(call.next, ApiClient.AccessTokenDeleted(k))
        && var first := ApiClient.OnAccessTokenDeleted(call.next, k);
           var second := ApiClient.OnRefreshTokenDeleted(first.next, k);
           ApplyToStore(second.next.store, Logout(Failure(Canonical(ParseApiError(error)))).effects) == Empty
  {
    var call := ApiClient.OnRequestFailed(c, req, error);
    var server := Failure(Canonical(ParseApiError(error)));
    if !ApiClient.Is401(error) {
      LogoutWritesNoToken(call.next.store, state, server);
    } else if req.retried {
      var k := |c.teardowns|;
      ApiClient.TeardownCompletes(call.next, k);
      var first := ApiClient.OnAccessTokenDeleted(call.next, k);
      var second := ApiClient.OnRefreshTokenDeleted(first.next, k);
      LogoutWritesNoToken(second.next.store, state, server);
    }
  }

  /** Logging out with an expired access token: the logout call's 401 makes
      it the refresher, the refresh succeeds with `token`, and after logout
      the store holds that fresh access token while the auth state holds no
      session. */
  lemma {:induction false} LogoutAfterRefreshKeepsNewToken(
    store: Store, req: ApiClient.Request, error: RawError, token: string, state: AuthState)
    requires ApiClient.Is401(error) && !req.retried && Present(store.refresh)
    ensures var failed := ApiClient.OnRequestFailed(ApiClient.Start(store), req, error);
      var read := ApiClient.OnRefreshTokenRead(failed.next);
      var done := ApiClient.OnRefreshSucceeded(read.next, token);
      && ApplyToStore(done.next.store, Logout(Success(())).effects).access == Some(token)
      && ReduceAll(state, Dispatched(Logout(Success(())).effects)).session.None?
  {
    var failed := ApiClient.OnRequestFailed(ApiClient.Start(store), req, error);
    var read := ApiClient.OnRefreshTokenRead(failed.next);
    var done := ApiClient.OnRefreshSucceeded(read.next, token);
    LogoutWritesNoToken(done.next.store, state, Success(()));
  }

  /** `register`, `verifyOtp`, `resendOtp`, `forgotPassword` and
      `resetPassword`: the service's outcome passes through with no effect. */
  function PassThrough<T>(response: Result<T, Rejection>): (r: Run<T>)
    ensures r.effects == [] && !r.isSubmitting && r.outcome == response
    ensures r.error == (if response.Failure? then Some(response.error) else None)
  {
    if response.Failure? then Run([], Some(response.error), false, response)
    else Run([], None, false, response)
  }
}
