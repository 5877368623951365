/** The authentication state slice (contexts/AuthContext.tsx): its reducer,
    initial state and the start-up restore flow. */
module AuthContext {
  import opened Wrappers
  import opened ErrorUtils
  import opened TokenStore

  /** The `user` object of the login response and of GET /auth/me. */
  datatype User = User(
    id: string, email: string, firstName: string, lastName: string,
    isVerified: bool, hasProfile: bool)

  /** The login response body. */
  datatype AuthResponse = AuthResponse(accessToken: string, refreshToken: Option<string>, user: User)

  datatype AuthSession = AuthSession(
    token: string, userId: string, email: string, firstName: string, lastName: string,
    isVerified: bool, hasProfile: bool)

  datatype AuthState = AuthState(session: Option<AuthSession>, isLoading: bool, isAuthenticated: bool)

  datatype AuthAction =
    | RestoreToken(session: Option<AuthSession>)
    | LoginSuccess(payload: AuthResponse)
    | Logout
    | ProfileCreated

  const InitialState := AuthState(None, true, false)

  /** A session built field by field from a user object and a token. */
  function SessionOf(token: string, user: User): AuthSession {
    AuthSession(token, user.id, user.email, user.firstName, user.lastName, user.isVerified, user.hasProfile)
  }

  /** The flag agrees with the presence of a session. */
  predicate Consistent(s: AuthState) {
    s.isAuthenticated <==> s.session.Some?
  }

  /** `authReducer`. */
  function Reduce(state: AuthState, action: AuthAction): (r: AuthState)
    // every action keeps the flag and the session in step; all but PROFILE_CREATED establish it
    ensures Consistent(state) ==> Consistent(r)
    ensures !action.ProfileCreated? ==> Consistent(r) && !r.isLoading
    // RESTORE_TOKEN installs the given session
    ensures action.RestoreToken? ==> r.session == action.session
    // LOGIN_SUCCESS replaces the whole state; the session token is the access token
    ensures action.LoginSuccess? ==>
      && r.session == Some(SessionOf(action.payload.accessToken, action.payload.user))
      && r.session.value.token == action.payload.accessToken
      && r.isAuthenticated
    // LOGOUT leaves nothing of the session behind
    ensures action.Logout? ==> r.session.None? && !r.isAuthenticated
    // PROFILE_CREATED without a session is a no-op; with one it only sets hasProfile
    ensures action.ProfileCreated? && state.session.None? ==> r == state
    ensures action.ProfileCreated? && state.session.Some? ==>
      && r.session == Some(state.session.value.(hasProfile := true))
      && r.isLoading == state.isLoading && r.isAuthenticated == state.isAuthenticated
  {
    match action
    case RestoreToken(session) => state.(session := session, isAuthenticated := session.Some?, isLoading := false)
    case LoginSuccess(payload) => AuthState(Some(SessionOf(payload.accessToken, payload.user)), false, true)
    case Logout => AuthState(None, false, false)
    case ProfileCreated =>
      if state.session.None? then state
      else state.(session := Some(state.session.value.(hasProfile := true)))
  }

  /** PROFILE_CREATED twice is PROFILE_CREATED once. */
  lemma ProfileCreatedIdempotent(state: AuthState)
    ensures Reduce(Reduce(state, ProfileCreated), ProfileCreated) == Reduce(state, ProfileCreated)
  {
  }

  /** The state after dispatching a sequence of actions, in order. */
  function ReduceAll(state: AuthState, actions: seq<AuthAction>): AuthState
    decreases |actions|
  {
    if |actions| == 0 then state else ReduceAll(Reduce(state, actions[0]), actions[1..])
  }

  /** Every state reachable from the initial one keeps `isAuthenticated` in step
      with the session, and only the initial loading phase has `isLoading`:
      once any action other than PROFILE_CREATED ran, loading is over for good. */
  lemma {:induction false} ReachableStatesConsistent(state: AuthState, actions: seq<AuthAction>)
    requires Consistent(state)
    ensures Consistent(ReduceAll(state, actions))
    ensures (exists i :: 0 <= i < |actions| && !actions[i].ProfileCreated?) ==> !ReduceAll(state, actions).isLoading
    ensures (forall i :: 0 <= i < |actions| ==> actions[i].ProfileCreated?) ==>
      ReduceAll(state, actions).isLoading == state.isLoading
    decreases |actions|
  {
    if |actions| > 0 {
      var next := Reduce(state, actions[0]);
      ReachableStatesConsistent(next, actions[1..]);
      if exists i :: 0 <= i < |actions| && !actions[i].ProfileCreated? {
        var i :| 0 <= i < |actions| && !actions[i].ProfileCreated?;
        if i > 0 {
          assert !actions[1..][i - 1].ProfileCreated?;
        } else {
          assert !next.isLoading;
          LoadingStaysOff(next, actions[1..]);
        }
      }
      if forall i :: 0 <= i < |actions| ==> actions[i].ProfileCreated? {
        assert forall i :: 0 <= i < |actions[1..]| ==> actions[1..][i] == actions[i + 1];
      }
    }
  }

  lemma {:induction false} LoadingStaysOff(state: AuthState, actions: seq<AuthAction>)
    requires !state.isLoading
    ensures !ReduceAll(state, actions).isLoading
    decreases |actions|
  {
    if |actions| > 0 {
      LoadingStaysOff(Reduce(state, actions[0]), actions[1..]);
    }
  }

  /** The `restore` effect: the store after it and the action it dispatches.
      `store` is what the token read at start-up sees; `afterCall` is the
      store as GET /auth/me leaves it, since the response interceptor may
      refresh (or tear down) the tokens during that call; `me` is the outcome
      of the call. Both are consulted only when a token is stored. */
  function Restore(store: Store, afterCall: Store, me: Result<User, Rejection>): (r: (Store, AuthAction))
    ensures r.1.RestoreToken?
    // no stored token: no call, no session, store untouched
    ensures !Present(store.access) ==> r == (store, RestoreToken(None))
    // a stored token and a valid identity: a session carrying the token read
    // before the call, whatever the call did to the store
    ensures Present(store.access) && me.Success? ==>
      r.0 == afterCall && r.1.session == Some(SessionOf(store.access.value, me.value))
    // a stored token the server rejects: both tokens deleted, no session
    ensures Present(store.access) && me.Failure? ==> r == (Store(None, None), RestoreToken(None))
  {
    if !Present(store.access) then (store, RestoreToken(None))
    else if me.Success? then (afterCall, RestoreToken(Some(SessionOf(store.access.value, me.value))))
    else (Empty, RestoreToken(None))
  }

  /** Start-up always leaves the loading state, whatever the store and the
      server say, and the session it restores carries the token read at start. */
  lemma RestoreEndsLoading(store: Store, afterCall: Store, me: Result<User, Rejection>)
    ensures var s := Reduce(InitialState, Restore(store, afterCall, me).1);
      && !s.isLoading && Consistent(s)
      && (s.session.Some? ==> Present(store.access) && s.session.value.token == store.access.value)
  {
  }

  /** The restored session's token is the stored access token exactly when
      GET /auth/me left the access token as it found it; a refresh during the
      call leaves the session holding the superseded token. */
  lemma RestoredTokenStaleAfterRefresh(store: Store, afterCall: Store, me: Result<User, Rejection>)
    ensures var (after, action) := Restore(store, afterCall, me);
      action.session.Some? ==>
        (after.access == Some(action.session.value.token) <==> afterCall.access == store.access)
  {
    var (after, action) := Restore(store, afterCall, me);
    if action.session.Some? {
      assert Present(store.access) && me.Success?;
      assert after == afterCall && action.session.value.token == store.access.value;
    }
  }
}
