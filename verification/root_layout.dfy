/** The navigation gate of the root layout (app/_layout.tsx). */
module RootLayout {
  import opened Wrappers
  import opened AuthContext

  datatype Route = Welcome | CreateProfile | AppHome

  /** The route `InnerApp`'s effect replaces the stack with; none while loading. */
  function RouteFor(state: AuthState): (r: Option<Route>)
    ensures state.isLoading <==> r.None?
    ensures r == Some(Welcome) <==> !state.isLoading && !state.isAuthenticated
    ensures r == Some(CreateProfile) <==>
      !state.isLoading && state.isAuthenticated && (state.session.None? || !state.session.value.hasProfile)
    ensures r == Some(AppHome) <==>
      !state.isLoading && state.isAuthenticated && state.session.Some? && state.session.value.hasProfile
  {
    if state.isLoading then None
    else if !state.isAuthenticated then Some(Welcome)
    else if state.isAuthenticated && (state.session.None? || !state.session.value.hasProfile) then Some(CreateProfile)
    else if state.isAuthenticated && state.session.Some? && state.session.value.hasProfile then Some(AppHome)
    else None
  }

  /** The splash screen is shown instead of the stack exactly while loading,
      that is, exactly when the gate picks no route. */
  predicate ShowsSplash(state: AuthState)
    ensures ShowsSplash(state) <==> RouteFor(state).None?
  {
    state.isLoading
  }

  /** In every consistent state, the app home is reached only with a session
      whose profile exists, and create-profile only with a session lacking one. */
  lemma RoutesFollowSession(state: AuthState)
    requires Consistent(state) && !ShowsSplash(state)
    ensures RouteFor(state) == Some(AppHome) ==> state.session.Some? && state.session.value.hasProfile
    ensures RouteFor(state) == Some(CreateProfile) ==> state.session.Some? && !state.session.value.hasProfile
    ensures RouteFor(state) == Some(Welcome) ==> state.session.None?
  {
  }

  /** After login, a profile creation moves the gate from create-profile to
      the app home without a new login. */
  lemma ProfileCreationOpensHome(payload: AuthResponse)
    requires !payload.user.hasProfile
    ensures RouteFor(Reduce(InitialState, LoginSuccess(payload))) == Some(CreateProfile)
    ensures RouteFor(Reduce(Reduce(InitialState, LoginSuccess(payload)), ProfileCreated)) == Some(AppHome)
  {
  }
}
