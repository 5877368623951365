/** The profile state slice (contexts/ProfileContext.tsx). */
module ProfileContext {
  import opened Wrappers
  import opened ErrorUtils
  import AuthContext
  import RootLayout

  /** The student profile as the server returns it; its fields are opaque here
      except the image URL, the one field that changes after onboarding. */
  datatype StudentProfile = StudentProfile(id: string, userId: string, profileImageUrl: Option<string>)

  datatype ProfileState = ProfileState(profile: Option<StudentProfile>, isLoading: bool, error: Option<Rejection>)

  datatype ProfileAction =
    | LoadProfileStart
    | LoadProfileSuccess(profile: StudentProfile)
    | LoadProfileError(error: Rejection)
    | UpdateProfileImageSuccess(profile: StudentProfile)

  const InitialState := ProfileState(None, false, None)

  /** `profileReducer`. */
  function Reduce(state: ProfileState, action: ProfileAction): (r: ProfileState)
    ensures action.LoadProfileStart? ==> r.isLoading && r.error.None? && r.profile == state.profile
    ensures action.LoadProfileSuccess? ==>
      r.profile == Some(action.profile) && !r.isLoading && r.error == state.error
    ensures action.LoadProfileError? ==>
      r.profile == state.profile && !r.isLoading && r.error == Some(action.error)
    ensures action.UpdateProfileImageSuccess? ==>
      r.profile == Some(action.profile) && r.isLoading == state.isLoading && r.error == state.error
  {
    match action
    case LoadProfileStart => state.(isLoading := true, error := None)
    case LoadProfileSuccess(p) => state.(isLoading := false, profile := Some(p))
    case LoadProfileError(e) => state.(isLoading := false, error := Some(e))
    case UpdateProfileImageSuccess(p) => state.(profile := Some(p))
  }

  /** The guard of the provider's load effect, shared with the internship slice:
      authenticated and the session says the profile exists. */
  predicate ShouldLoad(auth: AuthContext.AuthState)
    // once start-up is over, the profile is fetched exactly when the gate shows the app home
    ensures !auth.isLoading ==> (ShouldLoad(auth) <==> RootLayout.RouteFor(auth) == Some(RootLayout.AppHome))
  {
    auth.isAuthenticated && auth.session.Some? && auth.session.value.hasProfile
  }

  /** The load effect: the actions it dispatches given GET /profile/me's outcome. */
  function Load(auth: AuthContext.AuthState, fetched: Result<StudentProfile, Rejection>): (actions: seq<ProfileAction>)
    ensures !ShouldLoad(auth) ==> actions == []
    ensures ShouldLoad(auth) ==> |actions| == 2 && actions[0] == LoadProfileStart
    ensures ShouldLoad(auth) && fetched.Success? ==> actions[1] == LoadProfileSuccess(fetched.value)
    ensures ShouldLoad(auth) && fetched.Failure? ==> actions[1] == LoadProfileError(fetched.error)
  {
    if !ShouldLoad(auth) then []
    else if fetched.Success? then [LoadProfileStart, LoadProfileSuccess(fetched.value)]
    else [LoadProfileStart, LoadProfileError(fetched.error)]
  }

  function ReduceAll(state: ProfileState, actions: seq<ProfileAction>): ProfileState
    decreases |actions|
  {
    if |actions| == 0 then state else ReduceAll(Reduce(state, actions[0]), actions[1..])
  }

  /** A load ends not loading; on success it holds the fetched profile and no
      error, on failure the previous profile and the failure. */
  lemma LoadSettles(state: ProfileState, auth: AuthContext.AuthState, fetched: Result<StudentProfile, Rejection>)
    requires ShouldLoad(auth)
    ensures var s := ReduceAll(state, Load(auth, fetched));
      && !s.isLoading
      && (fetched.Success? ==> s.profile == Some(fetched.value) && s.error.None?)
      && (fetched.Failure? ==> s.profile == state.profile && s.error == Some(fetched.error))
  {
    var actions := Load(auth, fetched);
    var s0 := Reduce(state, actions[0]);
    assert actions[1..][1..] == [];
    assert ReduceAll(state, actions) == ReduceAll(s0, actions[1..]);
    assert ReduceAll(s0, actions[1..]) == ReduceAll(Reduce(s0, actions[1]), []);
  }
}
