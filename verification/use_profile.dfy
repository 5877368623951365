/** The profile hook (hooks/useProfile.ts). */
module UseProfile {
  import opened Wrappers
  import opened ErrorUtils
  import AuthContext
  import opened ProfileContext

  /** A dispatch goes to the profile slice or to the auth slice. */
  datatype Dispatch = ToProfile(profileAction: ProfileAction) | ToAuth(authAction: AuthContext.AuthAction)

  /** The dispatches in order, whether the service was called, the hook's
      `error` and `isSubmitting` afterwards, and how the promise settles. */
  datatype Run = Run(dispatched: seq<Dispatch>, called: bool, error: Option<Rejection>, isSubmitting: bool, outcome: Result<(), Rejection>)

  /** `createProfile`: `confirmed` is the user's answer to the confirmation
      dialog, `response` the outcome of POST /profile. */
  function CreateProfile(confirmed: bool, isSubmitting: bool, error: Option<Rejection>, response: Result<StudentProfile, Rejection>): (r: Run)
    // declined: no call, no dispatch, the hook's state untouched
    ensures !confirmed ==> r == Run([], false, error, isSubmitting, Success(()))
    ensures confirmed ==> r.called && !r.isSubmitting
    // success: the profile slice gets the profile, then auth learns the profile exists
    ensures confirmed && response.Success? ==>
      r.dispatched == [ToProfile(LoadProfileSuccess(response.value)), ToAuth(AuthContext.ProfileCreated)]
      && r.error.None? && r.outcome.Success?
    // failure: neither slice hears of it; the error is recorded and rethrown
    ensures confirmed && response.Failure? ==>
      r.dispatched == [] && r.error == Some(response.error) && r.outcome == Failure(response.error)
  {
    if !confirmed then Run([], false, error, isSubmitting, Success(()))
    else if response.Success? then
      Run([ToProfile(LoadProfileSuccess(response.value)), ToAuth(AuthContext.ProfileCreated)], true, None, false, Success(()))
    else Run([], true, Some(response.error), false, Failure(response.error))
  }

  /** `updateProfileImage`, given the outcome of PATCH /profile/me/image. */
  function UpdateProfileImage(response: Result<StudentProfile, Rejection>): (r: Run)
    ensures r.called && !r.isSubmitting
    ensures response.Success? ==> r.dispatched == [ToProfile(UpdateProfileImageSuccess(response.value))] && r.error.None?
    ensures response.Failure? ==> r.dispatched == [] && r.error == Some(response.error) && r.outcome == Failure(response.error)
    ensures forall i :: 0 <= i < |r.dispatched| ==> r.dispatched[i].ToProfile?
  {
    if response.Success? then Run([ToProfile(UpdateProfileImageSuccess(response.value))], true, None, false, Success(()))
    else Run([], true, Some(response.error), false, Failure(response.error))
  }

  /** `refetch`: START, then exactly one of SUCCESS or ERROR; it never throws. */
  function Refetch(response: Result<StudentProfile, Rejection>): (actions: seq<ProfileAction>)
    ensures |actions| == 2 && actions[0] == LoadProfileStart
    ensures actions[1].LoadProfileSuccess? <==> response.Success?
    ensures actions[1].LoadProfileError? <==> response.Failure?
    ensures response.Success? ==> actions[1].profile == response.value
    ensures response.Failure? ==> actions[1].error == response.error
  {
    if response.Success? then [LoadProfileStart, LoadProfileSuccess(response.value)]
    else [LoadProfileStart, LoadProfileError(response.error)]
  }

  function AuthActions(ds: seq<Dispatch>): seq<AuthContext.AuthAction>
    decreases |ds|
  {
    if |ds| == 0 then [] else (if ds[0].ToAuth? then [ds[0].authAction] else []) + AuthActions(ds[1..])
  }

  /** After login with no profile, a confirmed successful profile creation
      marks the session as having a profile without a new login, and the
      route gate moves to the app home. */
  lemma CreateProfileCompletesOnboarding(state: AuthContext.AuthState, created: StudentProfile, isSubmitting: bool, error: Option<Rejection>)
    requires state.session.Some? && AuthContext.Consistent(state) && !state.isLoading
    ensures var run := CreateProfile(true, isSubmitting, error, Success(created));
      var after := AuthContext.ReduceAll(state, AuthActions(run.dispatched));
      && after.session == Some(state.session.value.(hasProfile := true))
      && after.isAuthenticated
  {
    var run := CreateProfile(true, isSubmitting, error, Success(created));
    assert run.dispatched[1..][1..] == [];
    assert AuthActions(run.dispatched[1..]) == [AuthContext.ProfileCreated];
    assert AuthActions(run.dispatched) == [AuthContext.ProfileCreated];
    assert [AuthContext.ProfileCreated][1..] == [];
  }
}
