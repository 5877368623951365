/** The internship hook (hooks/useInternship.ts). */
module UseInternship {
  import opened Wrappers
  import opened ErrorUtils
  import opened InternshipContext
  import Services

  /** The device position the location provider returns (opaque numbers). */
  datatype Coordinates = Coordinates(latitude: real, longitude: real)

  /** The dispatches in order, the request sent (if the call got that far),
      the hook's `error` and `isSubmitting` afterwards, and the settled promise. */
  datatype Run = Run(
    dispatched: seq<InternshipAction>,
    sent: Option<RegistrationRequest>,
    error: Option<Rejection>,
    isSubmitting: bool,
    outcome: Result<(), Rejection>)

  /** `fetchActivePeriod`, given the hook's `error` and `isSubmitting` before
      the call: unlike `submitRegistration` it clears neither. */
  function FetchActivePeriod(error: Option<Rejection>, isSubmitting: bool, response: Result<InternshipPeriod, Rejection>): (r: Run)
    ensures response.Success? ==>
      r.dispatched == [SetActivePeriod(Some(response.value))] && r.error == error && r.outcome.Success?
    ensures response.Failure? ==> r.dispatched == [] && r.error == Some(response.error) && r.outcome == Failure(response.error)
    // no request is sent, and a submission in flight stays in flight
    ensures r.sent.None? && r.isSubmitting == isSubmitting
  {
    if response.Success? then Run([SetActivePeriod(Some(response.value))], None, error, isSubmitting, Success(()))
    else Run([], None, Some(response.error), isSubmitting, Failure(response.error))
  }

  /** `state.activePeriod?.id || ""`. */
  function PeriodIdOf(snapshot: InternshipState): string {
    if snapshot.activePeriod.Some? then snapshot.activePeriod.value.id else ""
  }

  /** `submitRegistration` against the state snapshot the hook rendered with.
      `period` is consulted only when the snapshot has no active period. */
  function SubmitRegistration(
    snapshot: InternshipState,
    fields: RegistrationFields,
    period: Result<InternshipPeriod, Rejection>,
    coords: Result<Coordinates, Rejection>,
    submitted: Result<RegistrationRecord, Rejection>): (r: Run)
    ensures !r.isSubmitting
    // the request carries the caller's fields, the provider's coordinates and
    // the snapshot's period id, even when the call itself fetched a period
    ensures r.sent.Some? ==>
      && coords.Success?
      && r.sent.value.fields == fields
      && r.sent.value.latitude == coords.value.latitude
      && r.sent.value.longitude == coords.value.longitude
      && r.sent.value.periodId == PeriodIdOf(snapshot)
    ensures r.sent.Some? && snapshot.activePeriod.None? ==> r.sent.value.periodId == ""
    // REGISTRATION_SUCCESS with the returned record is dispatched exactly on success
    ensures r.outcome.Success? <==> submitted.Success? && RegistrationSuccess(Some(submitted.value)) in r.dispatched
    ensures r.outcome.Success? ==>
      && submitted.Success? && |r.dispatched| > 0
      && r.dispatched[|r.dispatched| - 1] == RegistrationSuccess(Some(submitted.value)) && r.error.None?
    // a failure at any step records the error, rethrows it, and dispatches no registration
    ensures r.outcome.Failure? ==>
      && r.error == Some(r.outcome.error)
      && (forall i :: 0 <= i < |r.dispatched| ==> r.dispatched[i].SetActivePeriod?)
    // the only other dispatch is the period fetched on the way
    ensures |r.dispatched| > 0 && r.dispatched[0].SetActivePeriod? ==>
      snapshot.activePeriod.None? && period.Success? && r.dispatched[0] == SetActivePeriod(Some(period.value))
  {
    var needPeriod := snapshot.activePeriod.None?;
    if needPeriod && period.Failure? then Run([], None, Some(period.error), false, Failure(period.error))
    else
      var fetched := if needPeriod then [SetActivePeriod(Some(period.value))] else [];
      if coords.Failure? then Run(fetched, None, Some(coords.error), false, Failure(coords.error))
      else
        var request := RegistrationRequest(fields, PeriodIdOf(snapshot), coords.value.longitude, coords.value.latitude);
        if submitted.Failure? then Run(fetched, Some(request), Some(submitted.error), false, Failure(submitted.error))
        else Run(fetched + [RegistrationSuccess(Some(submitted.value))], Some(request), None, false, Success(()))
  }

  /** The stale snapshot: a registration started without a loaded period
      fetches one, stores it, and still sends an empty period id. */
  lemma StalePeriodId(snapshot: InternshipState, fields: RegistrationFields, p: InternshipPeriod, c: Coordinates, rec: RegistrationRecord)
    requires snapshot.activePeriod.None? && p.id != ""
    ensures var r := SubmitRegistration(snapshot, fields, Success(p), Success(c), Success(rec));
      && r.sent.Some? && r.sent.value.periodId == "" && r.sent.value.periodId != p.id
      && ReduceAll(snapshot, r.dispatched).activePeriod == Some(p)
  {
    var r := SubmitRegistration(snapshot, fields, Success(p), Success(c), Success(rec));
    assert r.dispatched == [SetActivePeriod(Some(p)), RegistrationSuccess(Some(rec))];
    var s1 := Reduce(snapshot, SetActivePeriod(Some(p)));
    assert r.dispatched[1..][1..] == [];
    assert ReduceAll(snapshot, r.dispatched) == ReduceAll(s1, r.dispatched[1..]);
    assert ReduceAll(s1, r.dispatched[1..]) == ReduceAll(Reduce(s1, r.dispatched[1]), []);
  }

  /** `refreshAssignment`, given the hook's `error` and `isSubmitting` before
      the call and the outcome of GET /assignments/me before the service's 404
      translation. */
  function RefreshAssignment(error: Option<Rejection>, isSubmitting: bool, response: Result<StudentAssignment, Rejection>): (r: Run)
    ensures var a := Services.GetMyAssignment(response);
      && (a.Success? ==> r.dispatched == [AssignmentLoaded(Some(a.value))] && r.error == error && r.outcome.Success?)
      && (a.Failure? ==> r.dispatched == [] && r.error == Some(a.error) && r.outcome == Failure(a.error))
    // no request is sent, and a submission in flight stays in flight
    ensures r.sent.None? && r.isSubmitting == isSubmitting
  {
    var a := Services.GetMyAssignment(response);
    if a.Success? then Run([AssignmentLoaded(Some(a.value))], None, error, isSubmitting, Success(()))
    else Run([], None, Some(a.error), isSubmitting, Failure(a.error))
  }

  /** A registered student whose assignment lookup 404s is pending, not assigned,
      and the status is derived again. */
  lemma RefreshAfterNotFoundIsPending(state: InternshipState, error: Option<Rejection>, isSubmitting: bool, e: Rejection)
    requires state.record.Some? && Services.IsNotFound(e)
    ensures var s := ReduceAll(state, RefreshAssignment(error, isSubmitting, Failure(e)).dispatched);
      s.status == RegisteredPendingAssignment && StatusDerived(s)
  {
    var ds := RefreshAssignment(error, isSubmitting, Failure(e)).dispatched;
    assert ds[1..] == [];
    assert ReduceAll(state, ds) == ReduceAll(Reduce(state, ds[0]), []);
  }
}
