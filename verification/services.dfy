/** The two "my record" lookups and their 404 empty-state translation
    (services/assignment.service.ts, services/internship.service.ts). */
module Services {
  import opened Wrappers
  import opened ErrorUtils
  import opened InternshipContext

  /** `(err as any)?.statusCode === 404`. */
  predicate IsNotFound(r: Rejection) {
    StatusCodeOf(r) == Some(404)
  }

  /** A rejection that went through the interceptor is a 404 exactly when the
      server answered 404; a raw rejection never is, whatever its status. */
  lemma NotFoundExactlyServer404(e: RawError)
    ensures IsNotFound(Canonical(ParseApiError(e))) <==> StatusOf(e) == 404
    ensures !IsNotFound(Raw(e))
  {
  }

  /** The assignment returned when the server has none yet. */
  const PendingAssignment := StudentAssignment(None, None, Pending)

  /** `getMyAssignment`, given the outcome of GET /assignments/me. */
  function GetMyAssignment(response: Result<StudentAssignment, Rejection>): (r: Result<StudentAssignment, Rejection>)
    ensures response.Success? ==> r == response
    ensures response.Failure? && IsNotFound(response.error) ==> r == Success(PendingAssignment)
    ensures response.Failure? && !IsNotFound(response.error) ==> r == response
    // a canonical 404 never escapes
    ensures r.Failure? ==> !IsNotFound(r.error)
  {
    if response.Failure? && IsNotFound(response.error) then Success(PendingAssignment) else response
  }

  /** `getMyAssumptionOfDuty`, given the outcome of GET /assumption-of-duty/me. */
  function GetMyAssumptionOfDuty(response: Result<RegistrationRecord, Rejection>): (r: Result<Option<RegistrationRecord>, Rejection>)
    ensures response.Success? ==> r == Success(Some(response.value))
    ensures response.Failure? && IsNotFound(response.error) ==> r == Success(None)
    ensures response.Failure? && !IsNotFound(response.error) ==> r == Failure(response.error)
    ensures r.Failure? ==> !IsNotFound(r.error)
  {
    if response.Success? then Success(Some(response.value))
    else if IsNotFound(response.error) then Success(None)
    else Failure(response.error)
  }

  /** The empty-state assignment has no supervisor, so it never yields ASSIGNED. */
  lemma NotFoundAssignmentNeverAssigned(record: Option<RegistrationRecord>, e: Rejection)
    requires IsNotFound(e)
    ensures GetMyAssignment(Failure(e)).Success?
    ensures DeriveStatus(record, Some(GetMyAssignment(Failure(e)).value)) != Assigned
  {
  }

  /** A 404 that reaches the caller as a raw error (a queued request rejected
      with the refresh call's own error) is not recognised and propagates. */
  lemma RawNotFoundPropagates(status404: Response, code: Option<string>)
    requires status404.status == 404
    ensures GetMyAssignment(Failure(Raw(Transport(Some(status404), code)))).Failure?
    ensures GetMyAssumptionOfDuty(Failure(Raw(Transport(Some(status404), code)))).Failure?
  {
  }

  /** A 404 the interceptor canonicalised is recognised: the record lookup
      reports "no record", so the status is NOT_REGISTERED. */
  lemma CanonicalNotFoundMeansUnregistered(response: Response, code: Option<string>)
    requires response.status == 404
    ensures var r := GetMyAssumptionOfDuty(Failure(Canonical(ParseApiError(Transport(Some(response), code)))));
      r == Success(None) && DeriveStatus(r.value, None) == NotRegistered
  {
  }
}
