/** The internship state slice (contexts/InternshipContext.tsx): the derived
    tri-state status, the reducer and the provider's load effect. */
module InternshipContext {
  import opened Wrappers
  import opened ErrorUtils
  import AuthContext
  import ProfileContext

  datatype InternshipStatus = NotRegistered | RegisteredPendingAssignment | Assigned

  datatype Supervisor = Supervisor(id: string, name: string, email: string, phone: string, staffId: string)
  datatype Zone = Zone(id: string, name: string, region: string)
  datatype AssignmentStatus = Pending | AssignmentAssigned

  /** The assignment: a missing supervisor means "not yet assigned". */
  datatype StudentAssignment = StudentAssignment(
    supervisor: Option<Supervisor>, zone: Option<Zone>, assignmentStatus: AssignmentStatus)

  /** The fields of an Assumption-of-Duty registration the student fills in. */
  datatype RegistrationFields = RegistrationFields(
    companyName: string, companyPhone: string, companyEmail: string, companyAddress: string,
    companySupervisor: string, supervisorPhone: string, companyCity: string, commencementDate: string)

  /** The registration request: the student's fields, the period and the
      captured coordinates (opaque numbers). */
  datatype RegistrationRequest = RegistrationRequest(
    fields: RegistrationFields, periodId: string, longitude: real, latitude: real)

  /** The stored registration record. */
  datatype RegistrationRecord = RegistrationRecord(id: string, studentId: string, request: RegistrationRequest)

  datatype InternshipPeriod = InternshipPeriod(id: string, name: string, startDate: string, endDate: string, isActive: bool)

  datatype InternshipState = InternshipState(
    status: InternshipStatus,
    record: Option<RegistrationRecord>,
    assignment: Option<StudentAssignment>,
    activePeriod: Option<InternshipPeriod>,
    isLoading: bool,
    error: Option<Rejection>)

  /** Each optional field of the source's single action shape sits on the
      actions that read it. */
  datatype InternshipAction =
    | LoadStatusStart
    | LoadStatusSuccess(record: Option<RegistrationRecord>, assignment: Option<StudentAssignment>)
    | LoadStatusError(error: Option<Rejection>)
    | RegistrationSuccess(record: Option<RegistrationRecord>)
    | AssignmentLoaded(assignment: Option<StudentAssignment>)
    | SetActivePeriod(activePeriod: Option<InternshipPeriod>)

  const InitialState := InternshipState(NotRegistered, None, None, None, false, None)

  /** `deriveStatus`. */
  function DeriveStatus(record: Option<RegistrationRecord>, assignment: Option<StudentAssignment>): (st: InternshipStatus)
    ensures record.None? <==> st == NotRegistered
    ensures st == Assigned <==> record.Some? && assignment.Some? && assignment.value.supervisor.Some?
    ensures st == RegisteredPendingAssignment <==>
      record.Some? && (assignment.None? || assignment.value.supervisor.None?)
  {
    if record.None? then NotRegistered
    else if assignment.None? || assignment.value.supervisor.None? then RegisteredPendingAssignment
    else Assigned
  }

  /** The status is the one derived from the record and the assignment held. */
  predicate StatusDerived(s: InternshipState) {
    s.status == DeriveStatus(s.record, s.assignment)
  }

  /** `internshipReducer`. */
  function Reduce(state: InternshipState, action: InternshipAction): (r: InternshipState)
    ensures action.LoadStatusStart? ==> r == state.(isLoading := true, error := None)
    ensures action.LoadStatusSuccess? ==>
      && r.record == action.record && r.assignment == action.assignment
      && StatusDerived(r) && !r.isLoading
      && r.error == state.error && r.activePeriod == state.activePeriod
    ensures action.LoadStatusError? ==> r == state.(isLoading := false, error := action.error)
    // REGISTRATION_SUCCESS forces the pending status without looking at the assignment
    ensures action.RegistrationSuccess? ==>
      r == state.(record := action.record, status := RegisteredPendingAssignment)
    // ASSIGNMENT_LOADED recomputes the status against the record already held
    ensures action.AssignmentLoaded? ==>
      && r.assignment == action.assignment && r.record == state.record && StatusDerived(r)
      && r.activePeriod == state.activePeriod && r.isLoading == state.isLoading && r.error == state.error
    ensures action.SetActivePeriod? ==> r == state.(activePeriod := action.activePeriod)
    // every action except REGISTRATION_SUCCESS keeps the status derived
    ensures !action.RegistrationSuccess? && StatusDerived(state) ==> StatusDerived(r)
  {
    match action
    case LoadStatusStart => state.(isLoading := true, error := None)
    case LoadStatusSuccess(record, assignment) =>
      state.(isLoading := false, record := record, assignment := assignment, status := DeriveStatus(record, assignment))
    case LoadStatusError(error) => state.(isLoading := false, error := error)
    case RegistrationSuccess(record) => state.(record := record, status := RegisteredPendingAssignment)
    case AssignmentLoaded(assignment) =>
      state.(assignment := assignment, status := DeriveStatus(state.record, assignment))
    case SetActivePeriod(period) => state.(activePeriod := period)
  }

  /** REGISTRATION_SUCCESS keeps the status derived exactly when it brings a
      record and the held assignment has no supervisor. */
  lemma RegistrationSuccessDerivedExactly(state: InternshipState, record: Option<RegistrationRecord>)
    ensures StatusDerived(Reduce(state, RegistrationSuccess(record))) <==>
      record.Some? && (state.assignment.None? || state.assignment.value.supervisor.None?)
  {
  }

  /** A concrete state where REGISTRATION_SUCCESS breaks the derivation: an
      assignment with a supervisor is already held, yet the status becomes pending. */
  lemma RegistrationSuccessCanBreakDerivation(rec: RegistrationRecord, sup: Supervisor)
    ensures var s := InitialState.(assignment := Some(StudentAssignment(Some(sup), None, AssignmentAssigned)));
      && StatusDerived(s)
      && !StatusDerived(Reduce(s, RegistrationSuccess(Some(rec))))
  {
  }

  function ReduceAll(state: InternshipState, actions: seq<InternshipAction>): InternshipState
    decreases |actions|
  {
    if |actions| == 0 then state else ReduceAll(Reduce(state, actions[0]), actions[1..])
  }

  /** From a derived state, any sequence of actions without REGISTRATION_SUCCESS
      keeps the status derived. */
  lemma {:induction false} DerivedWithoutRegistration(state: InternshipState, actions: seq<InternshipAction>)
    requires StatusDerived(state)
    requires forall i :: 0 <= i < |actions| ==> !actions[i].RegistrationSuccess?
    ensures StatusDerived(ReduceAll(state, actions))
    decreases |actions|
  {
    if |actions| > 0 {
      assert forall i :: 0 <= i < |actions[1..]| ==> actions[1..][i] == actions[i + 1];
      DerivedWithoutRegistration(Reduce(state, actions[0]), actions[1..]);
    }
  }

  /** The provider's load effect: the actions it dispatches given the two
      services' outcomes. When both fail, `recordFailsFirst` says which
      rejection `Promise.all` reports. */
  function Load(
    auth: AuthContext.AuthState,
    record: Result<Option<RegistrationRecord>, Rejection>,
    assignment: Result<StudentAssignment, Rejection>,
    recordFailsFirst: bool): (actions: seq<InternshipAction>)
    ensures !ProfileContext.ShouldLoad(auth) ==> actions == []
    ensures ProfileContext.ShouldLoad(auth) ==> |actions| == 2 && actions[0] == LoadStatusStart
    ensures ProfileContext.ShouldLoad(auth) && record.Success? && assignment.Success? ==>
      actions[1] == LoadStatusSuccess(record.value, Some(assignment.value))
    ensures ProfileContext.ShouldLoad(auth) && (record.Failure? || assignment.Failure?) ==>
      actions[1].LoadStatusError? && actions[1].error.Some?
      && ((record.Failure? && actions[1].error.value == record.error)
          || (assignment.Failure? && actions[1].error.value == assignment.error))
  {
    if !ProfileContext.ShouldLoad(auth) then []
    else if record.Success? && assignment.Success? then
      [LoadStatusStart, LoadStatusSuccess(record.value, Some(assignment.value))]
    else if record.Failure? && (assignment.Success? || recordFailsFirst) then
      [LoadStatusStart, LoadStatusError(Some(record.error))]
    else
      [LoadStatusStart, LoadStatusError(Some(assignment.error))]
  }

  /** A successful load leaves the state derived from the fetched records,
      with loading over. */
  lemma LoadSucceedsDerived(
    state: InternshipState, auth: AuthContext.AuthState,
    record: Option<RegistrationRecord>, assignment: StudentAssignment, recordFailsFirst: bool)
    requires ProfileContext.ShouldLoad(auth)
    ensures var s := ReduceAll(state, Load(auth, Success(record), Success(assignment), recordFailsFirst));
      && StatusDerived(s) && !s.isLoading && s.error.None?
      && s.record == record && s.assignment == Some(assignment)
  {
    var actions := Load(auth, Success(record), Success(assignment), recordFailsFirst);
    var s0 := Reduce(state, actions[0]);
    assert actions[1..][1..] == [];
    assert ReduceAll(state, actions) == ReduceAll(s0, actions[1..]);
    assert ReduceAll(s0, actions[1..]) == ReduceAll(Reduce(s0, actions[1]), []);
  }
}
