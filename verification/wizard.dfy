/** The sign-up wizard as a state machine: three steps, an error line, a
    loading flag, the form record and the loaded reference lists. Every
    handler is one atomic transition; the effects that reload reference data
    run as part of the transition that triggers them. */
module Wizard {
  import opened Wrappers
  import opened FormState
  import opened Reference
  import opened Validation
  import opened Submission

  const MsgRegistrationFailed := "Registration failed. Please try again."
  const MsgWelcome := "Account created successfully! Welcome to Pineappl."

  /** Every text the error line can show besides the empty text. */
  const ErrorMessages: set<string> := ValidationMessages + {MsgRegistrationFailed}

  datatype State = State(
    step: int,
    error: string,
    loading: bool,
    form: Form,
    faculties: seq<Faculty>,
    departments: seq<Department>)

  /** The wizard once mounted: step 1, no error, the empty form, and the
      faculty list loaded by the mount effect. */
  const Init: State := State(1, "", false, EmptyForm, FacultyTable, [])

  /** The Next button: advance by one step when the current step's check
      passes, otherwise stay and show the check's message. */
  function Next(w: State): (r: State)
    ensures r.step == w.step + 1 <==> StepComplete(w.step, w.form)
    ensures r.step == w.step <==> !StepComplete(w.step, w.form)
    ensures r.error == "" <==> StepComplete(w.step, w.form)
    ensures r.error != "" ==> r.error in ValidationMessages
    ensures !StepComplete(w.step, w.form) ==> Some(r.error) == Validate(w.step, w.form)
    ensures r.(step := w.step, error := w.error) == w
  {
    var check := Validate(w.step, w.form);
    w.(step := if check.None? then w.step + 1 else w.step, error := ErrorText(check))
  }

  /** The Previous button: go back one step and clear the error line. */
  function Previous(w: State): (r: State)
    ensures r.step + 1 == w.step && r.error == ""
    ensures r.(step := w.step, error := w.error) == w
  {
    w.(step := w.step - 1, error := "")
  }

  /** An input change, addressed by the input's `name` attribute. The record
      is rewritten by the field update rule; when it leaves a different,
      non-empty faculty id, the department list is reloaded for that faculty. */
  function Input(w: State, name: string, value: string): (r: State)
    ensures forall f :: name == FieldName(f) ==> r.form == Change(w.form, f, value)
    ensures r.form.facultyId != "" && r.form.facultyId != w.form.facultyId ==>
              r.departments == DepartmentsOf(r.form.facultyId)
    ensures r.form.facultyId == "" || r.form.facultyId == w.form.facultyId ==>
              r.departments == w.departments
    ensures r.(form := w.form, departments := w.departments) == w
  {
    var form := ChangeByName(w.form, name, value);
    var departments :=
      if form.facultyId != w.form.facultyId && form.facultyId != "" then DepartmentsOf(form.facultyId)
      else w.departments;
    w.(form := form, departments := departments)
  }

  /** What a press of Create Account leads to. */
  datatype SubmitOutcome =
    | Invalid(next: State)                       // step 3 check failed; nothing sent
    | Failed(payload: Payload, next: State)      // sent; the service reported an error
    | Succeeded(payload: Payload, path: string, message: string)  // sent and navigated

  /** Create Account: re-run the step 3 check, then send the payload. The
      avatar draw and whether the sign-up service reports an error are
      inputs. */
  function Submit(w: State, avatar: AvatarIndex, serviceFails: bool): (r: SubmitOutcome)
    ensures r.Invalid? <==> !StepComplete(3, w.form)
    ensures r.Invalid? ==> Some(r.next.error) == Validate(3, w.form) && r.next.(error := w.error) == w
    ensures !r.Invalid? ==> r.payload.form == w.form && IsCatalogPath(r.payload.avatarUrl)
    ensures !r.Invalid? ==> r.payload.facultyName == FacultyName(w.faculties, w.form.facultyId)
    ensures !r.Invalid? ==> r.payload.departmentName == DepartmentName(w.departments, w.form.departmentId)
    ensures !r.Invalid? ==>
              (r.payload.facultyName.None? <==> !HasFaculty(w.faculties, w.form.facultyId))
    ensures !r.Invalid? ==>
              (r.payload.departmentName.None? <==> !HasDepartment(w.departments, w.form.departmentId))
    ensures r.Failed? <==> StepComplete(3, w.form) && serviceFails
    ensures r.Failed? ==> r.next == w.(error := MsgRegistrationFailed, loading := false)
    ensures r.Succeeded? ==> r.path == "/" && r.message == MsgWelcome
  {
    match Validate(3, w.form)
    case Some(msg) => Invalid(w.(error := msg))
    case None =>
      // The error line is cleared and the loading flag raised while the
      // request is in flight; the outcome below overwrites both on failure.
      var sending := w.(loading := true, error := "");
      var payload := BuildPayload(sending.form, sending.faculties, sending.departments, avatar);
      if serviceFails then
        Failed(payload, sending.(error := MsgRegistrationFailed, loading := false))
      else
        Succeeded(payload, "/", MsgWelcome)
  }

  /** Which screen the user is on: the wizard, or the application root after
      a successful sign-up, with its one-shot message. */
  datatype Screen = OnForm(w: State) | Home(message: string)

  /** The user's actions on the wizard. A submission carries the avatar draw
      and the sign-up service's verdict. */
  datatype Event =
    | NextClicked
    | PreviousClicked
    | SubmitClicked(avatar: AvatarIndex, serviceFails: bool)
    | InputChanged(name: string, value: string)

  /** The inputs rendered on each step. The matriculation number is shown to
      students and the staff id to lecturers and admins. */
  predicate Visible(w: State, f: Field)
    ensures Visible(w, f) ==> 1 <= w.step <= 3
    ensures Visible(w, f) && f == MatricNumber ==> IsStudentRole(w.form.role) && !IsStaffRole(w.form.role)
    ensures Visible(w, f) && f == StaffId ==> IsStaffRole(w.form.role) && !IsStudentRole(w.form.role)
  {
    match f
    case FullName | Email | Username | Password | ConfirmPassword => w.step == 1
    case DateOfBirth | Phone | Address => w.step == 2
    case RoleField | FacultyId | DepartmentId => w.step == 3
    case MatricNumber => w.step == 3 && IsStudentRole(w.form.role)
    case StaffId => w.step == 3 && IsStaffRole(w.form.role)
  }

  /** The values an input can produce: a selector yields one of its options
      (or its empty placeholder), a text input anything. */
  predicate Selectable(w: State, f: Field, value: string)
    ensures Selectable(w, f, value) && f == RoleField ==> value in {"student", "lecturer", "admin"}
    ensures Selectable(w, f, value) && f == FacultyId && value != "" && w.faculties == FacultyTable ==>
              value in FacultyIds
    ensures Selectable(w, f, value) && f == DepartmentId && value != "" ==>
              FindDepartment(w.departments, value).Some?
  {
    match f
    case RoleField => ParseRole(value).Some?
    case FacultyId => value == "" || HasFaculty(w.faculties, value)
    case DepartmentId => value == "" || HasDepartment(w.departments, value)
    case _ => true
  }

  /** The actions the rendered wizard offers: Previous above step 1, Next
      below step 3, Create Account from step 3 unless a submission is in
      flight, and the inputs of the current step. */
  predicate Offered(w: State, e: Event)
    ensures Offered(w, e) && 1 <= w.step <= 3 && Dispatch(w, e).OnForm? ==>
              1 <= Dispatch(w, e).w.step <= 3
  {
    match e
    case NextClicked => w.step < 3
    case PreviousClicked => w.step > 1
    case SubmitClicked(_, _) => !(w.step < 3) && !w.loading
    case InputChanged(name, v) =>
      match FieldOf(name)
      case Some(f) => Visible(w, f) && Selectable(w, f, v)
      case None => false
  }

  /** One action, applied to the wizard. */
  function Dispatch(w: State, e: Event): Screen {
    match e
    case NextClicked => OnForm(Next(w))
    case PreviousClicked => OnForm(Previous(w))
    case InputChanged(name, v) => OnForm(Input(w, name, v))
    case SubmitClicked(avatar, serviceFails) =>
      match Submit(w, avatar, serviceFails)
      case Invalid(next) => OnForm(next)
      case Failed(_, next) => OnForm(next)
      case Succeeded(_, _, message) => Home(message)
  }

  /** True iff each action of `es` is offered on the screen it is applied
      to; the root screen offers none of the wizard's actions. */
  predicate Allowed(sc: Screen, es: seq<Event>)
    decreases |es|
  {
    |es| == 0 ||
    (sc.OnForm? && Offered(sc.w, es[0]) && Allowed(Dispatch(sc.w, es[0]), es[1..]))
  }

  /** The screen reached after applying `es` in order. */
  function Run(sc: Screen, es: seq<Event>): Screen
    decreases |es|
  {
    if |es| == 0 || sc.Home? then sc else Run(Dispatch(sc.w, es[0]), es[1..])
  }

  /** What holds of the wizard in every state the user can reach. */
  predicate Inv(w: State) {
    && 1 <= w.step <= 3
    && !w.loading
    && (w.error == "" || w.error in ErrorMessages)
    && w.faculties == FacultyTable
    && ParseRole(w.form.role).Some?
    && (w.form.facultyId == "" || w.form.facultyId in FacultyIds)
    && (w.form.facultyId != "" ==> w.departments == DepartmentsOf(w.form.facultyId))
    && (w.form.departmentId == "" || HasDepartment(w.departments, w.form.departmentId))
  }

  /** The steps behind the current one have passed their checks: a step is
      only left forward through its check, and its inputs are rendered on it
      alone. */
  predicate StepsPassed(w: State) {
    && (w.step >= 2 ==> IdentityComplete(w.form))
    && (w.step >= 3 ==> ContactComplete(w.form))
  }

  lemma InitInv()
    ensures Inv(Init)
    ensures StepsPassed(Init)
  {
  }

  /** Every offered action keeps the invariant while the wizard stays on
      screen. */
  lemma DispatchPreservesInv(w: State, e: Event)
    requires Inv(w) && Offered(w, e)
    ensures Dispatch(w, e).OnForm? ==> Inv(Dispatch(w, e).w)
  {
    match e
    case NextClicked =>
    case PreviousClicked =>
    case SubmitClicked(avatar, serviceFails) =>
      SubmitPreservesInv(w, avatar, serviceFails);
    case InputChanged(name, v) =>
      var f := FieldOf(name).value;
      InputPreservesInv(w, f, v);
  }

  /** A submission that leaves the wizard on screen keeps the invariant. */
  lemma SubmitPreservesInv(w: State, avatar: AvatarIndex, serviceFails: bool)
    requires Inv(w)
    ensures Submit(w, avatar, serviceFails).Invalid? ==> Inv(Submit(w, avatar, serviceFails).next)
    ensures Submit(w, avatar, serviceFails).Failed? ==> Inv(Submit(w, avatar, serviceFails).next)
  {
  }

  /** Changing a rendered input to a value it can produce keeps the
      invariant. */
  lemma InputPreservesInv(w: State, f: Field, v: string)
    requires Inv(w) && Visible(w, f) && Selectable(w, f, v)
    ensures Inv(Input(w, FieldName(f), v))
  {
  }

  /** Whatever the user does, the wizard stays within its invariant: in
      particular the step never leaves 1..3. */
  lemma {:induction false} RunPreservesInv(sc: Screen, es: seq<Event>)
    requires sc.OnForm? ==> Inv(sc.w)
    requires Allowed(sc, es)
    ensures Run(sc, es).OnForm? ==> Inv(Run(sc, es).w)
    decreases |es|
  {
    if |es| > 0 && sc.OnForm? {
      DispatchPreservesInv(sc.w, es[0]);
      RunPreservesInv(Dispatch(sc.w, es[0]), es[1..]);
    }
  }

  /** Every offered action keeps the earlier steps passed. */
  lemma DispatchKeepsStepsPassed(w: State, e: Event)
    requires Inv(w) && StepsPassed(w) && Offered(w, e)
    ensures Dispatch(w, e).OnForm? ==> StepsPassed(Dispatch(w, e).w)
  {
    match e
    case NextClicked =>
    case PreviousClicked =>
    case SubmitClicked(_, _) =>
    case InputChanged(name, v) =>
      var f := FieldOf(name).value;
      FieldNameRoundTrip(f);
  }

  /** Whatever the user does, the steps behind the current one stay passed. */
  lemma {:induction false} RunKeepsStepsPassed(sc: Screen, es: seq<Event>)
    requires sc.OnForm? ==> Inv(sc.w) && StepsPassed(sc.w)
    requires Allowed(sc, es)
    ensures Run(sc, es).OnForm? ==> Inv(Run(sc, es).w) && StepsPassed(Run(sc, es).w)
    decreases |es|
  {
    if |es| > 0 && sc.OnForm? {
      DispatchPreservesInv(sc.w, es[0]);
      DispatchKeepsStepsPassed(sc.w, es[0]);
      RunKeepsStepsPassed(Dispatch(sc.w, es[0]), es[1..]);
    }
  }

  /** Starting from the mounted wizard, any sequence of offered actions keeps
      the step within 1..3. */
  lemma StepStaysInRange(es: seq<Event>)
    requires Allowed(OnForm(Init), es)
    ensures Run(OnForm(Init), es).OnForm? ==> 1 <= Run(OnForm(Init), es).w.step <= 3
  {
    InitInv();
    RunPreservesInv(OnForm(Init), es);
  }

  /** In a reachable state, a submission that passes the step 3 check sends
      the names of the chosen faculty and department: both resolve, and the
      department is one of the chosen faculty's. */
  lemma SubmitResolvesNames(w: State, avatar: AvatarIndex, serviceFails: bool)
    requires Inv(w)
    requires StepComplete(3, w.form)
    ensures !Submit(w, avatar, serviceFails).Invalid?
    ensures exists i :: 0 <= i < |FacultyTable| && FacultyTable[i].id == w.form.facultyId &&
                        Submit(w, avatar, serviceFails).payload.facultyName == Some(FacultyTable[i].name)
    ensures exists d :: d in DepartmentsOf(w.form.facultyId) && d.id == w.form.departmentId &&
                        Submit(w, avatar, serviceFails).payload.departmentName == Some(d.name)
  {
  }

  /** A sign-up is only ever sent for a record that passes all three steps'
      checks: the identity and contact inputs are rendered only on their own
      steps, and leaving a step forward always runs its check. In particular
      the password and its confirmation agree. */
  lemma SubmittedFormPassedEveryStep(w: State, avatar: AvatarIndex, serviceFails: bool)
    requires Inv(w) && StepsPassed(w) && Offered(w, SubmitClicked(avatar, serviceFails))
    ensures !Submit(w, avatar, serviceFails).Invalid? ==>
              var p := Submit(w, avatar, serviceFails).payload;
              && p.form.password == p.form.confirmPassword
              && StepComplete(1, p.form) && StepComplete(2, p.form) && StepComplete(3, p.form)
  {
  }

  /** Next followed by Previous returns to the starting step with the error
      line cleared, whenever the step's check passes. */
  lemma NextThenPrevious(w: State)
    requires StepComplete(w.step, w.form)
    ensures Previous(Next(w)) == w.(error := "")
  {
  }

  /** Previous followed by Next returns to the starting step with the error
      line cleared, whenever the previous step's check passes. */
  lemma PreviousThenNext(w: State)
    requires StepComplete(w.step - 1, w.form)
    ensures Next(Previous(w)) == w.(error := "")
  {
  }

  /** A failing Next is stable: pressing it again changes nothing. */
  lemma NextFailureIsStable(w: State)
    requires !StepComplete(w.step, w.form)
    ensures Next(Next(w)) == Next(w)
  {
  }

  /** From step 2, a passing Next followed at once by a submission is an
      offered sequence: the model covers a submission that arrives straight
      after the step-3 screen replaces step 2. */
  lemma NextThenSubmitOffered(w: State, avatar: AvatarIndex, serviceFails: bool)
    requires w.step == 2 && !w.loading && StepComplete(2, w.form)
    ensures Allowed(OnForm(w), [NextClicked, SubmitClicked(avatar, serviceFails)])
  {
  }

  /** The handlers themselves do not bound the step: only the rendering
      guard keeps it in range. Unguarded, Previous leaves step 1 for 0, and
      a step outside 1..3 has no check, so Next then advances freely. */
  lemma HandlersNeedTheGuard(w: State)
    requires w.step == 1
    ensures Previous(w).step == 0
    ensures Next(Previous(w)).step == 1
    ensures Next(w.(step := 4)).step == 5
  {
  }
}
