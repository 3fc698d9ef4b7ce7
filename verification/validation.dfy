/** The per-step checks that gate the wizard. Each check runs its tests in a
    fixed order and reports the message of the first one that fails; `None`
    means the step passes. */
module Validation {
  import opened Wrappers
  import opened FormState

  const MsgFillRequired := "Please fill in all required fields"
  const MsgPasswordMismatch := "Passwords do not match"
  const MsgPasswordShort := "Password must be at least 6 characters"
  const MsgSelectAffiliation := "Please select faculty and department"
  const MsgMatricRequired := "Matriculation number is required for students"
  const MsgStaffIdRequired := "Staff ID is required for lecturers and admins"

  /** Every message a step check can report. */
  const ValidationMessages: set<string> := {
    MsgFillRequired, MsgPasswordMismatch, MsgPasswordShort,
    MsgSelectAffiliation, MsgMatricRequired, MsgStaffIdRequired
  }

  /** The shortest password the first step accepts, in characters. */
  const MinPasswordLength := 6

  /** True iff the role string is one of the roles that need a staff id. */
  predicate IsStaffRole(role: string) {
    ParseRole(role) == Some(Lecturer) || ParseRole(role) == Some(Admin)
  }

  /** True iff the role string is the student role. */
  predicate IsStudentRole(role: string) {
    ParseRole(role) == Some(Student)
  }

  // Reference definitions: what it means for each step to be complete,
  // stated as one conjunction rather than as an ordered chain of tests.

  predicate IdentityFilled(form: Form) {
    form.fullName != "" && form.email != "" && form.username != ""
    && form.password != "" && form.confirmPassword != ""
  }

  predicate IdentityComplete(form: Form) {
    IdentityFilled(form)
    && form.password == form.confirmPassword
    && |form.password| >= MinPasswordLength
  }

  predicate ContactComplete(form: Form) {
    form.dateOfBirth != "" && form.phone != ""
  }

  predicate AffiliationComplete(form: Form) {
    form.facultyId != "" && form.departmentId != ""
    && (IsStudentRole(form.role) ==> form.matricNumber != "")
    && (IsStaffRole(form.role) ==> form.staffId != "")
  }

  /** True iff the step's check has nothing to object to. A step number
      outside 1..3 has no check. */
  predicate StepComplete(step: int, form: Form) {
    && (step == 1 ==> IdentityComplete(form))
    && (step == 2 ==> ContactComplete(form))
    && (step == 3 ==> AffiliationComplete(form))
  }

  /** Step 1: identity and credentials. */
  function ValidateIdentity(form: Form): (r: Option<string>)
    ensures r.None? <==> IdentityComplete(form)
    ensures !IdentityFilled(form) ==> r == Some(MsgFillRequired)
    ensures IdentityFilled(form) && form.password != form.confirmPassword ==>
      r == Some(MsgPasswordMismatch)
    ensures (IdentityFilled(form) && form.password == form.confirmPassword &&
             |form.password| < MinPasswordLength) ==> r == Some(MsgPasswordShort)
  {
    if form.fullName == "" || form.email == "" || form.username == ""
      || form.password == "" || form.confirmPassword == "" then
      Some(MsgFillRequired)
    else if form.password != form.confirmPassword then
      Some(MsgPasswordMismatch)
    else if |form.password| < MinPasswordLength then
      Some(MsgPasswordShort)
    else
      None
  }

  /** Step 2: contact details. The address is optional. */
  function ValidateContact(form: Form): (r: Option<string>)
    ensures r.None? <==> ContactComplete(form)
    ensures r.Some? ==> r == Some(MsgFillRequired)
  {
    if form.dateOfBirth == "" || form.phone == "" then Some(MsgFillRequired) else None
  }

  /** Step 3: faculty, department and the role's identifier. The faculty and
      department test comes before any role test. A role string that is not
      one of the three roles requires neither identifier. */
  function ValidateAffiliation(form: Form): (r: Option<string>)
    ensures r.None? <==> AffiliationComplete(form)
    ensures form.facultyId == "" || form.departmentId == "" ==> r == Some(MsgSelectAffiliation)
    ensures form.facultyId != "" && form.departmentId != "" && IsStudentRole(form.role) ==>
              r == (if form.matricNumber == "" then Some(MsgMatricRequired) else None)
    ensures form.facultyId != "" && form.departmentId != "" && IsStaffRole(form.role) ==>
              r == (if form.staffId == "" then Some(MsgStaffIdRequired) else None)
  {
    if form.facultyId == "" || form.departmentId == "" then
      Some(MsgSelectAffiliation)
    else if form.role == "student" && form.matricNumber == "" then
      Some(MsgMatricRequired)
    else if (form.role == "lecturer" || form.role == "admin") && form.staffId == "" then
      Some(MsgStaffIdRequired)
    else
      None
  }

  /** The check of a wizard step: `None` when it passes, otherwise the one
      message to show. */
  function Validate(step: int, form: Form): (r: Option<string>)
    ensures r.None? <==> StepComplete(step, form)
    ensures r.Some? ==> r.value in ValidationMessages && r.value != ""
    ensures step !in {1, 2, 3} ==> r.None?
  {
    if step == 1 then ValidateIdentity(form)
    else if step == 2 then ValidateContact(form)
    else if step == 3 then ValidateAffiliation(form)
    else None
  }

  /** The error text a check leaves behind: empty on a pass, the message on
      a failure. No message is empty, so the text alone tells the outcome. */
  function ErrorText(r: Option<string>): (e: string)
    ensures r.Some? ==> e == r.value
    ensures r.None? ==> e == ""
  {
    r.GetOr("")
  }

  /** The outcome of step 2 depends on the date of birth and the phone only:
      the address and every other field are irrelevant. */
  lemma ContactIgnoresOtherFields(a: Form, b: Form)
    requires a.dateOfBirth == b.dateOfBirth && a.phone == b.phone
    ensures Validate(2, a) == Validate(2, b)
  {
  }

  /** For a student the staff id is irrelevant to step 3; for a lecturer or
      an admin the matriculation number is. */
  lemma AffiliationIgnoresOtherRoleId(form: Form, x: string)
    ensures IsStudentRole(form.role) ==>
      Validate(3, form.(staffId := x)) == Validate(3, form)
    ensures IsStaffRole(form.role) ==>
      Validate(3, form.(matricNumber := x)) == Validate(3, form)
  {
  }

  /** Step 3 passes for a lecturer who has chosen faculty 1, department 2 and
      entered a staff id, whatever the other fields hold. */
  lemma LecturerScenario(form: Form)
    requires form.role == RoleName(Lecturer)
    requires form.staffId == "S123" && form.facultyId == "1" && form.departmentId == "2"
    ensures Validate(3, form) == None
  {
  }

  /** A student without a matriculation number fails step 3 with the
      matriculation message once faculty and department are chosen. */
  lemma StudentScenario(form: Form)
    requires form.role == RoleName(Student) && form.matricNumber == ""
    requires form.facultyId != "" && form.departmentId != ""
    ensures Validate(3, form) == Some(MsgMatricRequired)
  {
  }
}
