/** The sign-up form record: thirteen string fields, the roles a user can
    register as, and the rule by which one input change rewrites the record. */
module FormState {
  import opened Wrappers

  /** The roles offered by the role selector. */
  datatype Role = Student | Lecturer | Admin

  /** The value the role selector stores in the form for each role. */
  function RoleName(r: Role): string {
    match r
    case Student => "student"
    case Lecturer => "lecturer"
    case Admin => "admin"
  }

  /** Reads the stored role string back; any other string is no role. */
  function ParseRole(s: string): (r: Option<Role>)
    ensures r.Some? ==> RoleName(r.value) == s
  {
    if s == "student" then Some(Student)
    else if s == "lecturer" then Some(Lecturer)
    else if s == "admin" then Some(Admin)
    else None
  }

  /** Parsing the value the selector stores for a role gives back that
      role, so every role's value parses. */
  lemma ParseRoleName(r: Role)
    ensures ParseRole(RoleName(r)) == Some(r)
  {
  }

  /** The names of the form's inputs, one per field of the record. */
  datatype Field =
    | FullName | Email | Username | Password | ConfirmPassword
    | DateOfBirth | Phone | Address
    | RoleField | FacultyId | DepartmentId | MatricNumber | StaffId

  /** The `name` attribute of the input bound to each field. */
  function FieldName(f: Field): string {
    match f
    case FullName => "full_name"
    case Email => "email"
    case Username => "username"
    case Password => "password"
    case ConfirmPassword => "confirmPassword"
    case DateOfBirth => "date_of_birth"
    case Phone => "phone"
    case Address => "address"
    case RoleField => "role"
    case FacultyId => "faculty_id"
    case DepartmentId => "department_id"
    case MatricNumber => "matric_number"
    case StaffId => "staff_id"
  }

  /** The field an input `name` attribute designates, if any. */
  function FieldOf(name: string): (r: Option<Field>)
    ensures r.Some? ==> FieldName(r.value) == name
  {
    if name == "full_name" then Some(FullName)
    else if name == "email" then Some(Email)
    else if name == "username" then Some(Username)
    else if name == "password" then Some(Password)
    else if name == "confirmPassword" then Some(ConfirmPassword)
    else if name == "date_of_birth" then Some(DateOfBirth)
    else if name == "phone" then Some(Phone)
    else if name == "address" then Some(Address)
    else if name == "role" then Some(RoleField)
    else if name == "faculty_id" then Some(FacultyId)
    else if name == "department_id" then Some(DepartmentId)
    else if name == "matric_number" then Some(MatricNumber)
    else if name == "staff_id" then Some(StaffId)
    else None
  }

  /** Every input name designates its own field, so distinct fields have
      distinct names. */
  lemma FieldNameRoundTrip(f: Field)
    ensures FieldOf(FieldName(f)) == Some(f)
  {
  }

  /** The form record. Every field holds a string; `role` holds the value of
      the role selector. */
  datatype Form = Form(
    fullName: string, email: string, username: string,
    password: string, confirmPassword: string,
    dateOfBirth: string, phone: string, address: string,
    role: string, facultyId: string, departmentId: string,
    matricNumber: string, staffId: string)

  /** The record the form starts with: every field empty, role student. */
  const EmptyForm: Form :=
    Form("", "", "", "", "", "", "", "", RoleName(Student), "", "", "", "")

  function Get(form: Form, f: Field): string {
    match f
    case FullName => form.fullName
    case Email => form.email
    case Username => form.username
    case Password => form.password
    case ConfirmPassword => form.confirmPassword
    case DateOfBirth => form.dateOfBirth
    case Phone => form.phone
    case Address => form.address
    case RoleField => form.role
    case FacultyId => form.facultyId
    case DepartmentId => form.departmentId
    case MatricNumber => form.matricNumber
    case StaffId => form.staffId
  }

  /** Overwrites one field of the record, as the spread-and-override update
      does. */
  function Set(form: Form, f: Field, value: string): (r: Form)
    ensures Get(r, f) == value
    ensures forall g :: g != f ==> Get(r, g) == Get(form, g)
  {
    match f
    case FullName => form.(fullName := value)
    case Email => form.(email := value)
    case Username => form.(username := value)
    case Password => form.(password := value)
    case ConfirmPassword => form.(confirmPassword := value)
    case DateOfBirth => form.(dateOfBirth := value)
    case Phone => form.(phone := value)
    case Address => form.(address := value)
    case RoleField => form.(role := value)
    case FacultyId => form.(facultyId := value)
    case DepartmentId => form.(departmentId := value)
    case MatricNumber => form.(matricNumber := value)
    case StaffId => form.(staffId := value)
  }

  /** One input change: the named field takes the new value, and choosing a
      faculty also empties the department selection. */
  function Change(form: Form, f: Field, value: string): (r: Form)
    ensures Get(r, f) == value
    ensures f == FacultyId ==> Get(r, DepartmentId) == ""
    ensures forall g :: g != f && !(f == FacultyId && g == DepartmentId) ==> Get(r, g) == Get(form, g)
  {
    var r := Set(form, f, value);
    if f == FacultyId then Set(r, DepartmentId, "") else r
  }

  /** An input change addressed by the input's `name` attribute: the name of
      a field changes that field. A name that designates no field leaves the
      thirteen fields as they are. */
  function ChangeByName(form: Form, name: string, value: string): (r: Form)
    ensures forall f :: name == FieldName(f) ==> r == Change(form, f, value)
    ensures FieldOf(name).None? ==> r == form
  {
    match FieldOf(name)
    case Some(f) => Change(form, f, value)
    case None => form
  }

  /** A change is determined field by field: this is the whole effect of
      one input change on the record. */
  lemma ChangeIsPointwise(form: Form, f: Field, value: string, g: Field)
    ensures Get(Change(form, f, value), g) ==
      if g == f then value
      else if f == FacultyId && g == DepartmentId then ""
      else Get(form, g)
  {
  }

  /** Making the same change twice gives the same record as making it once. */
  lemma ChangeIdempotent(form: Form, f: Field, value: string)
    ensures Change(Change(form, f, value), f, value) == Change(form, f, value)
  {
  }
}
