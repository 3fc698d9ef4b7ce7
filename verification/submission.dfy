/** The sign-up payload: the form record, an avatar picked from a fixed
    catalog, and the faculty and department names resolved by id. */
module Submission {
  import opened Wrappers
  import opened FormState
  import opened Reference

  /** The avatar image files, numbered one to eighteen. */
  const AvatarCatalog: seq<string> := [
    "one.jpeg", "two.jpeg", "three.jpeg", "four.jpeg", "five.jpeg", "six.jpeg",
    "seven.jpeg", "eight.jpeg", "nine.jpeg", "ten.jpeg", "eleven.jpeg", "twelve.jpeg",
    "thirteen.jpeg", "fourteen.jpeg", "fifteen.jpeg", "sixteen.jpeg", "seventeen.jpeg",
    "eighteen.jpeg"
  ]

  /** A position in the avatar catalog. The random draw that picks it is an
      input of the model. */
  type AvatarIndex = i: nat | i < 18

  /** A path is a catalog path when it is the root followed by one of the
      catalog's file names. */
  predicate IsCatalogPath(url: string) {
    exists k :: 0 <= k < |AvatarCatalog| && url == "/" + AvatarCatalog[k]
  }

  /** The root-relative path of the avatar at position `i`. */
  function AvatarUrl(i: AvatarIndex): (url: string)
    ensures IsCatalogPath(url)
    ensures |url| > 1 && url[0] == '/'
  {
    "/" + AvatarCatalog[i]
  }

  /** Different draws give different paths: the catalog has eighteen
      distinct entries and every one of them can be chosen. */
  lemma AvatarUrlInjective(i: AvatarIndex, j: AvatarIndex)
    requires i != j
    ensures AvatarUrl(i) != AvatarUrl(j)
  {
    assert AvatarUrl(i)[1..] == AvatarCatalog[i];
    assert AvatarUrl(j)[1..] == AvatarCatalog[j];
  }

  /** What is handed to the sign-up service: every form field, the avatar
      path, and the names of the chosen faculty and department, each absent
      when its id matches nothing in the loaded list. */
  datatype Payload = Payload(
    form: Form,
    avatarUrl: string,
    facultyName: Option<string>,
    departmentName: Option<string>)

  /** The faculty's short name, or absent when no loaded faculty has the id. */
  function FacultyName(fs: seq<Faculty>, id: string): (r: Option<string>)
    ensures r.None? <==> !HasFaculty(fs, id)
    ensures r.Some? ==> exists i :: 0 <= i < |fs| && fs[i].id == id && fs[i].name == r.value &&
                                    (forall j :: 0 <= j < i ==> fs[j].id != id)
  {
    match FindFaculty(fs, id)
    case Some(f) => Some(f.name)
    case None => None
  }

  /** The department's name, or absent when no loaded department has the id. */
  function DepartmentName(ds: seq<Department>, id: string): (r: Option<string>)
    ensures r.None? <==> !HasDepartment(ds, id)
    ensures r.Some? ==> exists i :: 0 <= i < |ds| && ds[i].id == id && ds[i].name == r.value &&
                                    (forall j :: 0 <= j < i ==> ds[j].id != id)
  {
    match FindDepartment(ds, id)
    case Some(d) => Some(d.name)
    case None => None
  }

  /** Assembles the payload from the form and the currently loaded lists. */
  function BuildPayload(form: Form, fs: seq<Faculty>, ds: seq<Department>, avatar: AvatarIndex)
    : (p: Payload)
    ensures p.form == form
    ensures IsCatalogPath(p.avatarUrl)
    ensures p.facultyName == FacultyName(fs, form.facultyId)
    ensures p.departmentName == DepartmentName(ds, form.departmentId)
    ensures p.facultyName.None? <==> !HasFaculty(fs, form.facultyId)
    ensures p.departmentName.None? <==> !HasDepartment(ds, form.departmentId)
  {
    Payload(form, AvatarUrl(avatar), FacultyName(fs, form.facultyId),
            DepartmentName(ds, form.departmentId))
  }

  /** Looked up in the faculty table, a known faculty id always resolves,
      to the name of the one faculty carrying that id. */
  lemma FacultyNameInTable(id: string)
    requires id in FacultyIds
    ensures FacultyName(FacultyTable, id).Some?
    ensures exists i :: 0 <= i < |FacultyTable| && FacultyTable[i].id == id &&
                        FacultyName(FacultyTable, id) == Some(FacultyTable[i].name)
  {
  }
}
