/** The reference data the form offers for selection: the static faculty
    table, the department table keyed by faculty id, and first-match lookup
    by id. */
module Reference {
  import opened Wrappers

  datatype Faculty = Faculty(id: string, name: string, fullName: string)

  datatype Department = Department(id: string, name: string, facultyId: string)

  /** The faculty list loaded when the form mounts, in display order. */
  const FacultyTable: seq<Faculty> := [
    Faculty("1", "COPAS", "College of Pure and Applied Sciences"),
    Faculty("2", "COLENSMA", "College of Environmental Sciences and Management"),
    Faculty("3", "CASMAS", "College of Art, Social, and Management Science"),
    Faculty("4", "COLAW", "College of Law"),
    Faculty("5", "NURSING", "College of Nursing and Basic Medical Sciences")
  ]

  /** The departments of each faculty, keyed by faculty id. */
  const DepartmentTable: map<string, seq<Department>> := map[
    "1" := [
      Department("1", "Computer Science", "1"),
      Department("2", "Biochemistry", "1"),
      Department("3", "Software Engineering", "1")
    ],
    "2" := [
      Department("4", "Architecture", "2"),
      Department("5", "Estate Management", "2")
    ],
    "3" := [
      Department("6", "Business Administration", "3"),
      Department("7", "Accounting", "3"),
      Department("8", "Economics", "3")
    ],
    "4" := [
      Department("9", "Public and Property Law", "4"),
      Department("10", "Private and International Law", "4")
    ],
    "5" := [
      Department("11", "Nursing Science", "5"),
      Department("12", "Human Physiology", "5")
    ]
  ]

  /** The ids the faculty table knows. */
  const FacultyIds: set<string> := {"1", "2", "3", "4", "5"}

  /** True iff `id` is the id of some faculty in `fs`. */
  predicate HasFaculty(fs: seq<Faculty>, id: string) {
    exists i :: 0 <= i < |fs| && fs[i].id == id
  }

  /** True iff `id` is the id of some department in `ds`. */
  predicate HasDepartment(ds: seq<Department>, id: string) {
    exists i :: 0 <= i < |ds| && ds[i].id == id
  }

  /** The faculty table lists exactly the known ids, each once. */
  lemma FacultyTableIds()
    ensures forall id :: HasFaculty(FacultyTable, id) <==> id in FacultyIds
    ensures forall i, j :: 0 <= i < j < |FacultyTable| ==> FacultyTable[i].id != FacultyTable[j].id
  {
    forall id | id in FacultyIds
      ensures HasFaculty(FacultyTable, id)
    {
      if id == "1" { assert FacultyTable[0].id == id; }
      else if id == "2" { assert FacultyTable[1].id == id; }
      else if id == "3" { assert FacultyTable[2].id == id; }
      else if id == "4" { assert FacultyTable[3].id == id; }
      else { assert FacultyTable[4].id == id; }
    }
  }

  /** The department list for a faculty id; an empty or unknown id gives the
      empty list. Every department listed belongs to the queried faculty, and
      the list is non-empty exactly for the ids of the faculty table. */
  function DepartmentsOf(facultyId: string): (r: seq<Department>)
    ensures forall i :: 0 <= i < |r| ==> r[i].facultyId == facultyId
    ensures facultyId !in FacultyIds ==> r == []
    ensures facultyId in FacultyIds ==> |r| > 0
  {
    if facultyId in DepartmentTable then DepartmentTable[facultyId] else []
  }

  /** Every department of the table, faculty by faculty. */
  const AllDepartments: seq<Department> :=
    DepartmentsOf("1") + DepartmentsOf("2") + DepartmentsOf("3")
    + DepartmentsOf("4") + DepartmentsOf("5")

  /** Department ids are unique across the whole table, so an id names at
      most one department of at most one faculty. */
  lemma DepartmentIdsUnique()
    ensures |AllDepartments| == 12
    ensures forall i, j :: 0 <= i < j < |AllDepartments| ==>
      AllDepartments[i].id != AllDepartments[j].id
  {
  }

  /** The first element of `xs` that `matches`, as the array `find` method
      returns it: None exactly when no element matches, and otherwise an
      element that matches with no matching element before it. */
  function Find<T>(xs: seq<T>, matches: T -> bool): (r: Option<T>)
    ensures r.None? <==> forall i :: 0 <= i < |xs| ==> !matches(xs[i])
    ensures r.Some? ==> exists i :: 0 <= i < |xs| && xs[i] == r.value && matches(xs[i]) &&
                                    (forall j :: 0 <= j < i ==> !matches(xs[j]))
  {
    if |xs| == 0 then None
    else if matches(xs[0]) then Some(xs[0])
    else
      var r := Find(xs[1..], matches);
      assert forall i :: 1 <= i < |xs| ==> xs[i] == xs[1..][i - 1];
      r
  }

  /** The faculty with the given id, first match in `fs`. */
  function FindFaculty(fs: seq<Faculty>, id: string): (r: Option<Faculty>)
    ensures r.None? <==> !HasFaculty(fs, id)
    ensures r.Some? ==> exists i :: 0 <= i < |fs| && fs[i] == r.value && fs[i].id == id &&
                                    (forall j :: 0 <= j < i ==> fs[j].id != id)
  {
    Find(fs, (f: Faculty) => f.id == id)
  }

  /** The department with the given id, first match in `ds`. */
  function FindDepartment(ds: seq<Department>, id: string): (r: Option<Department>)
    ensures r.None? <==> !HasDepartment(ds, id)
    ensures r.Some? ==> exists i :: 0 <= i < |ds| && ds[i] == r.value && ds[i].id == id &&
                                    (forall j :: 0 <= j < i ==> ds[j].id != id)
  {
    Find(ds, (d: Department) => d.id == id)
  }

  /** When ids are unique, the first match is the only match: looking up the
      id of any listed department gives back that department. */
  lemma FindDepartmentUnique(ds: seq<Department>, k: nat)
    requires k < |ds|
    requires forall i, j :: 0 <= i < j < |ds| ==> ds[i].id != ds[j].id
    ensures FindDepartment(ds, ds[k].id) == Some(ds[k])
  {
  }
}
