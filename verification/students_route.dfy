/** The profile-creation endpoint: one nested `student.create` that writes
    the student together with its education, experience, skill and project
    rows (each project with its images), answered with 201 and the created
    aggregate, or with 500 and a fixed error body. */
module StudentsRoute {
  import opened Values
  import opened Tables
  import opened Store
  import opened Payloads
  import opened Actions

  datatype ResponseBody = StudentJson(student: StudentView) | ErrorJson(error: string)

  datatype Response = Response(status: int, body: ResponseBody)

  const CreateStudentError := "Failed to create student profile"

  /** The scalar profile columns, copied from the payload as they are. */
  function StudentRowOf(p: StudentInput): (row: StudentRow)
    ensures row.name == Column(p.name) && row.email == Column(p.email)
    ensures row.profilePictureUrl == Column(p.profilePictureUrl) && row.profession == Column(p.profession)
    ensures row.batch == Column(p.batch) && row.about == Column(p.about)
    ensures row.phoneNumber == Column(p.phoneNumber) && row.linkedinUrl == Column(p.linkedinUrl)
  {
    StudentRow(Column(p.name), Column(p.profilePictureUrl), Column(p.profession), Column(p.batch),
               Column(p.about), Column(p.phoneNumber), Column(p.email), Column(p.linkedinUrl))
  }

  /** An education entry is handed to the nested create as it is: its date
      texts are not converted (see `DatesReadable` for the empty text). */
  function EducationRowOf(studentId: int, e: EducationInput): (r: EducationRow)
    ensures r.studentId == studentId
    ensures r.institution == Column(e.institution) && r.degree == Column(e.degree)
    ensures r.fieldOfStudy == Column(e.fieldOfStudy) && r.description == Column(e.description)
    ensures r.startDate == DateText(e.startDate) && r.endDate == DateText(e.endDate)
  {
    EducationRow(studentId, Column(e.institution), Column(e.degree), Column(e.fieldOfStudy),
                 DateText(e.startDate), DateText(e.endDate), Column(e.description))
  }

  function ExperienceRowOf(studentId: int, e: ExperienceInput): (r: ExperienceRow)
    ensures r.studentId == studentId
    ensures r.company == Column(e.company) && r.position == Column(e.position)
    ensures r.description == Column(e.description)
    ensures r.startDate == DateText(e.startDate) && r.endDate == DateText(e.endDate)
  {
    ExperienceRow(studentId, Column(e.company), Column(e.position),
                  DateText(e.startDate), DateText(e.endDate), Column(e.description))
  }

  /** A project row takes the three text fields; the images become rows of
      their own. */
  function ProjectRowOf(studentId: int, p: ProjectInput): (r: ProjectRow)
    ensures r.studentId == studentId
    ensures r.name == Column(p.name) && r.description == Column(p.description) && r.githubUrl == Column(p.githubUrl)
  {
    ProjectRow(studentId, Column(p.name), Column(p.description), Column(p.githubUrl))
  }

  function EducationRowsOf(studentId: int, es: seq<EducationInput>): (rs: seq<EducationRow>)
    ensures |rs| == |es| && forall i :: 0 <= i < |es| ==> rs[i] == EducationRowOf(studentId, es[i])
  {
    seq(|es|, i requires 0 <= i < |es| => EducationRowOf(studentId, es[i]))
  }

  function ExperienceRowsOf(studentId: int, es: seq<ExperienceInput>): (rs: seq<ExperienceRow>)
    ensures |rs| == |es| && forall i :: 0 <= i < |es| ==> rs[i] == ExperienceRowOf(studentId, es[i])
  {
    seq(|es|, i requires 0 <= i < |es| => ExperienceRowOf(studentId, es[i]))
  }

  /** `skills.map(skill => ({ name: skill }))`: one row per string, duplicates kept. */
  function SkillRowsOf(studentId: int, names: seq<string>): (rs: seq<SkillRow>)
    ensures |rs| == |names| && forall i :: 0 <= i < |names| ==> rs[i] == SkillRow(studentId, names[i])
  {
    seq(|names|, i requires 0 <= i < |names| => SkillRow(studentId, names[i]))
  }

  function ProjectRowsOf(studentId: int, ps: seq<ProjectInput>): (rs: seq<ProjectRow>)
    ensures |rs| == |ps| && forall i :: 0 <= i < |ps| ==> rs[i] == ProjectRowOf(studentId, ps[i])
  {
    seq(|ps|, i requires 0 <= i < |ps| => ProjectRowOf(studentId, ps[i]))
  }

  /** The nested create of the projects: each project row, then its images. */
  function InsertProjects(projects: Table<ProjectRow>, images: Table<ImageRow>, studentId: int, ps: seq<ProjectInput>)
    : (r: (Table<ProjectRow>, Table<ImageRow>))
    ensures r.0 == InsertAll(projects, ProjectRowsOf(studentId, ps))
    decreases |ps|
  {
    if |ps| == 0 then (projects, images)
    else
      var (p1, id) := Insert(projects, ProjectRowOf(studentId, ps[0]));
      var i1 := InsertAll(images, ImageRowsFor(id, ListOrEmpty(ps[0].images)));
      assert ProjectRowsOf(studentId, ps)[1..] == ProjectRowsOf(studentId, ps[1..]);
      InsertProjects(p1, i1, studentId, ps[1..])
  }

  /** The image table after the nested project create keeps fresh ids and
      every existing image, and each new image belongs to one of the new
      projects. */
  lemma {:induction false} InsertProjectsImages(projects: Table<ProjectRow>, images: Table<ImageRow>, studentId: int, ps: seq<ProjectInput>)
    requires Valid(images)
    ensures var i' := InsertProjects(projects, images, studentId, ps).1;
      && Valid(i')
      && (forall k :: k in images.rows ==> k in i'.rows && i'.rows[k] == images.rows[k])
      && (forall k :: k in i'.rows && k !in images.rows ==> projects.next <= i'.rows[k].projectId < projects.next + |ps|)
    decreases |ps|
  {
    if |ps| > 0 {
      var (p1, id) := Insert(projects, ProjectRowOf(studentId, ps[0]));
      var rows := ImageRowsFor(id, ListOrEmpty(ps[0].images));
      InsertAllOwned(images, rows, ImageOwner, id);
      InsertProjectsImages(p1, InsertAll(images, rows), studentId, ps[1..]);
    }
  }

  /** The rows written by the nested create; returns the new store and the
      new student's id. */
  function CreateAggregate(db: Db, p: StudentInput): (r: (Db, int))
    ensures r.1 == db.students.next && r.1 in r.0.students.rows
  {
    var (students, id) := Insert(db.students, StudentRowOf(p));
    var (projects, images) := InsertProjects(db.projects, db.images, id, ListOrEmpty(p.projects));
    (Db(students,
        InsertAll(db.education, EducationRowsOf(id, ListOrEmpty(p.education))),
        InsertAll(db.experience, ExperienceRowsOf(id, ListOrEmpty(p.experience))),
        InsertAll(db.skills, SkillRowsOf(id, ListOrEmpty(p.skills))),
        projects, images),
     id)
  }

  /** The empty text is no date-time: the store refuses a date column
      given as "" (it is not converted to null on this path). */
  predicate DateReadable(v: Opt<string>) {
    v != Given("")
  }

  /** Every date text of the nested education and experience entries is one
      the store can read. */
  predicate DatesReadable(p: StudentInput) {
    && (forall i :: 0 <= i < |ListOrEmpty(p.education)| ==>
          DateReadable(ListOrEmpty(p.education)[i].startDate) && DateReadable(ListOrEmpty(p.education)[i].endDate))
    && (forall i :: 0 <= i < |ListOrEmpty(p.experience)| ==>
          DateReadable(ListOrEmpty(p.experience)[i].startDate) && DateReadable(ListOrEmpty(p.experience)[i].endDate))
  }

  /** `POST /api/students`. `body` is `None` when the request body is not
      JSON. The nested create is one store call: it writes everything or
      nothing. The store refuses it when a nested date text is empty, and
      `fault == FailAt(0)` stands for every other rejection. */
  function Post(db: Db, body: Option<StudentInput>, fault: Fault): (r: (Db, Response))
    ensures body.None? || fault == FailAt(0) || !DatesReadable(body.value) ==>
      r == (db, Response(500, ErrorJson(CreateStudentError)))
    ensures body.Some? && fault != FailAt(0) && DatesReadable(body.value) ==>
      && r.1.status == 201
      && r.1.body.StudentJson?
      && r.1.body.student.id == db.students.next
      && Some(r.1.body.student) == ReadStudent(r.0, db.students.next)
  {
    if body.None? || fault == FailAt(0) || !DatesReadable(body.value) then
      (db, Response(500, ErrorJson(CreateStudentError)))
    else
      var (db', id) := CreateAggregate(db, body.value);
      (db', Response(201, StudentJson(ReadStudent(db', id).value)))
  }
}
