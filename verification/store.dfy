/** The relational store behind the application: one table per entity, with
    foreign keys from each child row to its owner. Deleting a project
    cascades to its images, as the schema's cascade rule does. */
module Store {
  import opened Values
  import opened Tables

  datatype StudentRow = StudentRow(
    name: Option<string>,
    profilePictureUrl: Option<string>,
    profession: Option<string>,
    batch: Option<string>,
    about: Option<string>,
    phoneNumber: Option<string>,
    email: Option<string>,
    linkedinUrl: Option<string>)

  datatype EducationRow = EducationRow(
    studentId: int,
    institution: Option<string>,
    degree: Option<string>,
    fieldOfStudy: Option<string>,
    startDate: Option<Stamp>,
    endDate: Option<Stamp>,
    description: Option<string>)

  datatype ExperienceRow = ExperienceRow(
    studentId: int,
    company: Option<string>,
    position: Option<string>,
    startDate: Option<Stamp>,
    endDate: Option<Stamp>,
    description: Option<string>)

  datatype SkillRow = SkillRow(studentId: int, name: string)

  datatype ProjectRow = ProjectRow(
    studentId: int,
    name: Option<string>,
    description: Option<string>,
    githubUrl: Option<string>)

  datatype ImageRow = ImageRow(projectId: int, imageUrl: string)

  datatype Db = Db(
    students: Table<StudentRow>,
    education: Table<EducationRow>,
    experience: Table<ExperienceRow>,
    skills: Table<SkillRow>,
    projects: Table<ProjectRow>,
    images: Table<ImageRow>)

  // Foreign-key projections, one per child table.
  function EducationOwner(r: EducationRow): int { r.studentId }
  function ExperienceOwner(r: ExperienceRow): int { r.studentId }
  function SkillOwner(r: SkillRow): int { r.studentId }
  function ProjectOwner(r: ProjectRow): int { r.studentId }
  function ImageOwner(r: ImageRow): int { r.projectId }

  function EmptyDb(): (db: Db)
    ensures Consistent(db)
  {
    Db(Empty(), Empty(), Empty(), Empty(), Empty(), Empty())
  }

  /** Every table hands out fresh ids, and every foreign key refers to an
      existing parent row. */
  ghost predicate Consistent(db: Db) {
    && Valid(db.students) && Valid(db.education) && Valid(db.experience)
    && Valid(db.skills) && Valid(db.projects) && Valid(db.images)
    && (forall k :: k in db.education.rows ==> db.education.rows[k].studentId in db.students.rows)
    && (forall k :: k in db.experience.rows ==> db.experience.rows[k].studentId in db.students.rows)
    && (forall k :: k in db.skills.rows ==> db.skills.rows[k].studentId in db.students.rows)
    && (forall k :: k in db.projects.rows ==> db.projects.rows[k].studentId in db.students.rows)
    && (forall k :: k in db.images.rows ==> db.images.rows[k].projectId in db.projects.rows)
  }

  /** `project.delete`: the project row goes, and with it every image it owns. */
  function DeleteProjectCascade(db: Db, id: int): (db': Db)
    ensures id !in db'.projects.rows
    ensures forall k :: k in db'.images.rows ==> db'.images.rows[k].projectId != id
    ensures db' == db.(projects := db'.projects, images := db'.images)
    ensures Consistent(db) ==> Consistent(db')
  {
    db.(projects := Remove(db.projects, id), images := DeleteWhere(db.images, ImageOwner, id))
  }

  // Reads with nested includes, children in ascending id order.

  function EducationOf(db: Db, studentId: int): seq<Entry<EducationRow>> {
    Children(db.education, EducationOwner, studentId)
  }

  function ExperienceOf(db: Db, studentId: int): seq<Entry<ExperienceRow>> {
    Children(db.experience, ExperienceOwner, studentId)
  }

  function SkillsOf(db: Db, studentId: int): seq<Entry<SkillRow>> {
    Children(db.skills, SkillOwner, studentId)
  }

  function ProjectsOf(db: Db, studentId: int): seq<Entry<ProjectRow>> {
    Children(db.projects, ProjectOwner, studentId)
  }

  function ImagesOf(db: Db, projectId: int): seq<Entry<ImageRow>> {
    Children(db.images, ImageOwner, projectId)
  }

  /** The URLs of a list of image rows, in order. */
  function Urls(es: seq<Entry<ImageRow>>): (urls: seq<string>)
    ensures |urls| == |es| && forall i :: 0 <= i < |es| ==> urls[i] == es[i].row.imageUrl
  {
    seq(|es|, i requires 0 <= i < |es| => es[i].row.imageUrl)
  }

  /** A project read with `include: { images: true }`. */
  datatype ProjectView = ProjectView(id: int, row: ProjectRow, images: seq<Entry<ImageRow>>)

  /** A student read with every nested child included. */
  datatype StudentView = StudentView(
    id: int,
    row: StudentRow,
    education: seq<Entry<EducationRow>>,
    experience: seq<Entry<ExperienceRow>>,
    skills: seq<Entry<SkillRow>>,
    projects: seq<ProjectView>)

  function WithImages(db: Db, ps: seq<Entry<ProjectRow>>): (vs: seq<ProjectView>)
    ensures |vs| == |ps|
    ensures forall i :: 0 <= i < |ps| ==> vs[i] == ProjectView(ps[i].id, ps[i].row, ImagesOf(db, ps[i].id))
  {
    seq(|ps|, i requires 0 <= i < |ps| => ProjectView(ps[i].id, ps[i].row, ImagesOf(db, ps[i].id)))
  }

  /** `findUnique` of a project with `include: { images: true }`. */
  function ReadProject(db: Db, id: int): (r: Option<ProjectView>)
    ensures r.Some? <==> id in db.projects.rows
    ensures r.Some? ==> r.value.id == id && r.value.row == db.projects.rows[id] && r.value.images == ImagesOf(db, id)
  {
    if id in db.projects.rows then Some(ProjectView(id, db.projects.rows[id], ImagesOf(db, id))) else None
  }

  /** A student with every child list included, as the nested create returns it. */
  function ReadStudent(db: Db, id: int): (r: Option<StudentView>)
    ensures r.Some? <==> id in db.students.rows
    ensures r.Some? ==> r.value.id == id && r.value.row == db.students.rows[id]
    ensures r.Some? ==> r.value.education == EducationOf(db, id) && r.value.experience == ExperienceOf(db, id)
    ensures r.Some? ==> r.value.skills == SkillsOf(db, id) && r.value.projects == WithImages(db, ProjectsOf(db, id))
  {
    if id in db.students.rows then
      Some(StudentView(id, db.students.rows[id], EducationOf(db, id), ExperienceOf(db, id),
                       SkillsOf(db, id), WithImages(db, ProjectsOf(db, id))))
    else None
  }

  /** In a consistent store, a project's image read shows exactly the image
      rows that refer to it. */
  lemma ImagesOfExact(db: Db, projectId: int)
    requires Consistent(db)
    ensures forall e :: e in ImagesOf(db, projectId) <==>
      e.id in db.images.rows && db.images.rows[e.id] == e.row && e.row.projectId == projectId
  {
    ChildrenExact(db.images, ImageOwner, projectId);
  }

  /** Cascade delete: the deleted project has no images left, and every other
      project keeps exactly the images it had. */
  lemma {:induction false} DeleteProjectCascadeImages(db: Db, id: int, q: int)
    requires Consistent(db)
    ensures ReadProject(DeleteProjectCascade(db, id), id).None?
    ensures ImagesOf(DeleteProjectCascade(db, id), id) == []
    ensures q != id ==> ImagesOf(DeleteProjectCascade(db, id), q) == ImagesOf(db, q)
    ensures q != id ==> ReadProject(DeleteProjectCascade(db, id), q) == ReadProject(db, q)
  {
    ChildrenDeleteWhere(db.images, ImageOwner, id, q);
    ChildrenDeleteWhere(db.images, ImageOwner, id, id);
  }
}
