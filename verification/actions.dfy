/** The server actions of the profile editor. Each action is one store call
    (the project update is two), wrapped so that any store rejection turns
    into `{ success: false, error }` with a fixed message instead of an
    exception. Page-cache revalidation after a success is not modelled. */
module Actions {
  import opened Values
  import opened Tables
  import opened Store
  import opened Payloads

  /** The store call of an action, counted from 0, that the database rejects
      for a reason outside this model: a lost connection, a column constraint
      of the schema, an unparseable date text. */
  datatype Fault = NoFault | FailAt(call: nat)

  /** `{ success: true, data }` or `{ success: false, error }`. */
  datatype ActionResult<+T> = Success(data: T) | Failure(error: string)

  /** The store after the action, and what the action returned. */
  datatype Step<+T> = Step(db: Db, result: ActionResult<T>)

  const CreateEducationError := "Failed to create education record"
  const UpdateEducationError := "Failed to update education record"
  const DeleteEducationError := "Failed to delete education record"
  const CreateExperienceError := "Failed to create experience record"
  const UpdateExperienceError := "Failed to update experience record"
  const DeleteExperienceError := "Failed to delete experience record"
  const CreateSkillError := "Failed to create skill record"
  const DeleteSkillError := "Failed to delete skill record"
  const CreateProjectError := "Failed to create project record"
  const UpdateProjectError := "Failed to update project record"
  const DeleteProjectError := "Failed to delete project record"
  const AddProjectImageError := "Failed to add project image"
  const DeleteProjectImageError := "Failed to delete project image"

  /** One image row per URL, in order, all owned by `projectId`. */
  function ImageRowsFor(projectId: int, urls: seq<string>): (rs: seq<ImageRow>)
    ensures |rs| == |urls|
    ensures forall i :: 0 <= i < |urls| ==> rs[i] == ImageRow(projectId, urls[i])
  {
    seq(|urls|, i requires 0 <= i < |urls| => ImageRow(projectId, urls[i]))
  }

  lemma UrlsOfNumbered(first: int, projectId: int, urls: seq<string>)
    ensures Urls(Numbered(first, ImageRowsFor(projectId, urls))) == urls
  {
  }

  // ---------------------------------------------------------------- education

  function CreateEducation(db: Db, studentId: int, data: EducationInput, fault: Fault): (r: Step<Entry<EducationRow>>)
    ensures r.result.Success? <==> fault != FailAt(0) && studentId in db.students.rows
    ensures r.result.Failure? ==> r.db == db && r.result.error == CreateEducationError
    ensures r.result.Success? ==>
      var e := r.result.data;
      && e.id == db.education.next
      && r.db == db.(education := Insert(db.education, e.row).0)
      && e.row.studentId == studentId
      && e.row.institution == Column(data.institution)
      && e.row.degree == Column(data.degree)
      && e.row.fieldOfStudy == Column(data.fieldOfStudy)
      && e.row.description == Column(data.description)
      && (e.row.startDate.None? <==> !Filled(data.startDate))
      && (e.row.startDate.Some? ==> e.row.startDate.value.text == data.startDate.value)
      && (e.row.endDate.None? <==> !Filled(data.endDate))
      && (e.row.endDate.Some? ==> e.row.endDate.value.text == data.endDate.value)
    ensures Consistent(db) ==> Consistent(r.db)
  {
    if fault == FailAt(0) || studentId !in db.students.rows then
      Step(db, Failure(CreateEducationError))
    else
      var row := EducationRow(studentId, Column(data.institution), Column(data.degree),
                              Column(data.fieldOfStudy), DateColumn(data.startDate),
                              DateColumn(data.endDate), Column(data.description));
      var (t, id) := Insert(db.education, row);
      Step(db.(education := t), Success(Entry(id, row)))
  }

  /** `education.update`: a text field left `undefined` keeps its stored
      value, but both dates are always rewritten, so an omitted date clears it. */
  function UpdateEducation(db: Db, id: int, studentId: int, data: EducationInput, fault: Fault): (r: Step<Entry<EducationRow>>)
    ensures r.result.Success? <==> fault != FailAt(0) && id in db.education.rows
    ensures r.result.Failure? ==> r.db == db && r.result.error == UpdateEducationError
    ensures r.result.Success? ==>
      var prev := db.education.rows[id];
      var e := r.result.data;
      && e.id == id
      && r.db == db.(education := Replace(db.education, id, e.row))
      && e.row.studentId == prev.studentId
      && e.row.institution == Updated(prev.institution, data.institution)
      && e.row.degree == Updated(prev.degree, data.degree)
      && e.row.fieldOfStudy == Updated(prev.fieldOfStudy, data.fieldOfStudy)
      && e.row.description == Updated(prev.description, data.description)
      && (e.row.startDate.None? <==> !Filled(data.startDate))
      && (e.row.startDate.Some? ==> e.row.startDate.value.text == data.startDate.value)
      && (e.row.endDate.None? <==> !Filled(data.endDate))
      && (e.row.endDate.Some? ==> e.row.endDate.value.text == data.endDate.value)
    ensures Consistent(db) ==> Consistent(r.db)
  {
    if fault == FailAt(0) || id !in db.education.rows then
      Step(db, Failure(UpdateEducationError))
    else
      var prev := db.education.rows[id];
      var row := EducationRow(prev.studentId, Updated(prev.institution, data.institution),
                              Updated(prev.degree, data.degree),
                              Updated(prev.fieldOfStudy, data.fieldOfStudy),
                              DateColumn(data.startDate), DateColumn(data.endDate),
                              Updated(prev.description, data.description));
      Step(db.(education := Replace(db.education, id, row)), Success(Entry(id, row)))
  }

  function DeleteEducation(db: Db, id: int, studentId: int, fault: Fault): (r: Step<()>)
    ensures r.result.Success? <==> fault != FailAt(0) && id in db.education.rows
    ensures r.result.Failure? ==> r.db == db && r.result.error == DeleteEducationError
    ensures r.result.Success? ==>
      && r.db == db.(education := r.db.education)
      && r.db.education.rows.Keys == db.education.rows.Keys - {id}
      && forall k :: k in r.db.education.rows ==> r.db.education.rows[k] == db.education.rows[k]
    ensures Consistent(db) ==> Consistent(r.db)
  {
    if fault == FailAt(0) || id !in db.education.rows then
      Step(db, Failure(DeleteEducationError))
    else
      Step(db.(education := Remove(db.education, id)), Success(()))
  }

  // --------------------------------------------------------------- experience

  function CreateExperience(db: Db, studentId: int, data: ExperienceInput, fault: Fault): (r: Step<Entry<ExperienceRow>>)
    ensures r.result.Success? <==> fault != FailAt(0) && studentId in db.students.rows
    ensures r.result.Failure? ==> r.db == db && r.result.error == CreateExperienceError
    ensures r.result.Success? ==>
      var e := r.result.data;
      && e.id == db.experience.next
      && r.db == db.(experience := Insert(db.experience, e.row).0)
      && e.row.studentId == studentId
      && e.row.company == Column(data.company)
      && e.row.position == Column(data.position)
      && e.row.description == Column(data.description)
      && (e.row.startDate.None? <==> !Filled(data.startDate))
      && (e.row.startDate.Some? ==> e.row.startDate.value.text == data.startDate.value)
      && (e.row.endDate.None? <==> !Filled(data.endDate))
      && (e.row.endDate.Some? ==> e.row.endDate.value.text == data.endDate.value)
    ensures Consistent(db) ==> Consistent(r.db)
  {
    if fault == FailAt(0) || studentId !in db.students.rows then
      Step(db, Failure(CreateExperienceError))
    else
      var row := ExperienceRow(studentId, Column(data.company), Column(data.position),
                               DateColumn(data.startDate), DateColumn(data.endDate),
                               Column(data.description));
      var (t, id) := Insert(db.experience, row);
      Step(db.(experience := t), Success(Entry(id, row)))
  }

  function UpdateExperience(db: Db, id: int, studentId: int, data: ExperienceInput, fault: Fault): (r: Step<Entry<ExperienceRow>>)
    ensures r.result.Success? <==> fault != FailAt(0) && id in db.experience.rows
    ensures r.result.Failure? ==> r.db == db && r.result.error == UpdateExperienceError
    ensures r.result.Success? ==>
      var prev := db.experience.rows[id];
      var e := r.result.data;
      && e.id == id
      && r.db == db.(experience := Replace(db.experience, id, e.row))
      && e.row.studentId == prev.studentId
      && e.row.company == Updated(prev.company, data.company)
      && e.row.position == Updated(prev.position, data.position)
      && e.row.description == Updated(prev.description, data.description)
      && (e.row.startDate.None? <==> !Filled(data.startDate))
      && (e.row.startDate.Some? ==> e.row.startDate.value.text == data.startDate.value)
      && (e.row.endDate.None? <==> !Filled(data.endDate))
      && (e.row.endDate.Some? ==> e.row.endDate.value.text == data.endDate.value)
    ensures Consistent(db) ==> Consistent(r.db)
  {
    if fault == FailAt(0) || id !in db.experience.rows then
      Step(db, Failure(UpdateExperienceError))
    else
      var prev := db.experience.rows[id];
      var row := ExperienceRow(prev.studentId, Updated(prev.company, data.company),
                               Updated(prev.position, data.position),
                               DateColumn(data.startDate), DateColumn(data.endDate),
                               Updated(prev.description, data.description));
      Step(db.(experience := Replace(db.experience, id, row)), Success(Entry(id, row)))
  }

  function DeleteExperience(db: Db, id: int, studentId: int, fault: Fault): (r: Step<()>)
    ensures r.result.Success? <==> fault != FailAt(0) && id in db.experience.rows
    ensures r.result.Failure? ==> r.db == db && r.result.error == DeleteExperienceError
    ensures r.result.Success? ==>
      && r.db == db.(experience := r.db.experience)
      && r.db.experience.rows.Keys == db.experience.rows.Keys - {id}
      && forall k :: k in r.db.experience.rows ==> r.db.experience.rows[k] == db.experience.rows[k]
    ensures Consistent(db) ==> Consistent(r.db)
  {
    if fault == FailAt(0) || id !in db.experience.rows then
      Step(db, Failure(DeleteExperienceError))
    else
      Step(db.(experience := Remove(db.experience, id)), Success(()))
  }

  // ------------------------------------------------------------------- skills

  function CreateSkill(db: Db, studentId: int, name: string, fault: Fault): (r: Step<Entry<SkillRow>>)
    ensures r.result.Success? <==> fault != FailAt(0) && studentId in db.students.rows
    ensures r.result.Failure? ==> r.db == db && r.result.error == CreateSkillError
    ensures r.result.Success? ==>
      && r.result.data == Entry(db.skills.next, SkillRow(studentId, name))
      && r.db == db.(skills := Insert(db.skills, r.result.data.row).0)
    ensures Consistent(db) ==> Consistent(r.db)
  {
    if fault == FailAt(0) || studentId !in db.students.rows then
      Step(db, Failure(CreateSkillError))
    else
      var (t, id) := Insert(db.skills, SkillRow(studentId, name));
      Step(db.(skills := t), Success(Entry(id, SkillRow(studentId, name))))
  }

  function DeleteSkill(db: Db, id: int, studentId: int, fault: Fault): (r: Step<()>)
    ensures r.result.Success? <==> fault != FailAt(0) && id in db.skills.rows
    ensures r.result.Failure? ==> r.db == db && r.result.error == DeleteSkillError
    ensures r.result.Success? ==>
      && r.db == db.(skills := r.db.skills)
      && r.db.skills.rows.Keys == db.skills.rows.Keys - {id}
      && forall k :: k in r.db.skills.rows ==> r.db.skills.rows[k] == db.skills.rows[k]
    ensures Consistent(db) ==> Consistent(r.db)
  {
    if fault == FailAt(0) || id !in db.skills.rows then
      Step(db, Failure(DeleteSkillError))
    else
      Step(db.(skills := Remove(db.skills, id)), Success(()))
  }

  // ----------------------------------------------------------------- projects

  /** `project.create` with a nested create of its images: one store call,
      so the project and its images are written together or not at all. */
  function CreateProject(db: Db, studentId: int, data: ProjectInput, fault: Fault): (r: Step<ProjectView>)
    ensures r.result.Success? <==> fault != FailAt(0) && studentId in db.students.rows
    ensures r.result.Failure? ==> r.db == db && r.result.error == CreateProjectError
    ensures r.result.Success? ==>
      var v := r.result.data;
      && v.id == db.projects.next
      && v.row.studentId == studentId
      && v.row.name == Column(data.name)
      && v.row.description == Column(data.description)
      && v.row.githubUrl == Column(data.githubUrl)
      && r.db == db.(projects := Insert(db.projects, v.row).0,
                     images := InsertAll(db.images, ImageRowsFor(v.id, ListOrEmpty(data.images))))
      && v == ReadProject(r.db, v.id).value
    ensures Consistent(db) ==> Consistent(r.db)
  {
    if fault == FailAt(0) || studentId !in db.students.rows then
      Step(db, Failure(CreateProjectError))
    else
      var row := ProjectRow(studentId, Column(data.name), Column(data.description), Column(data.githubUrl));
      var (projects, id) := Insert(db.projects, row);
      var db' := db.(projects := projects, images := InsertAll(db.images, ImageRowsFor(id, ListOrEmpty(data.images))));
      InsertAllOwned(db.images, ImageRowsFor(id, ListOrEmpty(data.images)), ImageOwner, id);
      Step(db', Success(ProjectView(id, row, ImagesOf(db', id))))
  }

  /** `projectImage.deleteMany` followed by `project.update` with a nested
      create of the new images. The two calls are not in one transaction:
      when the second is rejected, the images the first deleted stay deleted. */
  function UpdateProject(db: Db, id: int, studentId: int, data: ProjectInput, fault: Fault): (r: Step<ProjectView>)
    ensures r.result.Success? <==> fault != FailAt(0) && fault != FailAt(1) && id in db.projects.rows
    ensures r.result.Failure? ==> r.result.error == UpdateProjectError
    ensures fault == FailAt(0) ==> r.db == db
    ensures r.result.Failure? && fault != FailAt(0) ==>
      r.db == db.(images := DeleteWhere(db.images, ImageOwner, id))
    ensures r.result.Success? ==>
      var prev := db.projects.rows[id];
      var v := r.result.data;
      && v.id == id
      && v.row.studentId == prev.studentId
      && v.row.name == Updated(prev.name, data.name)
      && v.row.description == Updated(prev.description, data.description)
      && v.row.githubUrl == Updated(prev.githubUrl, data.githubUrl)
      && r.db == db.(projects := Replace(db.projects, id, v.row),
                     images := InsertAll(DeleteWhere(db.images, ImageOwner, id),
                                         ImageRowsFor(id, ListOrEmpty(data.images))))
      && v == ReadProject(r.db, id).value
    ensures Consistent(db) ==> Consistent(r.db)
  {
    if fault == FailAt(0) then
      Step(db, Failure(UpdateProjectError))
    else
      var db1 := db.(images := DeleteWhere(db.images, ImageOwner, id));
      if fault == FailAt(1) || id !in db1.projects.rows then
        Step(db1, Failure(UpdateProjectError))
      else
        var prev := db1.projects.rows[id];
        var row := ProjectRow(prev.studentId, Updated(prev.name, data.name),
                              Updated(prev.description, data.description),
                              Updated(prev.githubUrl, data.githubUrl));
        var db2 := db1.(projects := Replace(db1.projects, id, row),
                        images := InsertAll(db1.images, ImageRowsFor(id, ListOrEmpty(data.images))));
        InsertAllOwned(db1.images, ImageRowsFor(id, ListOrEmpty(data.images)), ImageOwner, id);
        Step(db2, Success(ProjectView(id, row, ImagesOf(db2, id))))
  }

  /** `project.delete`; the store's cascade rule removes the project's images. */
  function DeleteProject(db: Db, id: int, studentId: int, fault: Fault): (r: Step<()>)
    ensures r.result.Success? <==> fault != FailAt(0) && id in db.projects.rows
    ensures r.result.Failure? ==> r.db == db && r.result.error == DeleteProjectError
    ensures r.result.Success? ==>
      && r.db == db.(projects := r.db.projects, images := r.db.images)
      && r.db.projects.rows.Keys == db.projects.rows.Keys - {id}
      && (forall k :: k in r.db.projects.rows ==> r.db.projects.rows[k] == db.projects.rows[k])
      && (forall k :: k in r.db.images.rows <==> k in db.images.rows && db.images.rows[k].projectId != id)
      && (forall k :: k in r.db.images.rows ==> r.db.images.rows[k] == db.images.rows[k])
    ensures Consistent(db) ==> Consistent(r.db)
  {
    if fault == FailAt(0) || id !in db.projects.rows then
      Step(db, Failure(DeleteProjectError))
    else
      Step(DeleteProjectCascade(db, id), Success(()))
  }

  // ----------------------------------------------------------- project images

  function AddProjectImage(db: Db, projectId: int, studentId: int, imageUrl: string, fault: Fault): (r: Step<Entry<ImageRow>>)
    ensures r.result.Success? <==> fault != FailAt(0) && projectId in db.projects.rows
    ensures r.result.Failure? ==> r.db == db && r.result.error == AddProjectImageError
    ensures r.result.Success? ==>
      && r.result.data == Entry(db.images.next, ImageRow(projectId, imageUrl))
      && r.db == db.(images := Insert(db.images, r.result.data.row).0)
    ensures Consistent(db) ==> Consistent(r.db)
  {
    if fault == FailAt(0) || projectId !in db.projects.rows then
      Step(db, Failure(AddProjectImageError))
    else
      var (t, id) := Insert(db.images, ImageRow(projectId, imageUrl));
      Step(db.(images := t), Success(Entry(id, ImageRow(projectId, imageUrl))))
  }

  function DeleteProjectImage(db: Db, id: int, studentId: int, fault: Fault): (r: Step<()>)
    ensures r.result.Success? <==> fault != FailAt(0) && id in db.images.rows
    ensures r.result.Failure? ==> r.db == db && r.result.error == DeleteProjectImageError
    ensures r.result.Success? ==>
      && r.db == db.(images := r.db.images)
      && r.db.images.rows.Keys == db.images.rows.Keys - {id}
      && forall k :: k in r.db.images.rows ==> r.db.images.rows[k] == db.images.rows[k]
    ensures Consistent(db) ==> Consistent(r.db)
  {
    if fault == FailAt(0) || id !in db.images.rows then
      Step(db, Failure(DeleteProjectImageError))
    else
      Step(db.(images := Remove(db.images, id)), Success(()))
  }
}
