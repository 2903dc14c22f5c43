/** What the server actions do to the reads the pages make: which child
    lists change, how, and which stay as they were. */
module ActionProperties {
  import opened Values
  import opened Tables
  import opened Store
  import opened Payloads
  import opened Actions

  /** A created education row is appended to its student's list; every other
      student's list is unchanged. */
  lemma CreateEducationAppends(db: Db, studentId: int, data: EducationInput, fault: Fault, other: int)
    requires Consistent(db)
    ensures var r := CreateEducation(db, studentId, data, fault);
      && (r.result.Success? ==> EducationOf(r.db, studentId) == EducationOf(db, studentId) + [r.result.data])
      && (other != studentId ==> EducationOf(r.db, other) == EducationOf(db, other))
  {
    var r := CreateEducation(db, studentId, data, fault);
    if r.result.Success? {
      ChildrenInsert(db.education, r.result.data.row, EducationOwner, studentId);
      ChildrenInsert(db.education, r.result.data.row, EducationOwner, other);
    }
  }

  lemma CreateExperienceAppends(db: Db, studentId: int, data: ExperienceInput, fault: Fault, other: int)
    requires Consistent(db)
    ensures var r := CreateExperience(db, studentId, data, fault);
      && (r.result.Success? ==> ExperienceOf(r.db, studentId) == ExperienceOf(db, studentId) + [r.result.data])
      && (other != studentId ==> ExperienceOf(r.db, other) == ExperienceOf(db, other))
  {
    var r := CreateExperience(db, studentId, data, fault);
    if r.result.Success? {
      ChildrenInsert(db.experience, r.result.data.row, ExperienceOwner, studentId);
      ChildrenInsert(db.experience, r.result.data.row, ExperienceOwner, other);
    }
  }

  lemma CreateSkillAppends(db: Db, studentId: int, name: string, fault: Fault, other: int)
    requires Consistent(db)
    ensures var r := CreateSkill(db, studentId, name, fault);
      && (r.result.Success? ==> SkillsOf(r.db, studentId) == SkillsOf(db, studentId) + [r.result.data])
      && (other != studentId ==> SkillsOf(r.db, other) == SkillsOf(db, other))
  {
    var r := CreateSkill(db, studentId, name, fault);
    if r.result.Success? {
      ChildrenInsert(db.skills, r.result.data.row, SkillOwner, studentId);
      ChildrenInsert(db.skills, r.result.data.row, SkillOwner, other);
    }
  }

  /** The new project shows one image per URL, in order (none when `images`
      is omitted), and no other project's images change. */
  lemma CreateProjectImages(db: Db, studentId: int, data: ProjectInput, fault: Fault, q: int)
    requires Consistent(db)
    ensures var r := CreateProject(db, studentId, data, fault);
      && (r.result.Success? ==>
            && Urls(r.result.data.images) == ListOrEmpty(data.images)
            && (data.images.Missing? ==> r.result.data.images == [])
            && ProjectsOf(r.db, studentId) == ProjectsOf(db, studentId) + [Entry(r.result.data.id, r.result.data.row)])
      && (q != db.projects.next ==> ImagesOf(r.db, q) == ImagesOf(db, q))
  {
    var r := CreateProject(db, studentId, data, fault);
    if r.result.Success? {
      var id := r.result.data.id;
      var rows := ImageRowsFor(id, ListOrEmpty(data.images));
      NoChildren(db.images, ImageOwner, id);
      ChildrenInsertAll(db.images, rows, ImageOwner, id);
      NumberedOwnedAll(db.images.next, rows, ImageOwner, id);
      UrlsOfNumbered(db.images.next, id, ListOrEmpty(data.images));
      ChildrenInsert(db.projects, r.result.data.row, ProjectOwner, studentId);
      if q != id {
        ChildrenInsertAll(db.images, rows, ImageOwner, q);
        NumberedOwnedNone(db.images.next, rows, ImageOwner, q);
      }
    }
  }

  /** After a successful update the project's images are exactly one row per
      URL of `images`, in order, and none when `images` is omitted. Whatever
      the outcome, the images of every other project are untouched. */
  lemma UpdateProjectReplacesImages(db: Db, id: int, studentId: int, data: ProjectInput, fault: Fault, q: int)
    requires Consistent(db)
    ensures var r := UpdateProject(db, id, studentId, data, fault);
      && (r.result.Success? ==>
            && Urls(ImagesOf(r.db, id)) == ListOrEmpty(data.images)
            && r.result.data.images == ImagesOf(r.db, id)
            && (data.images.Missing? ==> ImagesOf(r.db, id) == []))
      && (q != id ==> ImagesOf(r.db, q) == ImagesOf(db, q))
  {
    var r := UpdateProject(db, id, studentId, data, fault);
    var rows := ImageRowsFor(id, ListOrEmpty(data.images));
    var deleted := DeleteWhere(db.images, ImageOwner, id);
    ChildrenDeleteWhere(db.images, ImageOwner, id, id);
    ChildrenDeleteWhere(db.images, ImageOwner, id, q);
    if r.result.Success? {
      ChildrenInsertAll(deleted, rows, ImageOwner, id);
      NumberedOwnedAll(deleted.next, rows, ImageOwner, id);
      UrlsOfNumbered(deleted.next, id, ListOrEmpty(data.images));
      if q != id {
        ChildrenInsertAll(deleted, rows, ImageOwner, q);
        NumberedOwnedNone(deleted.next, rows, ImageOwner, q);
      }
    }
  }

  /** The update is not atomic: when the store rejects the second call, the
      action reports failure, yet the project has already lost every image,
      so a project that had images is left in a changed store. */
  lemma UpdateProjectFailureLosesImages(db: Db, id: int, studentId: int, data: ProjectInput)
    requires Consistent(db)
    ensures var r := UpdateProject(db, id, studentId, data, FailAt(1));
      && r.result == Failure(UpdateProjectError)
      && ImagesOf(r.db, id) == []
      && (ImagesOf(db, id) != [] ==> r.db != db)
  {
    ChildrenDeleteWhere(db.images, ImageOwner, id, id);
  }

  /** Deleting a project removes it and, through the cascade, all its images;
      every other project, images included, reads as before, and the
      project disappears from its owner's list only. */
  lemma DeleteProjectCascades(db: Db, id: int, studentId: int, fault: Fault, q: int, s: int)
    requires Consistent(db)
    ensures var r := DeleteProject(db, id, studentId, fault);
      && (r.result.Success? ==>
            && ReadProject(r.db, id).None?
            && ImagesOf(r.db, id) == []
            && (q != id ==> ReadProject(r.db, q) == ReadProject(db, q))
            && (s != db.projects.rows[id].studentId ==> ProjectsOf(r.db, s) == ProjectsOf(db, s)))
      && (r.result.Failure? ==> r.db == db)
  {
    var r := DeleteProject(db, id, studentId, fault);
    if r.result.Success? {
      DeleteProjectCascadeImages(db, id, q);
      if s != db.projects.rows[id].studentId {
        ChildrenRemoveOther(db.projects, id, ProjectOwner, s);
      }
    }
  }

  /** An added image is appended to its project's images, which keep the
      ones they had; no other project's images change. */
  lemma AddProjectImageAppends(db: Db, projectId: int, studentId: int, imageUrl: string, fault: Fault, q: int)
    requires Consistent(db)
    ensures var r := AddProjectImage(db, projectId, studentId, imageUrl, fault);
      && (r.result.Success? ==>
            ImagesOf(r.db, projectId) == ImagesOf(db, projectId) + [Entry(db.images.next, ImageRow(projectId, imageUrl))])
      && (q != projectId ==> ImagesOf(r.db, q) == ImagesOf(db, q))
  {
    var r := AddProjectImage(db, projectId, studentId, imageUrl, fault);
    if r.result.Success? {
      ChildrenInsert(db.images, ImageRow(projectId, imageUrl), ImageOwner, projectId);
      ChildrenInsert(db.images, ImageRow(projectId, imageUrl), ImageOwner, q);
    }
  }

  /** Deleting an image leaves every other project's images as they were. */
  lemma DeleteProjectImageKeepsOthers(db: Db, id: int, studentId: int, fault: Fault, q: int)
    requires Consistent(db)
    ensures var r := DeleteProjectImage(db, id, studentId, fault);
      && (r.result.Success? && q != db.images.rows[id].projectId ==> ImagesOf(r.db, q) == ImagesOf(db, q))
      && (r.result.Success? ==> forall e :: e in ImagesOf(r.db, q) <==> e in ImagesOf(db, q) && e.id != id)
  {
    var r := DeleteProjectImage(db, id, studentId, fault);
    if r.result.Success? {
      ChildrenExact(db.images, ImageOwner, q);
      ChildrenExact(r.db.images, ImageOwner, q);
      if q != db.images.rows[id].projectId {
        ChildrenRemoveOther(db.images, id, ImageOwner, q);
      }
    }
  }
}
