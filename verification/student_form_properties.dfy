/** How the form's edits relate to one another, the skills invariant they
    keep, and what a submitted form becomes in the store. */
module StudentFormProperties {
  import opened Values
  import opened Text
  import opened Lists
  import opened Tables
  import opened Store
  import opened Payloads
  import Actions
  import opened StudentsRoute
  import opened StudentsRouteProperties
  import opened StudentForm
  import opened Validations

  /** Removing the entry just added restores the form. */
  lemma RemoveAddedEducation(f: Form)
    ensures RemoveEducation(AddEducation(f), |f.education|) == f
  {
    assert AddEducation(f).education[..|f.education|] == f.education;
  }

  lemma RemoveAddedExperience(f: Form)
    ensures RemoveExperience(AddExperience(f), |f.experience|) == f
  {
    assert AddExperience(f).experience[..|f.experience|] == f.experience;
  }

  lemma RemoveAddedProject(f: Form)
    ensures RemoveProject(AddProject(f), |f.projects|) == f
  {
    assert AddProject(f).projects[..|f.projects|] == f.projects;
  }

  /** An entry is determined by its fields. */
  lemma EducationFields(a: EducationEntry, b: EducationEntry)
    requires forall g :: EducationValue(a, g) == EducationValue(b, g)
    ensures a == b
  {
    assert EducationValue(a, Institution) == EducationValue(b, Institution);
    assert EducationValue(a, Degree) == EducationValue(b, Degree);
    assert EducationValue(a, FieldOfStudy) == EducationValue(b, FieldOfStudy);
    assert EducationValue(a, StartDate) == EducationValue(b, StartDate);
    assert EducationValue(a, EndDate) == EducationValue(b, EndDate);
    assert EducationValue(a, Description) == EducationValue(b, Description);
  }

  lemma ExperienceFields(a: ExperienceEntry, b: ExperienceEntry)
    requires forall g :: ExperienceValue(a, g) == ExperienceValue(b, g)
    ensures a == b
  {
    assert ExperienceValue(a, Company) == ExperienceValue(b, Company);
    assert ExperienceValue(a, Position) == ExperienceValue(b, Position);
    assert ExperienceValue(a, JobStartDate) == ExperienceValue(b, JobStartDate);
    assert ExperienceValue(a, JobEndDate) == ExperienceValue(b, JobEndDate);
    assert ExperienceValue(a, JobDescription) == ExperienceValue(b, JobDescription);
  }

  lemma ProjectFields(a: ProjectEntry, b: ProjectEntry)
    requires forall g :: ProjectValue(a, g) == ProjectValue(b, g)
    requires a.images == b.images
    ensures a == b
  {
    assert ProjectValue(a, ProjectName) == ProjectValue(b, ProjectName);
    assert ProjectValue(a, ProjectDescription) == ProjectValue(b, ProjectDescription);
    assert ProjectValue(a, GithubUrl) == ProjectValue(b, GithubUrl);
  }

  /** Writing a field's current value back changes nothing, and a second
      write to the same field replaces the first. */
  lemma UpdateEducationLastWins(f: Form, index: int, field: EducationField, v: string, w: string)
    requires 0 <= index < |f.education|
    ensures UpdateEducation(f, index, field, EducationValue(f.education[index], field)) == f
    ensures UpdateEducation(UpdateEducation(f, index, field, v), index, field, w) == UpdateEducation(f, index, field, w)
  {
    EducationFields(UpdateEducation(f, index, field, EducationValue(f.education[index], field)).education[index], f.education[index]);
    assert UpdateEducation(f, index, field, EducationValue(f.education[index], field)).education == f.education;
    var g1 := UpdateEducation(UpdateEducation(f, index, field, v), index, field, w);
    var g2 := UpdateEducation(f, index, field, w);
    EducationFields(g1.education[index], g2.education[index]);
    assert g1.education == g2.education;
  }

  lemma UpdateExperienceLastWins(f: Form, index: int, field: ExperienceField, v: string, w: string)
    requires 0 <= index < |f.experience|
    ensures UpdateExperience(f, index, field, ExperienceValue(f.experience[index], field)) == f
    ensures UpdateExperience(UpdateExperience(f, index, field, v), index, field, w) == UpdateExperience(f, index, field, w)
  {
    ExperienceFields(UpdateExperience(f, index, field, ExperienceValue(f.experience[index], field)).experience[index], f.experience[index]);
    assert UpdateExperience(f, index, field, ExperienceValue(f.experience[index], field)).experience == f.experience;
    var g1 := UpdateExperience(UpdateExperience(f, index, field, v), index, field, w);
    var g2 := UpdateExperience(f, index, field, w);
    ExperienceFields(g1.experience[index], g2.experience[index]);
    assert g1.experience == g2.experience;
  }

  lemma UpdateProjectLastWins(f: Form, index: int, field: ProjectField, v: string, w: string)
    requires 0 <= index < |f.projects|
    ensures UpdateProject(f, index, field, ProjectValue(f.projects[index], field)) == f
    ensures UpdateProject(UpdateProject(f, index, field, v), index, field, w) == UpdateProject(f, index, field, w)
  {
    ProjectFields(UpdateProject(f, index, field, ProjectValue(f.projects[index], field)).projects[index], f.projects[index]);
    assert UpdateProject(f, index, field, ProjectValue(f.projects[index], field)).projects == f.projects;
    var g1 := UpdateProject(UpdateProject(f, index, field, v), index, field, w);
    var g2 := UpdateProject(f, index, field, w);
    ProjectFields(g1.projects[index], g2.projects[index]);
    assert g1.projects == g2.projects;
  }

  /** Removing the image just uploaded restores the form. */
  lemma RemoveAddedProjectImage(f: Form, index: int, url: string)
    requires 0 <= index < |f.projects|
    ensures RemoveProjectImage(AddProjectImage(f, index, url), index, |f.projects[index].images|) == f
  {
    var images := f.projects[index].images;
    var g := RemoveProjectImage(AddProjectImage(f, index, url), index, |images|);
    assert (images + [url])[..|images|] == images;
    assert g.projects[index] == f.projects[index];
    assert RemoveProjectImage(AddProjectImage(f, index, url), index, |images|).projects == f.projects;
  }

  /** Adding a skill keeps the list duplicate-free, trimmed and without
      empty entries. */
  lemma AddSkillKeepsSkillsOk(f: Form)
    requires SkillsOk(f.skills)
    ensures SkillsOk(AddSkill(f).skills)
  {
    var s := Trim(f.currentSkill);
    if s != "" && s !in f.skills {
      assert AddSkill(f).skills == f.skills + [s];
      AppendKeepsSkillsOk(f.skills, s);
    } else {
      assert AddSkill(f) == f;
    }
  }

  lemma AppendKeepsSkillsOk(skills: seq<string>, s: string)
    requires SkillsOk(skills)
    requires s != "" && Trimmed(s) && s !in skills
    ensures SkillsOk(skills + [s])
  {
    AppendNoDuplicates(skills, s);
    forall i | 0 <= i < |skills| + 1
      ensures (skills + [s])[i] != "" && Trimmed((skills + [s])[i])
    {
      if i < |skills| {
        assert (skills + [s])[i] == skills[i];
      }
    }
  }

  /** Removing a skill keeps the list duplicate-free, trimmed and without
      empty entries. */
  lemma RemoveSkillKeepsSkillsOk(f: Form, skill: string)
    requires SkillsOk(f.skills)
    ensures SkillsOk(RemoveSkill(f, skill).skills)
  {
    var r := RemoveSkill(f, skill).skills;
    RemoveAllNoDuplicates(f.skills, skill);
    forall i | 0 <= i < |r|
      ensures r[i] != "" && Trimmed(r[i])
    {
      assert r[i] in r;
    }
  }

  /** Pressing "Add" twice adds at most once: a successful add clears the
      input, and a refused one changes nothing. */
  lemma AddSkillTwice(f: Form)
    ensures AddSkill(AddSkill(f)) == AddSkill(f)
  {
    if Trim(f.currentSkill) != "" && Trim(f.currentSkill) !in f.skills {
      AddSkillClears(f);
      AddSkillRefused(AddSkill(f));
    } else {
      AddSkillRefused(f);
    }
  }

  /** An accepted add leaves an input that trims to nothing. */
  lemma AddSkillClears(f: Form)
    ensures |AddSkill(f).skills| > |f.skills| ==> Trim(AddSkill(f).currentSkill) == ""
  {
    if |AddSkill(f).skills| > |f.skills| {
      assert AddSkill(f).currentSkill == "";
    }
  }

  /** An add with a blank or already listed skill leaves the form as it is. */
  lemma AddSkillRefused(f: Form)
    requires Trim(f.currentSkill) == "" || Trim(f.currentSkill) in f.skills
    ensures AddSkill(f) == f
  {
  }

  /** Removing the skill just added restores the list. */
  lemma RemoveAddedSkill(f: Form)
    ensures Trim(f.currentSkill) != "" && Trim(f.currentSkill) !in f.skills ==>
      RemoveSkill(AddSkill(f), Trim(f.currentSkill)).skills == f.skills
  {
    var s := Trim(f.currentSkill);
    if s != "" && s !in f.skills {
      var added := f.skills + [s];
      assert added == AddSkill(f).skills;
      assert RemoveAll(added, s) == RemoveAll(f.skills, s) by {
        RemoveAllAppend(f.skills, s);
      }
      RemoveAllAbsent(f.skills, s);
    }
  }

  lemma {:induction false} RemoveAllAppend(s: seq<string>, x: string)
    ensures RemoveAll(s + [x], x) == RemoveAll(s, x)
    decreases |s|
  {
    if |s| == 0 {
      assert RemoveAll([x], x) == [];
    } else {
      assert (s + [x])[1..] == s[1..] + [x];
      RemoveAllAppend(s[1..], x);
    }
  }

  // What each part of the form is expected to become in the store: every
  // text in its own column, and every date text as the stamp made from it.

  function StudentStoredAs(f: Form): StudentRow {
    StudentRow(Some(f.name), Some(f.profilePictureUrl), Some(f.profession), Some(f.batch),
               Some(f.about), Some(f.phoneNumber), Some(f.email), Some(f.linkedinUrl))
  }

  function EducationStoredAs(sid: int, e: EducationEntry): EducationRow {
    EducationRow(sid, Some(e.institution), Some(e.degree), Some(e.fieldOfStudy),
                 Some(Stamp(e.startDate)), Some(Stamp(e.endDate)), Some(e.description))
  }

  function ExperienceStoredAs(sid: int, e: ExperienceEntry): ExperienceRow {
    ExperienceRow(sid, Some(e.company), Some(e.position),
                  Some(Stamp(e.startDate)), Some(Stamp(e.endDate)), Some(e.description))
  }

  function ProjectStoredAs(sid: int, p: ProjectEntry): ProjectRow {
    ProjectRow(sid, Some(p.name), Some(p.description), Some(p.githubUrl))
  }

  /** A submitted form whose date inputs are all filled in, once stored,
      reads back as it was typed: every scalar field, one education,
      experience and skill row per entry in order, and every project with
      its uploaded images. The browser then opens the new profile. */
  lemma SubmitStoresForm(db: Db, f: Form, fault: Actions.Fault)
    requires Consistent(db)
    requires fault != Actions.FailAt(0) && DatesFilled(f)
    ensures var resp := Post(db, Some(Payload(f)), fault).1;
      && resp.body.StudentJson?
      && var v := resp.body.student;
      && AfterSubmit(resp) == OpenProfile(Some(db.students.next))
      && v.row == StudentStoredAs(f)
      && |v.education| == |f.education|
      && (forall i :: 0 <= i < |f.education| ==> v.education[i].row == EducationStoredAs(v.id, f.education[i]))
      && |v.experience| == |f.experience|
      && (forall i :: 0 <= i < |f.experience| ==> v.experience[i].row == ExperienceStoredAs(v.id, f.experience[i]))
      && |v.skills| == |f.skills|
      && (forall i :: 0 <= i < |f.skills| ==> v.skills[i].row == SkillRow(v.id, f.skills[i]))
      && |v.projects| == |f.projects|
      && (forall i :: 0 <= i < |f.projects| ==>
            v.projects[i].row == ProjectStoredAs(v.id, f.projects[i]) && Urls(v.projects[i].images) == f.projects[i].images)
  {
    SubmitOpensProfile(db, f, fault);
    SubmitStoresLists(db, f, fault);
    SubmitStoresProjects(db, f, fault);
  }

  /** The scalar part of `SubmitStoresForm`. */
  lemma SubmitOpensProfile(db: Db, f: Form, fault: Actions.Fault)
    requires Consistent(db)
    requires fault != Actions.FailAt(0) && DatesFilled(f)
    ensures var resp := Post(db, Some(Payload(f)), fault).1;
      && resp.body.StudentJson?
      && AfterSubmit(resp) == OpenProfile(Some(db.students.next))
      && resp.body.student.row == StudentStoredAs(f)
  {
    PayloadDatesReadable(f);
    PostCreatesAggregate(db, Payload(f), fault);
  }

  /** The education, experience and skill rows of `SubmitStoresForm`. */
  lemma SubmitStoresLists(db: Db, f: Form, fault: Actions.Fault)
    requires Consistent(db)
    requires fault != Actions.FailAt(0) && DatesFilled(f)
    ensures var resp := Post(db, Some(Payload(f)), fault).1;
      && resp.body.StudentJson?
      && var v := resp.body.student;
      && |v.education| == |f.education|
      && (forall i :: 0 <= i < |f.education| ==> v.education[i].row == EducationStoredAs(v.id, f.education[i]))
      && |v.experience| == |f.experience|
      && (forall i :: 0 <= i < |f.experience| ==> v.experience[i].row == ExperienceStoredAs(v.id, f.experience[i]))
      && |v.skills| == |f.skills|
      && (forall i :: 0 <= i < |f.skills| ==> v.skills[i].row == SkillRow(v.id, f.skills[i]))
  {
    var p := Payload(f);
    PayloadDatesReadable(f);
    PostCreatesAggregate(db, p, fault);
    var v := Post(db, Some(p), fault).1.body.student;
    EducationStored(v.id, f.education, p.education.value, v.education);
    ExperienceStored(v.id, f.experience, p.experience.value, v.experience);
    SkillsStored(v.id, f.skills, v.skills);
  }

  /** The projects of `SubmitStoresForm`, each with its uploaded images. */
  lemma SubmitStoresProjects(db: Db, f: Form, fault: Actions.Fault)
    requires Consistent(db)
    requires fault != Actions.FailAt(0) && DatesFilled(f)
    ensures var resp := Post(db, Some(Payload(f)), fault).1;
      && resp.body.StudentJson?
      && var v := resp.body.student;
      && |v.projects| == |f.projects|
      && (forall i :: 0 <= i < |f.projects| ==>
            v.projects[i].row == ProjectStoredAs(v.id, f.projects[i]) && Urls(v.projects[i].images) == f.projects[i].images)
  {
    var p := Payload(f);
    PayloadDatesReadable(f);
    PostCreatesAggregate(db, p, fault);
    var v := Post(db, Some(p), fault).1.body.student;
    ProjectsStored(v.id, f.projects, p.projects.value, v.projects);
  }

  /** The projects created from the form's entries, read back in order with
      their images. */
  lemma ProjectsStored(sid: int, es: seq<ProjectEntry>, ps: seq<ProjectInput>, vs: seq<ProjectView>)
    requires |ps| == |es| && forall i :: 0 <= i < |es| ==> ps[i] == ProjectPayload(es[i])
    requires |vs| == |ps|
    requires forall i :: 0 <= i < |ps| ==> vs[i].row == ProjectRowOf(sid, ps[i]) && Urls(vs[i].images) == ListOrEmpty(ps[i].images)
    ensures forall i :: 0 <= i < |es| ==> vs[i].row == ProjectStoredAs(sid, es[i]) && Urls(vs[i].images) == es[i].images
  {
    forall i | 0 <= i < |es|
      ensures vs[i].row == ProjectStoredAs(sid, es[i]) && Urls(vs[i].images) == es[i].images
    {
      assert ps[i] == ProjectPayload(es[i]);
    }
  }

  /** An untouched date input fails the whole submit: the store is left as
      it was and the browser alerts. A freshly added education or experience
      entry is such a case. */
  lemma SubmitEmptyDateRefused(db: Db, f: Form, fault: Actions.Fault)
    requires !DatesFilled(f)
    ensures Post(db, Some(Payload(f)), fault).0 == db
    ensures Post(db, Some(Payload(f)), fault).1.status == 500
    ensures AfterSubmit(Post(db, Some(Payload(f)), fault).1) == Alert
  {
    PayloadDatesReadable(f);
  }

  lemma SubmitNewEntryRefused(db: Db, f: Form, fault: Actions.Fault)
    ensures AfterSubmit(Post(db, Some(Payload(AddEducation(f))), fault).1) == Alert
    ensures AfterSubmit(Post(db, Some(Payload(AddExperience(f))), fault).1) == Alert
    ensures Post(db, Some(Payload(AddEducation(f))), fault).0 == db
    ensures Post(db, Some(Payload(AddExperience(f))), fault).0 == db
  {
    var g := AddEducation(f);
    assert EducationValue(g.education[|f.education|], StartDate) == "";
    SubmitEmptyDateRefused(db, g, fault);
    var h := AddExperience(f);
    assert ExperienceValue(h.experience[|f.experience|], JobStartDate) == "";
    SubmitEmptyDateRefused(db, h, fault);
  }

  /** The education rows created from the form's entries, read back in order. */
  lemma EducationStored(sid: int, es: seq<EducationEntry>, ps: seq<EducationInput>, vs: seq<Entry<EducationRow>>)
    requires |ps| == |es| && forall i :: 0 <= i < |es| ==> ps[i] == EducationPayload(es[i])
    requires Rows(vs) == EducationRowsOf(sid, ps)
    ensures |vs| == |es|
    ensures forall i :: 0 <= i < |es| ==> vs[i].row == EducationStoredAs(sid, es[i])
  {
    forall i | 0 <= i < |es|
      ensures vs[i].row == EducationStoredAs(sid, es[i])
    {
      assert Rows(vs)[i] == EducationRowOf(sid, ps[i]);
    }
  }

  lemma ExperienceStored(sid: int, es: seq<ExperienceEntry>, ps: seq<ExperienceInput>, vs: seq<Entry<ExperienceRow>>)
    requires |ps| == |es| && forall i :: 0 <= i < |es| ==> ps[i] == ExperiencePayload(es[i])
    requires Rows(vs) == ExperienceRowsOf(sid, ps)
    ensures |vs| == |es|
    ensures forall i :: 0 <= i < |es| ==> vs[i].row == ExperienceStoredAs(sid, es[i])
  {
    forall i | 0 <= i < |es|
      ensures vs[i].row == ExperienceStoredAs(sid, es[i])
    {
      assert Rows(vs)[i] == ExperienceRowOf(sid, ps[i]);
    }
  }

  lemma SkillsStored(sid: int, names: seq<string>, vs: seq<Entry<SkillRow>>)
    requires Rows(vs) == SkillRowsOf(sid, names)
    ensures |vs| == |names|
    ensures forall i :: 0 <= i < |names| ==> vs[i].row == SkillRow(sid, names[i])
  {
    forall i | 0 <= i < |names|
      ensures vs[i].row == SkillRow(sid, names[i])
    {
      assert Rows(vs)[i] == SkillRow(sid, names[i]);
    }
  }

  /** A refused create leaves the store as it was and the browser alerts. */
  lemma SubmitRefused(db: Db, f: Form)
    ensures Post(db, Some(Payload(f)), Actions.FailAt(0)).0 == db
    ensures AfterSubmit(Post(db, Some(Payload(f)), Actions.FailAt(0)).1) == Alert
  {
  }

  /** A freshly added entry that is submitted untouched fails its schema on
      both required fields, in key order. */
  lemma BlankEntriesRejected()
    ensures ParseEducation(EducationPayload(AddEducation(InitialForm()).education[0]))
      == Rejected([Issue("institution", "Institution is required"), Issue("degree", "Degree is required")])
    ensures ParseExperience(ExperiencePayload(AddExperience(InitialForm()).experience[0]))
      == Rejected([Issue("company", "Company is required"), Issue("position", "Position is required")])
    ensures ParseProject(ProjectPayload(AddProject(InitialForm()).projects[0]))
      == Rejected([Issue("name", "Project name is required")])
  {
  }

  /** The schemas are not applied on the way in: a form with an empty name,
      which the student schema rejects, is still stored, and the browser
      opens the new profile. */
  lemma SubmitSkipsSchema(db: Db, f: Form, isEmail: string -> bool)
    requires Consistent(db)
    requires f.name == "" && DatesFilled(f)
    ensures ParseStudent(Payload(f), isEmail).Rejected?
    ensures var (db', resp) := Post(db, Some(Payload(f)), Actions.NoFault);
      && resp.status == 201
      && db.students.next in db'.students.rows
      && db'.students.rows[db.students.next].name == Some("")
      && AfterSubmit(resp) == OpenProfile(Some(db.students.next))
  {
    SubmitOpensProfile(db, f, Actions.NoFault);
  }
}
