/** What a successful profile creation leaves in the store and returns:
    the whole aggregate, exactly as the payload described it, with nothing
    of any other student touched. */
module StudentsRouteProperties {
  import opened Values
  import opened Tables
  import opened Store
  import opened Payloads
  import opened Actions
  import opened StudentsRoute

  /** The nested project create leaves the images of every project outside
      the new id range as they were. */
  lemma {:induction false} InsertProjectsOther(projects: Table<ProjectRow>, images: Table<ImageRow>, studentId: int, ps: seq<ProjectInput>, q: int)
    requires Valid(images)
    requires !(projects.next <= q < projects.next + |ps|)
    ensures Children(InsertProjects(projects, images, studentId, ps).1, ImageOwner, q) == Children(images, ImageOwner, q)
    decreases |ps|
  {
    if |ps| > 0 {
      var (p1, id) := Insert(projects, ProjectRowOf(studentId, ps[0]));
      var rows := ImageRowsFor(id, ListOrEmpty(ps[0].images));
      var i1 := InsertAll(images, rows);
      InsertProjectsOther(p1, i1, studentId, ps[1..], q);
      ChildrenInsertAllOther(images, rows, ImageOwner, q);
    }
  }

  /** One step of the nested project create: the first project row, its
      images, then the rest. */
  lemma InsertProjectsStep(projects: Table<ProjectRow>, images: Table<ImageRow>, studentId: int, ps: seq<ProjectInput>)
    requires |ps| > 0
    ensures InsertProjects(projects, images, studentId, ps).1
         == InsertProjects(Insert(projects, ProjectRowOf(studentId, ps[0])).0,
                           InsertAll(images, ImageRowsFor(projects.next, ListOrEmpty(ps[0].images))),
                           studentId, ps[1..]).1
  {
  }

  /** The first new project receives one image per URL of the first payload
      project, in order. */
  lemma InsertProjectsImagesHead(projects: Table<ProjectRow>, images: Table<ImageRow>, studentId: int, ps: seq<ProjectInput>)
    requires Valid(images) && |ps| > 0
    ensures Children(InsertProjects(projects, images, studentId, ps).1, ImageOwner, projects.next)
         == Children(images, ImageOwner, projects.next)
          + Numbered(images.next, ImageRowsFor(projects.next, ListOrEmpty(ps[0].images)))
  {
    var q := projects.next;
    var rows := ImageRowsFor(q, ListOrEmpty(ps[0].images));
    InsertProjectsStep(projects, images, studentId, ps);
    InsertProjectsOther(Insert(projects, ProjectRowOf(studentId, ps[0])).0, InsertAll(images, rows), studentId, ps[1..], q);
    ChildrenInsertAll(images, rows, ImageOwner, q);
    NumberedOwnedAll(images.next, rows, ImageOwner, q);
  }

  /** The `i`-th new project, whose id is `q`, receives one image per URL
      of the `i`-th payload project, in order, under consecutive ids from
      some `first`. */
  lemma {:induction false} InsertProjectsImagesAt(projects: Table<ProjectRow>, images: Table<ImageRow>, studentId: int,
                                                  ps: seq<ProjectInput>, i: nat, q: int)
      returns (first: int)
    requires Valid(images)
    requires i < |ps| && q == projects.next + i
    ensures Children(InsertProjects(projects, images, studentId, ps).1, ImageOwner, q)
         == Children(images, ImageOwner, q) + Numbered(first, ImageRowsFor(q, ListOrEmpty(ps[i].images)))
    decreases |ps|
  {
    if i == 0 {
      InsertProjectsImagesHead(projects, images, studentId, ps);
      first := images.next;
    } else {
      var p1 := Insert(projects, ProjectRowOf(studentId, ps[0])).0;
      var rows := ImageRowsFor(projects.next, ListOrEmpty(ps[0].images));
      var i1 := InsertAll(images, rows);
      first := InsertProjectsImagesAt(p1, i1, studentId, ps[1..], i - 1, q);
      calc {
        Children(InsertProjects(projects, images, studentId, ps).1, ImageOwner, q);
        { InsertProjectsStep(projects, images, studentId, ps); }
        Children(InsertProjects(p1, i1, studentId, ps[1..]).1, ImageOwner, q);
        Children(i1, ImageOwner, q) + Numbered(first, ImageRowsFor(q, ListOrEmpty(ps[1..][i - 1].images)));
        { assert ps[1..][i - 1] == ps[i]; ChildrenInsertAllOther(images, rows, ImageOwner, q); }
        Children(images, ImageOwner, q) + Numbered(first, ImageRowsFor(q, ListOrEmpty(ps[i].images)));
      }
    }
  }

  /** In a consistent store nothing refers to an id a table has not handed out. */
  lemma FreshStudent(db: Db)
    requires Consistent(db)
    ensures forall k :: k in db.education.rows ==> db.education.rows[k].studentId != db.students.next
    ensures forall k :: k in db.experience.rows ==> db.experience.rows[k].studentId != db.students.next
    ensures forall k :: k in db.skills.rows ==> db.skills.rows[k].studentId != db.students.next
    ensures forall k :: k in db.projects.rows ==> db.projects.rows[k].studentId != db.students.next
  {
  }

  /** The new student row, and the child tables the nested create fills
      directly under it. */
  lemma CreateAggregateTables(db: Db, p: StudentInput)
    ensures var (db', id) := CreateAggregate(db, p);
      && db'.students == Insert(db.students, StudentRowOf(p)).0
      && db'.education == InsertAll(db.education, EducationRowsOf(id, ListOrEmpty(p.education)))
      && db'.experience == InsertAll(db.experience, ExperienceRowsOf(id, ListOrEmpty(p.experience)))
      && db'.skills == InsertAll(db.skills, SkillRowsOf(id, ListOrEmpty(p.skills)))
      && (db'.projects, db'.images) == InsertProjects(db.projects, db.images, id, ListOrEmpty(p.projects))
  {
  }

  lemma PostEducationConsistent(db: Db, p: StudentInput)
    requires Consistent(db)
    ensures var db' := CreateAggregate(db, p).0;
      Valid(db'.education) && forall k :: k in db'.education.rows ==> db'.education.rows[k].studentId in db'.students.rows
  {
    CreateAggregateTables(db, p);
    InsertAllOwned(db.education, EducationRowsOf(db.students.next, ListOrEmpty(p.education)), EducationOwner, db.students.next);
  }

  lemma PostExperienceConsistent(db: Db, p: StudentInput)
    requires Consistent(db)
    ensures var db' := CreateAggregate(db, p).0;
      Valid(db'.experience) && forall k :: k in db'.experience.rows ==> db'.experience.rows[k].studentId in db'.students.rows
  {
    CreateAggregateTables(db, p);
    InsertAllOwned(db.experience, ExperienceRowsOf(db.students.next, ListOrEmpty(p.experience)), ExperienceOwner, db.students.next);
  }

  lemma PostSkillsConsistent(db: Db, p: StudentInput)
    requires Consistent(db)
    ensures var db' := CreateAggregate(db, p).0;
      Valid(db'.skills) && forall k :: k in db'.skills.rows ==> db'.skills.rows[k].studentId in db'.students.rows
  {
    CreateAggregateTables(db, p);
    InsertAllOwned(db.skills, SkillRowsOf(db.students.next, ListOrEmpty(p.skills)), SkillOwner, db.students.next);
  }

  lemma PostProjectsConsistent(db: Db, p: StudentInput)
    requires Consistent(db)
    ensures var db' := CreateAggregate(db, p).0;
      && Valid(db'.students) && Valid(db'.projects)
      && (forall k :: k in db'.projects.rows ==> db'.projects.rows[k].studentId in db'.students.rows)
  {
    CreateAggregateTables(db, p);
    InsertAllOwned(db.projects, ProjectRowsOf(db.students.next, ListOrEmpty(p.projects)), ProjectOwner, db.students.next);
  }

  /** Every image the nested create writes refers to a project it writes. */
  lemma InsertProjectsConsistent(projects: Table<ProjectRow>, images: Table<ImageRow>, studentId: int, ps: seq<ProjectInput>)
    requires Valid(images)
    requires forall k :: k in images.rows ==> images.rows[k].projectId in projects.rows
    ensures var (projects', images') := InsertProjects(projects, images, studentId, ps);
      Valid(images') && forall k :: k in images'.rows ==> images'.rows[k].projectId in projects'.rows
  {
    InsertProjectsImages(projects, images, studentId, ps);
  }

  lemma PostImagesConsistent(db: Db, p: StudentInput)
    requires Consistent(db)
    ensures var db' := CreateAggregate(db, p).0;
      Valid(db'.images) && forall k :: k in db'.images.rows ==> db'.images.rows[k].projectId in db'.projects.rows
  {
    CreateAggregateTables(db, p);
    InsertProjectsConsistent(db.projects, db.images, db.students.next, ListOrEmpty(p.projects));
  }

  /** The nested create keeps the store consistent: every new child row
      refers to the new student or to one of its new projects. */
  lemma PostConsistent(db: Db, p: StudentInput)
    requires Consistent(db)
    ensures Consistent(CreateAggregate(db, p).0)
  {
    PostEducationConsistent(db, p);
    PostExperienceConsistent(db, p);
    PostSkillsConsistent(db, p);
    PostProjectsConsistent(db, p);
    PostImagesConsistent(db, p);
  }

  /** The `i`-th new project, whose id is `q`, is read back with one image
      per URL it was sent with, when no earlier image refers to it. */
  lemma InsertProjectsUrls(projects: Table<ProjectRow>, images: Table<ImageRow>, studentId: int,
                           ps: seq<ProjectInput>, i: nat, q: int)
    requires Valid(images)
    requires forall k :: k in images.rows ==> images.rows[k].projectId < projects.next
    requires i < |ps| && q == projects.next + i
    ensures Urls(Children(InsertProjects(projects, images, studentId, ps).1, ImageOwner, q)) == ListOrEmpty(ps[i].images)
  {
    var first := InsertProjectsImagesAt(projects, images, studentId, ps, i, q);
    NoChildren(images, ImageOwner, q);
    UrlsOfNumbered(first, q, ListOrEmpty(ps[i].images));
  }

  /** A successful creation answers 201 with the new student read back with
      all its children: the scalar fields as sent, one row per entry of each
      child list in payload order (none for an omitted list), one skill row
      per string with duplicates kept, and for each project one image per URL.
      The store stays consistent. */
  lemma PostCreatesAggregate(db: Db, p: StudentInput, fault: Fault)
    requires Consistent(db)
    requires fault != FailAt(0) && DatesReadable(p)
    ensures var (db', resp) := Post(db, Some(p), fault);
      var v := resp.body.student;
      var ps := ListOrEmpty(p.projects);
      && Consistent(db')
      && resp.status == 201
      && v.id !in db.students.rows
      && v.row.name == Column(p.name) && v.row.profilePictureUrl == Column(p.profilePictureUrl)
      && v.row.profession == Column(p.profession) && v.row.batch == Column(p.batch)
      && v.row.about == Column(p.about) && v.row.phoneNumber == Column(p.phoneNumber)
      && v.row.email == Column(p.email) && v.row.linkedinUrl == Column(p.linkedinUrl)
      && Rows(v.education) == EducationRowsOf(v.id, ListOrEmpty(p.education))
      && Rows(v.experience) == ExperienceRowsOf(v.id, ListOrEmpty(p.experience))
      && Rows(v.skills) == SkillRowsOf(v.id, ListOrEmpty(p.skills))
      && |v.projects| == |ps|
      && (forall i :: 0 <= i < |ps| ==>
            v.projects[i].row == ProjectRowOf(v.id, ps[i]) && Urls(v.projects[i].images) == ListOrEmpty(ps[i].images))
  {
    PostConsistent(db, p);
    FreshStudent(db);
    var db' := CreateAggregate(db, p).0;
    var id := db.students.next;
    var ps := ListOrEmpty(p.projects);
    var erows := EducationRowsOf(id, ListOrEmpty(p.education));
    var xrows := ExperienceRowsOf(id, ListOrEmpty(p.experience));
    var srows := SkillRowsOf(id, ListOrEmpty(p.skills));
    var prows := ProjectRowsOf(id, ps);
    assert Post(db, Some(p), fault) == (db', Response(201, StudentJson(ReadStudent(db', id).value)));
    var v := ReadStudent(db', id).value;
    assert v.row == StudentRowOf(p) by {
      assert db'.students == Insert(db.students, StudentRowOf(p)).0;
    }
    assert Rows(v.education) == erows by {
      assert db'.education == InsertAll(db.education, erows);
      ChildrenInsertAllFresh(db.education, erows, EducationOwner, id);
      RowsNumbered(db.education.next, erows);
    }
    assert Rows(v.experience) == xrows by {
      assert db'.experience == InsertAll(db.experience, xrows);
      ChildrenInsertAllFresh(db.experience, xrows, ExperienceOwner, id);
      RowsNumbered(db.experience.next, xrows);
    }
    assert Rows(v.skills) == srows by {
      assert db'.skills == InsertAll(db.skills, srows);
      ChildrenInsertAllFresh(db.skills, srows, SkillOwner, id);
      RowsNumbered(db.skills.next, srows);
    }
    assert ProjectsOf(db', id) == Numbered(db.projects.next, prows) by {
      assert db'.projects == InsertAll(db.projects, prows);
      ChildrenInsertAllFresh(db.projects, prows, ProjectOwner, id);
    }
    forall i | 0 <= i < |ps|
      ensures v.projects[i].row == ProjectRowOf(id, ps[i]) && Urls(v.projects[i].images) == ListOrEmpty(ps[i].images)
    {
      var q := db.projects.next + i;
      assert v.projects[i].id == q;
      assert db'.images == InsertProjects(db.projects, db.images, id, ps).1;
      InsertProjectsUrls(db.projects, db.images, id, ps, i, q);
    }
  }

  /** The nested create adds no child row under any other student. */
  lemma PostOtherEducation(db: Db, p: StudentInput, other: int)
    requires Valid(db.education)
    requires other != db.students.next
    ensures EducationOf(CreateAggregate(db, p).0, other) == EducationOf(db, other)
  {
    var rows := EducationRowsOf(db.students.next, ListOrEmpty(p.education));
    assert CreateAggregate(db, p).0.education == InsertAll(db.education, rows);
    ChildrenInsertAllOther(db.education, rows, EducationOwner, other);
  }

  lemma PostOtherExperience(db: Db, p: StudentInput, other: int)
    requires Valid(db.experience)
    requires other != db.students.next
    ensures ExperienceOf(CreateAggregate(db, p).0, other) == ExperienceOf(db, other)
  {
    var rows := ExperienceRowsOf(db.students.next, ListOrEmpty(p.experience));
    assert CreateAggregate(db, p).0.experience == InsertAll(db.experience, rows);
    ChildrenInsertAllOther(db.experience, rows, ExperienceOwner, other);
  }

  lemma PostOtherSkills(db: Db, p: StudentInput, other: int)
    requires Valid(db.skills)
    requires other != db.students.next
    ensures SkillsOf(CreateAggregate(db, p).0, other) == SkillsOf(db, other)
  {
    var rows := SkillRowsOf(db.students.next, ListOrEmpty(p.skills));
    assert CreateAggregate(db, p).0.skills == InsertAll(db.skills, rows);
    ChildrenInsertAllOther(db.skills, rows, SkillOwner, other);
  }

  lemma PostOtherProjects(db: Db, p: StudentInput, other: int)
    requires Valid(db.projects)
    requires other != db.students.next
    ensures ProjectsOf(CreateAggregate(db, p).0, other) == ProjectsOf(db, other)
  {
    var rows := ProjectRowsOf(db.students.next, ListOrEmpty(p.projects));
    assert CreateAggregate(db, p).0.projects == InsertAll(db.projects, rows);
    ChildrenInsertAllOther(db.projects, rows, ProjectOwner, other);
  }

  /** The nested create adds no image to an existing project. */
  lemma PostOtherImages(db: Db, p: StudentInput, q: int)
    requires Consistent(db)
    requires q in db.projects.rows
    ensures ImagesOf(CreateAggregate(db, p).0, q) == ImagesOf(db, q)
  {
    CreateAggregateTables(db, p);
    InsertProjectsOther(db.projects, db.images, db.students.next, ListOrEmpty(p.projects), q);
  }

  /** The new student row leaves every other student row as it was. */
  lemma PostOtherStudentRow(db: Db, p: StudentInput, other: int)
    requires other != db.students.next
    ensures var students' := CreateAggregate(db, p).0.students;
      && (other in students'.rows <==> other in db.students.rows)
      && (other in db.students.rows ==> students'.rows[other] == db.students.rows[other])
  {
    assert CreateAggregate(db, p).0.students == Insert(db.students, StudentRowOf(p)).0;
  }

  /** Each project of another student keeps its images. */
  lemma PostOtherProjectImages(db: Db, p: StudentInput, other: int, i: nat)
    requires Consistent(db)
    requires i < |ProjectsOf(db, other)|
    ensures ImagesOf(CreateAggregate(db, p).0, ProjectsOf(db, other)[i].id) == ImagesOf(db, ProjectsOf(db, other)[i].id)
  {
    var own := ProjectsOf(db, other);
    ChildrenExact(db.projects, ProjectOwner, other);
    assert own[i] in own;
    PostOtherImages(db, p, own[i].id);
  }

  /** Creating a profile changes what no other student reads. */
  lemma PostKeepsOtherStudents(db: Db, p: StudentInput, fault: Fault, other: int)
    requires Consistent(db)
    requires other != db.students.next
    ensures ReadStudent(Post(db, Some(p), fault).0, other) == ReadStudent(db, other)
  {
    if fault != FailAt(0) && DatesReadable(p) {
      var db' := CreateAggregate(db, p).0;
      assert Post(db, Some(p), fault).0 == db';
      PostOtherStudentRow(db, p, other);
      if other in db.students.rows {
        PostOtherEducation(db, p, other);
        PostOtherExperience(db, p, other);
        PostOtherSkills(db, p, other);
        PostOtherProjects(db, p, other);
        var own := ProjectsOf(db, other);
        forall i | 0 <= i < |own|
          ensures ImagesOf(db', own[i].id) == ImagesOf(db, own[i].id)
        {
          PostOtherProjectImages(db, p, other, i);
        }
        assert WithImages(db', own) == WithImages(db, own);
      }
    }
  }

  /** One empty date text in a nested education or experience entry fails
      the whole create: 500, and nothing is written. */
  lemma PostEmptyDateRefused(db: Db, p: StudentInput, fault: Fault, i: nat)
    requires || (i < |ListOrEmpty(p.education)| && ListOrEmpty(p.education)[i].startDate == Given(""))
             || (i < |ListOrEmpty(p.education)| && ListOrEmpty(p.education)[i].endDate == Given(""))
             || (i < |ListOrEmpty(p.experience)| && ListOrEmpty(p.experience)[i].startDate == Given(""))
             || (i < |ListOrEmpty(p.experience)| && ListOrEmpty(p.experience)[i].endDate == Given(""))
    ensures Post(db, Some(p), fault) == (db, Response(500, ErrorJson(CreateStudentError)))
  {
  }
}
