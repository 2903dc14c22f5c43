/** The create-profile form: its state, the list edits its buttons and
    inputs perform, and the payload it submits to `POST /api/students`. */
module StudentForm {
  import opened Values
  import opened Text
  import opened Lists
  import opened Payloads
  import opened StudentsRoute

  // Every entry the form holds is built by one of the add buttons with all
  // text fields set to "", so every field is a plain string.

  datatype EducationEntry = EducationEntry(
    institution: string,
    degree: string,
    fieldOfStudy: string,
    startDate: string,
    endDate: string,
    description: string)

  datatype EducationField = Institution | Degree | FieldOfStudy | StartDate | EndDate | Description

  datatype ExperienceEntry = ExperienceEntry(
    company: string,
    position: string,
    startDate: string,
    endDate: string,
    description: string)

  datatype ExperienceField = Company | Position | JobStartDate | JobEndDate | JobDescription

  datatype ProjectEntry = ProjectEntry(name: string, description: string, githubUrl: string, images: seq<string>)

  /** The project fields an input edits; `images` is edited only through the
      upload widget and the remove buttons. */
  datatype ProjectField = ProjectName | ProjectDescription | GithubUrl

  datatype Form = Form(
    name: string,
    profilePictureUrl: string,
    profession: string,
    batch: string,
    about: string,
    education: seq<EducationEntry>,
    experience: seq<ExperienceEntry>,
    skills: seq<string>,
    currentSkill: string,
    projects: seq<ProjectEntry>,
    phoneNumber: string,
    email: string,
    linkedinUrl: string)

  function InitialForm(): (f: Form)
    ensures f.education == [] && f.experience == [] && f.skills == [] && f.projects == []
    ensures f.name == "" && f.email == "" && f.currentSkill == ""
    ensures f.profilePictureUrl == "" && f.profession == "" && f.batch == "" && f.about == ""
    ensures f.phoneNumber == "" && f.linkedinUrl == ""
  {
    Form("", "", "", "", "", [], [], [], "", [], "", "", "")
  }

  // ---------------------------------------------------------------- fields

  function EducationValue(e: EducationEntry, field: EducationField): string {
    match field
    case Institution => e.institution
    case Degree => e.degree
    case FieldOfStudy => e.fieldOfStudy
    case StartDate => e.startDate
    case EndDate => e.endDate
    case Description => e.description
  }

  /** `{ ...e, [field]: value }`. */
  function WithEducationValue(e: EducationEntry, field: EducationField, value: string): (e': EducationEntry)
    ensures EducationValue(e', field) == value
    ensures forall g :: g != field ==> EducationValue(e', g) == EducationValue(e, g)
  {
    match field
    case Institution => e.(institution := value)
    case Degree => e.(degree := value)
    case FieldOfStudy => e.(fieldOfStudy := value)
    case StartDate => e.(startDate := value)
    case EndDate => e.(endDate := value)
    case Description => e.(description := value)
  }

  function ExperienceValue(e: ExperienceEntry, field: ExperienceField): string {
    match field
    case Company => e.company
    case Position => e.position
    case JobStartDate => e.startDate
    case JobEndDate => e.endDate
    case JobDescription => e.description
  }

  function WithExperienceValue(e: ExperienceEntry, field: ExperienceField, value: string): (e': ExperienceEntry)
    ensures ExperienceValue(e', field) == value
    ensures forall g :: g != field ==> ExperienceValue(e', g) == ExperienceValue(e, g)
  {
    match field
    case Company => e.(company := value)
    case Position => e.(position := value)
    case JobStartDate => e.(startDate := value)
    case JobEndDate => e.(endDate := value)
    case JobDescription => e.(description := value)
  }

  function ProjectValue(p: ProjectEntry, field: ProjectField): string {
    match field
    case ProjectName => p.name
    case ProjectDescription => p.description
    case GithubUrl => p.githubUrl
  }

  function WithProjectValue(p: ProjectEntry, field: ProjectField, value: string): (p': ProjectEntry)
    ensures ProjectValue(p', field) == value
    ensures forall g :: g != field ==> ProjectValue(p', g) == ProjectValue(p, g)
    ensures p'.images == p.images
  {
    match field
    case ProjectName => p.(name := value)
    case ProjectDescription => p.(description := value)
    case GithubUrl => p.(githubUrl := value)
  }

  // ---------------------------------------------------------------- education

  /** "Add Education": one more entry, every field empty. */
  function AddEducation(f: Form): (f': Form)
    ensures f' == f.(education := f'.education)
    ensures |f'.education| == |f.education| + 1 && f'.education[..|f.education|] == f.education
    ensures forall g :: EducationValue(f'.education[|f.education|], g) == ""
  {
    f.(education := f.education + [EducationEntry("", "", "", "", "", "")])
  }

  /** Typing into one input of entry `index`: only that field of that entry
      changes. The inputs exist only for entries on screen, so `index` is in
      range. */
  function UpdateEducation(f: Form, index: int, field: EducationField, value: string): (f': Form)
    requires 0 <= index < |f.education|
    ensures f' == f.(education := f'.education)
    ensures |f'.education| == |f.education|
    ensures forall j :: 0 <= j < |f.education| && j != index ==> f'.education[j] == f.education[j]
    ensures EducationValue(f'.education[index], field) == value
    ensures forall g :: g != field ==> EducationValue(f'.education[index], g) == EducationValue(f.education[index], g)
  {
    f.(education := f.education[index := WithEducationValue(f.education[index], field, value)])
  }

  /** The remove button of entry `index`; nothing changes for an index out of range. */
  function RemoveEducation(f: Form, index: int): (f': Form)
    ensures f' == f.(education := f'.education)
    ensures 0 <= index < |f.education| ==> f'.education == f.education[..index] + f.education[index + 1..]
    ensures !(0 <= index < |f.education|) ==> f' == f
  {
    f.(education := RemoveAt(f.education, index))
  }

  // ---------------------------------------------------------------- experience

  function AddExperience(f: Form): (f': Form)
    ensures f' == f.(experience := f'.experience)
    ensures |f'.experience| == |f.experience| + 1 && f'.experience[..|f.experience|] == f.experience
    ensures forall g :: ExperienceValue(f'.experience[|f.experience|], g) == ""
  {
    f.(experience := f.experience + [ExperienceEntry("", "", "", "", "")])
  }

  function UpdateExperience(f: Form, index: int, field: ExperienceField, value: string): (f': Form)
    requires 0 <= index < |f.experience|
    ensures f' == f.(experience := f'.experience)
    ensures |f'.experience| == |f.experience|
    ensures forall j :: 0 <= j < |f.experience| && j != index ==> f'.experience[j] == f.experience[j]
    ensures ExperienceValue(f'.experience[index], field) == value
    ensures forall g :: g != field ==> ExperienceValue(f'.experience[index], g) == ExperienceValue(f.experience[index], g)
  {
    f.(experience := f.experience[index := WithExperienceValue(f.experience[index], field, value)])
  }

  function RemoveExperience(f: Form, index: int): (f': Form)
    ensures f' == f.(experience := f'.experience)
    ensures 0 <= index < |f.experience| ==> f'.experience == f.experience[..index] + f.experience[index + 1..]
    ensures !(0 <= index < |f.experience|) ==> f' == f
  {
    f.(experience := RemoveAt(f.experience, index))
  }

  // ---------------------------------------------------------------- projects

  function AddProject(f: Form): (f': Form)
    ensures f' == f.(projects := f'.projects)
    ensures |f'.projects| == |f.projects| + 1 && f'.projects[..|f.projects|] == f.projects
    ensures forall g :: ProjectValue(f'.projects[|f.projects|], g) == ""
    ensures f'.projects[|f.projects|].images == []
  {
    f.(projects := f.projects + [ProjectEntry("", "", "", [])])
  }

  function UpdateProject(f: Form, index: int, field: ProjectField, value: string): (f': Form)
    requires 0 <= index < |f.projects|
    ensures f' == f.(projects := f'.projects)
    ensures |f'.projects| == |f.projects|
    ensures forall j :: 0 <= j < |f.projects| && j != index ==> f'.projects[j] == f.projects[j]
    ensures ProjectValue(f'.projects[index], field) == value
    ensures forall g :: g != field ==> ProjectValue(f'.projects[index], g) == ProjectValue(f.projects[index], g)
    ensures f'.projects[index].images == f.projects[index].images
  {
    f.(projects := f.projects[index := WithProjectValue(f.projects[index], field, value)])
  }

  function RemoveProject(f: Form, index: int): (f': Form)
    ensures f' == f.(projects := f'.projects)
    ensures 0 <= index < |f.projects| ==> f'.projects == f.projects[..index] + f.projects[index + 1..]
    ensures !(0 <= index < |f.projects|) ==> f' == f
  {
    f.(projects := RemoveAt(f.projects, index))
  }

  /** The upload widget of project `index` reports a URL. Reading
      `projects[index].images` for an index out of range throws, so the
      index is in range. */
  function AddProjectImage(f: Form, index: int, url: string): (f': Form)
    requires 0 <= index < |f.projects|
    ensures f' == f.(projects := f'.projects)
    ensures |f'.projects| == |f.projects|
    ensures forall j :: 0 <= j < |f.projects| && j != index ==> f'.projects[j] == f.projects[j]
    ensures f'.projects[index] == f.projects[index].(images := f'.projects[index].images)
    ensures f'.projects[index].images == f.projects[index].images + [url]
  {
    var p := f.projects[index];
    f.(projects := f.projects[index := p.(images := p.images + [url])])
  }

  /** The remove button of image `imageIndex` of project `projectIndex`. */
  function RemoveProjectImage(f: Form, projectIndex: int, imageIndex: int): (f': Form)
    requires 0 <= projectIndex < |f.projects|
    ensures f' == f.(projects := f'.projects)
    ensures |f'.projects| == |f.projects|
    ensures forall j :: 0 <= j < |f.projects| && j != projectIndex ==> f'.projects[j] == f.projects[j]
    ensures f'.projects[projectIndex] == f.projects[projectIndex].(images := f'.projects[projectIndex].images)
    ensures var images := f.projects[projectIndex].images;
      && (0 <= imageIndex < |images| ==> f'.projects[projectIndex].images == images[..imageIndex] + images[imageIndex + 1..])
      && (!(0 <= imageIndex < |images|) ==> f' == f)
  {
    var p := f.projects[projectIndex];
    f.(projects := f.projects[projectIndex := p.(images := RemoveAt(p.images, imageIndex))])
  }

  // ---------------------------------------------------------------- skills

  /** Every skill is trimmed and non-empty, and no skill occurs twice. */
  predicate SkillsOk(skills: seq<string>) {
    && NoDuplicates(skills)
    && forall i :: 0 <= i < |skills| ==> skills[i] != "" && Trimmed(skills[i])
  }

  /** "Add": the trimmed input joins the list when it is non-empty and not
      already listed, and only then is the input cleared. */
  function AddSkill(f: Form): (f': Form)
    ensures f' == f.(skills := f'.skills, currentSkill := f'.currentSkill)
    ensures f'.skills == f.skills || f'.skills == f.skills + [Trim(f.currentSkill)]
    ensures |f'.skills| > |f.skills| <==> Trim(f.currentSkill) != "" && Trim(f.currentSkill) !in f.skills
    ensures |f'.skills| > |f.skills| ==> f'.currentSkill == ""
    ensures |f'.skills| == |f.skills| ==> f' == f
  {
    var s := Trim(f.currentSkill);
    if s != "" && s !in f.skills then f.(skills := f.skills + [s], currentSkill := "") else f
  }

  /** The remove button of a skill: every entry equal to it goes. */
  function RemoveSkill(f: Form, skill: string): (f': Form)
    ensures f' == f.(skills := f'.skills)
    ensures skill !in f'.skills
    ensures multiset(f'.skills) == multiset(f.skills)[skill := 0]
    ensures IsSubsequence(f'.skills, f.skills)
  {
    f.(skills := RemoveAll(f.skills, skill))
  }

  // ---------------------------------------------------------------- submit

  function EducationPayload(e: EducationEntry): (p: EducationInput)
    ensures p.institution == Given(e.institution) && p.degree == Given(e.degree)
    ensures p.fieldOfStudy == Given(e.fieldOfStudy) && p.description == Given(e.description)
    ensures p.startDate == Given(e.startDate) && p.endDate == Given(e.endDate)
  {
    EducationInput(Given(e.institution), Given(e.degree), Given(e.fieldOfStudy),
                   Given(e.startDate), Given(e.endDate), Given(e.description))
  }

  function ExperiencePayload(e: ExperienceEntry): (p: ExperienceInput)
    ensures p.company == Given(e.company) && p.position == Given(e.position)
    ensures p.startDate == Given(e.startDate) && p.endDate == Given(e.endDate)
    ensures p.description == Given(e.description)
  {
    ExperienceInput(Given(e.company), Given(e.position), Given(e.startDate), Given(e.endDate), Given(e.description))
  }

  function ProjectPayload(p: ProjectEntry): (q: ProjectInput)
    ensures q.name == Given(p.name) && q.images == Given(p.images)
    ensures q.description == Given(p.description) && q.githubUrl == Given(p.githubUrl)
  {
    ProjectInput(Given(p.name), Given(p.description), Given(p.githubUrl), Given(p.images))
  }

  /** The JSON body of the submit: every field of the form, the lists as
      they stand (the pending skill input is not sent). */
  function Payload(f: Form): (p: StudentInput)
    ensures p.name == Given(f.name) && p.email == Given(f.email)
    ensures p.profilePictureUrl == Given(f.profilePictureUrl) && p.profession == Given(f.profession)
    ensures p.batch == Given(f.batch) && p.about == Given(f.about)
    ensures p.phoneNumber == Given(f.phoneNumber) && p.linkedinUrl == Given(f.linkedinUrl)
    ensures p.skills == Given(f.skills)
    ensures p.education.Given? && |p.education.value| == |f.education|
    ensures forall i :: 0 <= i < |f.education| ==> p.education.value[i] == EducationPayload(f.education[i])
    ensures p.experience.Given? && |p.experience.value| == |f.experience|
    ensures forall i :: 0 <= i < |f.experience| ==> p.experience.value[i] == ExperiencePayload(f.experience[i])
    ensures p.projects.Given? && |p.projects.value| == |f.projects|
    ensures forall i :: 0 <= i < |f.projects| ==> p.projects.value[i] == ProjectPayload(f.projects[i])
  {
    StudentInput(
      Given(f.name), Given(f.profilePictureUrl), Given(f.profession), Given(f.batch), Given(f.about),
      Given(f.phoneNumber), Given(f.email), Given(f.linkedinUrl),
      Given(seq(|f.education|, i requires 0 <= i < |f.education| => EducationPayload(f.education[i]))),
      Given(seq(|f.experience|, i requires 0 <= i < |f.experience| => ExperiencePayload(f.experience[i]))),
      Given(f.skills),
      Given(seq(|f.projects|, i requires 0 <= i < |f.projects| => ProjectPayload(f.projects[i]))))
  }

  /** Every date input of every education and experience entry has been
      filled in; an untouched one holds "". */
  predicate DatesFilled(f: Form) {
    && (forall i :: 0 <= i < |f.education| ==> f.education[i].startDate != "" && f.education[i].endDate != "")
    && (forall i :: 0 <= i < |f.experience| ==> f.experience[i].startDate != "" && f.experience[i].endDate != "")
  }

  /** The store can read every date of the submitted body exactly when the
      form's date inputs are all filled in. */
  lemma PayloadDatesReadable(f: Form)
    ensures DatesReadable(Payload(f)) <==> DatesFilled(f)
  {
    var p := Payload(f);
    if DatesFilled(f) {
      forall i | 0 <= i < |ListOrEmpty(p.education)|
        ensures DateReadable(ListOrEmpty(p.education)[i].startDate) && DateReadable(ListOrEmpty(p.education)[i].endDate)
      {
        assert ListOrEmpty(p.education)[i] == EducationPayload(f.education[i]);
      }
      forall i | 0 <= i < |ListOrEmpty(p.experience)|
        ensures DateReadable(ListOrEmpty(p.experience)[i].startDate) && DateReadable(ListOrEmpty(p.experience)[i].endDate)
      {
        assert ListOrEmpty(p.experience)[i] == ExperiencePayload(f.experience[i]);
      }
    } else if i :| 0 <= i < |f.education| && !(f.education[i].startDate != "" && f.education[i].endDate != "") {
      assert ListOrEmpty(p.education)[i] == EducationPayload(f.education[i]);
    } else {
      var i :| 0 <= i < |f.experience| && !(f.experience[i].startDate != "" && f.experience[i].endDate != "");
      assert ListOrEmpty(p.experience)[i] == ExperiencePayload(f.experience[i]);
    }
  }

  /** What the form does with the answer: on a 2xx status it opens the page
      of the id in the body (`data.id`, undefined when the body carries
      none); otherwise, as on a network error, it shows an alert. */
  datatype SubmitOutcome = OpenProfile(id: Option<int>) | Alert

  function AfterSubmit(resp: Response): (o: SubmitOutcome)
    ensures o.OpenProfile? <==> 200 <= resp.status < 300
    ensures o.OpenProfile? && resp.body.StudentJson? ==> o.id == Some(resp.body.student.id)
  {
    if 200 <= resp.status < 300 then
      OpenProfile(if resp.body.StudentJson? then Some(resp.body.student.id) else None)
    else Alert
  }
}
