/** The declarative payload schemas, as issue lists: a payload passes a
    schema exactly when it has no issues, and then parses to the payload
    with unknown keys dropped and defaults filled in. The e-mail format check
    is a parameter `isEmail`. */
module Validations {
  import opened Values
  import opened Payloads

  /** One schema violation: the offending key and the message reported for it. */
  datatype Issue = Issue(path: string, message: string)

  datatype Parsed<+T> = Accepted(value: T) | Rejected(issues: seq<Issue>)

  const RequiredMessage := "Required"
  const NullStringMessage := "Expected string, received null"
  const NullArrayMessage := "Expected array, received null"

  /** A required string field with a minimum length of one, `message` being
      the schema's own message for the empty string. */
  function RequiredText(path: string, v: Opt<string>, message: string): (issues: seq<Issue>)
    ensures issues == [] <==> Filled(v)
    ensures |issues| <= 1
    ensures forall i :: 0 <= i < |issues| ==> issues[i].path == path
    ensures v.Missing? ==> issues == [Issue(path, RequiredMessage)]
    ensures v.Null? ==> issues == [Issue(path, NullStringMessage)]
    ensures v == Given("") ==> issues == [Issue(path, message)]
  {
    match v
    case Missing => [Issue(path, RequiredMessage)]
    case Null => [Issue(path, NullStringMessage)]
    case Given(s) => if |s| < 1 then [Issue(path, message)] else []
  }

  /** A required string field that must be an e-mail address. */
  function EmailText(path: string, v: Opt<string>, isEmail: string -> bool, message: string): (issues: seq<Issue>)
    ensures issues == [] <==> v.Given? && isEmail(v.value)
    ensures |issues| <= 1
    ensures v.Given? && !isEmail(v.value) ==> issues == [Issue(path, message)]
  {
    match v
    case Missing => [Issue(path, RequiredMessage)]
    case Null => [Issue(path, NullStringMessage)]
    case Given(s) => if isEmail(s) then [] else [Issue(path, message)]
  }

  // Every other field of the schemas is an optional, nullable string and
  // raises no issue.

  /** `studentSchema`: a non-empty name and an e-mail address. The schema
      knows no child lists, so parsing drops them. */
  function ParseStudent(s: StudentInput, isEmail: string -> bool): (r: Parsed<StudentInput>)
    ensures r.Accepted? <==> Filled(s.name) && s.email.Given? && isEmail(s.email.value)
    ensures r.Accepted? ==> r.value == s.(education := Missing, experience := Missing, skills := Missing, projects := Missing)
    ensures r.Rejected? ==> 1 <= |r.issues| <= 2
  {
    var issues := RequiredText("name", s.name, "Name is required")
                + EmailText("email", s.email, isEmail, "Invalid email address");
    if issues == [] then Accepted(s.(education := Missing, experience := Missing, skills := Missing, projects := Missing))
    else Rejected(issues)
  }

  /** `educationSchema`: a non-empty institution and degree. */
  function ParseEducation(e: EducationInput): (r: Parsed<EducationInput>)
    ensures r.Accepted? <==> Filled(e.institution) && Filled(e.degree)
    ensures r.Accepted? ==> r.value == e
  {
    var issues := RequiredText("institution", e.institution, "Institution is required")
                + RequiredText("degree", e.degree, "Degree is required");
    if issues == [] then Accepted(e) else Rejected(issues)
  }

  /** `experienceSchema`: a non-empty company and position. */
  function ParseExperience(e: ExperienceInput): (r: Parsed<ExperienceInput>)
    ensures r.Accepted? <==> Filled(e.company) && Filled(e.position)
    ensures r.Accepted? ==> r.value == e
  {
    var issues := RequiredText("company", e.company, "Company is required")
                + RequiredText("position", e.position, "Position is required");
    if issues == [] then Accepted(e) else Rejected(issues)
  }

  /** `skillSchema`: a non-empty name. */
  function ParseSkill(name: Opt<string>): (r: Parsed<string>)
    ensures r.Accepted? <==> Filled(name)
    ensures r.Accepted? ==> r.value == name.value
  {
    var issues := RequiredText("name", name, "Skill name is required");
    if issues == [] then Accepted(name.value) else Rejected(issues)
  }

  /** `projectSchema`: a non-empty name; `images` may be absent, when it
      defaults to the empty list, but not null. */
  function ParseProject(p: ProjectInput): (r: Parsed<ProjectInput>)
    ensures r.Accepted? <==> Filled(p.name) && !p.images.Null?
    ensures r.Accepted? ==> r.value == p.(images := Given(ListOrEmpty(p.images)))
  {
    var issues := RequiredText("name", p.name, "Project name is required")
                + (if p.images.Null? then [Issue("images", NullArrayMessage)] else []);
    if issues == [] then Accepted(p.(images := Given(ListOrEmpty(p.images)))) else Rejected(issues)
  }

  /** `projectImageSchema`: a non-empty image URL. */
  function ParseProjectImage(imageUrl: Opt<string>): (r: Parsed<string>)
    ensures r.Accepted? <==> Filled(imageUrl)
    ensures r.Accepted? ==> r.value == imageUrl.value
  {
    var issues := RequiredText("imageUrl", imageUrl, "Image URL is required");
    if issues == [] then Accepted(imageUrl.value) else Rejected(issues)
  }

  /** Parsing is idempotent: an accepted value is accepted again as itself. */
  lemma ParseProjectIdempotent(p: ProjectInput)
    requires ParseProject(p).Accepted?
    ensures ParseProject(ParseProject(p).value) == ParseProject(p)
  {
  }

  /** The schema's `images` default agrees with the server's `images || []`:
      validating a project first does not change the images it gets. */
  lemma ProjectImagesDefault(p: ProjectInput)
    requires ParseProject(p).Accepted?
    ensures ListOrEmpty(ParseProject(p).value.images) == ListOrEmpty(p.images)
  {
  }

  /** Each failing required field reports its issue, in the schema's key
      order: an empty institution and degree give both messages. */
  lemma EducationIssuesInOrder(e: EducationInput)
    requires e.institution == Given("") && e.degree == Given("")
    ensures ParseEducation(e) == Rejected([Issue("institution", "Institution is required"), Issue("degree", "Degree is required")])
  {
  }
}
