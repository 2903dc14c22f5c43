/** The shapes of the objects the client sends: the argument `data` of the
    server actions and the JSON body of the profile-creation request. Every
    field may be absent or null, since nothing on the server checks it. */
module Payloads {
  import opened Values

  datatype EducationInput = EducationInput(
    institution: Opt<string>,
    degree: Opt<string>,
    fieldOfStudy: Opt<string>,
    startDate: Opt<string>,
    endDate: Opt<string>,
    description: Opt<string>)

  datatype ExperienceInput = ExperienceInput(
    company: Opt<string>,
    position: Opt<string>,
    startDate: Opt<string>,
    endDate: Opt<string>,
    description: Opt<string>)

  /** A project with its image URLs (`images: string[]`). */
  datatype ProjectInput = ProjectInput(
    name: Opt<string>,
    description: Opt<string>,
    githubUrl: Opt<string>,
    images: Opt<seq<string>>)

  /** The body of the profile-creation request: the scalar profile fields
      and the nested child lists. */
  datatype StudentInput = StudentInput(
    name: Opt<string>,
    profilePictureUrl: Opt<string>,
    profession: Opt<string>,
    batch: Opt<string>,
    about: Opt<string>,
    phoneNumber: Opt<string>,
    email: Opt<string>,
    linkedinUrl: Opt<string>,
    education: Opt<seq<EducationInput>>,
    experience: Opt<seq<ExperienceInput>>,
    skills: Opt<seq<string>>,
    projects: Opt<seq<ProjectInput>>)
}
