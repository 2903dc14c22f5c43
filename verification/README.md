# Student portfolio: a Dafny model of the profile store, the server actions and the create-profile form

The application keeps student profiles in a relational store: a student row
with education, experience, skill and project rows under it, and image rows
under each project. Profiles are created in one request by a browser form
(`POST /api/students`, a single nested create) and edited afterwards through
server actions that each create, update or delete one kind of child row. The
profile card shows avatar initials and at most three skill badges. A set of
declarative schemas describes what a valid payload looks like, although no
code path applies them.

The model, module by module:

- `Values` — the three states of a JSON payload field (absent, `null`, a
  value) and how each becomes a column: as it is on create, "leave
  unchanged" versus "set null" on update, and a date column that is null
  exactly when the text is falsy.
- `Tables` — one table per entity, a map from id to row plus the next id to
  hand out; inserting, replacing, removing, deleting by foreign key, and the
  children of a parent read in ascending id order.
- `Store` — the six tables, their foreign keys, the consistency invariant
  (fresh ids, every foreign key resolves) and the cascade from a project to
  its images.
- `Payloads` — the request bodies.
- `Actions` — the server actions of `lib/actions.ts`, each with the fixed
  `{ success, data }` / `{ success: false, error }` outcome;
  `ActionProperties` — what they do to the children each page reads.
- `StudentsRoute` — the nested create behind `POST /api/students` and its
  201/500 response; `StudentsRouteProperties` — what the created aggregate
  reads back as and that no other student changes.
- `Text`, `Lists` — the JavaScript string and array operations the form and
  the card rely on (`trim`, `split(" ")`, `toUpperCase`, the two `filter`s).
- `StudentForm` — the form state, its list edits and the submitted payload;
  `StudentFormProperties` — how the edits relate, the skills invariant, and
  what a submitted form becomes in the store.
- `StudentCard` — initials and skill badges.
- `Validations` — the schemas as issue lists.

A store call that the database rejects for a reason the model cannot see (a
lost connection, a column constraint, a non-empty date text it cannot
parse) is a parameter: `Fault` names the store call of an action, counted
from 0, that is rejected. Rejections the model can see (a missing parent
row, an update or delete of an id that does not exist, an empty date text
in the nested create) follow from the store itself.

## Model

| member | source | states |
|---|---|---|
| Values.Column | app/api/students/route.ts:33-40 | A column written from a payload field holds the value when one is given and is null when the field is absent or `null`. |
| Values.Updated | lib/actions.ts:31-41 | On update, an absent field keeps the stored value, `null` clears it, and a given value replaces it. |
| Values.DateColumn | lib/actions.ts:15-16 | A date column is null exactly when the date text is absent, `null` or empty, and otherwise holds that text. |
| Values.DateText | app/api/students/route.ts:42-45 | A date text handed to the nested create unconverted is stored exactly when it is given; the empty text never gets this far, because `Post` refuses it. |
| Values.ListOrEmpty | app/api/students/route.ts:42-59 | A given list is used as it is, an absent or `null` one reads as the empty list. |
| Tables.InsertAll | app/api/students/route.ts:41-60 | A nested create of n rows hands out the next n ids in order, stores each row under its id, keeps every existing row and keeps ids fresh. |
| Tables.DeleteWhere | lib/actions.ts:183-185 | `deleteMany where projectId`: exactly the rows with another owner remain, unchanged. |
| Tables.ChildrenInsertAllFresh | app/api/students/route.ts:62-71 | The children of a parent that had none, after a nested create, are exactly the created rows numbered from the first new id, in payload order. |
| Tables.ChildrenDeleteWhere | lib/actions.ts:183-185 | After deleting by owner, that owner has no children and every other owner keeps exactly the children it had. |
| Store.DeleteProjectCascade | lib/actions.ts:210-215 | Deleting a project removes it and every image that refers to it, leaves the other tables alone and keeps the store consistent. |
| Store.DeleteProjectCascadeImages | lib/actions.ts:210-215 | After the cascade the project reads as absent with no images, and every other project reads exactly as before. |
| Actions.CreateEducation | lib/actions.ts:7-27 | Succeeds exactly when the student exists and the store accepts the call; the new row gets the next id and the payload's fields, with each date null exactly when its text is falsy; on failure the store is unchanged and the error is the fixed message. |
| Actions.UpdateEducation | lib/actions.ts:29-49 | Succeeds exactly when the row exists; absent text fields keep their values while both dates are rewritten from the payload; failure leaves the store unchanged with the fixed message. |
| Actions.DeleteEducation | lib/actions.ts:51-63 | Succeeds exactly when the row exists and removes that row only; failure leaves the store unchanged with the fixed message. |
| Actions.CreateExperience | lib/actions.ts:66-85 | As for education: the next id, the payload's fields, dates null exactly when falsy, a fixed error otherwise. |
| Actions.UpdateExperience | lib/actions.ts:87-106 | As for education: absent fields kept, dates always rewritten, a fixed error when the row is missing. |
| Actions.DeleteExperience | lib/actions.ts:108-120 | Removes exactly the named row, or fails with the fixed message and no change. |
| Actions.CreateSkill | lib/actions.ts:123-138 | One skill row with the given name under the student, under the next id; a fixed error and no change otherwise. |
| Actions.DeleteSkill | lib/actions.ts:140-152 | Removes exactly the named row, or fails with the fixed message and no change. |
| Actions.CreateProject | lib/actions.ts:155-178 | One project row plus one image row per URL (none when `images` is absent), written together; the returned project is what a read of it gives. |
| Actions.UpdateProject | lib/actions.ts:180-208 | Two store calls: deleting the project's images, then updating the row with the new images. Rejecting the first changes nothing; rejecting the second, or a missing project, leaves the images deleted and reports the fixed error. |
| Actions.DeleteProject | lib/actions.ts:210-223 | Removes the project and exactly the images that refer to it, keeping every other row; a fixed error and no change otherwise. |
| Actions.AddProjectImage | lib/actions.ts:226-241 | One image row with the given project and URL under the next id, when the project exists; a fixed error and no change otherwise. |
| Actions.DeleteProjectImage | lib/actions.ts:243-255 | Removes exactly the named image row, or fails with the fixed message and no change. |
| Actions.UrlsOfNumbered | lib/actions.ts:164 | The image rows made from a URL list read back as that URL list. |
| ActionProperties.CreateEducationAppends | lib/actions.ts:7-27 | A created education row is appended to its student's list; every other student's list is unchanged. |
| ActionProperties.CreateExperienceAppends | lib/actions.ts:66-85 | A created experience row is appended to its student's list; every other student's list is unchanged. |
| ActionProperties.CreateSkillAppends | lib/actions.ts:123-138 | A created skill is appended to its student's skills; other students' skills are unchanged. |
| ActionProperties.CreateProjectImages | lib/actions.ts:155-170 | The new project's images are one per URL in order, none when `images` is absent; it is appended to its student's projects; no other project's images change. |
| ActionProperties.UpdateProjectReplacesImages | lib/actions.ts:183-199 | After a successful update the project's images are exactly one per URL in order (none when `images` is absent) and the returned images are what a read gives; the images of every other project are unchanged whatever the outcome. |
| ActionProperties.UpdateProjectFailureLosesImages | lib/actions.ts:180-207 | When the second call is rejected the action reports failure, yet the project has no images left, so a project that had images is left in a changed store. |
| ActionProperties.DeleteProjectCascades | lib/actions.ts:210-223 | After a successful delete the project and its images are gone, every other project reads as before, and only its owner's project list changes; a failure changes nothing. |
| ActionProperties.AddProjectImageAppends | lib/actions.ts:226-241 | The new image is appended to its project's images, which keep those they had; other projects' images are unchanged. |
| ActionProperties.DeleteProjectImageKeepsOthers | lib/actions.ts:243-255 | The images of every other project are unchanged, and the project's own list loses exactly the deleted image. |
| StudentsRoute.StudentRowOf | app/api/students/route.ts:33-40 | The student row holds the eight scalar fields of the payload as they were sent. |
| StudentsRoute.SkillRowsOf | app/api/students/route.ts:48 | One skill row per string, in order, duplicates kept. |
| StudentsRoute.EducationRowOf | app/api/students/route.ts:41-43 | An education entry becomes a row owned by the new student, each text field stored as given (missing or null is no value) and both date texts passed on unconverted. |
| StudentsRoute.EducationRowsOf | app/api/students/route.ts:41-43 | One education row per payload entry, in order, each the row `EducationRowOf` builds from it; a missing or null list reaches it as the empty list. |
| StudentsRoute.ExperienceRowOf | app/api/students/route.ts:44-46 | An experience entry becomes a row owned by the new student, each text field stored as given and both date texts passed on unconverted. |
| StudentsRoute.ExperienceRowsOf | app/api/students/route.ts:44-46 | One experience row per payload entry, in order, each the row `ExperienceRowOf` builds from it; a missing or null list reaches it as the empty list. |
| StudentsRoute.ProjectRowOf | app/api/students/route.ts:52-55 | A payload project becomes a row owned by the new student with its name, description and GitHub URL; its images are not part of the row. |
| StudentsRoute.ProjectRowsOf | app/api/students/route.ts:50-59 | One project row per payload project, in order, each the row `ProjectRowOf` builds from it; a missing or null list reaches it as the empty list. |
| StudentsRoute.DateReadable | app/api/students/route.ts:42-45 | A nested date is readable unless it is the empty text; this is the only date the model refuses by itself, and every other date the store would reject goes through `Fault`. |
| StudentsRoute.DatesReadable | app/api/students/route.ts:41-46 | Every start and end date of every nested education and experience entry is readable; it covers only the empty text, and any other rejected date is left to `Fault`. |
| Store.ReadStudent | app/api/students/route.ts:62-71 | A read by id finds a student exactly when its row is stored, with that id and row, its education, experience and skills as the ascending-id child reads, and its projects as the ascending-id project read with each project's images included. |
| Store.ReadProject | lib/actions.ts:187-199 | A read by id finds a project exactly when its row is stored, with that id and row and its images in ascending id order. |
| StudentsRoute.InsertProjects | app/api/students/route.ts:50-59 | The nested project create writes one project row per payload project, in order. |
| StudentsRoute.InsertProjectsImages | app/api/students/route.ts:56-58 | The nested image creates keep every existing image and fresh ids, and every new image belongs to one of the new projects. |
| StudentsRoute.CreateAggregate | app/api/students/route.ts:31-61 | The new student gets the next student id and is stored. |
| StudentsRoute.Post | app/api/students/route.ts:26-79 | A body that is not JSON, a nested education or experience entry with an empty date text, or any other rejected create answers 500 with the fixed error and leaves the store unchanged; otherwise 201 with the new student as a read of it gives. |
| StudentsRouteProperties.PostEmptyDateRefused | app/api/students/route.ts:41-46 | One empty start or end date in any nested education or experience entry fails the whole create with 500 and writes nothing. |
| StudentsRouteProperties.InsertProjectsOther | app/api/students/route.ts:50-59 | The nested project create gives no image to any project outside the new ones. |
| StudentsRouteProperties.InsertProjectsImagesAt | app/api/students/route.ts:51-58 | The i-th new project's images are one row per URL of the i-th payload project, numbered consecutively. |
| StudentsRouteProperties.InsertProjectsUrls | app/api/students/route.ts:57 | The i-th new project reads back with exactly the URLs of the i-th payload project, none when its `images` is absent. |
| StudentsRouteProperties.PostConsistent | app/api/students/route.ts:31-61 | The nested create keeps the store consistent: fresh ids and every new foreign key resolving. |
| StudentsRouteProperties.PostCreatesAggregate | app/api/students/route.ts:31-74 | A create whose date texts are all readable and that the store does not otherwise reject answers 201 with a new student whose scalar fields are the payload's, one row per education, experience and skill entry in payload order (none for an absent list, skill duplicates kept), and for each project its row and exactly its URLs; the store stays consistent. |
| StudentsRouteProperties.PostOtherImages | app/api/students/route.ts:50-59 | The create adds no image to any existing project. |
| StudentsRouteProperties.PostKeepsOtherStudents | app/api/students/route.ts:26-79 | Whatever the outcome, every other student reads exactly as before. |
| Text.Trim | components/student-form.tsx:120 | `trim`: the result has no whitespace at either end and is never longer than the input. |
| Text.TrimSlice | components/student-form.tsx:120 | The trim is a contiguous slice of the input, and everything cut off on either side is whitespace. |
| Text.TrimIdempotent | components/student-form.tsx:120 | Trimming twice is trimming once. |
| Text.TrimEmpty | components/student-form.tsx:120 | The trim is empty exactly when the string is all whitespace. |
| Text.JoinSplit | components/student-card.tsx:19 | `split(" ")` loses nothing: joining the parts with single spaces gives the string back. |
| Text.FirstCharsSplit | components/student-card.tsx:18-21 | The first characters of the parts are exactly the characters that start a word, in order; empty parts contribute nothing. |
| Lists.RemoveAt | components/student-form.tsx:88-90 | The filter by position drops exactly the element at the index, or nothing when the index is out of range. |
| Lists.RemoveAll | components/student-form.tsx:127-129 | The filter by value removes every occurrence and nothing else, keeping the others in order. |
| Lists.RemoveAllNoDuplicates | components/student-form.tsx:127-129 | Removing a value keeps a list free of duplicates. |
| StudentForm.InitialForm | components/student-form.tsx:44-63 | The form starts with all nine text fields empty and all four lists empty. |
| StudentForm.AddEducation | components/student-form.tsx:66-78 | Exactly one entry is appended, every field empty; the rest of the form is unchanged. |
| StudentForm.UpdateEducation | components/student-form.tsx:81-85 | Only the named field of the entry at the index changes; the length and every other entry stay the same. |
| StudentForm.RemoveEducation | components/student-form.tsx:88-90 | The entry at the index goes and the others keep their order; an index out of range changes nothing. |
| StudentForm.AddExperience | components/student-form.tsx:93-104 | Exactly one blank entry is appended; nothing else changes. |
| StudentForm.UpdateExperience | components/student-form.tsx:107-111 | Only the named field of the entry at the index changes. |
| StudentForm.RemoveExperience | components/student-form.tsx:114-116 | The entry at the index goes and the others keep their order; an index out of range changes nothing. |
| StudentForm.AddProject | components/student-form.tsx:132-142 | Exactly one blank project with no images is appended; nothing else changes. |
| StudentForm.UpdateProject | components/student-form.tsx:145-149 | Only the named text field of the project at the index changes; its images stay. |
| StudentForm.RemoveProject | components/student-form.tsx:169-171 | The project at the index goes and the others keep their order; an index out of range changes nothing. |
| StudentForm.AddProjectImage | components/student-form.tsx:152-159 | The URL is appended to the images of the project at the index only. |
| StudentForm.RemoveProjectImage | components/student-form.tsx:162-166 | Only the image at the image index of that project goes; an image index out of range changes nothing. |
| StudentForm.AddSkill | components/student-form.tsx:119-124 | The trimmed input is appended exactly when it is non-empty and not yet listed, and then the input is cleared; otherwise the form is unchanged. |
| StudentForm.RemoveSkill | components/student-form.tsx:127-129 | Every entry equal to the skill goes; the other entries stay, in order, with their multiplicities. |
| StudentForm.Payload | components/student-form.tsx:184-197 | The submitted body carries each of the eight scalar fields as typed, the skills as listed, and one entry per education, experience and project entry in order, each with every one of its fields as typed (date texts included, "" when untouched). |
| StudentForm.PayloadDatesReadable | components/student-form.tsx:184-197 | The store can read every date of the submitted body exactly when every date input of the form has been filled in. |
| StudentForm.AfterSubmit | components/student-form.tsx:200-209 | A 2xx answer opens the profile of the id in the body; any other status alerts. |
| StudentFormProperties.RemoveAddedEducation | components/student-form.tsx:66-90 | Removing the education entry just added restores the form. |
| StudentFormProperties.RemoveAddedExperience | components/student-form.tsx:93-116 | Removing the experience entry just added restores the form. |
| StudentFormProperties.RemoveAddedProject | components/student-form.tsx:132-171 | Removing the project just added restores the form. |
| StudentFormProperties.UpdateEducationLastWins | components/student-form.tsx:81-85 | Writing a field's current value changes nothing, and of two writes to one field the last wins. |
| StudentFormProperties.UpdateExperienceLastWins | components/student-form.tsx:107-111 | Writing a field's current value changes nothing, and of two writes to one field the last wins. |
| StudentFormProperties.UpdateProjectLastWins | components/student-form.tsx:145-149 | Writing a field's current value changes nothing, and of two writes to one field the last wins. |
| StudentFormProperties.RemoveAddedProjectImage | components/student-form.tsx:152-166 | Removing the image just uploaded restores the form. |
| StudentFormProperties.AddSkillKeepsSkillsOk | components/student-form.tsx:119-124 | Adding a skill keeps the list duplicate-free, with every entry trimmed and non-empty. |
| StudentFormProperties.RemoveSkillKeepsSkillsOk | components/student-form.tsx:127-129 | Removing a skill keeps the list duplicate-free, with every entry trimmed and non-empty. |
| StudentFormProperties.AddSkillTwice | components/student-form.tsx:119-124 | Pressing "Add" twice is pressing it once. |
| StudentFormProperties.RemoveAddedSkill | components/student-form.tsx:119-129 | Removing the skill just added restores the list. |
| StudentFormProperties.SubmitStoresForm | components/student-form.tsx:174-209 | A form whose date inputs are all filled in and that the store does not otherwise reject reads back as typed: every scalar field, each education and experience entry in order with all its fields and date texts, every skill, every project with its fields and exactly its images; the browser opens the new profile. |
| StudentFormProperties.SubmitOpensProfile | components/student-form.tsx:174-209 | After such a submit the stored student row holds every scalar field as typed, and the browser opens its page. |
| StudentFormProperties.SubmitStoresLists | components/student-form.tsx:174-209 | After such a submit each education, experience and skill entry is stored under the new student with every field as typed, one row per entry, in form order. |
| StudentFormProperties.SubmitStoresProjects | components/student-form.tsx:174-209 | After such a submit each project is stored with its name, description and GitHub URL as typed and exactly its uploaded image URLs, in order. |
| StudentFormProperties.SubmitEmptyDateRefused | components/student-form.tsx:357-369 | A form with any untouched date input (which sends "") is refused: the store is unchanged, the answer is 500 and the browser alerts. |
| StudentFormProperties.SubmitNewEntryRefused | components/student-form.tsx:174-209 | Submitting right after adding an education or experience entry always fails and alerts, whatever else the form holds. |
| StudentFormProperties.SubmitRefused | components/student-form.tsx:200-209 | A refused create leaves the store unchanged and the browser alerts. |
| StudentFormProperties.BlankEntriesRejected | lib/validations.ts:16-45 | An entry added and submitted untouched fails its schema on each required field, in key order. |
| StudentFormProperties.SubmitSkipsSchema | app/api/students/route.ts:26-74 | The server applies no schema: a form with an empty name (and filled date inputs), which the student schema rejects, is stored and opened. |
| StudentCard.Initials | components/student-card.tsx:18-23 | At most two characters, none lower-case: the first one or two word-initial characters of the name, upper-cased. |
| StudentCard.InitialsFirst | components/student-card.tsx:18-23 | A name starting with a non-space shows that character upper-cased first; a blank name gives no initials. |
| StudentCard.ShownSkills | components/student-card.tsx:45-49 | At most three badges, the first skills in order. |
| StudentCard.Overflow | components/student-card.tsx:50 | The "+n" badge appears exactly when there are more than three skills, with a positive count. |
| StudentCard.CardCountsEverySkill | components/student-card.tsx:45-50 | The badges shown plus the overflow count are the number of skills, and the overflow appears only when three are shown. |
| Validations.RequiredText | lib/validations.ts:5 | A required string has no issue exactly when it is a non-empty string; an absent, `null` or empty one gives one issue with the matching message. |
| Validations.EmailText | lib/validations.ts:11 | The e-mail field has no issue exactly when it is a string the e-mail predicate accepts. |
| Validations.ParseStudent | lib/validations.ts:4-13 | A student passes exactly when the name is non-empty and the e-mail is accepted; the parsed value drops the keys the schema does not know. |
| Validations.ParseEducation | lib/validations.ts:16-23 | An education entry passes exactly when institution and degree are non-empty; the other fields may be absent or `null`. |
| Validations.ParseExperience | lib/validations.ts:26-32 | An experience entry passes exactly when company and position are non-empty. |
| Validations.ParseSkill | lib/validations.ts:35-37 | A skill passes exactly when its name is non-empty. |
| Validations.ParseProject | lib/validations.ts:40-45 | A project passes exactly when its name is non-empty and `images` is not `null`; an absent `images` parses as the empty list. |
| Validations.ParseProjectImage | lib/validations.ts:48-50 | A project image passes exactly when its URL is non-empty. |
| Validations.ProjectImagesDefault | lib/validations.ts:44 | The schema's empty-list default for `images` agrees with the server's fallback to the empty list. |
| Validations.EducationIssuesInOrder | lib/validations.ts:16-18 | An empty institution and degree give both messages, in key order. |

## Left out

- Rendering, hooks, toasts, `confirm`, router navigation and `fetch`: UI and I/O. Only the state transitions, the submitted body and the reaction to the answer are modelled.
- The image upload widget: the URL it yields is an opaque string.
- Page-cache revalidation after an action, logging, and the list and single-row GET handlers with their ordering: they change no stored data.
- The single-row create, update and delete routes under `app/api/*` and the other form components: they repeat the actions and list edits modelled here.
- The update and delete handlers for a whole student are not part of this model.
- The database schema file is not part of this model: every scalar column is modelled as a nullable string, and any constraint it would enforce is a store rejection through `Fault`.
- Date parsing and formatting: a date is the text it was made from. The empty text is refused by the nested create in every case; which non-empty texts the store parses is not modelled, and a text it cannot parse is a store rejection through `Fault`.
- PostCreatesAggregate: the success case covers every non-empty date text, including texts the store's date-time parser would refuse; those refusals are left to `Fault`, since the parser is not part of this model.
- SubmitStoresLists: for the same reason, a filled-in date input is assumed to hold a text the store reads; which date formats the browser's date input produces and the store accepts is not modelled.
- StudentCard.Initials: names are sequences of characters, not of UTF-16 code units. For a name starting with a character outside the Basic Multilingual Plane, `n[0]` and `substring(0, 2)` take a lone surrogate where the model takes the whole character; upper-casing is ASCII only (see Text.UpperChar).
- StudentCard.InitialsFirst: for a first character outside the Basic Multilingual Plane the source shows a lone surrogate, not the character, for the reason above.
- StudentCard: the card takes the name as a plain string, as its props type it; it is not connected to a stored `StudentRow`, whose name column is modelled as nullable, and a stored name reaches the card as its given value.
- Unordered reads: `include` and `findMany` without `orderBy` return children in an order the database chooses; the model reads them in ascending id order, which every "in order" property relies on.
- StudentForm.AddProjectImage: requires the project index in range; out of range the source throws a TypeError reading `images` of `undefined`, which the model does not represent.
- The e-mail regular expression of the schema library: it is the predicate parameter `isEmail`.
- Validations.ParseStudent: payload values are strings, `null` or absent; the type errors the schemas report for numbers, objects or arrays in a string field are not modelled.
- Concurrency between requests: each action and request runs alone. The non-atomic project update is modelled as two separate store calls.
- Text.UpperChar: upper-cases ASCII letters only; non-ASCII case mappings, some of which change the length of the string, are not modelled.
- StudentForm.UpdateEducation: requires an index in range. An index past the end would make a sparse array holding a partial entry, which the form's inputs never do.
- StudentForm.UpdateExperience: requires an index in range, for the same reason.
- StudentForm.UpdateProject: requires an index in range, for the same reason.
- StudentForm.RemoveProjectImage: requires the project index in range; out of range the source throws a TypeError, which the model does not represent. The source also assigns the filtered list into the project object it shares with the previous state; the model builds a new form, which is what the next render shows.
