# Task tracker access layer, in Dafny

This project models the ownership and membership rules of a small Express and
Mongoose task tracker. The tracker stores three kinds of record:

- a **Project** has an owner and a list of members;
- a **Task** belongs to a project and is assigned to a user;
- an **Automation** belongs to a project and records the user who created it.

Every HTTP handler does three things, and each is modelled and proved:

- It makes an **access decision** against a project. The decision is either
  owner only (`owner == user`) or owner or member (`owner == user` or `user`
  appears in `members`). A project that is absent and a project that fails the
  filter look the same to the handler: the query finds nothing. A record whose
  project was never set leaves the query's `_id` undefined, and Mongoose then
  drops that condition: any project that grants the user the level lets the
  request through.
- It applies an **all-or-nothing update whitelist**. When every key of the
  body is allowed, exactly those keys are written, one at a time, and nothing
  else changes. Otherwise the answer is 400 and nothing is stored.
- It applies an **ownership override on create**. `{ ...body, owner: user }`
  and `{ ...body, createdBy: user }` discard whatever owner or creator the
  client sent.

The handlers come in two variants, modelled separately and never merged:

- The **mounted route files** are project-scoped. They live in `TaskRoutes`,
  `ProjectRoutes` and `Automations` with `validate = true`.
- The **unmounted controllers** differ. Tasks are scoped to their assignee
  (`TaskController`). Project update applies the whole body with no whitelist
  (`ProjectController`). Automation create runs no validators (`Automations`
  with `validate = false`).

Code the two variants share is modelled once:

- `Projects` holds project list, get and delete, and the project update loop.
- `Tasks` holds the task update loop and the project task listing.

## Module layout

- `Text`: `String.prototype.trim` and the schema's `trim: true`, over the
  JavaScript white-space set.
- `Values`: request bodies as maps from key strings to JSON-like values, and
  JavaScript truthiness. A body string of 24 hexadecimal digits is an
  ObjectId and is written `Oid`; a `Str` never holds one. Also the `notEmpty` check, the whitelist test and
  the `trim()` sanitizer.
- `Http`: the answers (201, 200, 400 for validation, 400 for invalid updates,
  404 with a message, 500) and the handlers' message texts.
- `Schema`: how a body value is cast onto a document path. A value that does
  not fit makes `save()` throw.
- `TaskModel`, `ProjectModel`, `AutomationModel`: each holds three things.
  - The record, and its enumerations with their names.
  - `Patch`, a path-by-path reference for "write every key of the body".
  - `New`, the document that `new Model(body).save()` stores.
- `Policy`: `IsOwner`, `IsOwnerOrMember` and the `findOne` filter with each
  access level.
- `Storage`: the store class holding three maps and a clock.
  - Each save ticks the clock. A deletion removes the entry and leaves the
    clock as it is.
  - A new document takes the current tick as both its id and its `createdAt`.
  - Also here: the `find` queries, in id order and in newest-first order.
- `Tasks`, `TaskRoutes`, `TaskController`, `Projects`, `ProjectRoutes`,
  `ProjectController`, `Automations`: the handlers.
- `Scenarios`: a walk through both task variants. It shows they are
  different policies.

Handlers that change state are module-level methods that take the store and
modify it. Each one states its answer and the exact new contents of all three
collections and the clock; a create states the stored record as the `New` of
the document it builds. The
`updates.forEach(k => doc[k] = req.body[k])` loop is a `while` loop over the
body's keys, taken in any order. It is proved equal to `Patch` of the whole
body.

## Model

| member | source | states |
|---|---|---|
| Text.Trim | backend/models/Task.js:4-8 | the trimmed text has no white space at either end and is no longer than the input; it is empty exactly when the input is all white space (`Text.TrimIsSlice` pins down its content) |
| Text.TrimIsSlice | backend/models/Task.js:4-8 | the trimmed text is the input with a blank prefix and a blank suffix cut off, and nothing else removed |
| Text.TrimStart | backend/models/Task.js:4-8 | what is dropped from the front is all white space, and what is kept does not start with white space |
| Text.TrimEnd | backend/models/Task.js:4-8 | what is dropped from the end is all white space, and what is kept does not end with white space |
| Text.TrimStartIsSuffix | backend/models/Task.js:4-8 | trimming the front keeps a suffix of the input (proof by induction) |
| Text.TrimEndIsPrefix | backend/models/Task.js:4-8 | trimming the end keeps a prefix of the input (proof by induction) |
| Text.TrimOfTrimmed | backend/models/Task.js:4-8 | a string with no white space at either end is left unchanged by trimming |
| Text.TrimIdempotent | backend/routes/tasks.js:10 | the validator's `trim()` followed by the schema's `trim: true` is a single trim |
| Values.Field | backend/routes/tasks.js:34 | `req.body[key]` reads the body's value, and undefined (null here) for an absent key |
| Values.Truthy | backend/routes/tasks.js:34 | JavaScript truthiness, which decides the `assignedTo` fallback to the user: null, `false`, `0` and `""` are falsy, everything else truthy |
| Values.NotEmpty | backend/routes/tasks.js:11 | `notEmpty()`: a value is empty exactly when its text is `""`, so null, `""` and `[]` are empty and numbers and booleans are not |
| Values.Whitelisted | backend/routes/tasks.js:121 | `updates.every(k => allowed.includes(k))`: every key of the body is allowed |
| Values.NaturalText | backend/models/Task.js:4-8 | a natural number's decimal text is a non-empty run of digits without a leading zero |
| Values.NaturalTextValue | backend/models/Task.js:4-8 | reading the decimal digits back gives the number (proof by induction) |
| Values.DecimalText | backend/models/Task.js:4-8 | `String(n)` is digits, with a leading minus sign exactly when `n` is negative |
| Values.HexText | backend/models/Task.js:17-21 | an ObjectId's text is 24 lower-case hexadecimal digits |
| Values.Stringify | backend/routes/tasks.js:10 | every value but null and arrays has a text: a string is itself, and a number, boolean or ObjectId gives a non-empty text with no white space |
| Values.TrimAt | backend/routes/tasks.js:10 | the `trim()` sanitizer replaces the value at its key by that value's text, trimmed, leaves null and arrays alone and changes no other key |
| Schema.RequiredText | backend/models/Task.js:4-8 | a required trimmed string path accepts exactly the values whose text is not blank (numbers and booleans included), and stores that text trimmed and non-empty |
| Schema.OptionalText | backend/models/Task.js:9-12 | an optional trimmed string path accepts null (clears) or any value but an array (its text stored trimmed), and nothing else |
| Schema.Ref | backend/models/Task.js:17-21 | an ObjectId path accepts exactly an ObjectId and stores its id |
| Schema.OptionalRef | backend/models/Task.js:13-16 | an optional ObjectId path accepts null or an ObjectId, and nothing else |
| Schema.LinkOf | backend/models/Task.js:13-16 | a fitting value stores a cleared link exactly for null and the ObjectId's id otherwise; a path no body named stays unset |
| Schema.RefItems | backend/models/Project.js:18-21 | an array of ObjectIds is accepted exactly when every element is one; the ids keep their order |
| Schema.RefList | backend/models/Project.js:18-21 | the `members` path accepts exactly arrays of ObjectIds, element by element |
| Schema.OptionalDate | backend/models/Task.js:32-34 | the `dueDate` path accepts null or a number and stores that number |
| TaskModel.ParseStatus | backend/models/Task.js:22-26 | the status enum accepts exactly `todo`, `in-progress` and `done`, and parsing inverts the names |
| TaskModel.ParsePriority | backend/models/Task.js:27-31 | the priority enum accepts exactly `low`, `medium` and `high`, and parsing inverts the names |
| TaskModel.Fits | backend/models/Task.js:3-37 | whether a value can be stored at a path: the string, ObjectId, enum and date casts of the schema; keys that are not paths are dropped |
| TaskModel.BodyFits | backend/models/Task.js:3-37 | every key of a body fits its path, so `save()` does not throw |
| TaskModel.Set | backend/routes/tasks.js:127 | `task[key] = value` writes the cast value to that one path |
| TaskModel.Patch | backend/routes/tasks.js:127 | writing a body's keys never changes a task's id or timestamps |
| TaskModel.PatchWellFormed | backend/models/Task.js:4-12 | a body that fits keeps a stored task's title non-empty and trimmed, and its description trimmed |
| TaskModel.PatchKeepsUnnamed | backend/routes/tasks.js:127 | every path the body does not name keeps its value |
| TaskModel.PatchStep | backend/routes/tasks.js:127 | writing one more key after a patch is the patch with that key added, so the order of the writes does not matter |
| TaskModel.PatchEmpty | backend/routes/tasks.js:127 | an empty body changes nothing |
| TaskModel.PatchTwice | backend/routes/tasks.js:127 | two patches in a row equal one patch with the later body winning |
| TaskModel.New | backend/models/Task.js:3-37 | `save()` of a new task succeeds exactly when every path fits and `title` and `assignedTo` are given; the task is well formed, with the title trimmed, status `todo`, priority `medium` and an unset project by default, and `createdAt == updatedAt` |
| ProjectModel.ParseStatus | backend/models/Project.js:22-26 | the status enum accepts exactly `active`, `completed` and `on-hold`, and parsing inverts the names |
| ProjectModel.Fits | backend/models/Project.js:3-29 | whether a value can be stored at a path: the string, ObjectId, ObjectId-array and enum casts of the schema |
| ProjectModel.BodyFits | backend/models/Project.js:3-29 | every key of a body fits its path, so `save()` does not throw |
| ProjectModel.Set | backend/routes/projects.js:85 | `project[key] = value` writes the cast value to that one path |
| ProjectModel.Patch | backend/routes/projects.js:85 | writing a body's keys keeps the id, the timestamps and well-formedness, and keeps the owner when the body does not name it |
| ProjectModel.PatchKeepsUnnamed | backend/routes/projects.js:85 | every path the body does not name keeps its value |
| ProjectModel.PatchStep | backend/routes/projects.js:85 | writing one more key after a patch is the patch with that key added |
| ProjectModel.PatchEmpty | backend/routes/projects.js:85 | an empty body changes nothing |
| ProjectModel.New | backend/models/Project.js:3-29 | `save()` of a new project succeeds exactly when every path fits and `name` and `owner` are given; the name is the body's, trimmed, the owner is the body's, the status defaults to `active` and the members to none |
| AutomationModel.ParseTrigger | backend/routes/automations.js:12-13 | exactly the four trigger names are accepted, and parsing inverts the names |
| AutomationModel.Fits | backend/routes/automations.js:32-35 | only `project` and `createdBy` are cast, as ObjectIds; every other value is stored as sent |
| AutomationModel.BodyFits | backend/routes/automations.js:32-35 | every key of a body fits its path, so `save()` does not throw |
| AutomationModel.Set | backend/routes/automations.js:123 | `automation[key] = value` writes the value to that one path |
| AutomationModel.Patch | backend/routes/automations.js:123 | writing a body's keys keeps the id and timestamps, and keeps the project and creator unless the body names them |
| AutomationModel.PatchKeepsUnnamed | backend/routes/automations.js:123 | every path the body does not name keeps its value |
| AutomationModel.PatchStep | backend/routes/automations.js:123 | writing one more key after a patch is the patch with that key added |
| AutomationModel.New | backend/routes/automations.js:32-35 | `save()` of a new automation succeeds exactly when the project and creator are ObjectIds; it holds the body's name, trigger and actions |
| Policy.IsOwner | backend/routes/tasks.js:144-147 | the `owner: user` filter |
| Policy.IsOwnerOrMember | backend/routes/tasks.js:80-86 | the `$or: [{ owner: user }, { members: user }]` filter |
| Policy.Grants | backend/routes/tasks.js:80-86 | the filter of each access level |
| Policy.FindProject | backend/routes/tasks.js:20-26 | `findOne({ _id, owner })` and `findOne({ _id, $or: [owner, members] })` find a project exactly when it is stored and grants the user that access level |
| Policy.GrantsSome | backend/controllers/automationController.js:9-12 | `findOne({ _id: undefined, ... })` finds a project exactly when some stored project grants the user the level |
| Policy.FindLinked | backend/routes/tasks.js:80-86 | the lookup of a record's project: an unset project lets through every user some project grants the level, a cleared one nobody, and an id exactly as `FindProject` |
| Policy.UnsetAdmitsMost | backend/routes/tasks.js:80-86 | whoever is let through for some project is let through for a record whose project is unset |
| Policy.OwnerOnlyIsStricter | backend/routes/tasks.js:144-147 | whatever the owner-only filter lets through for a record's project, set or not, the owner-or-member filter lets through too |
| Storage.Collect | backend/routes/projects.js:32-37 | `find(filter)` returns exactly the stored documents that the filter keeps, each once, in increasing id order |
| Storage.NewestFirst | backend/routes/tasks.js:59-61 | `find(filter).sort({ createdAt: -1 })` returns exactly the kept tasks, in strictly decreasing `createdAt` |
| Storage.Store.Valid | backend/models/Task.js:35-37 | each stored document is filed under its own id, was created at that tick, before the current one, and satisfies its schema |
| Storage.Store.InsertProject | backend/routes/projects.js:22 | `save()` of a new project files it under its fresh id, ticks the clock, and changes nothing else |
| Storage.Store.SaveProject | backend/routes/projects.js:86 | `save()` of a changed project replaces the stored one with `updatedAt` set to the current tick, and changes nothing else |
| Storage.Store.InsertTask | backend/routes/tasks.js:36 | `save()` of a new task files it under its fresh id, ticks the clock, and changes nothing else |
| Storage.Store.SaveTask | backend/routes/tasks.js:128 | `save()` of a changed task replaces the stored one with `updatedAt` set to the current tick, and changes nothing else |
| Storage.Store.InsertAutomation | backend/routes/automations.js:36 | `save()` of a new automation files it under its fresh id, ticks the clock, and changes nothing else |
| Storage.Store.SaveAutomation | backend/routes/automations.js:124 | `save()` of a changed automation replaces the stored one with `updatedAt` set to the current tick, and changes nothing else |
| Tasks.ApplyUpdates | backend/routes/tasks.js:119-127 | the key-by-key write loop fails exactly when some value does not fit its path; otherwise it yields `Patch` of the whole body, whatever the key order, and keeps the task well formed |
| Tasks.ListByProject | backend/routes/tasks.js:43-66 | 404 unless the user owns or is a member of the project; otherwise exactly that project's tasks, newest first; the unmounted controller (`backend/controllers/taskController.js:22-37`) `getProjectTasks` is the same query and answer |
| TaskRoutes.CreateErrors | backend/routes/tasks.js:9-17 | the validators refuse `title` exactly when its text is blank after trimming (null and arrays always), and `project` exactly when it is empty |
| TaskRoutes.Sanitized | backend/routes/tasks.js:10 | the `trim()` sanitizer on `title` |
| TaskRoutes.Document | backend/routes/tasks.js:32-35 | the document is the body, with `assignedTo` replaced by the user when the body's value is falsy |
| TaskRoutes.ValidatedDocument | backend/routes/tasks.js:9-35 | a validated body gives a document with the trimmed title, the body's project and the defaulted assignee |
| TaskRoutes.Create | backend/routes/tasks.js:8-41 | each outcome in order: 400 for invalid input, 500 for a project reference that is no ObjectId, 404 unless the user owns or is a member of the project, 500 when the document does not fit, else 201; the new task is the only change, is exactly `New` of the sanitized document, and has the trimmed title, that project and the defaulted assignee |
| TaskRoutes.Get | backend/routes/tasks.js:68-96 | "Task not found" when absent, "Access denied" unless the lookup of the task's project lets the user through as owner or member (for a task without a project: owner or member of any project), else the task |
| TaskRoutes.DenialLooksLikeAbsence | backend/routes/tasks.js:75-90 | a missing task and a task the user may not see both answer 404, with different answers |
| TaskRoutes.Update | backend/routes/tasks.js:98-133 | both 404s come before the whitelist, with the same project lookup as `Get`; a key outside the six allowed gives 400 and no change; otherwise exactly `Patch` of the body is stored and the clock ticks |
| TaskRoutes.Delete | backend/routes/tasks.js:135-158 | only the project's owner deletes (for a task without a project: the owner of any project); anyone else gets 404 and the task stays; exactly that task is removed and returned as it was |
| TaskRoutes.DeleterCanRead | backend/routes/tasks.js:144-147 | whoever may delete a task may read it |
| TaskController.GetAllTasks | backend/controllers/taskController.js:4-11 | exactly the tasks assigned to the user, newest first |
| TaskController.CreateTask | backend/controllers/taskController.js:13-20 | no validation and no project check; 201 exactly when the document fits, and the stored task is exactly `New` of the body with `assignedTo` set to the user, whatever the body says; it is the only change |
| TaskController.GetTask | backend/controllers/taskController.js:39-49 | the task is found exactly when it exists and is assigned to the user; project membership plays no part |
| TaskController.UpdateTask | backend/controllers/taskController.js:51-67 | assignee only; the whitelist excludes `assignedTo`, so reassignment gives 400; otherwise exactly `Patch` of the body is stored and the task stays with the user |
| TaskController.DeleteTask | backend/controllers/taskController.js:69-79 | assignee only (a project owner who is not the assignee gets 404); exactly that task is removed and returned |
| Projects.ApplyUpdates | backend/routes/projects.js:77-86 | the key-by-key write loop fails exactly when some value does not fit; otherwise it yields `Patch` of the whole body, whatever the key order |
| Projects.List | backend/routes/projects.js:29-42 | exactly the projects the user owns or is a member of, each once, in id order; the unmounted controller (`backend/controllers/projectController.js:12-21`) `getAllProjects` is the same query and answer |
| Projects.Get | backend/routes/projects.js:44-63 | the project exactly when it exists and the user owns or is a member of it; otherwise 404 "Project not found"; the unmounted controller (`backend/controllers/projectController.js:23-33`) `getProject` gives the same answer |
| Projects.Delete | backend/routes/projects.js:93-109 | owner only; exactly that project is removed and returned, and its tasks and automations stay in the store; the unmounted controller (`backend/controllers/projectController.js:48-55`) `deleteProject` gives the same answer and change |
| ProjectRoutes.CreateErrors | backend/routes/projects.js:8-16 | the validator refuses `name` exactly when it has no text (null, arrays) or its text is blank after trimming |
| ProjectRoutes.Sanitized | backend/routes/projects.js:9-10 | the `trim()` sanitizers on `name` and `description` |
| ProjectRoutes.Create | backend/routes/projects.js:7-27 | 400 for a blank name; otherwise 201 when the document fits (else 500); the stored project is exactly `New` of the sanitized body with `owner` set to the user, whatever the body says, so it has the trimmed name and no members unless the body gives some |
| ProjectRoutes.Update | backend/routes/projects.js:65-91 | owner only (members get 404); a key outside the four allowed gives 400 and no change; otherwise exactly `Patch` of the body is stored, so the owner never changes |
| ProjectController.CreateProject | backend/controllers/projectController.js:3-10 | no validation; 201 exactly when the document fits, and the stored project is exactly `New` of the body with `owner` set to the user, whatever the body says |
| ProjectController.UpdateProject | backend/controllers/projectController.js:35-46 | owner only, with no whitelist: every schema path the body names is written, so this variant can change the owner |
| Automations.CreateErrors | backend/routes/automations.js:9-14 | the validators refuse a `name` whose text is blank after trimming, an empty `project`, a trigger that is not one of the four, and `actions` that is not an array of at least one, each exactly in those cases |
| Automations.ValidTrigger | backend/routes/automations.js:12-13 | `isIn` over the four trigger names |
| Automations.ValidActions | backend/routes/automations.js:14 | `isArray({ min: 1 })`: an array of at least one element |
| Automations.Sanitized | backend/routes/automations.js:10 | the `trim()` sanitizer on `name` |
| Automations.Document | backend/routes/automations.js:32-35 | `{ ...req.body, createdBy: req.user._id }`, after the sanitizer when the validators ran |
| Automations.DocumentFits | backend/routes/automations.js:32-35 | with a project ObjectId, the document fits, keeps the body's fields and names the user as creator |
| Automations.ValidatedIsWellFormed | backend/routes/automations.js:9-14 | a validated body yields an automation with a non-empty trimmed name, a valid trigger and at least one action |
| Automations.Create | backend/routes/automations.js:8-41 | each outcome in order: 400 for invalid input, 500 for a project reference that is neither null nor an ObjectId, 404 unless the user owns the project (a member is refused), else 201; the stored automation is exactly `New` of the document, with `createdBy` the user whatever the body says, and is the only change; with `validate = false`, as in the unmounted controller (`backend/controllers/automationController.js:6-27`), nothing is checked before the owner test, so an empty `actions` array is stored, and a body without `project` gives 404 to a user who owns no project and 500 to anyone else |
| Automations.ListByProject | backend/routes/automations.js:43-65 | 404 unless the user owns or is a member of the project; otherwise exactly that project's automations, each once, in id order; the unmounted controller (`backend/controllers/automationController.js:29-51`) `getProjectAutomations` gives the same answer |
| Automations.Get | backend/routes/automations.js:67-95 | "Automation not found" when absent, "Access denied" unless the user owns or is a member of its project, else the automation; the unmounted controller (`backend/controllers/automationController.js:53-81`) `getAutomation` gives the same answer |
| Automations.DenialLooksLikeAbsence | backend/routes/automations.js:74-89 | a missing automation and an automation the user may not see both answer 404, with different answers |
| Automations.WhitelistedFits | backend/routes/automations.js:115-121 | every body that passes the whitelist fits the automation's paths |
| Automations.ApplyUpdates | backend/routes/automations.js:123 | the key-by-key write loop yields `Patch` of the whole body, whatever the key order |
| Automations.Update | backend/routes/automations.js:97-129 | both 404s come before the whitelist, so a non-owner never sees 400; a key outside the five allowed gives 400 and no change; otherwise exactly `Patch` of the body is stored, and the project and creator are kept; the unmounted controller (`backend/controllers/automationController.js:83-115`) `updateAutomation` gives the same answer and change |
| Automations.Delete | backend/routes/automations.js:131-154 | owner only; exactly that automation is removed and returned as it was, and nothing else changes; the unmounted controller (`backend/controllers/automationController.js:117-140`) `deleteAutomation` gives the same answer and change |
| Scenarios.OwnerAssignsOutsider | backend/routes/tasks.js:32-35 | a project owner can create a task assigned to a user outside the project |
| Scenarios.AssigneeOutsideProject | backend/controllers/taskController.js:39-49 | such an assignee reads the task through `getTask` but gets 404 "Access denied" from the mounted `GET /:id`, so the two task variants are different policies |
| Scenarios.UnrelatedOwnerDeletesLooseTask | backend/routes/tasks.js:142-147 | a task created through `createTask` without a project can be deleted through the mounted `DELETE /:id` by the owner of an unrelated project |

## Left out

- `backend/server.js`: the Express bootstrap, CORS, the database connection,
  the index drop and the port are I/O plumbing. The mounted routes are those
  under `/api/tasks`, `/api/projects` and `/api/automations`.
- `backend/routes/auth.js` and the `auth` middleware: the user is taken as an
  already authenticated id.
- The frontend files are user interface code.
- `populate(...)` only shapes the JSON that is sent back. It does not change
  state or access.
- The 500 paths are modelled only where the model can name their cause:
  - a body value that does not fit its schema path, so `save()` throws;
  - a project reference in a create body that is neither null nor an
    ObjectId, so `findOne` throws a cast error.
  Database failures are not modelled.
- URL ids are taken to be well-formed ObjectIds. A malformed one makes the
  query throw and answer 500; the model does not cover that case.
- A null project reference matches no project. A missing one drops out of
  the filter; this is modelled for the stored task (`Policy.FindLinked`) and
  for the create body of `createAutomation`.
- Async execution and check-then-act races between `findById` and
  `save`/`remove` are not modelled. The model is sequential.
- Mongoose casting is simplified:
  - Only a number is accepted for `dueDate`; date strings are not parsed.
  - Ids in bodies are written `Oid`: a string of 24 hexadecimal digits is
    read as one, and a `Str` never holds one. Mongoose also casts other
    forms, such as a number or a 12-character string; those are refused.
  - JSON objects are not values of the model. An automation's `conditions`
    is usually one; it is stored as sent in the source.
  - A single ObjectId sent for `members` is wrapped into a one-element array
    by Mongoose. The model accepts only an array there and answers 500.
  - Null for an enum path counts as a value that does not fit.
  - Numbers are integers; floating point is not modelled.
- `TaskRoutes.CreateErrors`: an array sent as `title` is always refused.
  Depending on its version, express-validator may instead test each element
  of the array. An array `project` is handled as `notEmpty` does: refused
  exactly when it is empty.
- `ProjectRoutes.CreateErrors`: an array sent as `name` is always refused,
  for the same reason.
- `Automations.CreateErrors`: an array sent as `name` or `trigger` is always
  refused, for the same reason. `project` is treated as for tasks, and
  `actions` must be an array.
- `Values.TrimAt`: the sanitizer leaves null, arrays and absent keys as they
  are. Some express-validator versions turn null into `""`, which would store
  an empty `description` instead of clearing it.
- `Automations.Create`: `models/Automation` is not part of this model. Its
  schema is unknown, so name, trigger, conditions, actions and isActive are
  stored as sent. Only `project` and `createdBy` are cast as ObjectIds.
- `Automations.Create`: without a `project` key, the unmounted controller's
  filter keeps only the owner condition, so any user who owns some project
  passes it. The model's automation always has a project, so it answers 500
  there. If the real schema does not require `project`, the source answers
  201 and stores an automation without one.
- `ProjectController.UpdateProject`: `findOneAndUpdate` is treated like
  `save()`, with the schema's required and enum checks. Mongoose runs those
  validators on updates only when asked to.
- Client-supplied `_id`, `createdAt` and `updatedAt` keys are ignored. The
  store assigns ids and timestamps from a single clock. `updatedAt` is moved on
  every save, including a save that changes nothing.
- `Storage.Collect`: a `find` without `sort` is taken to return documents in
  id order, which is their insertion order. MongoDB does not promise this
  order.
- `Text.Trim`: a character of the model is a Unicode scalar value, while a
  JavaScript string is a sequence of UTF-16 code units, so a string holding
  a lone surrogate is outside the model. Every JavaScript white-space code
  point lies in the Basic Multilingual Plane, so for every string the model
  can hold, trimming gives the same text as `String.prototype.trim`. No
  Unicode normalisation is involved.

## Behaviour worth knowing

The model follows the handlers as written, including these points, which
are easy to assume otherwise:

- A refused update answers 400 with the message `Invalid updates` only. It
  does not list the rejected keys.
- "Not found" and "access denied" both answer 404 but carry different
  messages, so they are not indistinguishable. `TaskRoutes.DenialLooksLikeAbsence`
  and `Automations.DenialLooksLikeAbsence` prove both halves.
- A non-empty `actions` list is enforced only by the mounted create
  validators. The unmounted `createAutomation` stores an empty list, and an
  update may set `actions` to `[]` in both variants.
