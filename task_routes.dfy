/**
 * The mounted task handlers (`/api/tasks`): project-scoped. Reading and
 * updating a task needs owner-or-member access to its project; deleting it
 * needs the project's owner.
 */
module TaskRoutes {

  import opened Wrappers
  import opened Values
  import opened Text
  import opened Http
  import opened Schema
  import opened TaskModel
  import opened Policy
  import opened Storage
  import Tasks

  /** The keys a `PATCH` body may carry. */
  const UpdatableKeys: set<string> := {"title", "description", "status", "priority", "dueDate", "assignedTo"}

  /** The validator chain of `POST /`: a title that is not blank after trimming, and a non-empty project. */
  function CreateErrors(body: Body): (errors: set<string>)
    ensures "title" in errors <==> RequiredText(Field(body, "title")).None?
    ensures "project" in errors <==> !NotEmpty(Field(body, "project"))
    ensures errors <= {"title", "project"}
  {
    (if RequiredText(Field(body, "title")).Some? then {} else {"title"})
    + (if NotEmpty(Field(body, "project")) then {} else {"project"})
  }

  /** The `trim()` sanitizer writes the trimmed title back into the body. */
  function Sanitized(body: Body): Body {
    TrimAt(body, "title")
  }

  /** `{ ...req.body, assignedTo: req.body.assignedTo || req.user._id }` */
  function Document(body: Body, user: UserId): (doc: Body)
    ensures doc.Keys == body.Keys + {"assignedTo"}
    ensures forall k :: k in body && k != "assignedTo" ==> doc[k] == body[k]
    ensures Truthy(Field(body, "assignedTo")) ==> doc["assignedTo"] == body["assignedTo"]
    ensures !Truthy(Field(body, "assignedTo")) ==> doc["assignedTo"] == Oid(user)
  {
    var assignee := Field(body, "assignedTo");
    body["assignedTo" := if Truthy(assignee) then assignee else Oid(user)]
  }

  /** What the document built from a validated body holds: the trimmed title, the body's project and the defaulted assignee. */
  lemma ValidatedDocument(body: Body, user: UserId)
    requires CreateErrors(body) == {}
    ensures RequiredText(Document(Sanitized(body), user)["title"]) == Some(Trim(Stringify(body["title"]).value))
    ensures Document(Sanitized(body), user)["project"] == body["project"]
    ensures Document(Sanitized(body), user)["assignedTo"] == (if Truthy(Field(body, "assignedTo")) then body["assignedTo"] else Oid(user))
  {
    var sanitized := Sanitized(body);
    assert sanitized["title"] == Str(Trim(Stringify(body["title"]).value));
    assert Field(sanitized, "assignedTo") == Field(body, "assignedTo");
    TrimIdempotent(Stringify(body["title"]).value);
  }

  /**
   * `POST /`: 400 for a blank title or a missing project; 500 when the
   * project reference is no ObjectId; 404 unless the user owns or is a
   * member of the referenced project; otherwise a new task,
   * assigned to the body's `assignedTo` when that is truthy and to the user
   * otherwise.
   */
  method Create(s: Store, user: UserId, body: Body) returns (r: Response<Task>)
    requires s.Valid()
    modifies s
    ensures s.Valid()
    ensures s.projects == old(s.projects) && s.automations == old(s.automations)
    ensures CreateErrors(body) != {} ==> r == ValidationFailed(CreateErrors(body))
    ensures CreateErrors(body) == {} && !body["project"].Oid? ==> r == ServerError
    ensures CreateErrors(body) == {} && body["project"].Oid? && FindProject(s.projects, Some(body["project"].id), user, OwnerOrMember).None? ==>
              r == NotFound(ProjectNotFoundOrAccessDenied)
    ensures CreateErrors(body) == {} && body["project"].Oid? && FindProject(s.projects, Some(body["project"].id), user, OwnerOrMember).Some? ==>
              if New(old(s.clock), old(s.clock), Document(Sanitized(body), user)).Some? then r.Created? else r == ServerError
    ensures r.Created? ==>
              && r.value.id == old(s.clock) && r.value.id !in old(s.tasks)
              && s.tasks == old(s.tasks)[r.value.id := r.value] && s.clock == old(s.clock) + 1
              && r.value.title == Trim(Stringify(body["title"]).value)
              && r.value.project == Linked(body["project"].id)
              && Oid(r.value.assignedTo) == (if Truthy(Field(body, "assignedTo")) then body["assignedTo"] else Oid(user))
    ensures r.Created? ==> New(old(s.clock), old(s.clock), Document(Sanitized(body), user)) == Some(r.value)
    ensures !r.Created? ==> unchanged(s)
  {
    var errors := CreateErrors(body);
    if errors != {} {
      return ValidationFailed(errors);
    }
    // the filter casts the reference: null matches nothing, a value that is no ObjectId throws
    var ref := OptionalRef(body["project"]);
    if ref.None? {
      return ServerError;
    }
    var project := FindProject(s.projects, ref.value, user, OwnerOrMember);
    if project.None? {
      return NotFound(ProjectNotFoundOrAccessDenied);
    }
    var doc := Document(Sanitized(body), user);
    var task := New(s.clock, s.clock, doc);
    if task.None? {
      return ServerError;
    }
    ValidatedDocument(body, user);
    assert RequiredText(doc["title"]) == Some(task.value.title);
    assert Ref(doc["assignedTo"]) == Some(task.value.assignedTo);
    s.InsertTask(task.value);
    r := Created(task.value);
  }

  /** `GET /:id`: the task, for a user who owns or is a member of its project; 404 otherwise, with a message that tells absence from refusal. */
  function Get(s: Store, user: UserId, id: Id): (r: Response<Task>)
    reads s
    ensures id !in s.tasks ==> r == NotFound(TaskNotFound)
    ensures id in s.tasks ==> (r == Ok(s.tasks[id]) <==> FindLinked(s.projects, s.tasks[id].project, user, OwnerOrMember))
    ensures id in s.tasks && !r.Ok? ==> r == NotFound(AccessDenied)
  {
    if id !in s.tasks then NotFound(TaskNotFound)
    else if !FindLinked(s.projects, s.tasks[id].project, user, OwnerOrMember) then NotFound(AccessDenied)
    else Ok(s.tasks[id])
  }

  /**
   * A missing task and a task whose project the user may not see both
   * answer 404, but the two answers differ in their message.
   */
  lemma DenialLooksLikeAbsence(s: Store, user: UserId, missing: Id, refused: Id)
    requires missing !in s.tasks
    requires refused in s.tasks && !FindLinked(s.projects, s.tasks[refused].project, user, OwnerOrMember)
    ensures Get(s, user, missing).Status() == Get(s, user, refused).Status() == 404
    ensures Get(s, user, missing) != Get(s, user, refused)
  {
  }

  /** Whoever may delete a task may read it: the owner-only filter is the stricter one. */
  lemma DeleterCanRead(s: Store, user: UserId, id: Id)
    requires id in s.tasks && FindLinked(s.projects, s.tasks[id].project, user, OwnerOnly)
    ensures Get(s, user, id) == Ok(s.tasks[id])
  {
    OwnerOnlyIsStricter(s.projects, s.tasks[id].project, user);
  }

  /**
   * `PATCH /:id`: 404 unless the task exists and the user owns or is a member
   * of its project; then 400 with nothing stored if a key lies outside
   * UpdatableKeys; otherwise exactly the body's keys are written.
   */
  method Update(s: Store, user: UserId, id: Id, body: Body) returns (r: Response<Task>)
    requires s.Valid()
    modifies s
    ensures s.Valid()
    ensures s.projects == old(s.projects) && s.automations == old(s.automations)
    ensures id !in old(s.tasks) ==> r == NotFound(TaskNotFound)
    ensures id in old(s.tasks) && !FindLinked(s.projects, old(s.tasks[id]).project, user, OwnerOrMember) ==>
              r == NotFound(AccessDenied)
    ensures id in old(s.tasks) && FindLinked(s.projects, old(s.tasks[id]).project, user, OwnerOrMember) ==>
              && (!Whitelisted(body, UpdatableKeys) ==> r == InvalidUpdates)
              && (Whitelisted(body, UpdatableKeys) && !BodyFits(body) ==> r == ServerError)
              && (Whitelisted(body, UpdatableKeys) && BodyFits(body) ==>
                    && r == Ok(Patch(old(s.tasks[id]), body).(updatedAt := old(s.clock)))
                    && s.tasks == old(s.tasks)[id := r.value] && s.clock == old(s.clock) + 1)
    ensures !r.Ok? ==> unchanged(s)
  {
    if id !in s.tasks {
      return NotFound(TaskNotFound);
    }
    var task := s.tasks[id];
    if !FindLinked(s.projects, task.project, user, OwnerOrMember) {
      return NotFound(AccessDenied);
    }
    if !Whitelisted(body, UpdatableKeys) {
      return InvalidUpdates;
    }
    var fits, updated := Tasks.ApplyUpdates(task, body);
    if !fits {
      return ServerError;
    }
    updated := s.SaveTask(updated);
    r := Ok(updated);
  }

  /**
   * `DELETE /:id`: only the owner of the task's project may delete it; a
   * member, the assignee included, gets 404 and the task stays. A deletion
   * removes that task alone and answers with it as it was.
   */
  method Delete(s: Store, user: UserId, id: Id) returns (r: Response<Task>)
    requires s.Valid()
    modifies s
    ensures s.Valid()
    ensures s.projects == old(s.projects) && s.automations == old(s.automations) && s.clock == old(s.clock)
    ensures id !in old(s.tasks) ==> r == NotFound(TaskNotFound)
    ensures id in old(s.tasks) && !FindLinked(s.projects, old(s.tasks[id]).project, user, OwnerOnly) ==>
              r == NotFound(AccessDenied)
    ensures id in old(s.tasks) && FindLinked(s.projects, old(s.tasks[id]).project, user, OwnerOnly) ==>
              r == Ok(old(s.tasks[id])) && s.tasks == old(s.tasks) - {id}
    ensures r.Ok? ==> forall u :: Get(s, u, id) == NotFound(TaskNotFound)
    ensures !r.Ok? ==> unchanged(s)
  {
    if id !in s.tasks {
      return NotFound(TaskNotFound);
    }
    var task := s.tasks[id];
    if !FindLinked(s.projects, task.project, user, OwnerOnly) {
      return NotFound(AccessDenied);
    }
    s.tasks := s.tasks - {id};
    r := Ok(task);
  }
}
