/**
 * A walk through the handlers that shows the two task variants are
 * different policies: a task that the project's owner assigns to an
 * outsider is readable by that outsider through the unmounted
 * assignee-scoped `getTask`, but not through the mounted project-scoped
 * `GET /api/tasks/:id`.
 */
module Scenarios {

  import opened Wrappers
  import opened Values
  import opened Text
  import opened Http
  import opened Storage
  import ProjectModel
  import Policy
  import Schema
  import TaskModel
  import ProjectRoutes
  import TaskRoutes
  import TaskController

  function ProjectBody(): Body {
    map["name" := Str("Launch")]
  }

  function TaskBody(project: Id, assignee: UserId): Body {
    map["title" := Str("Plan"), "project" := Oid(project), "assignedTo" := Oid(assignee)]
  }

  /** The project body passes the validators and fits the schema. */
  lemma ProjectBodyAccepted(user: UserId, now: nat)
    ensures ProjectRoutes.CreateErrors(ProjectBody()) == {}
    ensures ProjectModel.New(now, now, ProjectRoutes.Sanitized(ProjectBody())["owner" := Oid(user)]).Some?
  {
    assert !IsSpace("Launch"[0]);
    TrimOfTrimmed("Launch");
    var doc := ProjectRoutes.Sanitized(ProjectBody())["owner" := Oid(user)];
    assert doc == map["name" := Str("Launch"), "owner" := Oid(user)];
  }

  /** The task body passes the validators and fits the schema. */
  lemma TaskBodyAccepted(project: Id, assignee: UserId, user: UserId, now: nat)
    ensures TaskRoutes.CreateErrors(TaskBody(project, assignee)) == {}
    ensures TaskModel.New(now, now, TaskRoutes.Document(TaskRoutes.Sanitized(TaskBody(project, assignee)), user)).Some?
    ensures TaskBody(project, assignee)["project"] == Oid(project)
    ensures TaskBody(project, assignee)["title"] == Str("Plan") && Trim("Plan") == "Plan"
    ensures Field(TaskBody(project, assignee), "assignedTo") == Oid(assignee)
  {
    assert !IsSpace("Plan"[0]);
    TrimOfTrimmed("Plan");
    var doc := TaskRoutes.Document(TaskRoutes.Sanitized(TaskBody(project, assignee)), user);
    assert doc == TaskBody(project, assignee);
  }

  /** The owner (user 1) creates a project without members. */
  method OwnerCreatesProject() returns (s: Store, projectId: Id)
    ensures fresh(s) && s.Valid()
    ensures projectId in s.projects && s.projects[projectId].owner == 1 && s.projects[projectId].members == []
  {
    s := new Store();
    ProjectBodyAccepted(1, s.clock);
    var project := ProjectRoutes.Create(s, 1, ProjectBody());
    projectId := project.value.id;
  }

  /** In that project the owner creates a task assigned to an outsider (user 2). */
  method OwnerAssignsOutsider() returns (s: Store, projectId: Id, taskId: Id)
    ensures s.Valid()
    ensures projectId in s.projects && s.projects[projectId].owner == 1 && s.projects[projectId].members == []
    ensures taskId in s.tasks && s.tasks[taskId].assignedTo == 2 && s.tasks[taskId].project == Schema.Linked(projectId)
    ensures s.tasks[taskId].title == "Plan"
  {
    s, projectId := OwnerCreatesProject();
    assert Policy.FindProject(s.projects, Some(projectId), 1, Policy.OwnerOrMember).Some?;
    TaskBodyAccepted(projectId, 2, 1, s.clock);
    TrimOfTrimmed("Plan");
    var task := TaskRoutes.Create(s, 1, TaskBody(projectId, 2));
    taskId := task.value.id;
  }

  /** The outsider reads the task through the two variants. */
  method AssigneeOutsideProject() returns (mounted: Response<TaskModel.Task>, unmounted: Response<TaskModel.Task>)
    ensures mounted == NotFound(AccessDenied)
    ensures unmounted.Ok? && unmounted.value.assignedTo == 2 && unmounted.value.title == "Plan"
  {
    var s, projectId, taskId := OwnerAssignsOutsider();
    mounted := TaskRoutes.Get(s, 2, taskId);
    unmounted := TaskController.GetTask(s, 2, taskId);
  }

  /** A `createTask` body without a project fits the schema. */
  lemma LooseTaskAccepted(user: UserId, now: nat)
    ensures TaskModel.New(now, now, map["title" := Str("Loose")]["assignedTo" := Oid(user)]).Some?
  {
    assert !IsSpace("Loose"[0]);
    TrimOfTrimmed("Loose");
    assert map["title" := Str("Loose")]["assignedTo" := Oid(user)] == map["title" := Str("Loose"), "assignedTo" := Oid(user)];
  }

  /**
   * A user (3) with no project creates a task through `createTask`, which
   * leaves its project unset. The owner of an unrelated project (user 1)
   * can then delete it through the mounted `DELETE /:id`.
   */
  method UnrelatedOwnerDeletesLooseTask() returns (deleted: Response<TaskModel.Task>)
    ensures deleted.Ok? && deleted.value.assignedTo == 3 && deleted.value.project == Schema.Unset
  {
    var s, projectId := OwnerCreatesProject();
    LooseTaskAccepted(3, s.clock);
    var task := TaskController.CreateTask(s, 3, map["title" := Str("Loose")]);
    assert Policy.Grants(Policy.OwnerOnly, s.projects[projectId], 1);
    deleted := TaskRoutes.Delete(s, 1, task.value.id);
  }
}
