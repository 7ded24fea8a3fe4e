/**
 * The alternative task handlers, which the server does not mount:
 * assignee-scoped. Reading, updating and deleting a task is for its
 * assignee alone, whatever the project says, and an update may not reassign.
 */
module TaskController {

  import opened Wrappers
  import opened Values
  import opened Http
  import opened TaskModel
  import opened Policy
  import opened Storage
  import Tasks

  /** The keys an `updateTask` body may carry: no `assignedTo`. */
  const UpdatableKeys: set<string> := {"title", "description", "status", "priority", "dueDate"}

  /** `getAllTasks`: exactly the user's assigned tasks, newest first. */
  function GetAllTasks(s: Store, user: UserId): (r: Response<seq<Task>>)
    reads s
    requires s.Valid()
    ensures r.Ok?
    ensures forall t :: t in r.value ==> t.id in s.tasks && s.tasks[t.id] == t && t.assignedTo == user
    ensures forall id :: id in s.tasks && s.tasks[id].assignedTo == user ==> s.tasks[id] in r.value
    ensures forall i, j :: 0 <= i < j < |r.value| ==> r.value[i].createdAt > r.value[j].createdAt
  {
    Ok(NewestFirst(s.tasks, (t: Task) => t.assignedTo == user, s.clock))
  }

  /**
   * `createTask`: `new Task({ ...req.body, assignedTo: req.user._id })` with
   * no validator and no project check; the task is always assigned to the
   * user, whatever the body says.
   */
  method CreateTask(s: Store, user: UserId, body: Body) returns (r: Response<Task>)
    requires s.Valid()
    modifies s
    ensures s.Valid()
    ensures s.projects == old(s.projects) && s.automations == old(s.automations)
    ensures r.Created? || r.ServerError?
    ensures r.Created? <==> New(old(s.clock), old(s.clock), body["assignedTo" := Oid(user)]).Some?
    ensures r.Created? ==>
              && r.value.assignedTo == user && r.value.id == old(s.clock) && r.value.id !in old(s.tasks)
              && s.tasks == old(s.tasks)[r.value.id := r.value] && s.clock == old(s.clock) + 1
    ensures r.Created? ==> New(old(s.clock), old(s.clock), body["assignedTo" := Oid(user)]) == Some(r.value)
    ensures !r.Created? ==> unchanged(s)
  {
    var task := New(s.clock, s.clock, body["assignedTo" := Oid(user)]);
    if task.None? {
      return ServerError;
    }
    s.InsertTask(task.value);
    r := Created(task.value);
  }

  /** `getTask`: `Task.findOne({ _id: id, assignedTo: user })`; project membership plays no part. */
  function GetTask(s: Store, user: UserId, id: Id): (r: Response<Task>)
    reads s
    ensures r.Ok? <==> id in s.tasks && s.tasks[id].assignedTo == user
    ensures r.Ok? ==> r.value == s.tasks[id]
    ensures !r.Ok? ==> r == NotFound(TaskNotFound)
  {
    if id in s.tasks && s.tasks[id].assignedTo == user then Ok(s.tasks[id]) else NotFound(TaskNotFound)
  }

  /**
   * `updateTask`: 404 unless the user is the assignee; then 400 with nothing
   * stored if a key lies outside UpdatableKeys, so reassignment is refused;
   * otherwise exactly the body's keys are written.
   */
  method UpdateTask(s: Store, user: UserId, id: Id, body: Body) returns (r: Response<Task>)
    requires s.Valid()
    modifies s
    ensures s.Valid()
    ensures s.projects == old(s.projects) && s.automations == old(s.automations)
    ensures !(id in old(s.tasks) && old(s.tasks[id]).assignedTo == user) ==> r == NotFound(TaskNotFound)
    ensures id in old(s.tasks) && old(s.tasks[id]).assignedTo == user ==>
              && (!Whitelisted(body, UpdatableKeys) ==> r == InvalidUpdates)
              && (Whitelisted(body, UpdatableKeys) && !BodyFits(body) ==> r == ServerError)
              && (Whitelisted(body, UpdatableKeys) && BodyFits(body) ==>
                    && r == Ok(Patch(old(s.tasks[id]), body).(updatedAt := old(s.clock)))
                    && s.tasks == old(s.tasks)[id := r.value] && s.clock == old(s.clock) + 1)
    ensures r.Ok? ==> r.value.assignedTo == user
    ensures !r.Ok? ==> unchanged(s)
  {
    if !(id in s.tasks && s.tasks[id].assignedTo == user) {
      return NotFound(TaskNotFound);
    }
    var task := s.tasks[id];
    if !Whitelisted(body, UpdatableKeys) {
      return InvalidUpdates;
    }
    var fits, updated := Tasks.ApplyUpdates(task, body);
    if !fits {
      return ServerError;
    }
    updated := s.SaveTask(updated);
    r := Ok(updated);
  }

  /** `deleteTask`: only the assignee may delete; anyone else, the project's owner included, gets 404. */
  method DeleteTask(s: Store, user: UserId, id: Id) returns (r: Response<Task>)
    requires s.Valid()
    modifies s
    ensures s.Valid()
    ensures s.projects == old(s.projects) && s.automations == old(s.automations) && s.clock == old(s.clock)
    ensures !(id in old(s.tasks) && old(s.tasks[id]).assignedTo == user) ==> r == NotFound(TaskNotFound) && unchanged(s)
    ensures id in old(s.tasks) && old(s.tasks[id]).assignedTo == user ==>
              r == Ok(old(s.tasks[id])) && s.tasks == old(s.tasks) - {id}
    ensures r.Ok? ==> forall u :: GetTask(s, u, id) == NotFound(TaskNotFound)
  {
    if !(id in s.tasks && s.tasks[id].assignedTo == user) {
      return NotFound(TaskNotFound);
    }
    r := Ok(s.tasks[id]);
    s.tasks := s.tasks - {id};
  }
}
