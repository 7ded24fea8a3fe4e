/**
 * What the two task variants share: the `updates.forEach(k => task[k] =
 * req.body[k])` step of an update, and the project task listing, whose
 * query is the same in both.
 */
module Tasks {

  import opened Wrappers
  import opened Values
  import opened Schema
  import opened Http
  import opened TaskModel
  import opened Policy
  import opened Storage

  /**
   * Writes the body's keys into the task one at a time, in whatever order
   * `Object.keys` yields them. `fits` reports whether every value fitted its
   * path (otherwise the following `save()` throws); when it did, the result is
   * the path-by-path patch, whatever the order.
   */
  method ApplyUpdates(t: Task, body: Body) returns (fits: bool, r: Task)
    ensures fits <==> BodyFits(body)
    ensures fits ==> r == Patch(t, body)
    ensures fits && WellFormed(t) ==> WellFormed(r)
  {
    var todo := body.Keys;
    ghost var done: Body := map[];
    fits, r := true, t;
    while todo != {}
      invariant todo !! done.Keys && todo + done.Keys == body.Keys
      invariant forall k :: k in done ==> done[k] == body[k]
      invariant fits <==> BodyFits(done)
      invariant fits ==> r == Patch(t, done)
      decreases todo
    {
      var k :| k in todo;
      if Fits(k, body[k]) {
        if fits {
          PatchStep(t, done, k, body[k]);
        }
        r := Set(r, k, body[k]);
      } else {
        fits := false;
      }
      done := done[k := body[k]];
      todo := todo - {k};
    }
    assert done == body;
    if fits && WellFormed(t) {
      PatchWellFormed(t, body);
    }
  }

  /**
   * `GET /project/:projectId` (and `getProjectTasks`): 404 unless the user
   * owns or is a member of the project; otherwise exactly the project's
   * tasks, newest first.
   */
  function ListByProject(s: Store, user: UserId, projectId: Id): (r: Response<seq<Task>>)
    reads s
    requires s.Valid()
    ensures r.Ok? <==> FindProject(s.projects, Some(projectId), user, OwnerOrMember).Some?
    ensures !r.Ok? ==> r == NotFound(ProjectNotFoundOrAccessDenied)
    ensures r.Ok? ==> forall t :: t in r.value ==> t.id in s.tasks && s.tasks[t.id] == t && t.project == Linked(projectId)
    ensures r.Ok? ==> forall id :: id in s.tasks && s.tasks[id].project == Linked(projectId) ==> s.tasks[id] in r.value
    ensures r.Ok? ==> forall i, j :: 0 <= i < j < |r.value| ==> r.value[i].createdAt > r.value[j].createdAt
  {
    if FindProject(s.projects, Some(projectId), user, OwnerOrMember).None? then
      NotFound(ProjectNotFoundOrAccessDenied)
    else
      Ok(NewestFirst(s.tasks, (t: Task) => t.project == Linked(projectId), s.clock))
  }
}
