/**
 * What the two project variants share: the list and get queries, the
 * owner-only delete (identical in both), and the `forEach` write step of an
 * update.
 */
module Projects {

  import opened Wrappers
  import opened Values
  import opened Http
  import opened ProjectModel
  import opened Policy
  import opened Storage

  /**
   * Writes the body's keys into the project one at a time, in whatever order
   * `Object.keys` yields them. `fits` reports whether every value fitted its
   * path; when it did, the result is the path-by-path patch, whatever the order.
   */
  method ApplyUpdates(p: Project, body: Body) returns (fits: bool, r: Project)
    ensures fits <==> BodyFits(body)
    ensures fits ==> r == Patch(p, body)
  {
    var todo := body.Keys;
    ghost var done: Body := map[];
    fits, r := true, p;
    while todo != {}
      invariant todo !! done.Keys && todo + done.Keys == body.Keys
      invariant forall k :: k in done ==> done[k] == body[k]
      invariant fits <==> BodyFits(done)
      invariant fits ==> r == Patch(p, done)
      decreases todo
    {
      var k :| k in todo;
      if Fits(k, body[k]) {
        if fits {
          PatchStep(p, done, k, body[k]);
        }
        r := Set(r, k, body[k]);
      } else {
        fits := false;
      }
      done := done[k := body[k]];
      todo := todo - {k};
    }
    assert done == body;
  }

  /** `GET /` (and `getAllProjects`): exactly the projects the user owns or is a member of, each once, in id order. */
  function List(s: Store, user: UserId): (r: Response<seq<Project>>)
    reads s
    requires s.Valid()
    ensures r.Ok?
    ensures forall p :: p in r.value ==> p in s.projects.Values && IsOwnerOrMember(p, user)
    ensures forall id :: id in s.projects && IsOwnerOrMember(s.projects[id], user) ==> s.projects[id] in r.value
    ensures forall i, j :: 0 <= i < j < |r.value| ==> r.value[i].id < r.value[j].id
  {
    Ok(Collect(s.projects, (p: Project) => p.id, (p: Project) => IsOwnerOrMember(p, user), s.clock))
  }

  /** `GET /:id` (and `getProject`): the project for its owner and its members, 404 for everyone else and for a missing id alike. */
  function Get(s: Store, user: UserId, id: Id): (r: Response<Project>)
    reads s
    ensures r.Ok? <==> id in s.projects && IsOwnerOrMember(s.projects[id], user)
    ensures r.Ok? ==> r.value == s.projects[id]
    ensures !r.Ok? ==> r == NotFound(ProjectNotFound)
  {
    match FindProject(s.projects, Some(id), user, OwnerOrMember)
    case Some(p) => Ok(p)
    case None => NotFound(ProjectNotFound)
  }

  /**
   * `DELETE /:id` (and `deleteProject`): `findOneAndDelete({ _id, owner })`.
   * Only the owner deletes; the answer is the removed project. The project's
   * tasks and automations stay in the store.
   */
  method Delete(s: Store, user: UserId, id: Id) returns (r: Response<Project>)
    requires s.Valid()
    modifies s
    ensures s.Valid()
    ensures s.tasks == old(s.tasks) && s.automations == old(s.automations) && s.clock == old(s.clock)
    ensures !(id in old(s.projects) && IsOwner(old(s.projects[id]), user)) ==> r == NotFound(ProjectNotFound) && unchanged(s)
    ensures id in old(s.projects) && IsOwner(old(s.projects[id]), user) ==>
              r == Ok(old(s.projects[id])) && s.projects == old(s.projects) - {id}
    ensures r.Ok? ==> forall u :: Get(s, u, id) == NotFound(ProjectNotFound)
  {
    var project := FindProject(s.projects, Some(id), user, OwnerOnly);
    if project.None? {
      return NotFound(ProjectNotFound);
    }
    s.projects := s.projects - {id};
    r := Ok(project.value);
  }
}
