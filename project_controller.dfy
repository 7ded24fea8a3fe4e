/**
 * The alternative project handlers, which the server does not mount, where
 * they differ from the routes: create has no validator, and update applies
 * the whole body with `findOneAndUpdate`, without a list of allowed keys, so
 * the owner can hand the project over. List, get and delete are in Projects.
 */
module ProjectController {

  import opened Wrappers
  import opened Values
  import opened Http
  import opened Schema
  import opened ProjectModel
  import opened Policy
  import opened Storage

  /** `createProject`: `new Project({ ...req.body, owner: req.user._id })`; the owner is the user, whatever the body says. */
  method CreateProject(s: Store, user: UserId, body: Body) returns (r: Response<Project>)
    requires s.Valid()
    modifies s
    ensures s.Valid()
    ensures s.tasks == old(s.tasks) && s.automations == old(s.automations)
    ensures r.Created? || r.ServerError?
    ensures r.Created? <==> New(old(s.clock), old(s.clock), body["owner" := Oid(user)]).Some?
    ensures r.Created? ==>
              && r.value.owner == user && r.value.id == old(s.clock) && r.value.id !in old(s.projects)
              && s.projects == old(s.projects)[r.value.id := r.value] && s.clock == old(s.clock) + 1
    ensures r.Created? ==> New(old(s.clock), old(s.clock), body["owner" := Oid(user)]) == Some(r.value)
    ensures !r.Created? ==> unchanged(s)
  {
    var project := New(s.clock, s.clock, body["owner" := Oid(user)]);
    if project.None? {
      return ServerError;
    }
    s.InsertProject(project.value);
    r := Created(project.value);
  }

  /**
   * `updateProject`: `findOneAndUpdate({ _id, owner }, req.body, { new: true })`.
   * 404 unless the user owns the project; otherwise every schema path the
   * body names is written, `owner` included.
   */
  method UpdateProject(s: Store, user: UserId, id: Id, body: Body) returns (r: Response<Project>)
    requires s.Valid()
    modifies s
    ensures s.Valid()
    ensures s.tasks == old(s.tasks) && s.automations == old(s.automations)
    ensures !(id in old(s.projects) && IsOwner(old(s.projects[id]), user)) ==> r == NotFound(ProjectNotFound)
    ensures id in old(s.projects) && IsOwner(old(s.projects[id]), user) ==>
              && (!BodyFits(body) ==> r == ServerError)
              && (BodyFits(body) ==>
                    && r == Ok(Patch(old(s.projects[id]), body).(updatedAt := old(s.clock)))
                    && s.projects == old(s.projects)[id := r.value] && s.clock == old(s.clock) + 1)
    ensures r.Ok? && "owner" in body ==> body["owner"] == Oid(r.value.owner)
    ensures !r.Ok? ==> unchanged(s)
  {
    var project := FindProject(s.projects, Some(id), user, OwnerOnly);
    if project.None? {
      return NotFound(ProjectNotFound);
    }
    if !BodyFits(body) {
      return ServerError;
    }
    var updated := s.SaveProject(Patch(project.value, body));
    r := Ok(updated);
  }
}
