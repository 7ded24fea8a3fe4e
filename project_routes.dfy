/**
 * The mounted project handlers (`/api/projects`) that differ from the
 * alternative controller: create validates the name, and update is limited
 * to a fixed set of keys. List, get and delete are in Projects.
 */
module ProjectRoutes {

  import opened Wrappers
  import opened Values
  import opened Text
  import opened Http
  import opened Schema
  import opened ProjectModel
  import opened Policy
  import opened Storage
  import Projects

  /** The keys a `PATCH` body may carry: `owner` is not one of them. */
  const UpdatableKeys: set<string> := {"name", "description", "status", "members"}

  /** The validator chain of `POST /`: a name that is not blank after trimming. */
  function CreateErrors(body: Body): (errors: set<string>)
    ensures errors == {} <==> Stringify(Field(body, "name")).Some? && !Blank(Stringify(Field(body, "name")).value)
    ensures errors <= {"name"}
  {
    if RequiredText(Field(body, "name")).Some? then {} else {"name"}
  }

  /** The `trim()` sanitizers write the trimmed name and description back into the body. */
  function Sanitized(body: Body): Body {
    TrimAt(TrimAt(body, "name"), "description")
  }

  /**
   * `POST /`: 400 for a blank name; otherwise a new project owned by the
   * user, whatever owner the body names.
   */
  method Create(s: Store, user: UserId, body: Body) returns (r: Response<Project>)
    requires s.Valid()
    modifies s
    ensures s.Valid()
    ensures s.tasks == old(s.tasks) && s.automations == old(s.automations)
    ensures CreateErrors(body) != {} ==> r == ValidationFailed(CreateErrors(body))
    ensures CreateErrors(body) == {} ==>
              if New(old(s.clock), old(s.clock), Sanitized(body)["owner" := Oid(user)]).Some? then r.Created? else r == ServerError
    ensures r.Created? ==>
              && r.value.owner == user && r.value.name == Trim(Stringify(body["name"]).value)
              && ("members" !in body ==> r.value.members == [])
              && r.value.id == old(s.clock) && r.value.id !in old(s.projects)
              && s.projects == old(s.projects)[r.value.id := r.value] && s.clock == old(s.clock) + 1
    ensures r.Created? ==> New(old(s.clock), old(s.clock), Sanitized(body)["owner" := Oid(user)]) == Some(r.value)
    ensures !r.Created? ==> unchanged(s)
  {
    var errors := CreateErrors(body);
    if errors != {} {
      return ValidationFailed(errors);
    }
    var doc := Sanitized(body)["owner" := Oid(user)];
    var project := New(s.clock, s.clock, doc);
    if project.None? {
      return ServerError;
    }
    assert doc["name"] == Str(Trim(Stringify(body["name"]).value));
    TrimIdempotent(Stringify(body["name"]).value);
    s.InsertProject(project.value);
    r := Created(project.value);
  }

  /**
   * `PATCH /:id`: 404 unless the user owns the project; then 400 with nothing
   * stored if a key lies outside UpdatableKeys; otherwise exactly the body's
   * keys are written, so the owner never changes here.
   */
  method Update(s: Store, user: UserId, id: Id, body: Body) returns (r: Response<Project>)
    requires s.Valid()
    modifies s
    ensures s.Valid()
    ensures s.tasks == old(s.tasks) && s.automations == old(s.automations)
    ensures !(id in old(s.projects) && IsOwner(old(s.projects[id]), user)) ==> r == NotFound(ProjectNotFound)
    ensures id in old(s.projects) && IsOwner(old(s.projects[id]), user) ==>
              && (!Whitelisted(body, UpdatableKeys) ==> r == InvalidUpdates)
              && (Whitelisted(body, UpdatableKeys) && !BodyFits(body) ==> r == ServerError)
              && (Whitelisted(body, UpdatableKeys) && BodyFits(body) ==>
                    && r == Ok(Patch(old(s.projects[id]), body).(updatedAt := old(s.clock)))
                    && s.projects == old(s.projects)[id := r.value] && s.clock == old(s.clock) + 1)
    ensures r.Ok? ==> r.value.owner == user
    ensures !r.Ok? ==> unchanged(s)
  {
    var project := FindProject(s.projects, Some(id), user, OwnerOnly);
    if project.None? {
      return NotFound(ProjectNotFound);
    }
    if !Whitelisted(body, UpdatableKeys) {
      return InvalidUpdates;
    }
    assert "owner" !in body by {
      assert "owner" !in UpdatableKeys;
    }
    var fits, updated := Projects.ApplyUpdates(project.value, body);
    if !fits {
      return ServerError;
    }
    updated := s.SaveProject(updated);
    r := Ok(updated);
  }
}
