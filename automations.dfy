/**
 * The automation handlers. The mounted routes and the alternative
 * controller run the same code except that the routes validate a create
 * body first; `Create` takes that difference as its `validate` flag.
 * Creating, updating and deleting need the project's owner; reading needs
 * its owner or a member.
 */
module Automations {

  import opened Wrappers
  import opened Values
  import opened Text
  import opened Http
  import opened Schema
  import opened AutomationModel
  import opened Policy
  import opened Storage

  /** The keys a `PATCH` body may carry. */
  const UpdatableKeys: set<string> := {"name", "trigger", "conditions", "actions", "isActive"}

  /**
   * The validator chain of `POST /` in the routes: a name that is not blank
   * after trimming, a non-empty project, one of the four triggers, and an
   * array of at least one action.
   */
  function CreateErrors(body: Body): (errors: set<string>)
    ensures "name" in errors <==> RequiredText(Field(body, "name")).None?
    ensures "project" in errors <==> !NotEmpty(Field(body, "project"))
    ensures "trigger" in errors <==> !ValidTrigger(Field(body, "trigger"))
    ensures "actions" in errors <==> !ValidActions(Field(body, "actions"))
    ensures errors <= {"name", "project", "trigger", "actions"}
  {
    var e1: set<string> := if RequiredText(Field(body, "name")).Some? then {} else {"name"};
    var e2: set<string> := if NotEmpty(Field(body, "project")) then e1 else e1 + {"project"};
    assert "name" in e2 <==> "name" in e1;
    var e3: set<string> := if ValidTrigger(Field(body, "trigger")) then e2 else e2 + {"trigger"};
    assert "name" in e3 <==> "name" in e1;
    assert "project" in e3 <==> "project" in e2;
    var e4: set<string> := if ValidActions(Field(body, "actions")) then e3 else e3 + {"actions"};
    assert "name" in e4 <==> "name" in e1;
    assert "project" in e4 <==> "project" in e2;
    assert "trigger" in e4 <==> "trigger" in e3;
    e4
  }

  /** `isIn` over the four trigger names. */
  predicate ValidTrigger(v: Value) {
    v.Str? && ParseTrigger(v.s).Some?
  }

  /** `isArray({ min: 1 })`. */
  predicate ValidActions(v: Value) {
    v.Arr? && |v.items| >= 1
  }

  /** The `trim()` sanitizer writes the trimmed name back into the body. */
  function Sanitized(body: Body): Body {
    TrimAt(body, "name")
  }

  /** `{ ...req.body, createdBy: req.user._id }`, after the sanitizer when the validators ran. */
  function Document(body: Body, user: UserId, validate: bool): Body {
    (if validate then Sanitized(body) else body)["createdBy" := Oid(user)]
  }

  /** With a project reference in the body, the document fits the schema and carries the body's fields and the user as creator. */
  lemma DocumentFits(body: Body, user: UserId, validate: bool)
    requires Field(body, "project").Oid?
    ensures BodyFits(Document(body, user, validate))
    ensures Document(body, user, validate)["project"] == body["project"]
    ensures Document(body, user, validate)["createdBy"] == Oid(user)
    ensures Field(Document(body, user, validate), "trigger") == Field(body, "trigger")
    ensures Field(Document(body, user, validate), "actions") == Field(body, "actions")
    ensures Field(Document(body, user, validate), "name") == Field(if validate then Sanitized(body) else body, "name")
  {
    var doc := Document(body, user, validate);
    forall k | k in doc
      ensures Fits(k, doc[k])
    {
      if k == "project" {
        assert doc[k] == body[k];
      }
    }
  }

  /** A body that passed the validators yields a well-formed automation. */
  lemma ValidatedIsWellFormed(body: Body, a: Automation)
    requires CreateErrors(body) == {}
    requires a.name == Field(Sanitized(body), "name") && a.trigger == Field(body, "trigger") && a.actions == Field(body, "actions")
    ensures WellFormed(a)
  {
    TrimOfTrimmed(Trim(Stringify(body["name"]).value));
  }

  /**
   * `POST /` (validate) and `createAutomation` (no validation): with
   * `validate`, 400 unless the body passes the validators; then 500 when
   * the project reference is no ObjectId (nor null); then 404 unless
   * the user owns the referenced project (a member is refused too);
   * otherwise a new automation created by the user, whatever `createdBy`
   * the body names. Without a `project` key (possible only without
   * validation) the filter keeps just the owner condition: 404 for a user
   * who owns no project, and otherwise 500 because the automation has no
   * project.
   */
  method Create(s: Store, user: UserId, body: Body, validate: bool) returns (r: Response<Automation>)
    requires s.Valid()
    modifies s
    ensures s.Valid()
    ensures s.projects == old(s.projects) && s.tasks == old(s.tasks)
    ensures r.Created? || r.ValidationFailed? || r.NotFound? || r.ServerError?
    ensures r.ValidationFailed? <==> validate && CreateErrors(body) != {}
    ensures r.ValidationFailed? ==> r.params == CreateErrors(body)
    ensures r.ServerError? <==>
              && (!validate || CreateErrors(body) == {})
              && (OptionalRef(Field(body, "project")).None? || ("project" !in body && GrantsSome(s.projects, user, OwnerOnly)))
    ensures r.NotFound? ==> r.message == ProjectNotFoundOrAccessDenied
    ensures r.Created? <==>
              (!validate || CreateErrors(body) == {}) && FindProject(s.projects, Ref(Field(body, "project")), user, OwnerOnly).Some?
    ensures r.Created? ==>
              && r.value.createdBy == user && Oid(r.value.project) == body["project"]
              && r.value.id == old(s.clock) && r.value.id !in old(s.automations)
              && s.automations == old(s.automations)[r.value.id := r.value] && s.clock == old(s.clock) + 1
              && r.value.trigger == Field(body, "trigger") && r.value.actions == Field(body, "actions")
    ensures r.Created? ==> New(old(s.clock), old(s.clock), Document(body, user, validate)) == Some(r.value)
    ensures r.Created? && validate ==> WellFormed(r.value)
    ensures !r.Created? ==> unchanged(s)
  {
    if validate {
      var errors := CreateErrors(body);
      if errors != {} {
        return ValidationFailed(errors);
      }
    }
    // the filter casts the reference: null matches nothing, a value that is no ObjectId throws
    var ref := OptionalRef(Field(body, "project"));
    if ref.None? {
      return ServerError;
    }
    if "project" !in body {
      // an undefined `_id` drops out of the filter: any project the user owns passes
      if !GrantsSome(s.projects, user, OwnerOnly) {
        return NotFound(ProjectNotFoundOrAccessDenied);
      }
    } else {
      var project := FindProject(s.projects, ref.value, user, OwnerOnly);
      if project.None? {
        return NotFound(ProjectNotFoundOrAccessDenied);
      }
    }
    var automation := New(s.clock, s.clock, Document(body, user, validate));
    if automation.None? {
      // the body names no project, which the stored automation needs
      return ServerError;
    }
    DocumentFits(body, user, validate);
    if validate {
      ValidatedIsWellFormed(body, automation.value);
    }
    s.InsertAutomation(automation.value);
    r := Created(automation.value);
  }

  /** `GET /project/:projectId`: 404 unless the user owns or is a member of the project; otherwise exactly the project's automations, each once, in id order. */
  function ListByProject(s: Store, user: UserId, projectId: Id): (r: Response<seq<Automation>>)
    reads s
    requires s.Valid()
    ensures r.Ok? <==> FindProject(s.projects, Some(projectId), user, OwnerOrMember).Some?
    ensures !r.Ok? ==> r == NotFound(ProjectNotFoundOrAccessDenied)
    ensures r.Ok? ==> forall a :: a in r.value ==> a in s.automations.Values && a.project == projectId
    ensures r.Ok? ==> forall id :: id in s.automations && s.automations[id].project == projectId ==> s.automations[id] in r.value
    ensures r.Ok? ==> forall i, j :: 0 <= i < j < |r.value| ==> r.value[i].id < r.value[j].id
  {
    if FindProject(s.projects, Some(projectId), user, OwnerOrMember).None? then
      NotFound(ProjectNotFoundOrAccessDenied)
    else
      Ok(Collect(s.automations, (a: Automation) => a.id, (a: Automation) => a.project == projectId, s.clock))
  }

  /** `GET /:id`: the automation, for the owner or a member of its project; 404 otherwise, with a message that tells absence from refusal. */
  function Get(s: Store, user: UserId, id: Id): (r: Response<Automation>)
    reads s
    ensures id !in s.automations ==> r == NotFound(AutomationNotFound)
    ensures id in s.automations ==>
              (r == Ok(s.automations[id]) <==> FindProject(s.projects, Some(s.automations[id].project), user, OwnerOrMember).Some?)
    ensures id in s.automations && !r.Ok? ==> r == NotFound(AccessDenied)
  {
    if id !in s.automations then NotFound(AutomationNotFound)
    else if FindProject(s.projects, Some(s.automations[id].project), user, OwnerOrMember).None? then NotFound(AccessDenied)
    else Ok(s.automations[id])
  }

  /**
   * A missing automation and an automation whose project the user may not
   * see both answer 404, but the two answers differ in their message.
   */
  lemma DenialLooksLikeAbsence(s: Store, user: UserId, missing: Id, refused: Id)
    requires missing !in s.automations
    requires refused in s.automations && FindProject(s.projects, Some(s.automations[refused].project), user, OwnerOrMember).None?
    ensures Get(s, user, missing).Status() == Get(s, user, refused).Status() == 404
    ensures Get(s, user, missing) != Get(s, user, refused)
  {
  }

  /** The allowed keys are plain paths, so any whitelisted body fits. */
  lemma WhitelistedFits(body: Body)
    requires Whitelisted(body, UpdatableKeys)
    ensures BodyFits(body)
  {
  }

  /**
   * Writes the body's keys into the automation one at a time, in whatever
   * order `Object.keys` yields them; the result is the path-by-path patch,
   * whatever the order.
   */
  method ApplyUpdates(a: Automation, body: Body) returns (r: Automation)
    requires BodyFits(body)
    ensures r == Patch(a, body)
  {
    var todo := body.Keys;
    ghost var done: Body := map[];
    r := a;
    while todo != {}
      invariant todo !! done.Keys && todo + done.Keys == body.Keys
      invariant forall k :: k in done ==> done[k] == body[k]
      invariant r == Patch(a, done)
      decreases todo
    {
      var k :| k in todo;
      PatchStep(a, done, k, body[k]);
      r := Set(r, k, body[k]);
      done := done[k := body[k]];
      todo := todo - {k};
    }
    assert done == body;
  }

  /**
   * `PATCH /:id`: 404 when the automation is absent or the user does not own
   * its project, checked before the body, so a non-owner never learns that
   * the body was invalid; then 400 with nothing stored if a key lies outside
   * UpdatableKeys; otherwise exactly the body's keys are written.
   */
  method Update(s: Store, user: UserId, id: Id, body: Body) returns (r: Response<Automation>)
    requires s.Valid()
    modifies s
    ensures s.Valid()
    ensures s.projects == old(s.projects) && s.tasks == old(s.tasks)
    ensures id !in old(s.automations) ==> r == NotFound(AutomationNotFound)
    ensures id in old(s.automations) && FindProject(s.projects, Some(old(s.automations[id]).project), user, OwnerOnly).None? ==>
              r == NotFound(AccessDenied)
    ensures id in old(s.automations) && FindProject(s.projects, Some(old(s.automations[id]).project), user, OwnerOnly).Some? ==>
              && (!Whitelisted(body, UpdatableKeys) ==> r == InvalidUpdates)
              && (Whitelisted(body, UpdatableKeys) ==>
                    && r == Ok(Patch(old(s.automations[id]), body).(updatedAt := old(s.clock)))
                    && s.automations == old(s.automations)[id := r.value] && s.clock == old(s.clock) + 1)
    ensures r.Ok? ==> r.value.project == old(s.automations[id]).project && r.value.createdBy == old(s.automations[id]).createdBy
    ensures !r.Ok? ==> unchanged(s)
  {
    if id !in s.automations {
      return NotFound(AutomationNotFound);
    }
    var automation := s.automations[id];
    if FindProject(s.projects, Some(automation.project), user, OwnerOnly).None? {
      return NotFound(AccessDenied);
    }
    if !Whitelisted(body, UpdatableKeys) {
      return InvalidUpdates;
    }
    WhitelistedFits(body);
    var updated := ApplyUpdates(automation, body);
    updated := s.SaveAutomation(updated);
    r := Ok(updated);
  }

  /**
   * `DELETE /:id`: only the owner of the automation's project deletes it;
   * the deletion removes that automation alone and answers with it as it was.
   */
  method Delete(s: Store, user: UserId, id: Id) returns (r: Response<Automation>)
    requires s.Valid()
    modifies s
    ensures s.Valid()
    ensures s.projects == old(s.projects) && s.tasks == old(s.tasks) && s.clock == old(s.clock)
    ensures id !in old(s.automations) ==> r == NotFound(AutomationNotFound)
    ensures id in old(s.automations) && FindProject(s.projects, Some(old(s.automations[id]).project), user, OwnerOnly).None? ==>
              r == NotFound(AccessDenied)
    ensures id in old(s.automations) && FindProject(s.projects, Some(old(s.automations[id]).project), user, OwnerOnly).Some? ==>
              r == Ok(old(s.automations[id])) && s.automations == old(s.automations) - {id}
    ensures r.Ok? ==> forall u :: Get(s, u, id) == NotFound(AutomationNotFound)
    ensures !r.Ok? ==> unchanged(s)
  {
    if id !in s.automations {
      return NotFound(AutomationNotFound);
    }
    var automation := s.automations[id];
    if FindProject(s.projects, Some(automation.project), user, OwnerOnly).None? {
      return NotFound(AccessDenied);
    }
    s.automations := s.automations - {id};
    r := Ok(automation);
  }
}
