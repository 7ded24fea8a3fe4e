/** The Project document: its paths, enumeration, defaults and required fields. */
module ProjectModel {

  import opened Wrappers
  import opened Values
  import opened Text
  import opened Schema

  datatype ProjectStatus = Active | Completed | OnHold

  function StatusName(st: ProjectStatus): string {
    match st
    case Active => "active"
    case Completed => "completed"
    case OnHold => "on-hold"
  }

  /** The `enum` check of the `status` path: exactly the three names are accepted. */
  function ParseStatus(text: string): (r: Option<ProjectStatus>)
    ensures r.Some? ==> StatusName(r.value) == text
    ensures r.None? ==> forall st :: StatusName(st) != text
  {
    if text == "active" then Some(Active)
    else if text == "completed" then Some(Completed)
    else if text == "on-hold" then Some(OnHold)
    else None
  }

  /** A stored project. `members` is the array of user ids; a user is a member when the array contains them. */
  datatype Project = Project(
    id: Id,
    name: string,
    description: Option<string>,
    owner: UserId,
    members: seq<UserId>,
    status: ProjectStatus,
    createdAt: nat,
    updatedAt: nat)

  /** What the schema guarantees of every saved project: a non-empty trimmed name and a trimmed description. */
  predicate WellFormed(p: Project) {
    && p.name != [] && Trimmed(p.name)
    && (p.description.Some? ==> Trimmed(p.description.value))
  }

  /** Whether `value` can be stored at path `key`; keys that are not paths of the schema are dropped on save. */
  predicate Fits(key: string, value: Value) {
    if key == "name" then RequiredText(value).Some?
    else if key == "description" then OptionalText(value).Some?
    else if key == "owner" then Ref(value).Some?
    else if key == "members" then RefList(value).Some?
    else if key == "status" then value.Str? && ParseStatus(value.s).Some?
    else true
  }

  predicate BodyFits(body: Body) {
    forall k :: k in body ==> Fits(k, body[k])
  }

  /** `project[key] = value`: one path is written, every other one is kept. */
  function Set(p: Project, key: string, value: Value): Project
    requires Fits(key, value)
  {
    if key == "name" then p.(name := RequiredText(value).value)
    else if key == "description" then p.(description := OptionalText(value).value)
    else if key == "owner" then p.(owner := Ref(value).value)
    else if key == "members" then p.(members := RefList(value).value)
    else if key == "status" then p.(status := ParseStatus(value.s).value)
    else p
  }

  /**
   * The project with every key of `body` written, defined path by path: a
   * path named in the body takes the cast value, every other path keeps its
   * value. Identity and timestamps are never paths a body can write.
   */
  function Patch(p: Project, body: Body): (r: Project)
    requires BodyFits(body)
    ensures r.id == p.id && r.createdAt == p.createdAt && r.updatedAt == p.updatedAt
    ensures WellFormed(p) ==> WellFormed(r)
    ensures "owner" !in body ==> r.owner == p.owner
  {
    Project(
      p.id,
      if "name" in body then RequiredText(body["name"]).value else p.name,
      if "description" in body then OptionalText(body["description"]).value else p.description,
      if "owner" in body then Ref(body["owner"]).value else p.owner,
      if "members" in body then RefList(body["members"]).value else p.members,
      if "status" in body then ParseStatus(body["status"].s).value else p.status,
      p.createdAt,
      p.updatedAt)
  }

  /** A patch leaves every path the body does not name as it was. */
  lemma PatchKeepsUnnamed(p: Project, body: Body)
    requires BodyFits(body)
    ensures "name" !in body ==> Patch(p, body).name == p.name
    ensures "description" !in body ==> Patch(p, body).description == p.description
    ensures "owner" !in body ==> Patch(p, body).owner == p.owner
    ensures "members" !in body ==> Patch(p, body).members == p.members
    ensures "status" !in body ==> Patch(p, body).status == p.status
  {
  }

  /** Writing one more key after a patch is patching with that key added: the order of the writes does not matter. */
  lemma PatchStep(p: Project, body: Body, key: string, value: Value)
    requires BodyFits(body) && key !in body && Fits(key, value)
    ensures BodyFits(body[key := value])
    ensures Set(Patch(p, body), key, value) == Patch(p, body[key := value])
  {
  }

  /** An empty body changes nothing. */
  lemma PatchEmpty(p: Project)
    ensures Patch(p, map[]) == p
  {
  }

  /** The document `new Project(body)` would save with the given id and creation time, or None when `save()` would throw. */
  function New(id: Id, now: nat, body: Body): (r: Option<Project>)
    ensures r.Some? <==> BodyFits(body) && "name" in body && "owner" in body
    ensures r.Some? ==> WellFormed(r.value) && r.value.id == id && r.value.createdAt == now == r.value.updatedAt
    ensures r.Some? ==> Ref(body["owner"]) == Some(r.value.owner) && RequiredText(body["name"]) == Some(r.value.name)
    ensures r.Some? && "status" !in body ==> r.value.status == Active
    ensures r.Some? && "members" !in body ==> r.value.members == []
  {
    if BodyFits(body) && "name" in body && "owner" in body then
      // name and owner are placeholders that the body always overwrites
      Some(Patch(Project(id, "", None, 0, [], Active, now, now), body))
    else
      None
  }
}
