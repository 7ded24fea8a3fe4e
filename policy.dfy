/**
 * The two access levels every handler checks against a project: the
 * `owner: user` filter (owner only) and the `$or: [{ owner: user },
 * { members: user }]` filter (owner or member). A project that is absent and
 * a project that fails the filter are the same to the caller: the query
 * finds nothing.
 */
module Policy {

  import opened Wrappers
  import opened Values
  import opened Schema
  import opened ProjectModel

  datatype Access = OwnerOnly | OwnerOrMember

  predicate IsOwner(p: Project, u: UserId) {
    p.owner == u
  }

  /** `{ members: u }` matches when the members array contains `u`. */
  predicate IsOwnerOrMember(p: Project, u: UserId) {
    p.owner == u || u in p.members
  }

  predicate Grants(a: Access, p: Project, u: UserId) {
    match a
    case OwnerOnly => IsOwner(p, u)
    case OwnerOrMember => IsOwnerOrMember(p, u)
  }

  /**
   * `Project.findOne({ _id: ref, ... })` with the filter of access level `a`:
   * the project is found exactly when the reference names a stored project
   * whose owner, or (for OwnerOrMember) one of whose members, is `u`.
   */
  function FindProject(projects: map<Id, Project>, ref: Option<Id>, u: UserId, a: Access): (r: Option<Project>)
    ensures r.Some? <==> ref.Some? && ref.value in projects && Grants(a, projects[ref.value], u)
    ensures r.Some? ==> r.value == projects[ref.value]
    ensures r.Some? ==> r.value.owner == u || (a == OwnerOrMember && u in r.value.members)
  {
    if ref.Some? && ref.value in projects && Grants(a, projects[ref.value], u) then Some(projects[ref.value]) else None
  }

  /**
   * Some stored project grants `u` access level `a`: what `findOne` with an
   * undefined `_id` and the filter of that level finds.
   */
  predicate GrantsSome(projects: map<Id, Project>, u: UserId, a: Access) {
    exists id :: id in projects && Grants(a, projects[id], u)
  }

  /**
   * `Project.findOne({ _id: doc.project, ... })` with the filter of access
   * level `a`, for the project path of a stored document. Mongoose drops a
   * condition whose value is undefined, so for a document whose project was
   * never set any project that grants `u` the level passes; a cleared
   * project matches nothing.
   */
  function FindLinked(projects: map<Id, Project>, link: Link, u: UserId, a: Access): (found: bool)
    ensures link.Unset? ==> (found <==> GrantsSome(projects, u, a))
    ensures link.Cleared? ==> !found
    ensures link.Linked? ==> (found <==> FindProject(projects, Some(link.id), u, a).Some?)
  {
    match link
    case Unset => GrantsSome(projects, u, a)
    case Cleared => false
    case Linked(id) => FindProject(projects, Some(id), u, a).Some?
  }

  /** A document without a project is open to everyone a document with one could be open to. */
  lemma UnsetAdmitsMost(projects: map<Id, Project>, link: Link, u: UserId, a: Access)
    ensures FindLinked(projects, link, u, a) ==> FindLinked(projects, Unset, u, a)
  {
    if link.Linked? && FindLinked(projects, link, u, a) {
      assert link.id in projects && Grants(a, projects[link.id], u);
    }
  }

  /** Whatever the owner-only filter lets through, the owner-or-member filter lets through too. */
  lemma OwnerOnlyIsStricter(projects: map<Id, Project>, link: Link, u: UserId)
    ensures FindLinked(projects, link, u, OwnerOnly) ==> FindLinked(projects, link, u, OwnerOrMember)
  {
    if link.Unset? && GrantsSome(projects, u, OwnerOnly) {
      var id :| id in projects && Grants(OwnerOnly, projects[id], u);
      assert Grants(OwnerOrMember, projects[id], u);
    }
  }
}
