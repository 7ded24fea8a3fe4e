/**
 * The document store: the three collections and a clock. Each save ticks
 * the clock, and a deletion leaves it alone; a new document takes the
 * current tick both as its id and as its creation time, so ids are fresh
 * and creation order is id order.
 */
module Storage {

  import opened Values
  import opened ProjectModel
  import opened TaskModel
  import opened AutomationModel

  class Store {
    var projects: map<Id, Project>
    var tasks: map<Id, Task>
    var automations: map<Id, Automation>
    var clock: nat

    /** Each document is filed under its own id, was created before the current tick, and satisfies its schema. */
    ghost predicate Valid()
      reads this
    {
      && (forall id :: id in projects ==>
            projects[id].id == id && projects[id].createdAt == id && id < clock && ProjectModel.WellFormed(projects[id]))
      && (forall id :: id in tasks ==>
            tasks[id].id == id && tasks[id].createdAt == id && id < clock && TaskModel.WellFormed(tasks[id]))
      && (forall id :: id in automations ==>
            automations[id].id == id && automations[id].createdAt == id && id < clock)
    }

    constructor ()
      ensures Valid()
      ensures projects == map[] && tasks == map[] && automations == map[] && clock == 0
    {
      projects, tasks, automations, clock := map[], map[], map[], 0;
    }

    /** `project.save()` of a new document that took the current tick as id and creation time. */
    method InsertProject(p: Project)
      requires Valid() && p.id == clock && p.createdAt == clock && ProjectModel.WellFormed(p)
      modifies this
      ensures Valid() && p.id !in old(projects)
      ensures projects == old(projects)[p.id := p] && clock == old(clock) + 1
      ensures tasks == old(tasks) && automations == old(automations)
    {
      projects := projects[p.id := p];
      clock := clock + 1;
    }

    /** `project.save()` of a changed document: it replaces the stored one and takes the current tick as `updatedAt`. */
    method SaveProject(p: Project) returns (saved: Project)
      requires Valid() && p.id in projects && p.createdAt == projects[p.id].createdAt && ProjectModel.WellFormed(p)
      modifies this
      ensures Valid() && saved == p.(updatedAt := old(clock))
      ensures projects == old(projects)[p.id := saved] && clock == old(clock) + 1
      ensures tasks == old(tasks) && automations == old(automations)
    {
      saved := p.(updatedAt := clock);
      projects := projects[p.id := saved];
      clock := clock + 1;
    }

    /** `task.save()` of a new document that took the current tick as id and creation time. */
    method InsertTask(t: Task)
      requires Valid() && t.id == clock && t.createdAt == clock && TaskModel.WellFormed(t)
      modifies this
      ensures Valid() && t.id !in old(tasks)
      ensures tasks == old(tasks)[t.id := t] && clock == old(clock) + 1
      ensures projects == old(projects) && automations == old(automations)
    {
      tasks := tasks[t.id := t];
      clock := clock + 1;
    }

    /** `task.save()` of a changed document: it replaces the stored one and takes the current tick as `updatedAt`. */
    method SaveTask(t: Task) returns (saved: Task)
      requires Valid() && t.id in tasks && t.createdAt == tasks[t.id].createdAt && TaskModel.WellFormed(t)
      modifies this
      ensures Valid() && saved == t.(updatedAt := old(clock))
      ensures tasks == old(tasks)[t.id := saved] && clock == old(clock) + 1
      ensures projects == old(projects) && automations == old(automations)
    {
      saved := t.(updatedAt := clock);
      tasks := tasks[t.id := saved];
      clock := clock + 1;
    }

    /** `automation.save()` of a new document that took the current tick as id and creation time. */
    method InsertAutomation(a: Automation)
      requires Valid() && a.id == clock && a.createdAt == clock
      modifies this
      ensures Valid() && a.id !in old(automations)
      ensures automations == old(automations)[a.id := a] && clock == old(clock) + 1
      ensures projects == old(projects) && tasks == old(tasks)
    {
      automations := automations[a.id := a];
      clock := clock + 1;
    }

    /** `automation.save()` of a changed document: it replaces the stored one and takes the current tick as `updatedAt`. */
    method SaveAutomation(a: Automation) returns (saved: Automation)
      requires Valid() && a.id in automations && a.createdAt == automations[a.id].createdAt
      modifies this
      ensures Valid() && saved == a.(updatedAt := old(clock))
      ensures automations == old(automations)[a.id := saved] && clock == old(clock) + 1
      ensures projects == old(projects) && tasks == old(tasks)
    {
      saved := a.(updatedAt := clock);
      automations := automations[a.id := saved];
      clock := clock + 1;
    }
  }

  /**
   * `Model.find(filter)` over the documents with ids below `n`, each filed
   * under the id `idOf` reads from it: exactly the documents the filter
   * keeps, each once, in id order.
   */
  function Collect<R(==)>(docs: map<Id, R>, idOf: R -> Id, keep: R -> bool, n: nat): (r: seq<R>)
    requires forall id :: id in docs ==> idOf(docs[id]) == id
    ensures forall i :: 0 <= i < |r| ==> idOf(r[i]) < n && idOf(r[i]) in docs && docs[idOf(r[i])] == r[i] && keep(r[i])
    ensures forall id :: id < n && id in docs && keep(docs[id]) ==> docs[id] in r
    ensures forall i, j :: 0 <= i < j < |r| ==> idOf(r[i]) < idOf(r[j])
  {
    if n == 0 then []
    else Collect(docs, idOf, keep, n - 1) + (if n - 1 in docs && keep(docs[n - 1]) then [docs[n - 1]] else [])
  }

  /**
   * `Task.find(filter).sort({ createdAt: -1 })` over the tasks with ids below
   * `n`: exactly the tasks the filter keeps, each once, newest first.
   */
  function NewestFirst(tasks: map<Id, Task>, keep: Task -> bool, n: nat): (r: seq<Task>)
    requires forall id :: id in tasks ==> tasks[id].id == id && tasks[id].createdAt == id
    ensures forall i :: 0 <= i < |r| ==> r[i].id < n && r[i].id in tasks && tasks[r[i].id] == r[i] && keep(r[i])
    ensures forall id :: id < n && id in tasks && keep(tasks[id]) ==> tasks[id] in r
    ensures forall i, j :: 0 <= i < j < |r| ==> r[i].createdAt > r[j].createdAt
  {
    if n == 0 then []
    else (if n - 1 in tasks && keep(tasks[n - 1]) then [tasks[n - 1]] else []) + NewestFirst(tasks, keep, n - 1)
  }
}
