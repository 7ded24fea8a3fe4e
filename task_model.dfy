/** The Task document: its paths, enumerations, defaults and required fields. */
module TaskModel {

  import opened Wrappers
  import opened Values
  import opened Text
  import opened Schema

  datatype TaskStatus = Todo | InProgress | Done
  datatype Priority = Low | Medium | High

  function StatusName(st: TaskStatus): string {
    match st
    case Todo => "todo"
    case InProgress => "in-progress"
    case Done => "done"
  }

  /** The `enum` check of the `status` path: exactly the three names are accepted. */
  function ParseStatus(text: string): (r: Option<TaskStatus>)
    ensures r.Some? ==> StatusName(r.value) == text
    ensures r.None? ==> forall st :: StatusName(st) != text
  {
    if text == "todo" then Some(Todo)
    else if text == "in-progress" then Some(InProgress)
    else if text == "done" then Some(Done)
    else None
  }

  function PriorityName(p: Priority): string {
    match p
    case Low => "low"
    case Medium => "medium"
    case High => "high"
  }

  /** The `enum` check of the `priority` path. */
  function ParsePriority(text: string): (r: Option<Priority>)
    ensures r.Some? ==> PriorityName(r.value) == text
    ensures r.None? ==> forall p :: PriorityName(p) != text
  {
    if text == "low" then Some(Low)
    else if text == "medium" then Some(Medium)
    else if text == "high" then Some(High)
    else None
  }

  /** A stored task; `createdAt` and `updatedAt` are the schema's timestamps. */
  datatype Task = Task(
    id: Id,
    title: string,
    description: Option<string>,
    project: Link,
    assignedTo: UserId,
    status: TaskStatus,
    priority: Priority,
    dueDate: Option<int>,
    createdAt: nat,
    updatedAt: nat)

  /** What the schema guarantees of every saved task: a non-empty trimmed title and a trimmed description. */
  predicate WellFormed(t: Task) {
    && t.title != [] && Trimmed(t.title)
    && (t.description.Some? ==> Trimmed(t.description.value))
  }

  /** Whether `value` can be stored at path `key`; keys that are not paths of the schema are dropped on save. */
  predicate Fits(key: string, value: Value) {
    if key == "title" then RequiredText(value).Some?
    else if key == "description" then OptionalText(value).Some?
    else if key == "project" then OptionalRef(value).Some?
    else if key == "assignedTo" then Ref(value).Some?
    else if key == "status" then value.Str? && ParseStatus(value.s).Some?
    else if key == "priority" then value.Str? && ParsePriority(value.s).Some?
    else if key == "dueDate" then OptionalDate(value).Some?
    else true
  }

  predicate BodyFits(body: Body) {
    forall k :: k in body ==> Fits(k, body[k])
  }

  /** `task[key] = value`: one path is written, every other one is kept. */
  function Set(t: Task, key: string, value: Value): Task
    requires Fits(key, value)
  {
    if key == "title" then t.(title := RequiredText(value).value)
    else if key == "description" then t.(description := OptionalText(value).value)
    else if key == "project" then t.(project := LinkOf(value))
    else if key == "assignedTo" then t.(assignedTo := Ref(value).value)
    else if key == "status" then t.(status := ParseStatus(value.s).value)
    else if key == "priority" then t.(priority := ParsePriority(value.s).value)
    else if key == "dueDate" then t.(dueDate := OptionalDate(value).value)
    else t
  }

  /**
   * The task with every key of `body` written, defined path by path: a path
   * named in the body takes the cast value, every other path keeps its value.
   * Identity and timestamps are never paths a body can write.
   */
  function Patch(t: Task, body: Body): (r: Task)
    requires BodyFits(body)
    ensures r.id == t.id && r.createdAt == t.createdAt && r.updatedAt == t.updatedAt
  {
    var title := if "title" in body then RequiredText(body["title"]).value else t.title;
    var description := if "description" in body then OptionalText(body["description"]).value else t.description;
    var project := if "project" in body then LinkOf(body["project"]) else t.project;
    var assignedTo := if "assignedTo" in body then Ref(body["assignedTo"]).value else t.assignedTo;
    var status := if "status" in body then ParseStatus(body["status"].s).value else t.status;
    var priority := if "priority" in body then ParsePriority(body["priority"].s).value else t.priority;
    var dueDate := if "dueDate" in body then OptionalDate(body["dueDate"]).value else t.dueDate;
    Task(t.id, title, description, project, assignedTo, status, priority, dueDate, t.createdAt, t.updatedAt)
  }

  /** Patching keeps the schema's guarantees: a body that fits only ever stores a non-blank trimmed title and a trimmed description. */
  lemma PatchWellFormed(t: Task, body: Body)
    requires BodyFits(body) && WellFormed(t)
    ensures WellFormed(Patch(t, body))
  {
    if "title" in body {
      assert Fits("title", body["title"]);
    }
    if "description" in body {
      assert Fits("description", body["description"]);
    }
  }

  /** A patch leaves every path the body does not name as it was. */
  lemma PatchKeepsUnnamed(t: Task, body: Body)
    requires BodyFits(body)
    ensures "title" !in body ==> Patch(t, body).title == t.title
    ensures "description" !in body ==> Patch(t, body).description == t.description
    ensures "project" !in body ==> Patch(t, body).project == t.project
    ensures "assignedTo" !in body ==> Patch(t, body).assignedTo == t.assignedTo
    ensures "status" !in body ==> Patch(t, body).status == t.status
    ensures "priority" !in body ==> Patch(t, body).priority == t.priority
    ensures "dueDate" !in body ==> Patch(t, body).dueDate == t.dueDate
  {
  }

  /** Writing one more key after a patch is patching with that key added: the order of the writes does not matter. */
  lemma PatchStep(t: Task, body: Body, key: string, value: Value)
    requires BodyFits(body) && key !in body && Fits(key, value)
    ensures BodyFits(body[key := value])
    ensures Set(Patch(t, body), key, value) == Patch(t, body[key := value])
  {
  }

  /** An empty body changes nothing. */
  lemma PatchEmpty(t: Task)
    ensures Patch(t, map[]) == t
  {
  }

  /** Two patches in a row are one patch with the later body winning on shared keys. */
  lemma PatchTwice(t: Task, first: Body, second: Body)
    requires BodyFits(first) && BodyFits(second)
    ensures BodyFits(first + second)
    ensures Patch(Patch(t, first), second) == Patch(t, first + second)
  {
  }

  /** The document `new Task(body)` would save with the given id and creation time, or None when `save()` would throw. */
  function New(id: Id, now: nat, body: Body): (r: Option<Task>)
    ensures r.Some? <==> BodyFits(body) && "title" in body && "assignedTo" in body
    ensures r.Some? ==> WellFormed(r.value) && r.value.id == id && r.value.createdAt == now == r.value.updatedAt
    ensures r.Some? ==> Ref(body["assignedTo"]) == Some(r.value.assignedTo)
    ensures r.Some? ==> RequiredText(body["title"]) == Some(r.value.title)
    ensures r.Some? && "project" in body ==> r.value.project == LinkOf(body["project"])
    ensures r.Some? && "status" !in body ==> r.value.status == Todo
    ensures r.Some? && "priority" !in body ==> r.value.priority == Medium
    ensures r.Some? && "project" !in body ==> r.value.project == Unset
  {
    if BodyFits(body) && "title" in body && "assignedTo" in body then
      // title and assignedTo are placeholders that the body always overwrites
      Some(Patch(Task(id, "", None, Unset, 0, Todo, Medium, None, now, now), body))
    else
      None
  }
}
