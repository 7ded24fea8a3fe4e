/**
 * The Automation document. Its schema is not part of this model, so the
 * paths the handlers name (name, trigger, conditions, actions, isActive)
 * keep the body's values as they are; only the two references the handlers
 * rely on, `project` and `createdBy`, are typed.
 */
module AutomationModel {

  import opened Wrappers
  import opened Values
  import opened Text
  import opened Schema

  datatype Trigger = TaskCreated | TaskCompleted | DueDateApproaching | StatusChanged

  function TriggerName(t: Trigger): string {
    match t
    case TaskCreated => "task_created"
    case TaskCompleted => "task_completed"
    case DueDateApproaching => "due_date_approaching"
    case StatusChanged => "status_changed"
  }

  /** `isIn([...])` of the create validator: exactly the four trigger names are accepted. */
  function ParseTrigger(text: string): (r: Option<Trigger>)
    ensures r.Some? ==> TriggerName(r.value) == text
    ensures r.None? ==> forall t :: TriggerName(t) != text
  {
    if text == "task_created" then Some(TaskCreated)
    else if text == "task_completed" then Some(TaskCompleted)
    else if text == "due_date_approaching" then Some(DueDateApproaching)
    else if text == "status_changed" then Some(StatusChanged)
    else None
  }

  datatype Automation = Automation(
    id: Id,
    name: Value,
    project: Id,
    trigger: Value,
    conditions: Value,
    actions: Value,
    isActive: Value,
    createdBy: UserId,
    createdAt: nat,
    updatedAt: nat)

  /** What the create validator guarantees: a non-blank trimmed name, a known trigger and at least one action. */
  predicate WellFormed(a: Automation) {
    && a.name.Str? && a.name.s != [] && Trimmed(a.name.s)
    && a.trigger.Str? && ParseTrigger(a.trigger.s).Some?
    && a.actions.Arr? && |a.actions.items| >= 1
  }

  /** Whether `value` can be stored at path `key`. */
  predicate Fits(key: string, value: Value) {
    if key == "project" || key == "createdBy" then Ref(value).Some? else true
  }

  predicate BodyFits(body: Body) {
    forall k :: k in body ==> Fits(k, body[k])
  }

  /** `automation[key] = value`. */
  function Set(a: Automation, key: string, value: Value): Automation
    requires Fits(key, value)
  {
    if key == "name" then a.(name := value)
    else if key == "project" then a.(project := Ref(value).value)
    else if key == "trigger" then a.(trigger := value)
    else if key == "conditions" then a.(conditions := value)
    else if key == "actions" then a.(actions := value)
    else if key == "isActive" then a.(isActive := value)
    else if key == "createdBy" then a.(createdBy := Ref(value).value)
    else a
  }

  /** The automation with every key of `body` written, path by path; identity and timestamps are kept. */
  function Patch(a: Automation, body: Body): (r: Automation)
    requires BodyFits(body)
    ensures r.id == a.id && r.createdAt == a.createdAt && r.updatedAt == a.updatedAt
    ensures "project" !in body ==> r.project == a.project
    ensures "createdBy" !in body ==> r.createdBy == a.createdBy
  {
    Automation(
      a.id,
      if "name" in body then body["name"] else a.name,
      if "project" in body then Ref(body["project"]).value else a.project,
      if "trigger" in body then body["trigger"] else a.trigger,
      if "conditions" in body then body["conditions"] else a.conditions,
      if "actions" in body then body["actions"] else a.actions,
      if "isActive" in body then body["isActive"] else a.isActive,
      if "createdBy" in body then Ref(body["createdBy"]).value else a.createdBy,
      a.createdAt,
      a.updatedAt)
  }

  /** A patch leaves every path the body does not name as it was. */
  lemma PatchKeepsUnnamed(a: Automation, body: Body)
    requires BodyFits(body)
    ensures "name" !in body ==> Patch(a, body).name == a.name
    ensures "trigger" !in body ==> Patch(a, body).trigger == a.trigger
    ensures "conditions" !in body ==> Patch(a, body).conditions == a.conditions
    ensures "actions" !in body ==> Patch(a, body).actions == a.actions
    ensures "isActive" !in body ==> Patch(a, body).isActive == a.isActive
  {
  }

  /** Writing one more key after a patch is patching with that key added: the order of the writes does not matter. */
  lemma PatchStep(a: Automation, body: Body, key: string, value: Value)
    requires BodyFits(body) && key !in body && Fits(key, value)
    ensures BodyFits(body[key := value])
    ensures Set(Patch(a, body), key, value) == Patch(a, body[key := value])
  {
  }

  /** The document `new Automation(body)` would save with the given id and creation time. */
  function New(id: Id, now: nat, body: Body): (r: Option<Automation>)
    ensures r.Some? <==> BodyFits(body) && "project" in body && "createdBy" in body
    ensures r.Some? ==> r.value.id == id && r.value.createdAt == now == r.value.updatedAt
    ensures r.Some? ==> Oid(r.value.project) == body["project"] && Oid(r.value.createdBy) == body["createdBy"]
    ensures r.Some? ==> r.value.name == Field(body, "name") && r.value.trigger == Field(body, "trigger")
    ensures r.Some? ==> r.value.actions == Field(body, "actions")
  {
    if BodyFits(body) && "project" in body && "createdBy" in body then
      // project and createdBy are placeholders that the body always overwrites
      Some(Patch(Automation(id, Null, 0, Null, Null, Null, Null, 0, now, now), body))
    else
      None
  }
}
