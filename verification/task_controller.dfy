/** The task service of backend/controllers/taskController.js: create, list,
    update and delete over the task table, with the creator-or-admin rule. */
module TaskController {
  import opened Common
  import opened TaskModel

  /** The JSON body of a create or update request. `None` is a key that is
      absent; a string may still be empty, which JavaScript treats as falsy.
      `status` is read by update only, and `createdBy` by neither handler: a
      client may send it, and it is ignored. */
  datatype TaskBody = TaskBody(
    title: Option<string>,
    description: Option<string>,
    dueDate: Option<string>,
    priority: Option<string>,
    status: Option<string>,
    assignedTo: Option<UserId>,
    createdBy: Option<UserId>)

  // Every `isDate` parameter stands for the schema's cast of a due-date
  // string to a `Date` (`dueDate: { type: Date }`). Which texts it accepts is
  // the store's own rule, so the caller supplies it. A stored due date keeps
  // the text that passed the cast.

  /** JavaScript truthiness of a body string: absent and "" are falsy. */
  predicate Truthy(v: Option<string>)
  {
    v.Some? && v.value != ""
  }

  /** A body every field of which `||` would discard. */
  predicate AllFalsy(b: TaskBody)
  {
    && !Truthy(b.title) && !Truthy(b.description) && !Truthy(b.dueDate)
    && !Truthy(b.priority) && !Truthy(b.status) && b.assignedTo.None?
  }

  /** The legacy socket event of an update, addressed to the room named after a user id. */
  datatype TaskUpdated = TaskUpdated(room: UserId, taskId: TaskId, message: string)

  function UpdatedMessage(title: string): string
  {
    "Your task \"" + title + "\" has been updated."
  }

  /** The authorisation rule of update and delete: the requester created the
      task, or holds the admin role. */
  predicate CanModify(t: Task, requester: Requester)
  {
    t.createdBy == requester.id || requester.role == Admin
  }

  /** The document `Task.create` validates for a create request: the creator
      is the requester, `status` takes its default, and `priority` its default
      when absent. None when schema validation fails: a missing or empty
      title, a priority outside the enum, or a due date the `Date` cast
      `isDate` refuses. */
  function NewTask(b: TaskBody, creator: UserId, isDate: string -> bool): (r: Option<Task>)
    ensures r.Some? <==>
      && Truthy(b.title)
      && (b.priority.None? || ParsePriority(b.priority.value).Some?)
      && (b.dueDate.None? || isDate(b.dueDate.value))
    ensures r.Some? ==> WellFormed(r.value) && r.value.createdBy == creator
    ensures r.Some? ==> r.value.title == b.title.value && r.value.assignedTo == b.assignedTo
    ensures r.Some? ==> r.value.description == b.description && r.value.dueDate == b.dueDate
    ensures r.Some? ==> r.value.status == DefaultStatus
    ensures r.Some? && b.priority.None? ==> r.value.priority == DefaultPriority
    ensures r.Some? && b.priority.Some? ==> PriorityName(r.value.priority) == b.priority.value
  {
    var priority := if b.priority.None? then Some(DefaultPriority) else ParsePriority(b.priority.value);
    if !Truthy(b.title) || priority.None? || (b.dueDate.Some? && !isDate(b.dueDate.value)) then None
    else Some(Task(b.title.value, b.description, b.dueDate, priority.value, DefaultStatus, creator, b.assignedTo))
  }

  /** Whether the truthy fields of an update body that the schema casts or
      checks pass validation on save: the enum fields, and the due date. */
  predicate PatchValid(b: TaskBody, isDate: string -> bool)
  {
    && (Truthy(b.priority) ==> ParsePriority(b.priority.value).Some?)
    && (Truthy(b.status) ==> ParseStatus(b.status.value).Some?)
    && (Truthy(b.dueDate) ==> isDate(b.dueDate.value))
  }

  /** The field-by-field `body.f || task.f` merge of an update, followed by the
      validation `save` runs. None when the merged document fails validation. */
  function Merge(t: Task, b: TaskBody, isDate: string -> bool): (r: Option<Task>)
    ensures r.Some? <==> PatchValid(b, isDate)
    ensures r.Some? ==> r.value.createdBy == t.createdBy
    ensures r.Some? && WellFormed(t) ==> WellFormed(r.value)
  {
    var priority := if Truthy(b.priority) then ParsePriority(b.priority.value) else Some(t.priority);
    var status := if Truthy(b.status) then ParseStatus(b.status.value) else Some(t.status);
    if priority.None? || status.None? || (Truthy(b.dueDate) && !isDate(b.dueDate.value)) then None
    else Some(t.(
      title := if Truthy(b.title) then b.title.value else t.title,
      description := if Truthy(b.description) then b.description else t.description,
      dueDate := if Truthy(b.dueDate) then b.dueDate else t.dueDate,
      priority := priority.value,
      status := status.value,
      assignedTo := if b.assignedTo.Some? then b.assignedTo else t.assignedTo))
  }

  /** A body whose every field is falsy leaves the task as it was. */
  lemma MergeFalsyIsIdentity(t: Task, b: TaskBody, isDate: string -> bool)
    requires AllFalsy(b)
    ensures Merge(t, b, isDate) == Some(t)
  {
  }

  /** Applying the same body twice is the same as applying it once. */
  lemma MergeIdempotent(t: Task, b: TaskBody, isDate: string -> bool)
    requires Merge(t, b, isDate).Some?
    ensures Merge(Merge(t, b, isDate).value, b, isDate) == Merge(t, b, isDate)
  {
  }

  /** Each merged field takes the body's value when that value is truthy and
      keeps the stored one otherwise. */
  lemma MergeFieldwise(t: Task, b: TaskBody, isDate: string -> bool)
    requires Merge(t, b, isDate).Some?
    ensures var m := Merge(t, b, isDate).value;
      && m.title == (if Truthy(b.title) then b.title.value else t.title)
      && m.description == (if Truthy(b.description) then b.description else t.description)
      && m.dueDate == (if Truthy(b.dueDate) then b.dueDate else t.dueDate)
      && (Truthy(b.priority) ==> PriorityName(m.priority) == b.priority.value)
      && (!Truthy(b.priority) ==> m.priority == t.priority)
      && (Truthy(b.status) ==> StatusName(m.status) == b.status.value)
      && (!Truthy(b.status) ==> m.status == t.status)
      && m.assignedTo == (if b.assignedTo.Some? then b.assignedTo else t.assignedTo)
  {
  }

  /** The `$or` query of the list handler: tasks the user created, together
      with tasks assigned to the user. */
  function GetTasks(tasks: map<TaskId, Task>, user: UserId): (r: map<TaskId, Task>)
    ensures forall id :: id in r <==> id in tasks && (tasks[id].createdBy == user || tasks[id].assignedTo == Some(user))
    ensures forall id :: id in r ==> r[id] == tasks[id]
  {
    var created := map id | id in tasks && tasks[id].createdBy == user :: tasks[id];
    var assignedToUser := map id | id in tasks && tasks[id].assignedTo == Some(user) :: tasks[id];
    created + assignedToUser
  }

  /** A task just created by a requester is listed for that requester. */
  lemma CreatedTaskIsListed(tasks: map<TaskId, Task>, b: TaskBody, requester: Requester, id: TaskId, isDate: string -> bool)
    requires NewTask(b, requester.id, isDate).Some?
    ensures var t := NewTask(b, requester.id, isDate).value;
      id in GetTasks(tasks[id := t], requester.id) && GetTasks(tasks[id := t], requester.id)[id] == t
  {
  }

  /** The task table. Every stored task passed schema validation. */
  class TaskStore {
    var tasks: map<TaskId, Task>

    ghost predicate Valid()
      reads this
    {
      forall id :: id in tasks ==> WellFormed(tasks[id])
    }

    constructor ()
      ensures Valid() && tasks == map[]
    {
      tasks := map[];
    }

    /** `createTask`: insert the validated document under the fresh id the
        store generated. A validation failure, or an id already taken (a
        duplicate-key error), is answered with a 500 and stores nothing. */
    method CreateTask(requester: Requester, body: TaskBody, id: TaskId, isDate: string -> bool) returns (r: Reply<Task>)
      requires Valid()
      modifies this
      ensures Valid()
      ensures r.Ok? <==> id !in old(tasks) && NewTask(body, requester.id, isDate).Some?
      ensures r.Ok? ==> r.value == NewTask(body, requester.id, isDate).value && tasks == old(tasks)[id := r.value]
      ensures r.Ok? ==> r.value.createdBy == requester.id
      ensures !r.Ok? ==> r == Error && tasks == old(tasks)
    {
      var t := NewTask(body, requester.id, isDate);
      if t.None? || id in tasks {
        return Error;
      }
      tasks := tasks[id := t.value];
      r := Ok(t.value);
    }

    /** `updateTask`: 404 for a missing id, then 403 for a requester who is
        neither creator nor admin, then the merge; a merged document that fails
        validation is answered with a 500. Only a saved update whose body
        supplied `assignedTo` emits the legacy event, to that assignee. */
    method UpdateTask(requester: Requester, id: TaskId, body: TaskBody, isDate: string -> bool)
      returns (r: Reply<Task>, event: Option<TaskUpdated>)
      requires Valid()
      modifies this
      ensures Valid()
      ensures id !in old(tasks) ==> r == NotFound && tasks == old(tasks) && event == None
      ensures id in old(tasks) && !CanModify(old(tasks)[id], requester) ==>
        r == Forbidden && tasks == old(tasks) && event == None
      ensures id in old(tasks) && CanModify(old(tasks)[id], requester) && !PatchValid(body, isDate) ==>
        r == Error && tasks == old(tasks) && event == None
      ensures id in old(tasks) && CanModify(old(tasks)[id], requester) && PatchValid(body, isDate) ==>
        && r == Ok(Merge(old(tasks)[id], body, isDate).value)
        && tasks == old(tasks)[id := r.value]
        && r.value.createdBy == old(tasks)[id].createdBy
        && event == (if body.assignedTo.Some?
                     then Some(TaskUpdated(body.assignedTo.value, id, UpdatedMessage(r.value.title)))
                     else None)
    {
      event := None;
      if id !in tasks {
        return NotFound, None;
      }
      var task := tasks[id];
      if !CanModify(task, requester) {
        return Forbidden, None;
      }
      var merged := Merge(task, body, isDate);
      if merged.None? {
        return Error, None;
      }
      tasks := tasks[id := merged.value];
      r := Ok(merged.value);
      if body.assignedTo.Some? {
        event := Some(TaskUpdated(body.assignedTo.value, id, UpdatedMessage(merged.value.title)));
      }
    }

    /** `deleteTask`: 404 for a missing id, then 403 for a requester who is
        neither creator nor admin; otherwise exactly that task is removed. */
    method DeleteTask(requester: Requester, id: TaskId) returns (r: Reply<()>)
      requires Valid()
      modifies this
      ensures Valid()
      ensures id !in old(tasks) ==> r == NotFound && tasks == old(tasks)
      ensures id in old(tasks) && !CanModify(old(tasks)[id], requester) ==> r == Forbidden && tasks == old(tasks)
      ensures id in old(tasks) && CanModify(old(tasks)[id], requester) ==>
        && r == Ok(())
        && tasks.Keys == old(tasks).Keys - {id}
        && forall k :: k in tasks ==> tasks[k] == old(tasks)[k]
    {
      if id !in tasks {
        return NotFound;
      }
      if !CanModify(tasks[id], requester) {
        return Forbidden;
      }
      tasks := tasks - {id};
      r := Ok(());
    }
  }
}
