/** The task document of backend/models/Task.js: two enumerations with their
    defaults, the required fields, and the optional assignee. */
module TaskModel {
  import opened Common

  datatype Priority = Low | Medium | High
  datatype Status = Pending | InProgress | Completed

  /** Schema defaults, applied when the field is absent on creation. */
  const DefaultPriority: Priority := Medium
  const DefaultStatus: Status := Pending

  /** The stored spelling of each priority. */
  function PriorityName(p: Priority): string
  {
    match p
    case Low => "low"
    case Medium => "medium"
    case High => "high"
  }

  /** The stored spelling of each status. */
  function StatusName(s: Status): string
  {
    match s
    case Pending => "pending"
    case InProgress => "in-progress"
    case Completed => "completed"
  }

  /** The enum validator on `priority`: only the three listed strings are accepted. */
  function ParsePriority(s: string): (r: Option<Priority>)
    ensures r.Some? <==> s == "low" || s == "medium" || s == "high"
    ensures r.Some? ==> PriorityName(r.value) == s
  {
    if s == "low" then Some(Low)
    else if s == "medium" then Some(Medium)
    else if s == "high" then Some(High)
    else None
  }

  /** The enum validator on `status`: only the three listed strings are accepted. */
  function ParseStatus(s: string): (r: Option<Status>)
    ensures r.Some? <==> s == "pending" || s == "in-progress" || s == "completed"
    ensures r.Some? ==> StatusName(r.value) == s
  {
    if s == "pending" then Some(Pending)
    else if s == "in-progress" then Some(InProgress)
    else if s == "completed" then Some(Completed)
    else None
  }

  /** Every enum value is accepted back by its validator: the stored spelling
      and the enum are in one-to-one correspondence. */
  lemma EnumRoundTrip(p: Priority, s: Status)
    ensures ParsePriority(PriorityName(p)) == Some(p)
    ensures ParseStatus(StatusName(s)) == Some(s)
  {
  }

  /** A stored task. `priority` and `status` can only hold enum values;
      `description` keeps the text the client sent, and `dueDate` the text
      that passed the `Date` cast; the assignee is optional; `createdBy` is
      always present. */
  datatype Task = Task(
    title: string,
    description: Option<string>,
    dueDate: Option<string>,
    priority: Priority,
    status: Status,
    createdBy: UserId,
    assignedTo: Option<UserId>)

  /** What the schema's `required` on `title` demands of a saved document:
      Mongoose's required check refuses a missing and an empty string alike. */
  predicate WellFormed(t: Task)
  {
    t.title != ""
  }
}
