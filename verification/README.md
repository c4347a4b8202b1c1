# Task backend: controllers over three tables

This project is a Dafny model of the decision logic of a small Express/Mongoose
task-management backend. It covers three parts:

- **The task service** (`backend/controllers/taskController.js`, over the
  document shape of `backend/models/Task.js`). `createTask` stamps the
  requester as creator. `getTasks` lists the tasks the requester created or
  is assigned to. `updateTask` and `deleteTask` answer 404 for a missing task
  before they check the creator-or-admin rule (403). `updateTask` merges the
  request body over the stored task field by field with JavaScript's `||`.
- **The notification queries** (`backend/controllers/notificationController.js`).
  These are an owner-scoped newest-first listing, mark-one-read, mark-all-read
  and delete over the notification table. The owner field is `userId` and the
  flag is `read`, exactly as the controller's filters name them.
- **Registration and login** (`backend/controllers/authController.js`).
  Registration checks for a duplicate e-mail and passes the requested role
  through the `admin`/`manager`/`user` whitelist. Login answers 401 for an
  unknown e-mail or a failed password check.

Each table is a class with a `map` field (`TaskStore.tasks`,
`NotificationTable.rows`, `UserDirectory.users`). Each handler that changes a
table is a method. Its `ensures` gives the new table and the reply in terms of
the old table. Filters, the merge and the role whitelist are functions, and
lemmas beside them state their properties. A handler's HTTP answer is a
`Reply`:

- `Ok` is 200, or 201 for create and register.
- `BadRequest` is 400, `Unauthorized` 401, `Forbidden` 403 and `NotFound` 404.
- `Error` is the 500 that a handler's catch block sends.

Modelling choices:

- Body strings are `Option<string>`. `None` is an absent key. `""` is a
  present but falsy value, so `Truthy` is exactly JavaScript's truthiness for
  these fields. A body `assignedTo` is `Option<UserId>`, where `None` means
  absent or falsy.
- A failed schema validation sends a 500 from the handler's catch block, so
  it is modelled as `Error`. Examples are a create without a title, with a
  priority outside the enum or with a due date that does not cast to a
  `Date`, and an update whose truthy `priority` or `status` is not an enum
  value or whose truthy `dueDate` does not cast. The table is left unchanged
  in each case.
- The store's cast of a due-date string to a `Date` (`dueDate: { type: Date }`)
  is a predicate `isDate` passed to the task operations. Which texts it
  accepts is the store's rule. A due date that passed it is kept as the text
  sent.
- Tokens carry the claims `jwt.sign` puts in them: the user id and role, the
  issue time and the expiry seven days later. The current time in seconds is
  passed to `Register` and `Login` as a parameter.
- New documents get the fresh id the store generated, which is passed to
  `CreateTask` and `Register` as a parameter. A duplicate-key failure on that
  id is answered with `Error`.
- `backend/models/Notification.js` declares a notification `type` enum and
  the fields `user` and `isRead`. `backend/utils/sendNotification.js` creates
  notifications, but none of the controllers modelled here calls it. So no
  task handler creates a notification. The only side effect of a task handler
  is the legacy `taskUpdated` socket event of `updateTask`, which the model
  returns as a value.

## Model

| member | source | states |
|---|---|---|
| TaskModel.ParsePriority | backend/models/Task.js:8 | a priority is accepted exactly when it is `low`, `medium` or `high`, and the accepted value is stored with that spelling |
| TaskModel.ParseStatus | backend/models/Task.js:9 | a status is accepted exactly when it is `pending`, `in-progress` or `completed`, and the accepted value is stored with that spelling |
| TaskModel.EnumRoundTrip | backend/models/Task.js:8-9 | every enum value's stored spelling is accepted back as that same value |
| TaskController.NewTask | backend/controllers/taskController.js:8-18 | a create validates exactly when the title is truthy, any given priority is an enum value and any given due date casts to a `Date`. The document then has `createdBy` equal to the requester whatever the body holds, the body's title, description, due date and assignee (possibly none), status `pending`, priority `medium` when omitted or else the given one, and a non-empty title |
| TaskController.TaskStore.CreateTask | backend/controllers/taskController.js:7-23 | on success exactly the new task is added under the fresh id, with the requester as creator. A failed validation (such as a missing title or a due date that does not cast) or a taken id answers 500 and adds nothing. Every stored task stays well-formed |
| TaskController.GetTasks | backend/controllers/taskController.js:29-35 | the listing holds exactly the tasks whose creator or assignee is the requester, with their stored contents, and no others |
| TaskController.CreatedTaskIsListed | backend/controllers/taskController.js:31-33 | a task the requester has just created appears in the requester's listing |
| TaskController.Merge | backend/controllers/taskController.js:65-72 | the merge saves exactly when every truthy `priority`/`status` in the body is an enum value and a truthy `dueDate` casts to a `Date`. It never changes `createdBy` and it keeps the title non-empty |
| TaskController.MergeFalsyIsIdentity | backend/controllers/taskController.js:65-70 | a body whose every field is falsy leaves the task unchanged |
| TaskController.MergeIdempotent | backend/controllers/taskController.js:65-70 | applying the same body twice gives what applying it once gives |
| TaskController.MergeFieldwise | backend/controllers/taskController.js:65-70 | each field takes the body's value when that is truthy and otherwise keeps the stored value |
| TaskController.TaskStore.UpdateTask | backend/controllers/taskController.js:44-88 | a missing id answers 404 before authorisation is checked. A requester who is neither creator nor admin gets 403. An invalid enum value or a due date that does not cast gets 500. These three leave the table unchanged and emit nothing. Otherwise only that task is replaced by the merge, `createdBy` is kept, and a `taskUpdated` event goes to the body's `assignedTo` exactly when the body supplied one |
| TaskController.TaskStore.DeleteTask | backend/controllers/taskController.js:93-109 | a missing id answers 404 before authorisation is checked, and a requester who is neither creator nor admin gets 403. Both leave the table unchanged. Otherwise exactly that task is removed and every other task is untouched |
| NotificationController.NewestExists | backend/controllers/notificationController.js:7 | every non-empty set of notifications has a member no older than any other, which the newest-first sort picks first |
| NotificationController.NewestFirst | backend/controllers/notificationController.js:7 | the sorted result lists each id of the set exactly once, in non-increasing `createdAt` order |
| NotificationController.GetNotifications | backend/controllers/notificationController.js:5-12 | the listing holds exactly the requester's notifications (owner `userId`), each once, newest first |
| NotificationController.ReadOne | backend/controllers/notificationController.js:18-22 | only the record with that id and owner gets `read` set, and every other record is unchanged |
| NotificationController.ReadOneIdempotent | backend/controllers/notificationController.js:18-22 | marking the same notification read twice gives what marking it once gives |
| NotificationController.MarkAll | backend/controllers/notificationController.js:36 | each of the requester's notifications ends up read with its other fields kept, and other users' notifications are unchanged |
| NotificationController.MarkAllLeavesNoneUnread | backend/controllers/notificationController.js:36 | after mark-all-read none of the requester's notifications is unread |
| NotificationController.MarkAllIdempotent | backend/controllers/notificationController.js:36 | marking all read twice gives what marking all read once gives |
| NotificationController.MarkAllKeepsListing | backend/controllers/notificationController.js:36 | mark-all-read removes none of the requester's notifications |
| NotificationController.NotificationTable.MarkAsRead | backend/controllers/notificationController.js:16-30 | when the id names a record owned by the requester, that record alone gets `read` set and the updated record is returned. A missing id or another user's record answers 404 and changes nothing |
| NotificationController.NotificationTable.MarkAllAsRead | backend/controllers/notificationController.js:34-41 | the table becomes the mark-all-read of the old table, and the reply is always Ok |
| NotificationController.NotificationTable.DeleteNotification | backend/controllers/notificationController.js:45-58 | the record with that id owned by the requester is removed and nothing else is. Otherwise the answer is 404 and the table is unchanged |
| AuthController.RequestedRole | backend/controllers/authController.js:19-20 | the stored role is the requested one when it is `admin`, `manager` or `user`, otherwise `user` |
| AuthController.UserDirectory.Register | backend/controllers/authController.js:5-34 | an e-mail already in the directory answers 400 and adds no user. Otherwise exactly one account is added with the whitelisted role, and the returned session carries the new account's id, name, e-mail and whitelisted role, and a token over that id and role issued now and expiring seven days later. E-mail addresses stay unique |
| AuthController.UserDirectory.Login | backend/controllers/authController.js:38-57 | the reply is Ok exactly when an account has that e-mail and its credential matches, and then the reply carries that account's id, name, e-mail and role, with a token over its id and role issued now and expiring seven days later. Every other case answers 401 |
| AuthController.RegisterThenLogin | backend/controllers/authController.js:5-53 | logging in with a matching credential right after a successful registration returns the registration's id, name, e-mail and role, and a token over the same id and role issued at the login time. The two replies are equal exactly when both tokens are issued in the same second |

## Left out

- NotificationController.GetNotifications: returns the ids of the listed
  documents in order, not the documents. The handler answers with the
  documents stored under those ids. The order among notifications with equal
  `createdAt` is left unspecified, as the store leaves it.
- AuthController.UserDirectory.Login: requires the directory invariant that
  e-mail addresses are unique. Registration keeps this invariant. A directory
  that has duplicate e-mails, which only writes outside registration could
  create, is not modelled.
- AuthController.UserDirectory.Register: takes `name`, `email` and
  `password` as strings that are present in the request body. A body without
  `email` is not modelled. For such a body, what the duplicate-e-mail lookup
  `User.findOne({ email })` matches depends on how the store treats an
  undefined filter value.
- AuthController.UserDirectory.Login: takes `email` and `password` as strings
  that are present in the request body. A body without `email` is not
  modelled. For such a body, what the lookup `User.findOne({ email })` matches
  depends on how the store treats an undefined filter value.
- TaskController.GetTasks: returns the matching tasks as a map keyed by id.
  The store's result order is not modelled, and neither is the `populate`
  step, which replaces the assignee id with the assignee's name and e-mail.
- Mongoose internals: ObjectIds are naturals. Id casting is not modelled, so
  a malformed id string (a cast error, answered with 500) does not occur. The
  `Date` cast of `dueDate` is the abstract predicate `isDate`, and the stored
  value is the text that passed it, not the converted date. A JSON `null` body value is treated like
  an absent key. The schema timestamps are left out. The notifications'
  `createdAt` is kept as an abstract ordered stamp.
- Store failures: apart from validation and duplicate-key failures, the
  generic 500 catch blocks for store failures are not modelled. Requests run
  one after another, and there is no concurrency to model.
- Socket.io delivery: the `taskUpdated` emit is returned as a value, and
  delivering it is not modelled. `backend/utils/socket.js` is not part of this
  model.
- `backend/utils/sendNotification.js` is not part of this model. No handler
  shown here calls it.
- `backend/models/Notification.js` is not part of this model. It declares
  `user` and `isRead`, while the controller reads and writes `userId` and
  `read`. What the store does with those undeclared paths depends on
  strict-mode settings that are not shown.
- Passwords and tokens: a token is represented by its claims `id`, `role`,
  `iat` and `exp`. Its encoding and its signature under `JWT_SECRET` are not
  modelled. `jsonwebtoken` counts the issue time in whole seconds of the
  system clock, and the model takes that time as the parameter `now`. Password hashing and `matchPassword`
  belong to the user model, which is not part of this model. The stored
  credential is compared by a matcher passed to `Login`. The user model's own
  validation is not modelled either.
- Routing, the authentication middleware and server wiring are not part of
  this model. The role filter on the update and delete routes admits every
  role, and the task routes are not mounted by the server.
