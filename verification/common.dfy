/** Values shared by the task, notification and auth controllers: document
    identifiers, the authenticated requester, and the reply a handler sends. */
module Common {

  datatype Option<+T> = None | Some(value: T)

  /** MongoDB ObjectIds, abstracted to naturals. */
  type UserId = nat
  type TaskId = nat
  type NotificationId = nat

  /** The roles an account may hold in the user directory. */
  datatype Role = Admin | Manager | User

  /** The authenticated caller (`req.user`): its id and its stored role. */
  datatype Requester = Requester(id: UserId, role: Role)

  /** What a handler answers: a value with a 2xx status, or one of the error
      statuses it sends (400, 401, 403, 404, and 500 from the catch blocks). */
  datatype Reply<+T> = Ok(value: T) | BadRequest | Unauthorized | Forbidden | NotFound | Error
}
