/** The notification queries of backend/controllers/notificationController.js:
    every handler is scoped to the requester through the `userId` owner field,
    and the only change a record undergoes is its `read` flag turning true. */
module NotificationController {
  import opened Common

  /** The store's creation timestamp, abstracted to an ordered stamp. */
  type Stamp = nat

  /** A notification as the controller filters it: its owner `userId`, its
      `read` flag and its `createdAt` stamp; `content` stands for every other
      stored field, which no handler reads or changes. */
  datatype Notification = Notification(userId: UserId, read: bool, createdAt: Stamp, content: string)

  /** The ids of the user's notifications: the filter `{ userId: user }`. */
  function Owned(rows: map<NotificationId, Notification>, user: UserId): set<NotificationId>
  {
    set id | id in rows && rows[id].userId == user
  }

  /** `x` is a newest member of `ids`; several may tie. */
  ghost predicate IsNewest(rows: map<NotificationId, Notification>, ids: set<NotificationId>, x: NotificationId)
    requires ids <= rows.Keys
  {
    x in ids && forall y :: y in ids ==> rows[y].createdAt <= rows[x].createdAt
  }

  /** Every non-empty set of notifications has a newest member. */
  lemma {:induction false} NewestExists(rows: map<NotificationId, Notification>, ids: set<NotificationId>)
    requires ids <= rows.Keys && ids != {}
    ensures exists x :: IsNewest(rows, ids, x)
  {
    var y :| y in ids;
    if ids == {y} {
      assert IsNewest(rows, ids, y);
    } else {
      var rest := ids - {y};
      NewestExists(rows, rest);
      var z :| IsNewest(rows, rest, z);
      if rows[y].createdAt <= rows[z].createdAt {
        assert IsNewest(rows, ids, z);
      } else {
        assert IsNewest(rows, ids, y);
      }
    }
  }

  /** The `sort({ createdAt: -1 })` of a result set: each id once, newest
      first. Ties are left in an unspecified order, as the store leaves them. */
  ghost function NewestFirst(rows: map<NotificationId, Notification>, ids: set<NotificationId>): (r: seq<NotificationId>)
    requires ids <= rows.Keys
    ensures forall i :: 0 <= i < |r| ==> r[i] in ids
    ensures forall id :: id in ids ==> id in r
    ensures forall i, j :: 0 <= i < j < |r| ==> r[i] != r[j]
    ensures forall i, j :: 0 <= i < j < |r| ==> rows[r[i]].createdAt >= rows[r[j]].createdAt
    decreases ids
  {
    if ids == {} then []
    else
      NewestExists(rows, ids);
      var x :| IsNewest(rows, ids, x);
      [x] + NewestFirst(rows, ids - {x})
  }

  /** `getNotifications`: the requester's notifications and no others, each
      once, newest first. The handler answers with the documents `rows[id]`
      for the listed ids, in this order. */
  ghost function GetNotifications(rows: map<NotificationId, Notification>, user: UserId): (r: seq<NotificationId>)
    ensures forall id :: id in r <==> id in rows && rows[id].userId == user
    ensures forall i, j :: 0 <= i < j < |r| ==> r[i] != r[j]
    ensures forall i, j :: 0 <= i < j < |r| ==> rows[r[i]].createdAt >= rows[r[j]].createdAt
  {
    NewestFirst(rows, Owned(rows, user))
  }

  /** The table after `markAsRead`: `findOneAndUpdate({ _id: id, userId: user }, { read: true })`. */
  function ReadOne(rows: map<NotificationId, Notification>, user: UserId, id: NotificationId): (r: map<NotificationId, Notification>)
    ensures r.Keys == rows.Keys
    ensures id in rows && rows[id].userId == user ==> r[id].read && r[id] == rows[id].(read := true)
    ensures forall k :: k in rows && (k != id || rows[k].userId != user) ==> r[k] == rows[k]
  {
    if id in rows && rows[id].userId == user then rows[id := rows[id].(read := true)] else rows
  }

  /** Marking one notification read a second time changes nothing more. */
  lemma ReadOneIdempotent(rows: map<NotificationId, Notification>, user: UserId, id: NotificationId)
    ensures ReadOne(ReadOne(rows, user, id), user, id) == ReadOne(rows, user, id)
  {
  }

  /** The table after `markAllAsRead`: `updateMany({ userId: user, read: false }, { read: true })`. */
  function MarkAll(rows: map<NotificationId, Notification>, user: UserId): (r: map<NotificationId, Notification>)
    ensures r.Keys == rows.Keys
    ensures forall id :: id in rows && rows[id].userId == user ==> r[id] == rows[id].(read := true)
    ensures forall id :: id in rows && rows[id].userId != user ==> r[id] == rows[id]
  {
    map id | id in rows :: if rows[id].userId == user && !rows[id].read then rows[id].(read := true) else rows[id]
  }

  /** After `markAllAsRead` none of the user's notifications is unread. */
  lemma MarkAllLeavesNoneUnread(rows: map<NotificationId, Notification>, user: UserId)
    ensures forall id :: id in MarkAll(rows, user) && MarkAll(rows, user)[id].userId == user ==> MarkAll(rows, user)[id].read
  {
  }

  /** Marking all read a second time changes nothing more. */
  lemma MarkAllIdempotent(rows: map<NotificationId, Notification>, user: UserId)
    ensures MarkAll(MarkAll(rows, user), user) == MarkAll(rows, user)
  {
  }

  /** Marking all read keeps every one of the user's notifications: the same ids are listed. */
  lemma MarkAllKeepsListing(rows: map<NotificationId, Notification>, user: UserId)
    ensures Owned(MarkAll(rows, user), user) == Owned(rows, user)
  {
  }

  /** The notification table. */
  class NotificationTable {
    var rows: map<NotificationId, Notification>

    constructor ()
      ensures rows == map[]
    {
      rows := map[];
    }

    /** `markAsRead`: 404 unless the id names one of the requester's
        notifications, which is then returned with `read` set. */
    method MarkAsRead(user: UserId, id: NotificationId) returns (r: Reply<Notification>)
      modifies this
      ensures rows == ReadOne(old(rows), user, id)
      ensures id in old(rows) && old(rows)[id].userId == user ==> r == Ok(old(rows)[id].(read := true))
      ensures !(id in old(rows) && old(rows)[id].userId == user) ==> r == NotFound && rows == old(rows)
    {
      if id in rows && rows[id].userId == user {
        var updated := rows[id].(read := true);
        rows := rows[id := updated];
        r := Ok(updated);
      } else {
        r := NotFound;
      }
    }

    /** `markAllAsRead`: always succeeds. */
    method MarkAllAsRead(user: UserId) returns (r: Reply<()>)
      modifies this
      ensures rows == MarkAll(old(rows), user)
      ensures r == Ok(())
    {
      rows := MarkAll(rows, user);
      r := Ok(());
    }

    /** `deleteNotification`: removes exactly the requester's notification with
        that id; 404 and nothing removed otherwise. */
    method DeleteNotification(user: UserId, id: NotificationId) returns (r: Reply<()>)
      modifies this
      ensures id in old(rows) && old(rows)[id].userId == user ==>
        r == Ok(()) && rows.Keys == old(rows).Keys - {id} && forall k :: k in rows ==> rows[k] == old(rows)[k]
      ensures !(id in old(rows) && old(rows)[id].userId == user) ==> r == NotFound && rows == old(rows)
    {
      if id in rows && rows[id].userId == user {
        rows := rows - {id};
        r := Ok(());
      } else {
        r := NotFound;
      }
    }
  }
}
