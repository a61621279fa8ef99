/** The read-flag updates of the notification pages: the list page marks the
    requester's notifications read, and two endpoints mark one or all. */
module NotificationViews {
  import opened Common
  import opened Models

  /** The requester's notifications, in table order (the page orders them by
      creation time, newest first). */
  function UserRows(rows: seq<Notification>, user: UserId): (r: seq<Notification>)
    ensures forall n :: n in r <==> n in rows && n.user == user
  {
    if rows == [] then []
    else (if rows[0].user == user then [rows[0]] else []) + UserRows(rows[1..], user)
  }

  /** Every notification of `user` read; every other row as it was. */
  function MarkedReadFor(rows: seq<Notification>, user: UserId): (r: seq<Notification>)
    ensures |r| == |rows|
  {
    seq(|rows|, k requires 0 <= k < |rows| => if rows[k].user == user then rows[k].(isRead := true) else rows[k])
  }

  /** Marking read reads every row of the user, leaves other users' rows alone,
      changes no field but is_read, and is idempotent. */
  lemma MarkedReadForEffect(rows: seq<Notification>, user: UserId)
    ensures forall k :: 0 <= k < |rows| && rows[k].user == user ==> MarkedReadFor(rows, user)[k].isRead
    ensures forall k :: 0 <= k < |rows| && rows[k].user != user ==> MarkedReadFor(rows, user)[k] == rows[k]
    ensures forall k :: 0 <= k < |rows| ==>
              MarkedReadFor(rows, user)[k] == rows[k].(isRead := MarkedReadFor(rows, user)[k].isRead)
    ensures MarkedReadFor(MarkedReadFor(rows, user), user) == MarkedReadFor(rows, user)
  {
  }

  predicate UnreadOf(rows: seq<Notification>, user: UserId, k: int)
  {
    0 <= k < |rows| && rows[k].user == user && !rows[k].isRead
  }

  /** Updating just the unread rows of the user has the same effect as
      marking all of them read. */
  lemma ReadingUnreadMarksAll(rows: seq<Notification>, user: UserId, ids: set<nat>)
    requires forall k :: k in ids <==> UnreadOf(rows, user, k)
    ensures ReadWhere(rows, ids) == MarkedReadFor(rows, user)
  {
    forall k | 0 <= k < |rows|
      ensures ReadWhere(rows, ids)[k] == MarkedReadFor(rows, user)[k]
    {
      if rows[k].user == user && rows[k].isRead {
        assert rows[k].(isRead := true) == rows[k];
      }
    }
  }

  /** notifications_list_view: returns the rows the page shows, which were
      fetched before the update and so show their old read flags. */
  method NotificationsListView(table: NotificationTable, user: UserId) returns (shown: seq<Notification>)
    modifies table
    ensures shown == UserRows(old(table.rows), user)
    ensures table.rows == MarkedReadFor(old(table.rows), user)
  {
    var rows := table.rows;
    shown := UserRows(rows, user);
    var unread: set<nat> := {};
    var i := 0;
    while i < |rows|
      invariant 0 <= i <= |rows|
      invariant forall k :: k in unread <==> UnreadOf(rows, user, k) && k < i
    {
      if rows[i].user == user && !rows[i].isRead {
        unread := unread + {i};
      }
      i := i + 1;
    }
    ReadingUnreadMarksAll(rows, user, unread);
    if unread != {} {
      table.MarkRead(unread);
    } else {
      assert ReadWhere(rows, unread) == rows;
    }
  }

  /** mark_notification_read: found (and marked) only when the row exists and
      belongs to the requester; otherwise a 404 and no change. */
  method MarkNotificationRead(table: NotificationTable, pk: nat, user: UserId) returns (found: bool)
    modifies table
    ensures found <==> pk < |old(table.rows)| && old(table.rows)[pk].user == user
    ensures found ==> table.rows == old(table.rows)[pk := old(table.rows)[pk].(isRead := true)]
    ensures !found ==> table.rows == old(table.rows)
  {
    if pk < |table.rows| && table.rows[pk].user == user {
      table.MarkRead({pk});
      return true;
    }
    return false;
  }

  /** mark_all_read: on POST, every unread notification of the requester is
      marked read; any other method changes nothing. */
  method MarkAllRead(table: NotificationTable, user: UserId, isPost: bool)
    modifies table
    ensures isPost ==> table.rows == MarkedReadFor(old(table.rows), user)
    ensures !isPost ==> table.rows == old(table.rows)
  {
    if isPost {
      var rows := table.rows;
      var ids := set k | 0 <= k < |rows| && rows[k].user == user && !rows[k].isRead;
      ReadingUnreadMarksAll(rows, user, ids);
      table.MarkRead(ids);
    }
  }

  /** Marking a single notification twice is the same as marking it once. */
  lemma MarkOneIdempotent(rows: seq<Notification>, pk: nat)
    requires pk < |rows|
    ensures ReadWhere(ReadWhere(rows, {pk}), {pk}) == ReadWhere(rows, {pk})
    ensures ReadWhere(rows, {pk}) == rows[pk := rows[pk].(isRead := true)]
  {
  }
}
