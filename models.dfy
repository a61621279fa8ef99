/** The persistent entities: events, RSVPs and notifications, and the
    notification table that the signal handlers, services and views write. */
module Models {
  import opened Common

  type UserId = nat
  type EventId = nat

  // Event.status values (the stored column is free text).
  const DRAFT: string := "draft"
  const PUBLISHED: string := "published"
  const CANCELLED: string := "cancelled"
  const ARCHIVED: string := "archived"

  /** An event row. Latitude, longitude and updated_at are not modelled;
      capacity comes from the migration that added it (null = unlimited). */
  datatype Event = Event(
    id: EventId,
    title: string,
    description: string,
    location: string,
    startsAt: Instant,
    endsAt: Instant,
    status: string,
    capacity: Option<nat>,
    category: string,
    organizer: UserId,
    createdAt: Instant)

  // Event.category values the factories and builders set.
  const CONFERENCE_CATEGORY: string := "Конференція"
  const WORKSHOP_CATEGORY: string := "Майстер-клас"
  const MEETUP_CATEGORY: string := "Зустріч"

  /** The database refuses an event row without start or end time. */
  const DATES_REQUIRED: string := "NOT NULL constraint failed: events_event.starts_at"

  /** The RSVP status that counts as attending; also the column default. */
  const GOING: string := "going"

  datatype Rsvp = Rsvp(id: nat, user: UserId, event: EventId, status: string, createdAt: Instant)

  /** The six notification kinds the code uses. */
  datatype NotificationType =
    | EventUpdated
    | EventCancelled
    | EventTimeChanged
    | EventLocationChanged
    | RsvpConfirmed
    | RsvpCancelled

  /** The value stored in the notification_type column. */
  function TypeCode(t: NotificationType): string
  {
    match t
    case EventUpdated => "event_updated"
    case EventCancelled => "event_cancelled"
    case EventTimeChanged => "event_time_changed"
    case EventLocationChanged => "event_location_changed"
    case RsvpConfirmed => "rsvp_confirmed"
    case RsvpCancelled => "rsvp_cancelled"
  }

  lemma TypeCodeInjective(s: NotificationType, t: NotificationType)
    requires TypeCode(s) == TypeCode(t)
    ensures s == t
  {
  }

  /** A notification row; its id is its position in the table. */
  datatype Notification = Notification(
    user: UserId,
    event: EventId,
    ntype: NotificationType,
    message: string,
    isRead: bool,
    createdAt: Instant)

  /** A freshly written notification: unread, stamped with the time of writing. */
  function NewNotification(user: UserId, event: EventId, ntype: NotificationType,
                           message: string, now: Instant): Notification
  {
    Notification(user, event, ntype, message, false, now)
  }

  /** The rows after `filter(id__in=ids).update(is_read=True)`. */
  function ReadWhere(rows: seq<Notification>, ids: set<nat>): (r: seq<Notification>)
    ensures |r| == |rows|
  {
    seq(|rows|, k requires 0 <= k < |rows| => if k in ids then rows[k].(isRead := true) else rows[k])
  }

  /** The notification table. Rows are only appended or have their read flag
      set; none is deleted by the code modelled here. */
  class NotificationTable {
    var rows: seq<Notification>

    constructor ()
      ensures rows == []
    {
      rows := [];
    }

    /** Notification.objects.create */
    method Create(n: Notification)
      modifies this
      ensures rows == old(rows) + [n]
    {
      rows := rows + [n];
    }

    /** Notification.objects.bulk_create */
    method BulkCreate(ns: seq<Notification>)
      modifies this
      ensures rows == old(rows) + ns
    {
      rows := rows + ns;
    }

    /** A queryset `update(is_read=True)` on the rows with the given ids. */
    method MarkRead(ids: set<nat>)
      modifies this
      ensures rows == ReadWhere(old(rows), ids)
    {
      rows := ReadWhere(rows, ids);
    }
  }
}
