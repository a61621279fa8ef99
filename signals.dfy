/** The signal handlers: the pre-save snapshot of an event's status, the
    post-save cancellation fan-out, and the organizer notices written when an
    RSVP is created or deleted. */
module Signals {
  import opened Common
  import opened Models
  import NotificationServices
  import NotificationFactories

  /** event_pre_save: the stored status of the row being saved, or None for
      an instance without a (truthy) primary key or whose row does not exist. */
  function PreviousStatus(pk: Option<EventId>, stored: map<EventId, Event>): Option<string>
  {
    if pk.Some? && pk.value != 0 && pk.value in stored then Some(stored[pk.value].status) else None
  }

  /** The guard of event_post_save: an update, from a non-empty status other
      than cancelled, to cancelled. */
  predicate FiresCancellation(created: bool, previous: Option<string>, status: string)
  {
    !created && previous.Some? && previous.value != "" && previous.value != CANCELLED && status == CANCELLED
  }

  /** event_post_save: Some(count) when the cancellation notices were sent. */
  method EventPostSave(table: NotificationTable, rsvps: seq<Rsvp>, instance: Event,
                       created: bool, previous: Option<string>, now: Instant)
    returns (notified: Option<nat>)
    modifies table
    ensures notified.Some? <==> FiresCancellation(created, previous, instance.status)
    ensures notified.Some? ==>
              notified.value == |NotificationServices.Recipients(rsvps, instance)|
              && table.rows == old(table.rows)
                 + NotificationServices.FanOut(NotificationServices.Recipients(rsvps, instance), instance.id,
                                               EventCancelled,
                                               NotificationFactories.CancelledMessage(instance.title, None), now)
    ensures notified.None? ==> table.rows == old(table.rows)
  {
    if created {
      return None;
    }
    if previous.Some? && previous.value != "" && previous.value != CANCELLED && instance.status == CANCELLED {
      var count := NotificationServices.CreateEventCancelledNotification(table, rsvps, instance, now);
      return Some(count);
    }
    return None;
  }

  /** The row a save writes: the instance's own primary key, or the fresh id
      the database assigns to an instance without one. */
  function SavedKey(pk: Option<EventId>, freshId: EventId): EventId
  {
    if pk.Some? then pk.value else freshId
  }

  /** Event.save() with both handlers around it: snapshot, write, post-save.
      The save is an insert (created) unless the row already exists. */
  method SaveEvent(stored: map<EventId, Event>, table: NotificationTable, rsvps: seq<Rsvp>,
                   instance: Event, pk: Option<EventId>, freshId: EventId, now: Instant)
    returns (newStored: map<EventId, Event>, notified: Option<nat>)
    requires pk.None? ==> freshId !in stored
    modifies table
    ensures newStored == stored[SavedKey(pk, freshId) := instance.(id := SavedKey(pk, freshId))]
    ensures notified.Some? <==>
              pk.Some? && pk.value != 0 && pk.value in stored
              && stored[pk.value].status != "" && stored[pk.value].status != CANCELLED
              && instance.status == CANCELLED
    ensures notified.None? ==> table.rows == old(table.rows)
    ensures notified.Some? ==>
              table.rows == old(table.rows)
                 + NotificationServices.FanOut(
                     NotificationServices.Recipients(rsvps, instance.(id := pk.value)), pk.value, EventCancelled,
                     NotificationFactories.CancelledMessage(instance.title, None), now)
  {
    var previous := PreviousStatus(pk, stored);
    var key := SavedKey(pk, freshId);
    var created := key !in stored;
    var row := instance.(id := key);
    newStored := stored[key := row];
    notified := EventPostSave(table, rsvps, row, created, previous, now);
  }

  /** Saving a cancelled event twice: whatever the first save did, the second
      finds the stored status already cancelled and sends nothing. */
  method SaveCancelledTwice(stored: map<EventId, Event>, table: NotificationTable, rsvps: seq<Rsvp>,
                            instance: Event, pk: Option<EventId>, freshId: EventId, now: Instant)
    returns (first: Option<nat>, second: Option<nat>)
    requires instance.status == CANCELLED
    requires pk.None? ==> freshId !in stored
    modifies table
    ensures second.None?
  {
    var afterFirst, afterSecond;
    afterFirst, first := SaveEvent(stored, table, rsvps, instance, pk, freshId, now);
    var key := SavedKey(pk, freshId);
    afterSecond, second := SaveEvent(afterFirst, table, rsvps, instance, Some(key), freshId, now);
  }

  /** The guard never fires for a new event or a non-cancel status. */
  lemma OnlyCancellingUpdatesFire(created: bool, previous: Option<string>, status: string)
    ensures created ==> !FiresCancellation(created, previous, status)
    ensures status != CANCELLED ==> !FiresCancellation(created, previous, status)
    ensures previous == Some(CANCELLED) ==> !FiresCancellation(created, previous, status)
  {
  }

  /** rsvp_created: one RSVP_CONFIRMED notice to the organizer, on insert only. */
  method RsvpCreated(table: NotificationTable, rsvp: Rsvp, event: Event, usernames: map<UserId, string>,
                     created: bool, now: Instant)
    requires rsvp.event == event.id && rsvp.user in usernames
    modifies table
    ensures created ==>
              table.rows == old(table.rows)
                 + [NewNotification(event.organizer, event.id, RsvpConfirmed,
                                    NotificationFactories.RsvpConfirmedMessage(usernames[rsvp.user], event.title), now)]
    ensures !created ==> table.rows == old(table.rows)
  {
    if created {
      var message := "Користувач " + usernames[rsvp.user] + " зареєструвався на подію '" + event.title + "'";
      table.Create(NewNotification(event.organizer, event.id, RsvpConfirmed, message, now));
    }
  }

  /** rsvp_deleted: one RSVP_CANCELLED notice to the organizer. */
  method RsvpDeleted(table: NotificationTable, rsvp: Rsvp, event: Event, usernames: map<UserId, string>,
                     now: Instant)
    requires rsvp.event == event.id && rsvp.user in usernames
    modifies table
    ensures table.rows == old(table.rows)
              + [NewNotification(event.organizer, event.id, RsvpCancelled,
                                 NotificationFactories.RsvpCancelledMessage(usernames[rsvp.user], event.title), now)]
  {
    var message := "Користувач " + usernames[rsvp.user] + " скасував реєстрацію на подію '" + event.title + "'";
    table.Create(NewNotification(event.organizer, event.id, RsvpCancelled, message, now));
  }

  /** The handlers' RSVP notices carry the same text the RSVP factories render. */
  lemma RsvpNoticesMatchFactories(event: Event, username: string)
    ensures NotificationFactories.CreateMessage(
              NotificationFactories.RsvpConfirmedFactory,
              NotificationFactories.EMPTY_CONTEXT.(event := Some(event), participant := Some(username)))
            == Some(NotificationFactories.RsvpConfirmedMessage(username, event.title))
    ensures NotificationFactories.CreateMessage(
              NotificationFactories.RsvpCancelledFactory,
              NotificationFactories.EMPTY_CONTEXT.(event := Some(event), participant := Some(username)))
            == Some(NotificationFactories.RsvpCancelledMessage(username, event.title))
  {
  }
}
