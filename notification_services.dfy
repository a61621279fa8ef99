/** NotificationService: fan-out of one message to an event's participants,
    and the update and cancellation notices built on it. */
module NotificationServices {
  import opened Common
  import opened Models
  import NotificationFactories

  /** An RSVP whose user is notified about the event: attending, for this
      event, and not the organizer. */
  predicate IsParticipant(r: Rsvp, event: Event)
  {
    r.event == event.id && r.status == GOING && r.user != event.organizer
  }

  /** The participants query, in table order. */
  function Participants(rsvps: seq<Rsvp>, event: Event): (r: seq<Rsvp>)
    ensures |r| <= |rsvps|
    ensures forall x :: x in r <==> x in rsvps && IsParticipant(x, event)
  {
    if rsvps == [] then []
    else (if IsParticipant(rsvps[0], event) then [rsvps[0]] else []) + Participants(rsvps[1..], event)
  }

  /** The users the participants query yields, one per RSVP row. */
  function Recipients(rsvps: seq<Rsvp>, event: Event): (r: seq<UserId>)
    ensures |r| == |Participants(rsvps, event)|
  {
    var ps := Participants(rsvps, event);
    seq(|ps|, i requires 0 <= i < |ps| => ps[i].user)
  }

  /** A user is notified exactly when they hold an attending RSVP for the
      event and are not its organizer. */
  lemma RecipientsAreAttendingNonOrganizers(rsvps: seq<Rsvp>, event: Event, u: UserId)
    ensures u in Recipients(rsvps, event)
            <==> u != event.organizer && exists r :: r in rsvps && r.user == u && IsParticipant(r, event)
  {
    var ps := Participants(rsvps, event);
    if u in Recipients(rsvps, event) {
      var i :| 0 <= i < |ps| && Recipients(rsvps, event)[i] == u;
      assert ps[i] in ps;
    }
    if exists r :: r in rsvps && r.user == u && IsParticipant(r, event) {
      var r :| r in rsvps && r.user == u && IsParticipant(r, event);
      assert r in ps;
      var i :| 0 <= i < |ps| && ps[i] == r;
      assert Recipients(rsvps, event)[i] == u;
    }
  }

  /** The organizer is never notified by the fan-out. */
  lemma OrganizerNeverNotified(rsvps: seq<Rsvp>, event: Event)
    ensures event.organizer !in Recipients(rsvps, event)
  {
    RecipientsAreAttendingNonOrganizers(rsvps, event, event.organizer);
  }

  /** One unread row per recipient, all with the same type and message. */
  function FanOut(users: seq<UserId>, event: EventId, ntype: NotificationType,
                  message: string, now: Instant): (r: seq<Notification>)
    ensures |r| == |users|
  {
    seq(|users|, i requires 0 <= i < |users| => NewNotification(users[i], event, ntype, message, now))
  }

  lemma FanOutRows(users: seq<UserId>, event: EventId, ntype: NotificationType, message: string, now: Instant)
    ensures forall i :: 0 <= i < |users| ==>
              FanOut(users, event, ntype, message, now)[i].user == users[i]
              && FanOut(users, event, ntype, message, now)[i].ntype == ntype
              && FanOut(users, event, ntype, message, now)[i].message == message
              && !FanOut(users, event, ntype, message, now)[i].isRead
  {
  }

  /** NotificationService.notify_event_participants */
  method NotifyEventParticipants(table: NotificationTable, rsvps: seq<Rsvp>, event: Event,
                                 ntype: NotificationType, message: string, now: Instant)
    returns (count: nat)
    modifies table
    ensures count == |Recipients(rsvps, event)|
    ensures table.rows == old(table.rows) + FanOut(Recipients(rsvps, event), event.id, ntype, message, now)
  {
    var participants := Participants(rsvps, event);
    var notifications: seq<Notification> := [];
    var i := 0;
    while i < |participants|
      invariant 0 <= i <= |participants|
      invariant |notifications| == i
      invariant forall k :: 0 <= k < i ==>
                  notifications[k] == NewNotification(participants[k].user, event.id, ntype, message, now)
    {
      notifications := notifications + [NewNotification(participants[i].user, event.id, ntype, message, now)];
      i := i + 1;
    }
    assert notifications == FanOut(Recipients(rsvps, event), event.id, ntype, message, now);
    if |notifications| > 0 {
      table.BulkCreate(notifications);
    }
    return |notifications|;
  }

  /** The old_event_data dictionary; a key that is absent is None. */
  datatype OldEventData = OldEventData(
    startsAt: Option<Instant>,
    endsAt: Option<Instant>,
    location: Option<string>,
    title: Option<string>,
    description: Option<string>)

  predicate TimeDiffers(event: Event, previous: OldEventData)
  {
    previous.startsAt != Some(event.startsAt) || previous.endsAt != Some(event.endsAt)
  }

  predicate LocationDiffers(event: Event, previous: OldEventData) { previous.location != Some(event.location) }
  predicate TitleDiffers(event: Event, previous: OldEventData) { previous.title != Some(event.title) }
  predicate DescriptionDiffers(event: Event, previous: OldEventData) { previous.description != Some(event.description) }

  /** Without an old start time, formatting it raises AttributeError:
      the time check always fires then, because None differs from any start. */
  predicate MissingOldStart(previous: OldEventData)
  {
    previous.startsAt.None?
  }

  const MISSING_START_ERROR: string := "'NoneType' object has no attribute 'strftime'"

  /** The notification type of an update notice: a time change wins, then a
      location change; anything else is a plain update. */
  function UpdateType(event: Event, previous: OldEventData): NotificationType
  {
    if TimeDiffers(event, previous) then EventTimeChanged
    else if LocationDiffers(event, previous) then EventLocationChanged
    else EventUpdated
  }

  function TimeLine(event: Event, previous: OldEventData): string
    requires previous.startsAt.Some?
  {
    "Час події змінено з " + FormatInstant(previous.startsAt.value) + " на " + FormatInstant(event.startsAt)
  }

  function LocationLine(event: Event, previous: OldEventData): string
  {
    "Локацію змінено з '" + NotificationFactories.OrNotSpecified(previous.location)
      + "' на '" + NotificationFactories.OrNotSpecified(Some(event.location)) + "'"
  }

  function TitleLine(event: Event): string
  {
    "Назву змінено на '" + event.title + "'"
  }

  const DESCRIPTION_LINE: string := "Опис події оновлено"

  function TimeLines(event: Event, previous: OldEventData): seq<string>
    requires !MissingOldStart(previous)
  {
    if TimeDiffers(event, previous) then [TimeLine(event, previous)] else []
  }

  function LocationLines(event: Event, previous: OldEventData): seq<string>
  {
    if LocationDiffers(event, previous) then [LocationLine(event, previous)] else []
  }

  function TitleLines(event: Event, previous: OldEventData): seq<string>
  {
    if TitleDiffers(event, previous) then [TitleLine(event)] else []
  }

  function DescriptionLines(event: Event, previous: OldEventData): seq<string>
  {
    if DescriptionDiffers(event, previous) then [DESCRIPTION_LINE] else []
  }

  /** The change lines, in the order time, location, title, description. */
  function ChangeLines(event: Event, previous: OldEventData): seq<string>
    requires !MissingOldStart(previous)
  {
    TimeLines(event, previous) + LocationLines(event, previous)
    + TitleLines(event, previous) + DescriptionLines(event, previous)
  }

  /** NotificationService.create_event_update_notification: Success(number of
      notifications written), or Failure when the old start time is missing. */
  method CreateEventUpdateNotification(table: NotificationTable, rsvps: seq<Rsvp>, event: Event,
                                       previous: OldEventData, now: Instant)
    returns (r: Result<nat, string>)
    modifies table
    ensures MissingOldStart(previous) ==> r == Failure(MISSING_START_ERROR) && table.rows == old(table.rows)
    ensures !MissingOldStart(previous) && ChangeLines(event, previous) == [] ==>
              r == Success(0) && table.rows == old(table.rows)
    ensures !MissingOldStart(previous) && ChangeLines(event, previous) != [] ==>
              r == Success(|Recipients(rsvps, event)|)
              && table.rows == old(table.rows)
                 + FanOut(Recipients(rsvps, event), event.id, UpdateType(event, previous),
                          NotificationFactories.UpdatedMessage(event.title, ChangeLines(event, previous)), now)
  {
    var changes: seq<string> := [];
    var ntype := EventUpdated;
    if previous.startsAt != Some(event.startsAt) || previous.endsAt != Some(event.endsAt) {
      if previous.startsAt.None? {
        return Failure(MISSING_START_ERROR);
      }
      var oldStart := FormatInstant(previous.startsAt.value);
      var newStart := FormatInstant(event.startsAt);
      changes := changes + ["Час події змінено з " + oldStart + " на " + newStart];
      ntype := EventTimeChanged;
    }
    assert changes == TimeLines(event, previous);
    ghost var afterTime := changes;
    if previous.location != Some(event.location) {
      var oldLoc := if previous.location.Some? && previous.location.value != "" then previous.location.value
                    else "не вказано";
      var newLoc := if event.location != "" then event.location else "не вказано";
      assert oldLoc == NotificationFactories.OrNotSpecified(previous.location);
      assert newLoc == NotificationFactories.OrNotSpecified(Some(event.location));
      changes := changes + ["Локацію змінено з '" + oldLoc + "' на '" + newLoc + "'"];
      if ntype == EventUpdated {
        ntype := EventLocationChanged;
      }
    }
    assert changes == afterTime + LocationLines(event, previous);
    assert ntype == UpdateType(event, previous);
    ghost var afterLocation := changes;
    if previous.title != Some(event.title) {
      changes := changes + ["Назву змінено на '" + event.title + "'"];
    }
    assert changes == afterLocation + TitleLines(event, previous);
    ghost var afterTitle := changes;
    if previous.description != Some(event.description) {
      changes := changes + ["Опис події оновлено"];
    }
    assert changes == afterTitle + DescriptionLines(event, previous);
    assert changes == ChangeLines(event, previous);
    if changes != [] {
      var message := NotificationFactories.UpdatedSentence(event.title) + ":" + NotificationFactories.Bullets(changes);
      assert message == NotificationFactories.UpdatedMessage(event.title, changes);
      var count := NotifyEventParticipants(table, rsvps, event, ntype, message, now);
      return Success(count);
    }
    return Success(0);
  }

  /** An update notice is sent exactly when some compared field differs. */
  lemma ChangeLinesEmptyIff(event: Event, previous: OldEventData)
    requires !MissingOldStart(previous)
    ensures ChangeLines(event, previous) == []
            <==> !TimeDiffers(event, previous) && !LocationDiffers(event, previous)
                 && !TitleDiffers(event, previous) && !DescriptionDiffers(event, previous)
  {
  }

  /** A time change gives the time-changed type even when the location also
      changed; a location change alone gives the location-changed type. */
  lemma UpdateTypePrecedence(event: Event, previous: OldEventData)
    ensures TimeDiffers(event, previous) ==> UpdateType(event, previous) == EventTimeChanged
    ensures !TimeDiffers(event, previous) && LocationDiffers(event, previous)
            ==> UpdateType(event, previous) == EventLocationChanged
    ensures !TimeDiffers(event, previous) && !LocationDiffers(event, previous)
            ==> UpdateType(event, previous) == EventUpdated
  {
  }

  /** Title and description changes never decide the type. */
  lemma TitleAndDescriptionDoNotAffectType(event: Event, previous: OldEventData,
                                           title: Option<string>, description: Option<string>)
    ensures UpdateType(event, previous.(title := title, description := description)) == UpdateType(event, previous)
  {
  }

  /** Each change line is shown in the message on its own bullet. */
  lemma UpdateMessageListsEveryChange(event: Event, previous: OldEventData, i: nat)
    requires !MissingOldStart(previous)
    requires i < |ChangeLines(event, previous)|
    ensures Contains(NotificationFactories.UpdatedMessage(event.title, ChangeLines(event, previous)),
                     "\n• " + ChangeLines(event, previous)[i])
  {
    NotificationFactories.UpdatedMessageListsChange(event.title, ChangeLines(event, previous), i);
  }

  /** A changed title is announced with the new title. */
  lemma TitleChangeAnnounced(event: Event, previous: OldEventData)
    requires !MissingOldStart(previous) && TitleDiffers(event, previous)
    ensures TitleLine(event) in ChangeLines(event, previous)
  {
  }

  /** NotificationService.create_event_cancelled_notification */
  method CreateEventCancelledNotification(table: NotificationTable, rsvps: seq<Rsvp>, event: Event, now: Instant)
    returns (count: nat)
    modifies table
    ensures count == |Recipients(rsvps, event)|
    ensures table.rows == old(table.rows)
              + FanOut(Recipients(rsvps, event), event.id, EventCancelled,
                       NotificationFactories.CancelledMessage(event.title, None), now)
  {
    var message := "Подія '" + event.title + "' була скасована організатором.";
    assert message == NotificationFactories.CancelledMessage(event.title, None);
    count := NotifyEventParticipants(table, rsvps, event, EventCancelled, message, now);
  }
}
