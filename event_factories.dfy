/** The event factory: one constructor per kind of event, each fixing the
    status, category and capacity of its kind and deriving the end time from
    a duration. `newId` is the id the database assigns, `now` the insert time. */
module EventFactories {
  import opened Common
  import opened Models

  /** create_draft. Its signature takes no dates: they can only arrive
      through the extra keyword arguments, and without them the insert fails. */
  function CreateDraft(title: string, organizer: UserId, newId: EventId, now: Instant,
                       description: string := "", location: string := "",
                       startsAt: Option<Instant> := None, endsAt: Option<Instant> := None): (r: Result<Event, string>)
    ensures r.Success? <==> startsAt.Some? && endsAt.Some?
    ensures r.Success? ==>
              r.value.status == DRAFT && r.value.title == title && r.value.organizer == organizer
              && r.value.description == description && r.value.location == location
              && r.value.capacity == None && r.value.category == ""
  {
    if startsAt.None? || endsAt.None? then Failure(DATES_REQUIRED)
    else Success(Event(newId, title, description, location, startsAt.value, endsAt.value, DRAFT,
                       None, "", organizer, now))
  }

  function CreatePublished(title: string, organizer: UserId, startsAt: Instant, endsAt: Instant,
                           location: string, newId: EventId, now: Instant,
                           description: string := "", capacity: Option<nat> := None): (e: Event)
    ensures e.status == PUBLISHED && e.startsAt == startsAt && e.endsAt == endsAt
    ensures e.title == title && e.organizer == organizer && e.location == location
    ensures e.capacity == capacity && e.category == ""
  {
    Event(newId, title, description, location, startsAt, endsAt, PUBLISHED, capacity, "", organizer, now)
  }

  function CreateConference(title: string, organizer: UserId, startsAt: Instant, newId: EventId, now: Instant,
                            durationDays: int := 1, location: string := "", capacity: Option<nat> := None): (e: Event)
    ensures e.status == PUBLISHED && e.category == CONFERENCE_CATEGORY && e.capacity == capacity
    ensures e.startsAt == startsAt && e.endsAt - e.startsAt == durationDays * DAY
  {
    Event(newId, title, "", location, startsAt, startsAt + durationDays * DAY, PUBLISHED, capacity,
          CONFERENCE_CATEGORY, organizer, now)
  }

  function CreateWorkshop(title: string, organizer: UserId, startsAt: Instant, newId: EventId, now: Instant,
                          durationHours: int := 2, location: string := "", capacity: nat := 20): (e: Event)
    ensures e.status == PUBLISHED && e.category == WORKSHOP_CATEGORY && e.capacity == Some(capacity)
    ensures e.startsAt == startsAt && e.endsAt - e.startsAt == durationHours * HOUR
  {
    Event(newId, title, "", location, startsAt, startsAt + durationHours * HOUR, PUBLISHED, Some(capacity),
          WORKSHOP_CATEGORY, organizer, now)
  }

  function CreateMeetup(title: string, organizer: UserId, startsAt: Instant, newId: EventId, now: Instant,
                        location: string := ""): (e: Event)
    ensures e.status == PUBLISHED && e.category == MEETUP_CATEGORY && e.capacity == None
    ensures e.startsAt == startsAt && e.endsAt - e.startsAt == 3 * HOUR
  {
    Event(newId, title, "", location, startsAt, startsAt + 3 * HOUR, PUBLISHED, None, MEETUP_CATEGORY, organizer, now)
  }

  /** create_quick_event: a draft starting `daysFromNow` days after `now`. */
  function CreateQuickEvent(title: string, organizer: UserId, newId: EventId, now: Instant,
                            daysFromNow: int := 7): (e: Event)
    ensures e.status == DRAFT
    ensures e.startsAt - now == daysFromNow * DAY && e.endsAt - e.startsAt == 2 * HOUR
  {
    var startsAt := now + daysFromNow * DAY;
    Event(newId, title, "", "", startsAt, startsAt + 2 * HOUR, DRAFT, None, "", organizer, now)
  }

  /** With the default arguments: one day, two hours, a week ahead. */
  lemma DefaultDurations(title: string, organizer: UserId, startsAt: Instant, newId: EventId, now: Instant)
    ensures CreateConference(title, organizer, startsAt, newId, now).endsAt == startsAt + DAY
    ensures CreateWorkshop(title, organizer, startsAt, newId, now).endsAt == startsAt + 2 * HOUR
    ensures CreateWorkshop(title, organizer, startsAt, newId, now).capacity == Some(20)
    ensures CreateQuickEvent(title, organizer, newId, now).startsAt == now + 7 * DAY
    ensures CreateConference(title, organizer, startsAt, newId, now).capacity == None
  {
  }

  /** Positive durations give events that end after they start. */
  lemma EndsAfterStart(title: string, organizer: UserId, startsAt: Instant, newId: EventId, now: Instant,
                       days: int, hours: int, daysFromNow: int)
    requires days > 0 && hours > 0
    ensures CreateConference(title, organizer, startsAt, newId, now, days).endsAt > startsAt
    ensures CreateWorkshop(title, organizer, startsAt, newId, now, hours).endsAt > startsAt
    ensures CreateMeetup(title, organizer, startsAt, newId, now).endsAt > startsAt
    ensures CreateQuickEvent(title, organizer, newId, now, daysFromNow).endsAt
            > CreateQuickEvent(title, organizer, newId, now, daysFromNow).startsAt
  {
  }
}
