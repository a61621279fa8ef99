/** The personal schedule: the entry record and its dictionary form, the
    filtering and highlighting wrappers around an entry list, and the service
    that builds a user's entries from events and RSVPs. */
module Schedule {
  import opened Common
  import opened Models

  /** ScheduleEntry. */
  datatype ScheduleEntry = ScheduleEntry(
    eventId: nat,
    title: string,
    startsAt: Instant,
    endsAt: Instant,
    status: string,
    location: string,
    description: string,
    isOrganizer: bool,
    hasRsvp: bool,
    highlightReason: string,
    rsvpCount: nat)

  /** The JSON values a schedule dictionary holds. */
  datatype JsonValue = JInt(i: int) | JString(s: string) | JBool(b: bool)

  /** ScheduleEntry.to_dict: instants as text, the highlight reason only when
      set, and no rsvp_count. */
  function ToDict(e: ScheduleEntry): (d: map<string, JsonValue>)
    ensures "highlight_reason" in d <==> e.highlightReason != ""
    ensures "rsvp_count" !in d
    ensures "id" in d && d["id"] == JInt(e.eventId)
  {
    var base := map[
      "id" := JInt(e.eventId),
      "title" := JString(e.title),
      "starts_at" := JString(FormatInstant(e.startsAt)),
      "ends_at" := JString(FormatInstant(e.endsAt)),
      "status" := JString(e.status),
      "location" := JString(e.location),
      "description" := JString(e.description),
      "is_organizer" := JBool(e.isOrganizer),
      "has_rsvp" := JBool(e.hasRsvp)];
    if e.highlightReason != "" then base["highlight_reason" := JString(e.highlightReason)] else base
  }

  function GetString(d: map<string, JsonValue>, key: string): Option<string>
  {
    if key in d && d[key].JString? then Some(d[key].s) else None
  }

  function GetBool(d: map<string, JsonValue>, key: string): Option<bool>
  {
    if key in d && d[key].JBool? then Some(d[key].b) else None
  }

  function GetInstant(d: map<string, JsonValue>, key: string): Option<Instant>
  {
    if key in d && d[key].JString? then ParseInstant(d[key].s) else None
  }

  /** Reads an entry back from its dictionary (the consumer's side); a
      missing highlight reason is "" and the unserialised count is 0. */
  function FromDict(d: map<string, JsonValue>): Option<ScheduleEntry>
  {
    if !("id" in d && d["id"].JInt? && d["id"].i >= 0) then None
    else
      var title := GetString(d, "title");
      var startsAt := GetInstant(d, "starts_at");
      var endsAt := GetInstant(d, "ends_at");
      var status := GetString(d, "status");
      var location := GetString(d, "location");
      var description := GetString(d, "description");
      var isOrganizer := GetBool(d, "is_organizer");
      var hasRsvp := GetBool(d, "has_rsvp");
      var reason := if "highlight_reason" in d then GetString(d, "highlight_reason") else Some("");
      if title.None? || startsAt.None? || endsAt.None? || status.None? || location.None?
         || description.None? || isOrganizer.None? || hasRsvp.None? || reason.None? then None
      else Some(ScheduleEntry(d["id"].i, title.value, startsAt.value, endsAt.value, status.value,
                              location.value, description.value, isOrganizer.value, hasRsvp.value,
                              reason.value, 0))
  }

  /** The dictionary keeps every field except rsvp_count. */
  lemma ToDictRoundTrip(e: ScheduleEntry)
    ensures FromDict(ToDict(e)) == Some(e.(rsvpCount := 0))
  {
    ToDictTexts(e);
    ToDictStart(e);
    ToDictEnd(e);
    ToDictFlags(e);
  }

  lemma ToDictTexts(e: ScheduleEntry)
    ensures GetString(ToDict(e), "title") == Some(e.title)
    ensures GetString(ToDict(e), "status") == Some(e.status)
    ensures GetString(ToDict(e), "location") == Some(e.location)
    ensures GetString(ToDict(e), "description") == Some(e.description)
    ensures "highlight_reason" in ToDict(e) ==> GetString(ToDict(e), "highlight_reason") == Some(e.highlightReason)
  {
  }

  lemma ToDictStart(e: ScheduleEntry)
    ensures GetInstant(ToDict(e), "starts_at") == Some(e.startsAt)
  {
    FormatInstantRoundTrip(e.startsAt);
  }

  lemma ToDictEnd(e: ScheduleEntry)
    ensures GetInstant(ToDict(e), "ends_at") == Some(e.endsAt)
  {
    FormatInstantRoundTrip(e.endsAt);
  }

  lemma ToDictFlags(e: ScheduleEntry)
    ensures GetBool(ToDict(e), "is_organizer") == Some(e.isOrganizer)
    ensures GetBool(ToDict(e), "has_rsvp") == Some(e.hasRsvp)
  {
  }

  // ---------------------------------------------------------------------------
  // FilteredScheduleDecorator
  // ---------------------------------------------------------------------------

  datatype FilterOptions = FilterOptions(onlyUpcoming: bool, onlyOrganizer: bool, onlyPublished: bool)

  const NO_FILTERS: FilterOptions := FilterOptions(false, false, false)

  function Upcoming(now: Instant): ScheduleEntry -> bool { (e: ScheduleEntry) => e.startsAt > now }
  function Organized(): ScheduleEntry -> bool { (e: ScheduleEntry) => e.isOrganizer }
  function Published(): ScheduleEntry -> bool { (e: ScheduleEntry) => e.status == PUBLISHED }
  function Anything(): ScheduleEntry -> bool { (e: ScheduleEntry) => true }

  /** An entry passes every enabled filter. */
  predicate Kept(opts: FilterOptions, now: Instant, e: ScheduleEntry)
  {
    (opts.onlyUpcoming ==> e.startsAt > now)
    && (opts.onlyOrganizer ==> e.isOrganizer)
    && (opts.onlyPublished ==> e.status == PUBLISHED)
  }

  function KeptBy(opts: FilterOptions, now: Instant): ScheduleEntry -> bool
  {
    e => Kept(opts, now, e)
  }

  /** FilteredScheduleDecorator.get_entries: up to three successive
      comprehensions, each run only when its flag is set. */
  function FilterEntries(entries: seq<ScheduleEntry>, opts: FilterOptions, now: Instant): seq<ScheduleEntry>
  {
    var a := if opts.onlyUpcoming then Filter(entries, Upcoming(now)) else entries;
    var b := if opts.onlyOrganizer then Filter(a, Organized()) else a;
    if opts.onlyPublished then Filter(b, Published()) else b
  }

  /** Each stage as a filter: the flag's test, or a test that keeps everything. */
  function Stage(flag: bool, p: ScheduleEntry -> bool): ScheduleEntry -> bool
  {
    if flag then p else Anything()
  }

  lemma StageFilter(s: seq<ScheduleEntry>, flag: bool, p: ScheduleEntry -> bool)
    ensures Filter(s, Stage(flag, p)) == (if flag then Filter(s, p) else s)
  {
    if !flag {
      FilterAll(s, Anything());
    }
  }

  /** The three passes keep exactly the entries that pass all enabled filters,
      in their original order. */
  lemma FilterEntriesIsOneFilter(entries: seq<ScheduleEntry>, opts: FilterOptions, now: Instant)
    ensures FilterEntries(entries, opts, now) == Filter(entries, KeptBy(opts, now))
  {
    var p := Stage(opts.onlyUpcoming, Upcoming(now));
    var q := Stage(opts.onlyOrganizer, Organized());
    var r := Stage(opts.onlyPublished, Published());
    StagesAreTheFilter(entries, opts, now);
    FilterTwice(entries, p, q);
    FilterTwice(entries, Both(p, q), r);
    forall e
      ensures Both(Both(p, q), r)(e) == KeptBy(opts, now)(e)
    {
      assert Both(p, q)(e) == (p(e) && q(e));
      assert Both(Both(p, q), r)(e) == (Both(p, q)(e) && r(e));
    }
    FilterSamePredicate(entries, Both(Both(p, q), r), KeptBy(opts, now));
  }

  lemma StagesAreTheFilter(entries: seq<ScheduleEntry>, opts: FilterOptions, now: Instant)
    ensures FilterEntries(entries, opts, now)
            == Filter(Filter(Filter(entries, Stage(opts.onlyUpcoming, Upcoming(now))),
                                    Stage(opts.onlyOrganizer, Organized())),
                      Stage(opts.onlyPublished, Published()))
  {
    var a := Filter(entries, Stage(opts.onlyUpcoming, Upcoming(now)));
    StageFilter(entries, opts.onlyUpcoming, Upcoming(now));
    var b := Filter(a, Stage(opts.onlyOrganizer, Organized()));
    StageFilter(a, opts.onlyOrganizer, Organized());
    StageFilter(b, opts.onlyPublished, Published());
  }

  /** The filtered list is an order-preserving sub-list of the input that holds
      every input entry passing the filters and nothing else; with no filter
      set it is the input. */
  lemma FilterEntriesSpec(entries: seq<ScheduleEntry>, opts: FilterOptions, now: Instant)
    ensures IsSubsequence(FilterEntries(entries, opts, now), entries)
    ensures forall e :: e in FilterEntries(entries, opts, now) <==> e in entries && Kept(opts, now, e)
    ensures opts == NO_FILTERS ==> FilterEntries(entries, opts, now) == entries
  {
    FilterEntriesIsOneFilter(entries, opts, now);
    FilterIsSubsequence(entries, KeptBy(opts, now));
    assert forall e :: KeptBy(opts, now)(e) == Kept(opts, now, e);
  }

  // ---------------------------------------------------------------------------
  // HighlightedScheduleDecorator
  // ---------------------------------------------------------------------------

  const HIGHLIGHT_SOON: string := "soon"
  const HIGHLIGHT_ORGANIZER: string := "organizer"
  const HIGHLIGHT_POPULAR: string := "popular"
  const POPULAR_THRESHOLD: nat := 5
  const SOON_HOURS: nat := 24

  /** _get_highlight_reason: the mode's name when the entry qualifies for it,
      otherwise "". */
  function HighlightReason(mode: string, e: ScheduleEntry, now: Instant): (r: string)
    ensures r == "" || r == mode
    ensures r == HIGHLIGHT_SOON <==> mode == HIGHLIGHT_SOON && now < e.startsAt <= now + SOON_HOURS * HOUR
    ensures r == HIGHLIGHT_ORGANIZER <==> mode == HIGHLIGHT_ORGANIZER && e.isOrganizer
    ensures r == HIGHLIGHT_POPULAR <==> mode == HIGHLIGHT_POPULAR && e.rsvpCount >= POPULAR_THRESHOLD
  {
    var soonThreshold := now + SOON_HOURS * HOUR;
    if mode == HIGHLIGHT_SOON then (if now < e.startsAt <= soonThreshold then "soon" else "")
    else if mode == HIGHLIGHT_ORGANIZER then (if e.isOrganizer then "organizer" else "")
    else if mode == HIGHLIGHT_POPULAR then (if e.rsvpCount >= POPULAR_THRESHOLD then "popular" else "")
    else ""
  }

  function Highlight(e: ScheduleEntry, mode: string, now: Instant): ScheduleEntry
  {
    var reason := HighlightReason(mode, e, now);
    if reason != "" then e.(highlightReason := reason) else e
  }

  /** HighlightedScheduleDecorator.get_entries */
  method HighlightEntries(entries: seq<ScheduleEntry>, mode: string, now: Instant)
    returns (result: seq<ScheduleEntry>)
    ensures |result| == |entries|
    ensures mode == "" ==> result == entries
    ensures forall i :: 0 <= i < |entries| ==> result[i] == Highlight(entries[i], mode, now)
  {
    if mode == "" {
      return entries;
    }
    result := [];
    var i := 0;
    while i < |entries|
      invariant 0 <= i <= |entries|
      invariant |result| == i
      invariant forall k :: 0 <= k < i ==> result[k] == Highlight(entries[k], mode, now)
    {
      var entry := entries[i];
      var reason := HighlightReason(mode, entry, now);
      if reason != "" {
        entry := entry.(highlightReason := reason);
      }
      result := result + [entry];
      i := i + 1;
    }
  }

  /** Highlighting changes at most the highlight reason, and with a mode
      other than the three it changes nothing. */
  lemma HighlightOnlyMarks(e: ScheduleEntry, mode: string, now: Instant)
    ensures Highlight(e, mode, now) == e.(highlightReason := Highlight(e, mode, now).highlightReason)
    ensures mode != HIGHLIGHT_SOON && mode != HIGHLIGHT_ORGANIZER && mode != HIGHLIGHT_POPULAR
            ==> Highlight(e, mode, now) == e
    ensures mode == "" ==> Highlight(e, mode, now) == e
  {
  }

  // ---------------------------------------------------------------------------
  // PersonalScheduleService
  // ---------------------------------------------------------------------------

  predicate HasRsvpFor(rsvps: seq<Rsvp>, user: UserId, event: EventId)
  {
    exists r :: r in rsvps && r.user == user && r.event == event
  }

  /** The events query: organised by the user, or published with an RSVP of
      the user (any status). */
  predicate InSchedule(e: Event, rsvps: seq<Rsvp>, user: UserId)
  {
    e.organizer == user || (e.status == PUBLISHED && HasRsvpFor(rsvps, user, e.id))
  }

  function UserEvents(events: seq<Event>, rsvps: seq<Rsvp>, user: UserId): (r: seq<Event>)
    ensures forall e :: e in r <==> e in events && InSchedule(e, rsvps, user)
  {
    if events == [] then []
    else (if InSchedule(events[0], rsvps, user) then [events[0]] else []) + UserEvents(events[1..], rsvps, user)
  }

  /** The rsvp_count annotation: the event's RSVPs with status going. */
  function GoingCount(rsvps: seq<Rsvp>, event: EventId): nat
  {
    if rsvps == [] then 0
    else (if rsvps[0].event == event && rsvps[0].status == GOING then 1 else 0) + GoingCount(rsvps[1..], event)
  }

  /** The user's own RSVPs for the event with status going. */
  function OwnGoingCount(rsvps: seq<Rsvp>, user: UserId, event: EventId): nat
  {
    if rsvps == [] then 0
    else (if rsvps[0].user == user && rsvps[0].event == event && rsvps[0].status == GOING then 1 else 0)
         + OwnGoingCount(rsvps[1..], user, event)
  }

  /** The rsvp_count the query annotates. The membership filter and the count
      go through the same join on the event's RSVPs, so the count only sees
      the RSVP rows that passed the filter: all of them for an event the user
      organises, but only the user's own for an event the user merely
      attends. */
  function ScheduleRsvpCount(rsvps: seq<Rsvp>, e: Event, user: UserId): nat
  {
    if e.organizer == user then GoingCount(rsvps, e.id) else OwnGoingCount(rsvps, user, e.id)
  }

  /** The user has at most one RSVP for the event (the RSVP table's unique
      constraint on user and event). */
  predicate AtMostOneRsvp(rsvps: seq<Rsvp>, user: UserId, event: EventId)
  {
    forall i, j :: 0 <= i < j < |rsvps| && rsvps[i].user == user && rsvps[i].event == event ==>
      !(rsvps[j].user == user && rsvps[j].event == event)
  }

  lemma {:induction false} OwnGoingCountZero(rsvps: seq<Rsvp>, user: UserId, event: EventId)
    requires forall i :: 0 <= i < |rsvps| ==> !(rsvps[i].user == user && rsvps[i].event == event)
    ensures OwnGoingCount(rsvps, user, event) == 0
  {
    if rsvps != [] {
      OwnGoingCountZero(rsvps[1..], user, event);
    }
  }

  lemma {:induction false} OwnGoingCountAtMostOne(rsvps: seq<Rsvp>, user: UserId, event: EventId)
    requires AtMostOneRsvp(rsvps, user, event)
    ensures OwnGoingCount(rsvps, user, event) <= 1
  {
    if rsvps != [] {
      var tail := rsvps[1..];
      assert AtMostOneRsvp(tail, user, event) by {
        forall i, j | 0 <= i < j < |tail| && tail[i].user == user && tail[i].event == event
          ensures !(tail[j].user == user && tail[j].event == event)
        {
          assert tail[i] == rsvps[i + 1] && tail[j] == rsvps[j + 1];
        }
      }
      if rsvps[0].user == user && rsvps[0].event == event {
        forall i | 0 <= i < |tail|
          ensures !(tail[i].user == user && tail[i].event == event)
        {
          assert tail[i] == rsvps[i + 1];
        }
        OwnGoingCountZero(tail, user, event);
      } else {
        OwnGoingCountAtMostOne(tail, user, event);
      }
    }
  }

  /** An event the user attends but does not organise is counted with at
      most the user's own RSVP, so the popular highlight never marks it. */
  lemma AttendedEventNeverPopular(e: Event, user: UserId, rsvpIds: set<EventId>, rsvps: seq<Rsvp>, now: Instant)
    requires e.organizer != user && AtMostOneRsvp(rsvps, user, e.id)
    ensures EntryFor(e, user, rsvpIds, rsvps).rsvpCount <= 1
    ensures HighlightReason(HIGHLIGHT_POPULAR, EntryFor(e, user, rsvpIds, rsvps), now) == ""
  {
    OwnGoingCountAtMostOne(rsvps, user, e.id);
  }

  /** get_user_rsvp_event_ids: the events of every RSVP of the user. */
  function UserRsvpEventIds(rsvps: seq<Rsvp>, user: UserId): (ids: set<EventId>)
    ensures forall id :: id in ids <==> HasRsvpFor(rsvps, user, id)
  {
    set r | r in rsvps && r.user == user :: r.event
  }

  function EntryFor(e: Event, user: UserId, rsvpIds: set<EventId>, rsvps: seq<Rsvp>): ScheduleEntry
  {
    ScheduleEntry(e.id, e.title, e.startsAt, e.endsAt, e.status, e.location, e.description,
                  e.organizer == user, e.id in rsvpIds, "", ScheduleRsvpCount(rsvps, e, user))
  }

  /** get_user_schedule_entries: one entry per event of the query, in order. */
  method GetUserScheduleEntries(events: seq<Event>, rsvps: seq<Rsvp>, user: UserId)
    returns (entries: seq<ScheduleEntry>)
    ensures |entries| == |UserEvents(events, rsvps, user)|
    ensures forall i :: 0 <= i < |entries| ==>
              var e := UserEvents(events, rsvps, user)[i];
              entries[i].eventId == e.id && entries[i].title == e.title
              && entries[i].startsAt == e.startsAt && entries[i].endsAt == e.endsAt
              && entries[i].status == e.status && entries[i].location == e.location
              && entries[i].description == e.description
              && (entries[i].isOrganizer <==> e.organizer == user)
              && (entries[i].hasRsvp <==> HasRsvpFor(rsvps, user, e.id))
              && entries[i].highlightReason == ""
              && entries[i].rsvpCount == ScheduleRsvpCount(rsvps, e, user)
  {
    var eventsQs := UserEvents(events, rsvps, user);
    var rsvpEventIds := UserRsvpEventIds(rsvps, user);
    entries := [];
    var i := 0;
    while i < |eventsQs|
      invariant 0 <= i <= |eventsQs|
      invariant |entries| == i
      invariant forall k :: 0 <= k < i ==> entries[k] == EntryFor(eventsQs[k], user, rsvpEventIds, rsvps)
    {
      var event := eventsQs[i];
      var entry := ScheduleEntry(event.id, event.title, event.startsAt, event.endsAt, event.status,
                                 event.location, event.description, event.organizer == user,
                                 event.id in rsvpEventIds, "", ScheduleRsvpCount(rsvps, event, user));
      entries := entries + [entry];
      i := i + 1;
    }
  }

  /** Every organised event is in the schedule; a draft one only when organised. */
  lemma ScheduleMembership(events: seq<Event>, rsvps: seq<Rsvp>, user: UserId, e: Event)
    requires e in events
    ensures e.organizer == user ==> e in UserEvents(events, rsvps, user)
    ensures e.status != PUBLISHED && e.organizer != user ==> e !in UserEvents(events, rsvps, user)
  {
  }
}
