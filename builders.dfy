/** The event builders: a plain builder and the conference and workshop
    variants, which differ only in their initial category and capacity. */
module Builders {
  import opened Common
  import opened Models

  datatype BuilderKind = PlainBuilder | ConferenceBuilder | WorkshopBuilder

  /** The builder's pending fields. Coordinates are not modelled. */
  datatype BuilderFields = BuilderFields(
    title: Option<string>,
    organizer: Option<UserId>,
    description: string,
    location: string,
    startsAt: Option<Instant>,
    endsAt: Option<Instant>,
    capacity: Option<nat>,
    status: string,
    category: string)

  /** What `__init__` sets for each builder class. */
  function Defaults(kind: BuilderKind): BuilderFields
  {
    var base := BuilderFields(None, None, "", "", None, None, None, DRAFT, "");
    match kind
    case PlainBuilder => base
    case ConferenceBuilder => base.(category := CONFERENCE_CATEGORY, capacity := Some(100))
    case WorkshopBuilder => base.(category := WORKSHOP_CATEGORY, capacity := Some(20))
  }

  lemma DefaultsByKind(kind: BuilderKind)
    ensures Defaults(kind).title == None && Defaults(kind).organizer == None
    ensures Defaults(kind).description == "" && Defaults(kind).location == ""
    ensures Defaults(kind).status == DRAFT
    ensures kind == PlainBuilder ==> Defaults(kind).capacity == None && Defaults(kind).category == ""
    ensures kind == ConferenceBuilder ==> Defaults(kind).capacity == Some(100) && Defaults(kind).category == CONFERENCE_CATEGORY
    ensures kind == WorkshopBuilder ==> Defaults(kind).capacity == Some(20) && Defaults(kind).category == WORKSHOP_CATEGORY
  {
  }

  const TITLE_REQUIRED: string := "Назва події є обов'язковою"
  const ORGANIZER_REQUIRED: string := "Організатор є обов'язковим"

  /** build() on the given fields: the title check, then the organizer check,
      then the insert, which needs both dates. */
  function BuildEvent(f: BuilderFields, newId: EventId, now: Instant): (r: Result<Event, string>)
    ensures f.title.None? || f.title == Some("") ==> r == Failure(TITLE_REQUIRED)
    ensures f.title.Some? && f.title.value != "" && f.organizer.None? ==> r == Failure(ORGANIZER_REQUIRED)
    ensures r.Success? <==> f.title.Some? && f.title.value != "" && f.organizer.Some?
                            && f.startsAt.Some? && f.endsAt.Some?
    ensures r.Success? ==>
              r.value.title == f.title.value && r.value.organizer == f.organizer.value
              && r.value.description == f.description && r.value.location == f.location
              && r.value.startsAt == f.startsAt.value && r.value.endsAt == f.endsAt.value
              && r.value.capacity == f.capacity && r.value.status == f.status
              && r.value.category == f.category && r.value.id == newId
  {
    if f.title.None? || f.title.value == "" then Failure(TITLE_REQUIRED)
    else if f.organizer.None? then Failure(ORGANIZER_REQUIRED)
    else if f.startsAt.None? || f.endsAt.None? then Failure(DATES_REQUIRED)
    else Success(Event(newId, f.title.value, f.description, f.location, f.startsAt.value, f.endsAt.value,
                       f.status, f.capacity, f.category, f.organizer.value, now))
  }

  /** The title check comes first: without a title the error names the
      title even when the organizer is missing too. */
  lemma TitleCheckedFirst(f: BuilderFields, newId: EventId, now: Instant)
    requires f.title.None? && f.organizer.None?
    ensures BuildEvent(f, newId, now) == Failure(TITLE_REQUIRED)
  {
  }

  class EventBuilder {
    const kind: BuilderKind
    var title: Option<string>
    var organizer: Option<UserId>
    var description: string
    var location: string
    var startsAt: Option<Instant>
    var endsAt: Option<Instant>
    var capacity: Option<nat>
    var status: string
    var category: string

    function Fields(): BuilderFields
      reads this
    {
      BuilderFields(title, organizer, description, location, startsAt, endsAt, capacity, status, category)
    }

    constructor (kind: BuilderKind)
      ensures this.kind == kind && Fields() == Defaults(kind)
    {
      this.kind := kind;
      var d := Defaults(kind);
      title, organizer, description, location := d.title, d.organizer, d.description, d.location;
      startsAt, endsAt, capacity, status, category := d.startsAt, d.endsAt, d.capacity, d.status, d.category;
    }

    method WithTitle(t: string) returns (b: EventBuilder)
      modifies this
      ensures b == this && Fields() == old(Fields()).(title := Some(t))
    {
      title := Some(t);
      return this;
    }

    method WithOrganizer(u: UserId) returns (b: EventBuilder)
      modifies this
      ensures b == this && Fields() == old(Fields()).(organizer := Some(u))
    {
      organizer := Some(u);
      return this;
    }

    method WithDescription(d: string) returns (b: EventBuilder)
      modifies this
      ensures b == this && Fields() == old(Fields()).(description := d)
    {
      description := d;
      return this;
    }

    method WithLocation(l: string) returns (b: EventBuilder)
      modifies this
      ensures b == this && Fields() == old(Fields()).(location := l)
    {
      location := l;
      return this;
    }

    method WithDates(s: Instant, e: Instant) returns (b: EventBuilder)
      modifies this
      ensures b == this && Fields() == old(Fields()).(startsAt := Some(s), endsAt := Some(e))
    {
      startsAt, endsAt := Some(s), Some(e);
      return this;
    }

    method WithCapacity(c: nat) returns (b: EventBuilder)
      modifies this
      ensures b == this && Fields() == old(Fields()).(capacity := Some(c))
    {
      capacity := Some(c);
      return this;
    }

    method WithStatus(s: string) returns (b: EventBuilder)
      modifies this
      ensures b == this && Fields() == old(Fields()).(status := s)
    {
      status := s;
      return this;
    }

    method WithCategory(c: string) returns (b: EventBuilder)
      modifies this
      ensures b == this && Fields() == old(Fields()).(category := c)
    {
      category := c;
      return this;
    }

    method AsDraft() returns (b: EventBuilder)
      modifies this
      ensures b == this && Fields() == old(Fields()).(status := DRAFT)
    {
      status := DRAFT;
      return this;
    }

    method AsPublished() returns (b: EventBuilder)
      modifies this
      ensures b == this && Fields() == old(Fields()).(status := PUBLISHED)
    {
      status := PUBLISHED;
      return this;
    }

    /** ConferenceEventBuilder.with_large_capacity */
    method WithLargeCapacity() returns (b: EventBuilder)
      requires kind == ConferenceBuilder
      modifies this
      ensures b == this && Fields() == old(Fields()).(capacity := Some(500))
    {
      capacity := Some(500);
      return this;
    }

    /** WorkshopEventBuilder.with_small_group */
    method WithSmallGroup() returns (b: EventBuilder)
      requires kind == WorkshopBuilder
      modifies this
      ensures b == this && Fields() == old(Fields()).(capacity := Some(10))
    {
      capacity := Some(10);
      return this;
    }

    /** reset() re-runs the builder's own `__init__`, so a conference or
        workshop builder returns to its own defaults. */
    method Reset() returns (b: EventBuilder)
      modifies this
      ensures b == this && Fields() == Defaults(kind)
    {
      var d := Defaults(kind);
      title, organizer, description, location := d.title, d.organizer, d.description, d.location;
      startsAt, endsAt, capacity, status, category := d.startsAt, d.endsAt, d.capacity, d.status, d.category;
      return this;
    }

    function Build(newId: EventId, now: Instant): Result<Event, string>
      reads this
    {
      BuildEvent(Fields(), newId, now)
    }
  }

  /** A typical chain: title, organizer and dates given, then build. */
  method BuildConference(t: string, u: UserId, s: Instant, e: Instant, newId: EventId, now: Instant)
    returns (r: Result<Event, string>)
    requires t != ""
    ensures r.Success? && r.value.category == CONFERENCE_CATEGORY && r.value.capacity == Some(500)
    ensures r.Success? && r.value.title == t && r.value.organizer == u && r.value.status == PUBLISHED
  {
    var b := new EventBuilder(ConferenceBuilder);
    b := b.WithTitle(t);
    b := b.WithOrganizer(u);
    b := b.WithDates(s, e);
    b := b.WithLargeCapacity();
    b := b.AsPublished();
    r := b.Build(newId, now);
  }
}
