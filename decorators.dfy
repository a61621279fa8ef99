/** The access guards that wrap event views: organizer-or-staff, not archived,
    not cancelled, not started. Each guard either redirects to the event page
    with a message or attaches the event to the request and calls on. */
module Decorators {
  import opened Common
  import opened Models

  datatype Guard = OrganizerRequired | EventNotArchived | EventNotCancelled | EventNotStarted

  /** What a guarded call ends in. */
  datatype Outcome =
    | ViewCalled
    | Redirected(pk: EventId, message: string)  // redirect('event_detail', pk=pk) after the message
    | NotFound                                  // get_object_or_404

  const NOT_ORGANIZER_MESSAGE: string := "Ви не маєте прав для виконання цієї дії"
  const ARCHIVED_MESSAGE: string := "Дія недоступна для архівних подій"
  const CANCELLED_MESSAGE: string := "Дія недоступна для скасованих подій"
  const STARTED_MESSAGE: string := "Дія недоступна: подія вже розпочалась"

  /** The request: the user and staff flag are fixed, `event` is the
      attribute the guards attach. */
  class Request {
    const user: UserId
    const isStaff: bool
    var event: Option<Event>

    constructor (user: UserId, isStaff: bool)
      ensures this.user == user && this.isStaff == isStaff && event == None
    {
      this.user := user;
      this.isStaff := isStaff;
      event := None;
    }
  }

  /** Whether the guard lets the request through for this event. */
  predicate Allows(g: Guard, e: Event, user: UserId, isStaff: bool, now: Instant)
  {
    match g
    case OrganizerRequired => e.organizer == user || isStaff
    case EventNotArchived => e.status != ARCHIVED
    case EventNotCancelled => e.status != CANCELLED
    case EventNotStarted => e.startsAt > now
  }

  function RejectMessage(g: Guard): string
  {
    match g
    case OrganizerRequired => NOT_ORGANIZER_MESSAGE
    case EventNotArchived => ARCHIVED_MESSAGE
    case EventNotCancelled => CANCELLED_MESSAGE
    case EventNotStarted => STARTED_MESSAGE
  }

  /** The event a guard looks at: organizer_required always fetches by pk;
      the others reuse an attached event and fetch only without one. */
  function EventSeen(g: Guard, attached: Option<Event>, pk: EventId, events: map<EventId, Event>): Option<Event>
  {
    if g != OrganizerRequired && attached.Some? then attached
    else if pk in events then Some(events[pk])
    else None
  }

  /** One guard: the outcome (ViewCalled meaning "passes on") and the
      request's event attribute afterwards. */
  function Step(g: Guard, attached: Option<Event>, pk: EventId, events: map<EventId, Event>,
                user: UserId, isStaff: bool, now: Instant): (Outcome, Option<Event>)
  {
    var seen := EventSeen(g, attached, pk, events);
    if seen.None? then (NotFound, attached)
    else if !Allows(g, seen.value, user, isStaff, now) then (Redirected(pk, RejectMessage(g)), attached)
    else (ViewCalled, seen)
  }

  /** The guards in decorator order, outermost first, then the view. */
  function Chain(guards: seq<Guard>, attached: Option<Event>, pk: EventId, events: map<EventId, Event>,
                 user: UserId, isStaff: bool, now: Instant): (Outcome, Option<Event>)
  {
    if guards == [] then (ViewCalled, attached)
    else
      var step := Step(guards[0], attached, pk, events, user, isStaff, now);
      if step.0 != ViewCalled then step
      else Chain(guards[1..], step.1, pk, events, user, isStaff, now)
  }

  /** The wrapper of one guard decorator. */
  method ApplyGuard(g: Guard, request: Request, pk: EventId, events: map<EventId, Event>, now: Instant)
    returns (outcome: Outcome)
    modifies request
    ensures (outcome, request.event) == Step(g, old(request.event), pk, events, request.user, request.isStaff, now)
  {
    var event: Option<Event>;
    if g != OrganizerRequired && request.event.Some? {
      event := request.event;
    } else if pk in events {
      event := Some(events[pk]);
    } else {
      return NotFound;
    }
    var e := event.value;
    var rejected: bool;
    match g {
      case OrganizerRequired => rejected := e.organizer != request.user && !request.isStaff;
      case EventNotArchived => rejected := e.status == ARCHIVED;
      case EventNotCancelled => rejected := e.status == CANCELLED;
      case EventNotStarted => rejected := e.startsAt <= now;
    }
    if rejected {
      return Redirected(pk, RejectMessage(g));
    }
    request.event := event;
    return ViewCalled;
  }

  /** A stack of guard decorators around a view. */
  method ApplyGuards(guards: seq<Guard>, request: Request, pk: EventId, events: map<EventId, Event>, now: Instant)
    returns (outcome: Outcome)
    modifies request
    ensures (outcome, request.event) == Chain(guards, old(request.event), pk, events, request.user, request.isStaff, now)
  {
    var i := 0;
    while i < |guards|
      invariant 0 <= i <= |guards|
      invariant Chain(guards, old(request.event), pk, events, request.user, request.isStaff, now)
                == Chain(guards[i..], request.event, pk, events, request.user, request.isStaff, now)
    {
      var o := ApplyGuard(guards[i], request, pk, events, now);
      if o != ViewCalled {
        return o;
      }
      assert guards[i..][1..] == guards[i + 1..];
      i := i + 1;
    }
    return ViewCalled;
  }

  /** Each guard, on its own, passes iff its condition holds for the stored
      event, and attaches that event when it passes. */
  lemma GuardConditions(pk: EventId, events: map<EventId, Event>, user: UserId, isStaff: bool, now: Instant)
    requires pk in events
    ensures Step(OrganizerRequired, None, pk, events, user, isStaff, now).0 == ViewCalled
            <==> events[pk].organizer == user || isStaff
    ensures Step(EventNotArchived, None, pk, events, user, isStaff, now).0 == ViewCalled
            <==> events[pk].status != ARCHIVED
    ensures Step(EventNotCancelled, None, pk, events, user, isStaff, now).0 == ViewCalled
            <==> events[pk].status != CANCELLED
    ensures Step(EventNotStarted, None, pk, events, user, isStaff, now).0 == ViewCalled
            <==> events[pk].startsAt > now
    ensures forall g :: (Step(g, None, pk, events, user, isStaff, now).0 == ViewCalled
                         ==> Step(g, None, pk, events, user, isStaff, now).1 == Some(events[pk]))
  {
  }

  /** A guard other than organizer_required judges the attached event, not
      the stored one. */
  lemma AttachedEventIsReused(g: Guard, e: Event, pk: EventId, events: map<EventId, Event>,
                              user: UserId, isStaff: bool, now: Instant)
    requires g != OrganizerRequired
    ensures Step(g, Some(e), pk, events, user, isStaff, now).0 == ViewCalled <==> Allows(g, e, user, isStaff, now)
  {
  }

  /** The index of the first guard that rejects the stored event. */
  predicate FirstRejecting(guards: seq<Guard>, e: Event, user: UserId, isStaff: bool, now: Instant, j: int)
  {
    0 <= j < |guards| && !Allows(guards[j], e, user, isStaff, now)
    && forall k :: 0 <= k < j ==> Allows(guards[k], e, user, isStaff, now)
  }

  /** With the stored event (attached or not), the view runs iff every guard
      allows it, and otherwise the first rejecting guard's message is shown. */
  lemma {:induction false} ChainDecides(guards: seq<Guard>, attached: Option<Event>, pk: EventId,
                                        events: map<EventId, Event>, user: UserId, isStaff: bool, now: Instant)
    requires pk in events
    requires attached == None || attached == Some(events[pk])
    ensures Chain(guards, attached, pk, events, user, isStaff, now).0 == ViewCalled
            <==> forall k :: 0 <= k < |guards| ==> Allows(guards[k], events[pk], user, isStaff, now)
    ensures forall j :: (FirstRejecting(guards, events[pk], user, isStaff, now, j)
                         ==> Chain(guards, attached, pk, events, user, isStaff, now).0
                             == Redirected(pk, RejectMessage(guards[j])))
  {
    if guards != [] {
      var e := events[pk];
      var step := Step(guards[0], attached, pk, events, user, isStaff, now);
      assert EventSeen(guards[0], attached, pk, events) == Some(e);
      if step.0 == ViewCalled {
        ChainDecides(guards[1..], step.1, pk, events, user, isStaff, now);
        forall j | FirstRejecting(guards, e, user, isStaff, now, j)
          ensures FirstRejecting(guards[1..], e, user, isStaff, now, j - 1)
        {
          assert j != 0;
          forall k | 0 <= k < j - 1
            ensures Allows(guards[1..][k], e, user, isStaff, now)
          {
            assert guards[1..][k] == guards[k + 1];
          }
        }
        if forall k :: 0 <= k < |guards[1..]| ==> Allows(guards[1..][k], e, user, isStaff, now) {
          forall k | 0 <= k < |guards|
            ensures Allows(guards[k], e, user, isStaff, now)
          {
            if k > 0 {
              assert guards[1..][k - 1] == guards[k];
            }
          }
        }
      } else {
        forall j | FirstRejecting(guards, e, user, isStaff, now, j)
          ensures j == 0
        {
        }
      }
    }
  }
}
