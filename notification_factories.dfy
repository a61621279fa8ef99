/** The notification factories: one message template per notification kind,
    the factory's notification type, the row each factory writes, and the
    registry that maps type codes to factories. */
module NotificationFactories {
  import opened Common
  import opened Models

  /** The six concrete factories. */
  datatype FactoryKind =
    | UpdatedFactory
    | TimeChangedFactory
    | LocationChangedFactory
    | CancelledFactory
    | RsvpConfirmedFactory
    | RsvpCancelledFactory

  /** get_notification_type of each factory. */
  function NotificationTypeOf(k: FactoryKind): NotificationType
  {
    match k
    case UpdatedFactory => EventUpdated
    case TimeChangedFactory => EventTimeChanged
    case LocationChangedFactory => EventLocationChanged
    case CancelledFactory => EventCancelled
    case RsvpConfirmedFactory => RsvpConfirmed
    case RsvpCancelledFactory => RsvpCancelled
  }

  /** The context dictionary a factory reads; an absent key is None
      (a missing `changes` is the empty list). */
  datatype Context = Context(
    event: Option<Event>,
    changes: seq<string>,
    oldStart: Option<Instant>,
    newStart: Option<Instant>,
    oldLocation: Option<string>,
    newLocation: Option<string>,
    reason: Option<string>,
    participant: Option<string>)  // the participant's username

  const EMPTY_CONTEXT: Context := Context(None, [], None, None, None, None, None, None)

  /** One "\n• <change>" line per change. The header is joined to these with
      ":", which for a non-empty list gives the same text as
      header + ":\n" + "\n".join("• " + c for c in changes). */
  function Bullets(changes: seq<string>): string
  {
    if changes == [] then "" else "\n• " + changes[0] + Bullets(changes[1..])
  }

  lemma {:induction false} BulletsContainEach(changes: seq<string>, i: nat)
    requires i < |changes|
    ensures Contains(Bullets(changes), "\n• " + changes[i])
  {
    var line := "\n• " + changes[0];
    var rest := Bullets(changes[1..]);
    if i == 0 {
      ContainsPrefix(line, rest);
    } else {
      BulletsContainEach(changes[1..], i - 1);
      ContainsAfter(line, rest, "\n• " + changes[i]);
    }
  }

  function UpdatedSentence(title: string): string
  {
    "Подія '" + title + "' була оновлена"
  }

  function UpdatedMessage(title: string, changes: seq<string>): string
  {
    if changes == [] then UpdatedSentence(title)
    else UpdatedSentence(title) + ":" + Bullets(changes)
  }

  function TimeChangedMessage(title: string, oldStart: Option<Instant>, newStart: Option<Instant>): string
  {
    if oldStart.Some? && newStart.Some? then
      "Час події '" + title + ("' змінено з " + FormatInstant(oldStart.value) + " на " + FormatInstant(newStart.value))
    else "Час події '" + title + "' було змінено"
  }

  const NOT_SPECIFIED: string := "не вказано"

  /** `value or 'не вказано'`: None and the empty string both fall back. */
  function OrNotSpecified(location: Option<string>): string
  {
    if location.Some? && location.value != "" then location.value else NOT_SPECIFIED
  }

  function LocationChangedMessage(title: string, oldLocation: Option<string>, newLocation: Option<string>): string
  {
    "Локацію події '" + title
      + ("' змінено з '" + OrNotSpecified(oldLocation) + "' на '" + OrNotSpecified(newLocation) + "'")
  }

  predicate HasReason(reason: Option<string>)
  {
    reason.Some? && reason.value != ""
  }

  function CancelledMessage(title: string, reason: Option<string>): string
  {
    "Подія '" + title
      + ("' була скасована організатором" + (if HasReason(reason) then ". Причина: " + reason.value else "") + ".")
  }

  function RsvpConfirmedMessage(username: string, title: string): string
  {
    "Користувач " + username + " зареєструвався на подію '" + title + "'"
  }

  function RsvpCancelledMessage(username: string, title: string): string
  {
    "Користувач " + username + " скасував реєстрацію на подію '" + title + "'"
  }

  predicate NeedsParticipant(k: FactoryKind)
  {
    k == RsvpConfirmedFactory || k == RsvpCancelledFactory
  }

  /** create_message of each factory. None stands for the AttributeError the
      template raises when the context has no event (or, for the RSVP
      templates, no participant). */
  function CreateMessage(k: FactoryKind, ctx: Context): (r: Option<string>)
    ensures r.Some? <==> ctx.event.Some? && (NeedsParticipant(k) ==> ctx.participant.Some?)
  {
    if ctx.event.None? || (NeedsParticipant(k) && ctx.participant.None?) then None
    else
      var title := ctx.event.value.title;
      match k
      case UpdatedFactory => Some(UpdatedMessage(title, ctx.changes))
      case TimeChangedFactory => Some(TimeChangedMessage(title, ctx.oldStart, ctx.newStart))
      case LocationChangedFactory => Some(LocationChangedMessage(title, ctx.oldLocation, ctx.newLocation))
      case CancelledFactory => Some(CancelledMessage(title, ctx.reason))
      case RsvpConfirmedFactory => Some(RsvpConfirmedMessage(ctx.participant.value, title))
      case RsvpCancelledFactory => Some(RsvpCancelledMessage(ctx.participant.value, title))
  }

  /** Every template names the event's title. */
  lemma MessageMentionsTitle(k: FactoryKind, ctx: Context)
    requires CreateMessage(k, ctx).Some?
    ensures Contains(CreateMessage(k, ctx).value, ctx.event.value.title)
  {
    var t := ctx.event.value.title;
    match k
    case UpdatedFactory =>
      if ctx.changes == [] {
        ContainsMiddle("Подія '", t, "' була оновлена");
      } else {
        ContainsMiddle("Подія '", t, "' була оновлена");
        ContainsWithin("", UpdatedSentence(t), ":" + Bullets(ctx.changes), t);
        assert "" + UpdatedSentence(t) + (":" + Bullets(ctx.changes)) == UpdatedMessage(t, ctx.changes);
      }
    case TimeChangedFactory =>
      if ctx.oldStart.Some? && ctx.newStart.Some? {
        ContainsMiddle("Час події '", t,
          "' змінено з " + FormatInstant(ctx.oldStart.value) + " на " + FormatInstant(ctx.newStart.value));
      } else {
        ContainsMiddle("Час події '", t, "' було змінено");
      }
    case LocationChangedFactory =>
      ContainsMiddle("Локацію події '", t,
        "' змінено з '" + OrNotSpecified(ctx.oldLocation) + "' на '" + OrNotSpecified(ctx.newLocation) + "'");
    case CancelledFactory =>
      ContainsMiddle("Подія '", t,
        "' була скасована організатором" + (if HasReason(ctx.reason) then ". Причина: " + ctx.reason.value else "") + ".");
    case RsvpConfirmedFactory =>
      ContainsMiddle("Користувач " + ctx.participant.value + " зареєструвався на подію '", t, "'");
    case RsvpCancelledFactory =>
      ContainsMiddle("Користувач " + ctx.participant.value + " скасував реєстрацію на подію '", t, "'");
  }

  /** The updated-event template: the bare sentence without changes, and
      otherwise one "• " line per change. */
  lemma UpdatedMessageShape(title: string, changes: seq<string>)
    ensures changes == [] ==> UpdatedMessage(title, changes) == "Подія '" + title + "' була оновлена"
    ensures forall i :: 0 <= i < |changes| ==> Contains(UpdatedMessage(title, changes), "\n• " + changes[i])
  {
    forall i | 0 <= i < |changes|
      ensures Contains(UpdatedMessage(title, changes), "\n• " + changes[i])
    {
      UpdatedMessageListsChange(title, changes, i);
    }
  }

  lemma UpdatedMessageListsChange(title: string, changes: seq<string>, i: nat)
    requires i < |changes|
    ensures Contains(UpdatedMessage(title, changes), "\n• " + changes[i])
  {
    BulletsContainEach(changes, i);
    ContainsAfter(UpdatedSentence(title) + ":", Bullets(changes), "\n• " + changes[i]);
  }

  /** A missing or empty location is shown as 'не вказано'. */
  lemma LocationFallback(title: string, oldLocation: Option<string>, newLocation: Option<string>)
    ensures oldLocation.None? || oldLocation == Some("") ==> OrNotSpecified(oldLocation) == NOT_SPECIFIED
    ensures newLocation.None? || newLocation == Some("") ==> OrNotSpecified(newLocation) == NOT_SPECIFIED
    ensures HasNonEmpty(oldLocation) ==> OrNotSpecified(oldLocation) == oldLocation.value
    ensures LocationChangedMessage(title, oldLocation, newLocation)
            == "Локацію події '" + title + "' змінено з '" + OrNotSpecified(oldLocation)
               + "' на '" + OrNotSpecified(newLocation) + "'"
  {
  }

  predicate HasNonEmpty(s: Option<string>) { s.Some? && s.value != "" }

  /** The cancellation template carries ". Причина: <reason>" exactly when a
      non-empty reason is given, and always ends with a full stop. */
  lemma CancelledMessageShape(title: string, reason: Option<string>)
    ensures HasReason(reason) ==>
              (CancelledMessage(title, reason)
               == "Подія '" + title + "' була скасована організатором" + ". Причина: " + reason.value + ".")
    ensures !HasReason(reason) ==>
              (CancelledMessage(title, reason) == "Подія '" + title + "' була скасована організатором.")
    ensures CancelledMessage(title, reason)[|CancelledMessage(title, reason)| - 1] == '.'
  {
  }

  /** The time template uses the "змінено з … на …" form only with both starts. */
  lemma TimeMessageForm(title: string, oldStart: Option<Instant>, newStart: Option<Instant>)
    ensures oldStart.Some? && newStart.Some? ==>
              (TimeChangedMessage(title, oldStart, newStart)
               == "Час події '" + title + "' змінено з " + FormatInstant(oldStart.value)
                  + " на " + FormatInstant(newStart.value))
    ensures !(oldStart.Some? && newStart.Some?) ==>
              (TimeChangedMessage(title, oldStart, newStart) == "Час події '" + title + "' було змінено")
  {
  }

  const UNSUPPORTED_TYPE: string := "Непідтримуваний тип нотифікації: "

  /** The error create_message raises from a context without the event
      (or participant) it reads. */
  const MISSING_CONTEXT_ERROR: string := "'NoneType' object has no attribute"

  /** The registry's initial table, keyed by the notification type codes. */
  function DefaultFactories(): map<string, FactoryKind>
  {
    map[
      TypeCode(EventUpdated) := UpdatedFactory,
      TypeCode(EventTimeChanged) := TimeChangedFactory,
      TypeCode(EventLocationChanged) := LocationChangedFactory,
      TypeCode(EventCancelled) := CancelledFactory,
      TypeCode(RsvpConfirmed) := RsvpConfirmedFactory,
      TypeCode(RsvpCancelled) := RsvpCancelledFactory]
  }

  /** Out of the box every notification type has the factory of that type. */
  lemma DefaultFactoriesCoverEveryType(t: NotificationType)
    ensures TypeCode(t) in DefaultFactories()
    ensures NotificationTypeOf(DefaultFactories()[TypeCode(t)]) == t
  {
  }

  /** NotificationFactory.create_notification: render the message, then
      insert one row for the given user and event. */
  method FactoryCreateNotification(k: FactoryKind, table: NotificationTable, user: UserId,
                                   event: Event, ctx: Context, now: Instant)
    returns (r: Result<Notification, string>)
    modifies table
    ensures CreateMessage(k, ctx).None? ==> r == Failure(MISSING_CONTEXT_ERROR) && table.rows == old(table.rows)
    ensures CreateMessage(k, ctx).Some? ==>
              r == Success(NewNotification(user, event.id, NotificationTypeOf(k), CreateMessage(k, ctx).value, now))
              && table.rows == old(table.rows) + [r.value]
  {
    var message := CreateMessage(k, ctx);
    if message.None? {
      return Failure(MISSING_CONTEXT_ERROR);
    }
    var n := NewNotification(user, event.id, NotificationTypeOf(k), message.value, now);
    table.Create(n);
    return Success(n);
  }

  /** NotificationFactoryRegistry: the class-level `_factories` dictionary. */
  class Registry {
    var factories: map<string, FactoryKind>

    constructor ()
      ensures factories == DefaultFactories()
    {
      factories := DefaultFactories();
    }

    function GetFactory(code: string): (r: Result<FactoryKind, string>)
      reads this
      ensures r.Success? <==> code in factories
      ensures r.Success? ==> r.value == factories[code]
      ensures r.Failure? ==> r.error == UNSUPPORTED_TYPE + code
    {
      if code in factories then Success(factories[code]) else Failure(UNSUPPORTED_TYPE + code)
    }

    method RegisterFactory(code: string, k: FactoryKind)
      modifies this
      ensures factories == old(factories)[code := k]
      ensures GetFactory(code) == Success(k)
      ensures forall other :: other != code ==> GetFactory(other) == old(GetFactory(other))
    {
      factories := factories[code := k];
    }

    /** NotificationFactoryRegistry.create_notification */
    method CreateNotification(code: string, table: NotificationTable, user: UserId,
                              event: Event, ctx: Context, now: Instant)
      returns (r: Result<Notification, string>)
      modifies table
      ensures code !in factories ==> r == Failure(UNSUPPORTED_TYPE + code) && table.rows == old(table.rows)
      ensures code in factories && CreateMessage(factories[code], ctx).Some? ==>
                r.Success? && r.value.user == user && r.value.event == event.id
                && r.value.ntype == NotificationTypeOf(factories[code])
                && r.value.message == CreateMessage(factories[code], ctx).value
                && table.rows == old(table.rows) + [r.value]
      ensures code in factories && CreateMessage(factories[code], ctx).None? ==>
                r.Failure? && table.rows == old(table.rows)
    {
      var f := GetFactory(code);
      if f.Failure? {
        return Failure(f.error);
      }
      r := FactoryCreateNotification(f.value, table, user, event, ctx, now);
    }
  }
}
