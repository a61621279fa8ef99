/** The event lifecycle: four states, a static transition table, and the
    manager that validates a requested status change against the table and
    the archive-timing rule. */
module States {
  import opened Common
  import opened Models

  /** The stateless state objects, one per lifecycle state. */
  datatype State = DraftState | PublishedState | CancelledState | ArchivedState
  {
    function Name(): string
    {
      match this
      case DraftState => DRAFT
      case PublishedState => PUBLISHED
      case CancelledState => CANCELLED
      case ArchivedState => ARCHIVED
    }

    predicate CanEdit() { DraftState? || PublishedState? }
    predicate CanCancel() { DraftState? || PublishedState? }
    predicate CanArchive() { PublishedState? }
    predicate CanPublish() { DraftState? }

    function AllowedTransitions(): set<string>
    {
      match this
      case DraftState => {PUBLISHED, CANCELLED}
      case PublishedState => {CANCELLED, ARCHIVED}
      case CancelledState => {}
      case ArchivedState => {}
    }

    /** The actions the state's flags allow, always in the order
        edit, publish, cancel, archive. */
    function AvailableActions(): seq<string>
    {
      (if CanEdit() then ["edit"] else [])
      + (if CanPublish() then ["publish"] else [])
      + (if CanCancel() then ["cancel"] else [])
      + (if CanArchive() then ["archive"] else [])
    }
  }

  predicate IsKnownStatus(status: string)
  {
    status == DRAFT || status == PUBLISHED || status == CANCELLED || status == ARCHIVED
  }

  /** The status a stored status string behaves as: itself if known, draft otherwise. */
  function Effective(status: string): string
  {
    if IsKnownStatus(status) then status else DRAFT
  }

  /** The lifecycle table as data: draft -> {published, cancelled},
      published -> {cancelled, archived}, nothing out of cancelled or archived. */
  const TRANSITIONS: set<(string, string)> :=
    {(DRAFT, PUBLISHED), (DRAFT, CANCELLED), (PUBLISHED, CANCELLED), (PUBLISHED, ARCHIVED)}

  /** STATE_CLASSES.get(status, draft state) */
  function GetState(status: string): (s: State)
    ensures s.Name() == Effective(status)
  {
    if status == PUBLISHED then PublishedState
    else if status == CANCELLED then CancelledState
    else if status == ARCHIVED then ArchivedState
    else DraftState
  }

  function CanTransition(fromStatus: string, toStatus: string): (r: bool)
    ensures r <==> (Effective(fromStatus), toStatus) in TRANSITIONS
  {
    toStatus in GetState(fromStatus).AllowedTransitions()
  }

  lemma NoTransitionIntoDraft(fromStatus: string)
    ensures !CanTransition(fromStatus, DRAFT)
  {
  }

  lemma CancelledAndArchivedAreTerminal(toStatus: string)
    ensures !CanTransition(CANCELLED, toStatus) && !CanTransition(ARCHIVED, toStatus)
  {
  }

  /** An unknown status string is treated exactly like draft. */
  lemma UnknownStatusBehavesAsDraft(status: string, toStatus: string)
    requires !IsKnownStatus(status)
    ensures GetState(status) == DraftState
    ensures CanTransition(status, toStatus) == CanTransition(DRAFT, toStatus)
  {
  }

  /** Only a published event passes the table check towards archived. */
  lemma ArchiveOnlyFromPublished(status: string)
    requires CanTransition(status, ARCHIVED)
    ensures status == PUBLISHED
  {
    assert (Effective(status), ARCHIVED) in TRANSITIONS;
    assert Effective(status) == PUBLISHED;
  }

  function ImpossibleMessage(current: string, target: string): string
  {
    "Перехід з '" + current + "' до '" + target + "' неможливий"
  }

  const NOT_ENDED_MESSAGE: string := "Архівувати можна лише завершені події"
  const NOT_PUBLISHED_MESSAGE: string := "Архівувати можна лише опубліковані події"

  /** EventStateManager.validate_transition: (is_valid, error_message). */
  function ValidateTransition(event: Event, newStatus: string, now: Instant): (r: (bool, Option<string>))
    ensures event.status == newStatus ==> r == (true, None)
    ensures r.0 <==> r.1 == None
    ensures r.0 <==> event.status == newStatus
                     || ((Effective(event.status), newStatus) in TRANSITIONS
                         && (newStatus == ARCHIVED ==> event.endsAt < now))
    ensures event.status != newStatus && !CanTransition(event.status, newStatus)
            ==> r.1 == Some(ImpossibleMessage(event.status, newStatus))
    ensures event.status != newStatus && CanTransition(event.status, newStatus)
            && newStatus == ARCHIVED && event.endsAt >= now
            ==> r.1 == Some(NOT_ENDED_MESSAGE)
    // the "only published events" branch is never taken
    ensures r.1 != Some(NOT_PUBLISHED_MESSAGE)
  {
    var current := event.status;
    if current == newStatus then (true, None)
    else if !CanTransition(current, newStatus) then
      var message := ImpossibleMessage(current, newStatus);
      assert message[0] != NOT_PUBLISHED_MESSAGE[0];
      (false, Some(message))
    else if newStatus == ARCHIVED && event.endsAt >= now then (false, Some(NOT_ENDED_MESSAGE))
    else if newStatus == ARCHIVED && current != PUBLISHED then (false, Some(NOT_PUBLISHED_MESSAGE))
    else (true, None)
  }

  lemma ImpossibleMessageSaysImpossible(current: string, target: string)
    ensures Contains(ImpossibleMessage(current, target), "неможливий")
  {
    var head := "Перехід з '" + current + "' до '" + target + "' ";
    assert ImpossibleMessage(current, target) == head + "неможливий";
    ContainsSuffix(head, "неможливий");
  }

  lemma NotEndedMessageSaysEnded()
    ensures Contains(NOT_ENDED_MESSAGE, "завершені")
  {
    assert NOT_ENDED_MESSAGE == "Архівувати можна лише " + "завершені" + " події";
    ContainsMiddle("Архівувати можна лише ", "завершені", " події");
  }

  /** The table check runs before the timing rule: an ended draft asked to
      archive gets the generic "impossible" error, not the timing one. */
  lemma EndedDraftGetsGenericError(event: Event, now: Instant)
    requires event.status == DRAFT && event.endsAt < now
    ensures ValidateTransition(event, ARCHIVED, now) == (false, Some(ImpossibleMessage(DRAFT, ARCHIVED)))
    ensures Contains(ValidateTransition(event, ARCHIVED, now).1.value, "неможливий")
  {
    ImpossibleMessageSaysImpossible(DRAFT, ARCHIVED);
  }

  /** published -> archived succeeds iff the event has ended; otherwise the
      error names the "ended events only" rule. */
  lemma PublishedArchiveTiming(event: Event, now: Instant)
    requires event.status == PUBLISHED
    ensures ValidateTransition(event, ARCHIVED, now).0 <==> event.endsAt < now
    ensures event.endsAt >= now ==> Contains(ValidateTransition(event, ARCHIVED, now).1.value, "завершені")
  {
    NotEndedMessageSaysEnded();
  }

  predicate CanEdit(event: Event) { GetState(event.status).CanEdit() }

  predicate CanCancel(event: Event) { GetState(event.status).CanCancel() }

  /** EventStateManager.can_archive: the state allows it and the event has ended. */
  function CanArchive(event: Event, now: Instant): (r: bool)
    ensures r <==> event.status == PUBLISHED && event.endsAt < now
  {
    if !GetState(event.status).CanArchive() then false else event.endsAt < now
  }

  /** Editing and cancelling are open exactly to events that are neither
      cancelled nor archived (an unknown status counts as draft). */
  lemma EditCancelFlags(event: Event)
    ensures CanEdit(event) <==> event.status != CANCELLED && event.status != ARCHIVED
    ensures CanCancel(event) <==> event.status != CANCELLED && event.status != ARCHIVED
  {
  }

  /** For a published event the UI helper and the validator agree on archiving. */
  lemma CanArchiveAgreesWithValidate(event: Event, now: Instant)
    requires event.status == PUBLISHED
    ensures CanArchive(event, now) <==> ValidateTransition(event, ARCHIVED, now).0
  {
  }

  /** EventStateManager.get_available_actions */
  function GetAvailableActions(event: Event, now: Instant): (r: seq<string>)
    ensures "edit" in r <==> CanEdit(event)
    ensures "publish" in r <==> Effective(event.status) == DRAFT
    ensures "cancel" in r <==> CanCancel(event)
    ensures "archive" in r <==> CanArchive(event, now)
    ensures event.status == CANCELLED || event.status == ARCHIVED ==> r == []
  {
    var actions := GetState(event.status).AvailableActions();
    if "archive" in actions && event.endsAt >= now then RemoveFirst(actions, "archive") else actions
  }

  /** The exact list for every status, which fixes the order edit, publish,
      cancel, archive. */
  lemma AvailableActionsByStatus(event: Event, now: Instant)
    ensures Effective(event.status) == DRAFT ==> GetAvailableActions(event, now) == ["edit", "publish", "cancel"]
    ensures event.status == PUBLISHED && event.endsAt < now
            ==> GetAvailableActions(event, now) == ["edit", "cancel", "archive"]
    ensures event.status == PUBLISHED && event.endsAt >= now
            ==> GetAvailableActions(event, now) == ["edit", "cancel"]
  {
  }
}
