# Event organizer: a verified model of the core

This project models the core of a Django event organizer application and proves properties about it in Dafny.

**Events.** An event moves through a four-state lifecycle: draft, published, cancelled and archived. The rules around that lifecycle are:
- which transitions are allowed;
- when a published event may be archived;
- which actions the UI offers.

Two pieces archive past events: the archive service and its management command. Both sweep the event table.

**Notifications.** Signal handlers snapshot an event's previous status and notify the participants exactly once when it is cancelled. They also tell the organizer when an RSVP is created or deleted.

The notification service:
- fans a single message out to every attending non-organizer;
- classifies an event update as a time, location or plain change.

The notification factories render the Ukrainian message texts, and a registry maps type codes to factories. The notification views flip read flags.

**Smaller pieces around the core:**
- the personal schedule pipeline: entries, filters, highlights and the dictionary form of an entry;
- specification combinators over events;
- view guards that reject requests for a foreign, archived, cancelled or started event;
- the event builders and the event factory;
- the RSVP de-duplication command;
- the session proxy: preferences, last viewed event, view history;
- the profile page's figures: age, RSVP and event counts, recent lists.

**How the model is written:**
- Time is an integer count of seconds, and "now" is always a parameter.
- Status values stay strings, as in the source, so an unknown status can be modelled.
- Database tables are sequences: arrays where rows are updated in place, and a `set` for the RSVP table the de-duplication command reads in no particular order.
- Objects whose fields the source updates are classes:
  - the notification table;
  - the factory registry;
  - the event builder;
  - the request, with its attached event;
  - the session manager.

Common helpers (decimal rendering of numbers and instants, lower-casing, substring search, filtering and subsequences) are in `common.dfy`. The records (Event, Rsvp, Notification) are in `models.dfy`.

## Model

| member | source | states |
|---|---|---|
| States.GetState | events/states.py:162-165 | The state object for a status is that of its own status when the status is one of the four known ones, and the draft state otherwise |
| States.CanTransition | events/states.py:167-180 | A transition is allowed iff the (effective source, target) pair is in the table draft→{published, cancelled}, published→{cancelled, archived} |
| States.NoTransitionIntoDraft | events/states.py:79-143 | No status, known or unknown, can move to draft |
| States.CancelledAndArchivedAreTerminal | events/states.py:121-143 | Cancelled and archived allow no transition at all |
| States.UnknownStatusBehavesAsDraft | events/states.py:162-165 | An unknown status gets the draft state and the draft transitions |
| States.ArchiveOnlyFromPublished | events/states.py:100-101 | Only published passes the table check towards archived |
| States.ValidateTransition | events/states.py:183-211 | Same status gives (true, None) whatever the time. The result is ok iff the error is None. Ok iff same status, or the table allows the move and it is not an early archive. A move the table forbids gets the impossible-transition message. The "only published" error is never produced |
| States.ImpossibleMessageSaysImpossible | events/states.py:201-202 | The table-check error contains "неможливий" |
| States.NotEndedMessageSaysEnded | events/states.py:206-207 | The archive-timing error contains "завершені" |
| States.EndedDraftGetsGenericError | events/states.py:201-207 | An ended draft asked to archive gets the generic impossible-transition error: the table check runs before the timing rule |
| States.PublishedArchiveTiming | events/states.py:204-211 | For a published event, archiving validates iff it has ended, and otherwise the error mentions "завершені" |
| States.CanArchive | events/states.py:246-253 | can_archive holds iff the event is published and has ended |
| States.EditCancelFlags | events/states.py:234-244 | Editing and cancelling are allowed iff the status is neither cancelled nor archived |
| States.CanArchiveAgreesWithValidate | events/states.py:246-253 | For a published event, can_archive agrees with validating the move to archived |
| States.GetAvailableActions | events/states.py:213-232 | "edit" is offered iff the event can be edited, "publish" iff it is (effectively) a draft, "cancel" iff it can be cancelled, and "archive" iff it can be archived now. Cancelled and archived events get [] |
| States.AvailableActionsByStatus | events/states.py:48-59 | The exact lists, in source order: a draft gets edit, publish, cancel; an ended published event gets edit, cancel, archive; a published event not yet ended gets edit, cancel |
| Archive.Swept | events/services.py:28-34 | The swept table has the same length as the original |
| Archive.CountDuePositive | events/services.py:32-33 | The due count is positive iff some published event has ended |
| Archive.SweptEffect | events/services.py:28-34 | Each due event becomes archived with only its status changed. Every other event is unchanged, and no event is due afterwards |
| Archive.SweepIdempotent | events/services.py:28-35 | After a sweep nothing is due, and sweeping again changes nothing |
| Archive.ArchivePastEvents | events/services.py:24-35 | The event array becomes the swept table, and the count returned is the number of due events |
| Archive.ArchiveEvent | events/services.py:37-42 | Returns true iff the event is published and ended, which is exactly can_archive. In that case only this event's status becomes archived; otherwise nothing changes |
| Archive.ArchiveCommand | events/management/commands/archive_past_events.py:9-29 | The table becomes the swept table. With a positive count the output reports that count; with zero it is the "nothing to archive" line and the table is unchanged |
| Archive.SweepUnchangedWhenNothingDue | events/management/commands/archive_past_events.py:26-29 | With nothing due, the sweep is the identity |
| Archive.ArchiveCommandTwice | events/management/commands/archive_past_events.py:13-29 | Two runs with the same clock leave the swept table, and the second run goes down the zero branch |
| Signals.EventPostSave | events/signals.py:29-41 | The cancellation fan-out runs iff the save is an update whose previous status is non-empty and not cancelled and whose new status is cancelled. It then appends one cancellation notice per recipient and returns their number; otherwise the table is unchanged |
| Signals.SaveEvent | events/signals.py:12-41 | A save with both handlers writes the row under its own or a fresh key. It notifies iff the row already existed with a non-empty, non-cancelled status and the new status is cancelled. The snapshot is None for a new or missing row |
| Signals.SaveCancelledTwice | events/signals.py:40 | Saving a cancelled event a second time sends nothing |
| Signals.OnlyCancellingUpdatesFire | events/signals.py:34-40 | New events, non-cancel statuses and already-cancelled events never fire the fan-out |
| Signals.RsvpCreated | events/signals.py:44-56 | On insert, exactly one RSVP_CONFIRMED notice addressed to the organizer is appended; an update appends nothing |
| Signals.RsvpDeleted | events/signals.py:59-70 | Exactly one RSVP_CANCELLED notice addressed to the organizer is appended |
| Signals.RsvpNoticesMatchFactories | notifications/factories.py:121-138 | The handlers' notice texts are the ones the RSVP factories render |
| Models.TypeCodeInjective | notifications/models.py:9-19 | Distinct notification types have distinct stored codes |
| Models.ReadWhere | notifications/views.py:19 | The bulk read update keeps the number of rows |
| Models.NotificationTable.Create | notifications/factories.py:39-44 | Inserting a notification appends exactly that row |
| Models.NotificationTable.BulkCreate | notifications/services.py:46-47 | A bulk insert appends exactly the given rows, in order |
| Models.NotificationTable.MarkRead | notifications/views.py:33-34 | The rows with the given ids become read; nothing else changes |
| NotificationFactories.BulletsContainEach | notifications/factories.py:60 | Every change appears in the bullet list on its own "• " line |
| NotificationFactories.CreateMessage | notifications/factories.py:53-138 | A factory renders a message iff the context has an event and, for the RSVP factories, a participant |
| NotificationFactories.MessageMentionsTitle | notifications/factories.py:53-138 | Every factory's message contains the event title |
| NotificationFactories.UpdatedMessageShape | notifications/factories.py:57-61 | With no changes the message is exactly "Подія '<title>' була оновлена"; otherwise each change is on its own bullet line |
| NotificationFactories.UpdatedMessageListsChange | notifications/factories.py:60-61 | Each listed change appears in the updated-event message |
| NotificationFactories.LocationFallback | notifications/factories.py:90-95 | A missing or empty old or new location is rendered as "не вказано"; a non-empty one as itself |
| NotificationFactories.CancelledMessageShape | notifications/factories.py:104-112 | The cancellation message carries ". Причина: <reason>" iff the reason is non-empty, and always ends with "." |
| NotificationFactories.TimeMessageForm | notifications/factories.py:70-81 | The "змінено з … на …" form is used iff both the old and the new start are present; otherwise the generic "було змінено" |
| NotificationFactories.DefaultFactoriesCoverEveryType | notifications/factories.py:146-153 | The default registry has a factory for every type code, and that factory produces that type |
| NotificationFactories.FactoryCreateNotification | notifications/factories.py:27-44 | Appends exactly one notification with the given user and event and the factory's type and message. With a missing context it fails and writes nothing |
| NotificationFactories.Registry.constructor | notifications/factories.py:146-153 | The registry starts with the default factories |
| NotificationFactories.Registry.GetFactory | notifications/factories.py:155-172 | Succeeds iff the code is registered, with that factory; otherwise fails with "Непідтримуваний тип нотифікації: <code>" |
| NotificationFactories.Registry.RegisterFactory | notifications/factories.py:191-200 | Afterwards the code maps to the new factory and every other lookup is unchanged |
| NotificationFactories.Registry.CreateNotification | notifications/factories.py:174-189 | An unregistered code fails and writes nothing. A registered one behaves as that factory's create_notification |
| NotificationServices.Participants | notifications/services.py:26-31 | The participants are exactly the event's "going" RSVPs whose user is not the organizer |
| NotificationServices.Recipients | notifications/services.py:33-43 | One recipient per participant |
| NotificationServices.RecipientsAreAttendingNonOrganizers | notifications/services.py:26-31 | A user is a recipient iff they hold a "going" RSVP for the event and are not its organizer |
| NotificationServices.OrganizerNeverNotified | notifications/services.py:29-31 | The organizer is never a recipient |
| NotificationServices.FanOut | notifications/services.py:34-43 | One row per recipient |
| NotificationServices.FanOutRows | notifications/services.py:36-43 | Row i is addressed to recipient i; every row has the same event, type, message and unread flag |
| NotificationServices.NotifyEventParticipants | notifications/services.py:14-49 | Appends the fan-out rows for exactly the recipients and returns their number. With no recipients it writes nothing and returns 0 |
| NotificationServices.CreateEventUpdateNotification | notifications/services.py:52-91 | Without an old start time it fails, the AttributeError of the source, and writes nothing. With no change it returns 0 and writes nothing. Otherwise it fans out the updated-event message listing the changes, with the classified type |
| NotificationServices.ChangeLinesEmptyIff | notifications/services.py:64-91 | The change list is empty iff no time, location, title or description differs. A key missing from the old data counts as a difference |
| NotificationServices.UpdateTypePrecedence | notifications/services.py:61-76 | A time change gives TIME_CHANGED, even together with a location change. A location change alone gives LOCATION_CHANGED. Otherwise the type is EVENT_UPDATED |
| NotificationServices.TitleAndDescriptionDoNotAffectType | notifications/services.py:78-84 | Title and description changes never alter the type |
| NotificationServices.UpdateMessageListsEveryChange | notifications/services.py:87-89 | Every change line appears in the message that is sent |
| NotificationServices.TitleChangeAnnounced | notifications/services.py:79-80 | A changed title is among the change lines |
| NotificationServices.CreateEventCancelledNotification | notifications/services.py:93-103 | Fans out EVENT_CANCELLED with the fixed cancellation message to exactly the recipients, returning their number |
| NotificationViews.UserRows | notifications/views.py:12-14 | The rows shown are exactly those of the requesting user |
| NotificationViews.MarkedReadFor | notifications/views.py:16-19 | Marking a user's rows keeps the number of rows |
| NotificationViews.MarkedReadForEffect | notifications/views.py:16-19 | Every row of the user becomes read and other users' rows are untouched; marking again changes nothing |
| NotificationViews.ReadingUnreadMarksAll | notifications/views.py:17-19 | Updating exactly the user's unread rows equals marking all of the user's rows read |
| NotificationViews.NotificationsListView | notifications/views.py:7-24 | Shows the user's rows as they were, then leaves all of them read and the rest of the table untouched |
| NotificationViews.MarkNotificationRead | notifications/views.py:27-39 | Found iff the id exists and belongs to the requester. Only then is that one row marked read; otherwise nothing changes |
| NotificationViews.MarkAllRead | notifications/views.py:42-50 | A POST marks all the user's rows read; any other method changes nothing |
| NotificationViews.MarkOneIdempotent | notifications/views.py:32-34 | Marking one row read changes only its read flag, and doing it twice equals doing it once |
| Schedule.ToDict | events/schedule_services.py:47-62 | The dictionary has "highlight_reason" iff the reason is non-empty, has no rsvp_count, and maps "id" to the event id |
| Schedule.ToDictRoundTrip | events/schedule_services.py:47-62 | Reading the dictionary back gives the entry, apart from its rsvp_count |
| Schedule.ToDictTexts | events/schedule_services.py:49-61 | The title, status, location, description and reason are stored under their keys |
| Schedule.ToDictStart | events/schedule_services.py:52 | The start is stored under "starts_at" in a form that reads back to the same instant |
| Schedule.ToDictEnd | events/schedule_services.py:53 | The end is stored under "ends_at" in a form that reads back to the same instant |
| Schedule.ToDictFlags | events/schedule_services.py:57-58 | is_organizer and has_rsvp are stored under their keys |
| Schedule.StageFilter | events/schedule_services.py:127-135 | A disabled filter stage is the identity; an enabled one filters by its predicate |
| Schedule.FilterEntriesIsOneFilter | events/schedule_services.py:123-137 | The three stages together are one filter by the conjunction of the enabled conditions |
| Schedule.StagesAreTheFilter | events/schedule_services.py:127-135 | Applying the stages one after another equals the filtered output |
| Schedule.FilterEntriesSpec | events/schedule_services.py:123-137 | The output is an order-preserving subsequence of the input. An entry is kept iff it satisfies every enabled filter. With no filters the output is the input. Upcoming means starts_at strictly after now |
| Schedule.HighlightReason | events/schedule_services.py:180-199 | The reason is "" or the mode. It is "soon" iff now < start ≤ now + 24h; "organizer" iff the user organizes the event; "popular" iff at least 5 going RSVPs; in each case only in that mode |
| Schedule.HighlightEntries | events/schedule_services.py:161-178 | Length and order are preserved, the entry at each position is that entry highlighted, and an empty mode returns the entries unchanged |
| Schedule.HighlightOnlyMarks | events/schedule_services.py:171-176 | Highlighting changes only the highlight reason, and an unknown or empty mode changes nothing |
| Schedule.UserEvents | events/schedule_services.py:224-234 | An event is in the query iff the user organizes it, or it is published and the user holds an RSVP for it |
| Schedule.UserRsvpEventIds | events/schedule_services.py:237-254 | An id is in the set iff the user holds an RSVP for that event |
| Schedule.GetUserScheduleEntries | events/schedule_services.py:257-290 | One entry per queried event, in order, copying its fields. is_organizer holds iff the user organizes the event, has_rsvp iff the user has an RSVP for it. The reason is empty. The count is every going RSVP of the event when the user organizes it, and only the user's own going RSVPs otherwise, because the query's filter and its `Count("rsvps")` share one join (lines 224-234) |
| Schedule.AttendedEventNeverPopular | events/schedule_services.py:224-234 | For an event the user attends but does not organize, with at most one RSVP of the user for it (the RSVP table's unique constraint), the count is at most 1, so the popular highlight never marks it |
| Schedule.OwnGoingCountAtMostOne | events/schedule_services.py:224-234 | A user with at most one RSVP for an event contributes at most 1 to the count |
| Schedule.ScheduleMembership | events/schedule_services.py:224-231 | Every event the user organizes is in the schedule; an unpublished one the user does not organize never is |
| Specifications.Conjoin | events/specifications.py:22-23 | The and operator builds a specification satisfied iff both sides are |
| Specifications.Disjoin | events/specifications.py:25-26 | The or operator builds a specification satisfied iff either side is |
| Specifications.Negate | events/specifications.py:28-29 | The invert operator builds a specification satisfied iff the inner one is not |
| Specifications.DoubleNegation | events/specifications.py:66-67 | `~~s` is equivalent to `s` |
| Specifications.DeMorgan | events/specifications.py:32-70 | Both De Morgan laws hold for the combinators |
| Specifications.StatusSpec | events/specifications.py:80-81 | The status specification holds iff the statuses are equal |
| Specifications.EmptyQueryMatchesAll | events/specifications.py:93-107 | An empty title or location query matches every event |
| Specifications.TitleSearchIgnoresCase | events/specifications.py:93-94 | Lower-casing the query or the title does not change the title match |
| Specifications.TitleFound | events/specifications.py:93-94 | A title containing the query matches it |
| Specifications.CombinedMeaning | events/specifications.py:118-121 | The folded specification is absent iff no specifications are given, and it is satisfied iff every given one is |
| Specifications.ApplySpecifications | events/specifications.py:113-122 | With no specifications the input comes back unchanged; otherwise exactly the events satisfying all of them, in order |
| Decorators.Request.constructor | events/decorators.py:23-29 | A request starts with no attached event |
| Decorators.ApplyGuard | events/decorators.py:12-85 | Running one guard gives the guard's outcome and leaves the attached event as the guard step defines |
| Decorators.ApplyGuards | events/decorators.py:12-85 | Running a chain of guards gives the chain's outcome and attached event |
| Decorators.GuardConditions | events/decorators.py:26-83 | organizer_required passes iff the user is the organizer or staff. The archived and cancelled guards reject iff the status is that one. event_not_started rejects iff the start is at or before now. Passing attaches the event |
| Decorators.AttachedEventIsReused | events/decorators.py:43-78 | The status and start guards decide on an already attached event, not on a fresh lookup |
| Decorators.ChainDecides | events/decorators.py:12-85 | The view runs iff every guard allows the request; otherwise the first rejecting guard decides the redirect |
| Builders.DefaultsByKind | events/builders.py:17-28 | A fresh builder has no title or organizer, empty description and location, and status draft. The plain builder has no capacity and an empty category. The conference builder has category "Конференція" and capacity 100 (lines 123-126); the workshop builder "Майстер-клас" and 20 (lines 137-140) |
| Builders.BuildEvent | events/builders.py:87-112 | Without a title it fails with the title error, checked before the organizer. Without an organizer it fails with the organizer error. It succeeds iff title, organizer and both dates are present, and the event then carries exactly the builder's fields |
| Builders.TitleCheckedFirst | events/builders.py:92-95 | With both title and organizer missing, the error names the title |
| Builders.EventBuilder.constructor | events/builders.py:17-28 | A new builder holds its kind's defaults |
| Builders.EventBuilder.WithTitle | events/builders.py:30-33 | Sets only the title and returns the same builder |
| Builders.EventBuilder.WithOrganizer | events/builders.py:35-38 | Sets only the organizer and returns the same builder |
| Builders.EventBuilder.WithDescription | events/builders.py:40-43 | Sets only the description and returns the same builder |
| Builders.EventBuilder.WithLocation | events/builders.py:45-48 | Sets only the location and returns the same builder |
| Builders.EventBuilder.WithDates | events/builders.py:56-60 | Sets only the two dates and returns the same builder |
| Builders.EventBuilder.WithCapacity | events/builders.py:62-65 | Sets only the capacity and returns the same builder |
| Builders.EventBuilder.WithStatus | events/builders.py:67-70 | Sets only the status and returns the same builder |
| Builders.EventBuilder.WithCategory | events/builders.py:72-75 | Sets only the category and returns the same builder |
| Builders.EventBuilder.AsDraft | events/builders.py:77-80 | Sets only the status, to draft |
| Builders.EventBuilder.AsPublished | events/builders.py:82-85 | Sets only the status, to published |
| Builders.EventBuilder.WithLargeCapacity | events/builders.py:128-131 | On a conference builder, sets only the capacity, to 500 |
| Builders.EventBuilder.WithSmallGroup | events/builders.py:142-145 | On a workshop builder, sets only the capacity, to 10 |
| Builders.EventBuilder.Reset | events/builders.py:114-117 | Restores the defaults of the builder's own kind, so a conference or workshop builder gets its subclass defaults back |
| Builders.BuildConference | events/builders.py:120-131 | A conference chain with a title, organizer, dates, large capacity and published status builds a published conference of capacity 500 with that title and organizer |
| EventFactories.CreateDraft | events/factories.py:19-35 | Succeeds iff both dates are supplied. The draft then carries the given title, organizer, description and location, with no capacity and no category |
| EventFactories.CreatePublished | events/factories.py:37-59 | A published event with the given title, organizer, dates, location and capacity |
| EventFactories.CreateConference | events/factories.py:61-83 | Published, category "Конференція", ending duration_days days after it starts |
| EventFactories.CreateWorkshop | events/factories.py:85-107 | Published, category "Майстер-клас", with the given capacity, ending duration_hours hours after it starts |
| EventFactories.CreateMeetup | events/factories.py:109-129 | Published, category "Зустріч", no capacity, ending three hours after it starts |
| EventFactories.CreateQuickEvent | events/factories.py:131-150 | A draft starting days_from_now days after now and lasting two hours |
| EventFactories.DefaultDurations | events/factories.py:61-141 | Under the default arguments a conference lasts one day with no capacity, a workshop two hours with capacity 20, and a quick event starts a week ahead |
| EventFactories.EndsAfterStart | events/factories.py:72-141 | With positive durations every constructor yields an event that ends after it starts |
| RsvpDedup.LatestExists | tickets/management/commands/fix_rsvp_duplicates.py:29-35 | Every non-empty group has a newest row (greatest created_at) |
| RsvpDedup.LatestUnique | tickets/management/commands/fix_rsvp_duplicates.py:29-35 | The newest row of a group is unique |
| RsvpDedup.DeduplicatePairs | tickets/management/commands/fix_rsvp_duplicates.py:15-46 | After the loop each (user, event) pair keeps only its newest row. The deleted count is the number of rows removed, and one report line per duplicate pair gives the number it lost. Every duplicate pair has a line and no pair has two |
| RsvpDedup.ReportShape | tickets/management/commands/fix_rsvp_duplicates.py:42-65 | The report is the group lines, then the invalid-status line when present, then the total line |
| RsvpDedup.FixRsvpDuplicates | tickets/management/commands/fix_rsvp_duplicates.py:13-65 | The table becomes the newest going row of each pair, and the total deleted is the original size minus the final size. The report has one line per duplicate pair, each pair exactly once. The invalid-status line appears iff some remaining row was not going, with their number. The last line is the total. Each deleted row adds one RSVP_CANCELLED notice to its event's organizer (the post_delete receiver, events/signals.py:59-70), so the notification table grows by exactly the total deleted |
| RsvpDedup.NotifyDeleted | events/signals.py:59-70 | Deleting a set of RSVP rows appends one RSVP_CANCELLED notice per row, each row's exactly once, to the old table |
| RsvpDedup.DeleteInvalid | tickets/management/commands/fix_rsvp_duplicates.py:48-59 | Removes exactly the rows that are not going, reports their number, and writes one notice per removed row |
| RsvpDedup.ReportCorrect | tickets/management/commands/fix_rsvp_duplicates.py:42-65 | A report built from one line per duplicate pair lists each pair once, then the invalid-status line iff there are invalid rows, then the total |
| RsvpDedup.CleanedProperties | tickets/management/commands/fix_rsvp_duplicates.py:15-58 | Afterwards there is at most one row per (user, event), it is the newest row of its original pair, and every row is going |
| RsvpDedup.UniqueGoingKept | tickets/management/commands/fix_rsvp_duplicates.py:15-58 | A going row that was alone in its pair is never deleted |
| RsvpDedup.NonGoingNewestEmptiesPair | tickets/management/commands/fix_rsvp_duplicates.py:49-55 | A pair whose newest row is not going vanishes entirely |
| RsvpDedup.CleanedIdempotent | tickets/management/commands/fix_rsvp_duplicates.py:13-65 | Cleaning a cleaned table changes nothing |
| RsvpDedup.RunTwice | tickets/management/commands/fix_rsvp_duplicates.py:13-65 | A second run deletes 0 rows, so only the first run writes notices |
| Session.PrefKey | users/session_manager.py:17 | A preference key is "pref_" followed by the user's key |
| Session.SlicePrefix | users/session_manager.py:46 | Python's `[:m]`: a prefix of length min(m, n) for m ≥ 0, and max(0, n + m) for negative m |
| Session.SessionManager.constructor | users/session_manager.py:12-13 | The proxy wraps the given session |
| Session.SessionManager.SetUserPreference | users/session_manager.py:15-18 | Stores the value under "pref_<key>", marks the session modified, and reading the preference back gives the value |
| Session.SessionManager.ClearPreferences | users/session_manager.py:24-29 | The session loses exactly its "pref_" keys and is marked modified |
| Session.SessionManager.SetLastViewedEvent | users/session_manager.py:31-38 | Stores the id under last_viewed_event, and get_last_viewed_event returns it |
| Session.SessionManager.AddToHistory | users/session_manager.py:40-47 | Stores the id first, followed by the old history without that id, cut to max_items, and marks the session modified. With max_items ≥ 1 the id is first, and a history without duplicates stays so |
| Session.SessionManager.ClearHistory | users/session_manager.py:53-57 | Removes only view_history, marking the session modified only when the key was there; the history then reads [] |
| Session.HistoryShape | users/session_manager.py:42-46 | The new history starts with the id and has length min(m, old length + (1 if the id was new, else 0)), or the negative-bound counterpart. It holds only the id and old ids |
| Session.HistoryDistinct | users/session_manager.py:43-45 | A history without duplicates stays without duplicates |
| Session.HistoryOrder | users/session_manager.py:42-46 | The ids after the first keep their relative order from the old history |
| Session.PreferenceRoundTrip | users/session_manager.py:15-22 | A stored preference reads back. A missing one reads as the default. Setting one changes no other preference, the history or the last viewed event |
| Session.ReservedKeysAreNotPreferences | users/session_manager.py:24-38 | view_history and last_viewed_event are not in the "pref_" namespace |
| Session.ClearPreferencesKeepsOtherState | users/session_manager.py:24-29 | After clearing, no "pref_" key remains, and every other key, including the history and the last viewed event, reads as before |
| Profile.Age | users/views.py:91-98 | The age is None iff there is no profile or no birth date |
| Profile.AgeCountsBirthdays | users/views.py:94-97 | The age is the number of whole years: the age-th birthday has been reached by today and the next one has not |
| Profile.BirthdayAndDayBefore | users/views.py:97 | On the birthday the age is the year difference; the day before, one less |
| Profile.AgeMonotonic | users/views.py:97 | The age never decreases as the date advances |
| Profile.RsvpsOf | users/views.py:62-63 | Exactly the user's RSVPs |
| Profile.UpcomingPlusPast | users/views.py:72-74 | Upcoming (ends at or after now) plus past (ends before now) equals the number of RSVPs |
| Profile.EventsOf | users/views.py:66-67 | Exactly the events the user organizes |
| Profile.PublishedPlusArchived | users/views.py:66-69 | The published count plus the archived count is at most the number of events |
| Profile.SortNewest | users/views.py:76-77 | order_by("-created_at") is a permutation sorted newest first |
| Profile.Recent | users/views.py:76-77 | `[:5]` after the ordering: min(5, n) rows, newest first, drawn from the input, and no row left out is newer than a kept one |
| Profile.ProfileContext | users/views.py:58-99 | The counts are those of the user's RSVPs and events: the RSVP count, the upcoming and past counts, the number of events organized, and the published and archived counts. The recent lists are the five newest RSVPs and events of the user, and the age is `Age` of the profile. Hence upcoming plus past is the RSVP count, published plus archived is at most the user's events, the recent lists are at most five and newest first, and the age is None iff there is no birth date |

## Left out

**Features outside the model:**
- **RSVP admission control** (capacity, duplicates, time conflicts). The RSVP service that would hold it is not part of this model, and the RSVP views call `get_or_create` without checks.
- **Form and serializer validation.** The forms and serializers contain none of the validation rules.
- **Views, URL routing, templates, admin views, repositories, ordering strategies and the theme script.** These cover presentation and thin ORM wrappers. This includes `event_cancel_view`, which sets cancelled without validating the transition.
- **`SingletonMeta`** (events/services.py:10-18): object-identity caching, with nothing to state about values.

**Framework mechanics:**
- **Platform machinery** is not modelled: Django signal dispatch, redirects, flash messages, `get_object_or_404`, migrations and stdout styling. Where a receiver writes something, the model calls it at the point the signal fires: the event and RSVP save paths, and each row the de-duplication command deletes. The bulk archive uses `update()`, which sends no signal. `archive_event`'s save does send one, but its receivers write nothing for an archived status, so the model does not call them there. The management commands return their output lines instead of writing them.
- **Clock, formatting and case-folding.**
  - The clock is a parameter.
  - `strftime`, `timezone.localtime` and `isoformat` are replaced by a decimal rendering of the instant that reads back to it (`Common.FormatInstant`). The exact date text is therefore not modelled.
  - `str.lower` is modelled on ASCII and the basic Cyrillic block only (`Common.Lower`).
- **Database `icontains`** (`to_queryset_filter`) is not modelled. `apply_specifications` is modelled as filtering a list with `is_satisfied_by`, that is, with Python's `str.lower` and substring test. The database's `icontains` folds case, and on some collations accents too, in a way that depends on the backend and the column's collation. It can therefore match more or fewer rows than `is_satisfied_by`. Specifications.TitleSearchIgnoresCase and Specifications.TitleFound describe `is_satisfied_by`, not the rows the page's query returns.

**Fields and orderings:**
- Latitude, longitude and `with_coordinates`, the float coordinate fields, are not modelled. Neither is `updated_at`.
- The `order_by("starts_at")` ordering of the schedule query is not modelled. The schedule keeps the order of the given event sequence.
- `get_schedule_json_data` (the JSON text itself) is not modelled.
- The review aggregates of the profile page (users/views.py:79-89) are not modelled. They need the review table, which is not part of this model.

**Weakened contracts:**
- EventFactories.CreatePublished: the capacity is a natural number here, while the source accepts any integer. Negative capacities are not modelled.
- EventFactories.CreateWorkshop: the capacity is a natural number here; negative capacities are not modelled.
- Builders.EventBuilder.WithCapacity: the capacity is a natural number here; negative capacities are not modelled.
- Builders.EventBuilder.WithLargeCapacity: callable only on a conference builder, because the method exists only on that subclass.
- Builders.EventBuilder.WithSmallGroup: callable only on a workshop builder, for the same reason.
- EventFactories.CreateDraft: its extra keyword arguments are reduced to the two dates. They are the only fields the insert cannot do without. Other extra fields are not modelled.
- EventFactories.CreatePublished, EventFactories.CreateConference, EventFactories.CreateWorkshop, EventFactories.CreateMeetup, EventFactories.CreateQuickEvent: their `**kwargs` (events/factories.py:46-149), which are passed on to the insert and could set or override further fields, are dropped. The modelled event carries only the named parameters and the fixed values.
- RsvpDedup.FixRsvpDuplicates: the database visits the duplicate pairs, and breaks created_at ties, in an unspecified order. The model visits the pairs in an arbitrary order and breaks ties on created_at by the smaller id. The order of the per-pair report lines is therefore not stated. The order of the RSVP_CANCELLED notices within each phase is not stated either. The contract does state that all phase-1 notices come before the phase-2 ones.
- Profile.Recent: rows with equal created_at come out in an arbitrary order, because the database leaves their order unspecified.
- Session.SessionManager.AddToHistory: the model reads a stored `view_history` that is not a list as `[]`; the source would fail on it. The model also does not capture that the list in the session is mutated in place before being stored again.

- NotificationFactories.Registry.RegisterFactory: only the six built-in factories can be registered. A custom factory with its own type code and message, such as the `CustomNotificationFactory` with "custom_type" in notifications/tests.py:188-198, cannot be represented. The source's `_factories` dictionary is also a class attribute shared by every caller in the process, while each model `Registry` object owns its own map, so a registration made through one registry is not seen through another.
- NotificationViews.UserRows, NotificationViews.NotificationsListView: the `order_by('-created_at')` of notifications/views.py:14 is not modelled. The rows are shown in table order, not newest first; the set of rows shown is the same.

**Table and session:**
- The notification table never deletes rows, so a notification's id is its position in the table.
- `request.session` is the same object as the proxy's session. That aliasing is not modelled: the proxy owns its session map.

## Where the code and its tests disagree

The model follows the code in each case:

- **`archive_event`**
  - Code: returns a boolean (events/services.py:37-42).
  - Tests: expect a `(success, error)` pair (events/test_services_coverage.py:100-123).
  - Model: `Archive.ArchiveEvent` returns the boolean.
- **A change of both time and location**
  - Code: classified as TIME_CHANGED (notifications/services.py:64-76).
  - Tests: expect EVENT_UPDATED (notifications/tests.py:288-320).
  - Model: `NotificationServices.UpdateTypePrecedence` states the code's precedence.
- **The RSVP_CONFIRMED and RSVP_CANCELLED notification types**
  - Code: used by the factories and the signal handlers, but not declared in notifications/models.py:9-19.
  - Model: a six-value type with the codes "rsvp_confirmed" and "rsvp_cancelled".
- **Missing dates**
  - Code: the date columns are NOT NULL (events/models.py), so an event built without dates cannot be inserted.
  - Model: builds and drafts without dates fail.
- **A missing old start time in the update notification**
  - Code: the time check fires, then formatting `None` raises.
  - Model: `NotificationServices.CreateEventUpdateNotification` returns a failure and writes nothing.
