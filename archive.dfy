/** Archival: the bulk sweep that moves every ended published event to
    archived, the single-event variant, and the management command that runs
    the sweep and reports on it. The event table is an array updated in place. */
module Archive {
  import opened Common
  import opened Models
  import States

  /** The sweep's filter: status = published and ends_at < now. */
  predicate IsDue(e: Event, now: Instant)
  {
    e.status == PUBLISHED && e.endsAt < now
  }

  /** The number of rows the sweep's filter selects. */
  function CountDue(s: seq<Event>, now: Instant): nat
  {
    if s == [] then 0
    else CountDue(s[..|s| - 1], now) + (if IsDue(s[|s| - 1], now) then 1 else 0)
  }

  function ArchiveIfDue(e: Event, now: Instant): Event
  {
    if IsDue(e, now) then e.(status := ARCHIVED) else e
  }

  /** The table after `update(status=archived)` on the selected rows. */
  function Swept(s: seq<Event>, now: Instant): (r: seq<Event>)
    ensures |r| == |s|
  {
    seq(|s|, i requires 0 <= i < |s| => ArchiveIfDue(s[i], now))
  }

  lemma {:induction false} CountDuePositive(s: seq<Event>, now: Instant)
    ensures CountDue(s, now) > 0 <==> exists i :: 0 <= i < |s| && IsDue(s[i], now)
  {
    if s != [] {
      var init := s[..|s| - 1];
      CountDuePositive(init, now);
      if exists i :: 0 <= i < |init| && IsDue(init[i], now) {
        var i :| 0 <= i < |init| && IsDue(init[i], now);
        assert s[i] == init[i];
      }
      if exists i :: 0 <= i < |s| && IsDue(s[i], now) {
        var i :| 0 <= i < |s| && IsDue(s[i], now);
        if i < |s| - 1 {
          assert init[i] == s[i];
        }
      }
    }
  }

  /** After the sweep every selected event is archived, every other event is
      exactly as it was, and no event is due any more. */
  lemma SweptEffect(s: seq<Event>, now: Instant)
    ensures forall i :: 0 <= i < |s| && IsDue(s[i], now) ==> Swept(s, now)[i] == s[i].(status := ARCHIVED)
    ensures forall i :: 0 <= i < |s| && !IsDue(s[i], now) ==> Swept(s, now)[i] == s[i]
    ensures forall i :: 0 <= i < |s| ==> !IsDue(Swept(s, now)[i], now)
  {
  }

  /** A second sweep with the same `now` selects nothing and changes nothing. */
  lemma SweepIdempotent(s: seq<Event>, now: Instant)
    ensures CountDue(Swept(s, now), now) == 0
    ensures Swept(Swept(s, now), now) == Swept(s, now)
  {
    CountDuePositive(Swept(s, now), now);
  }

  /** EventArchiveService.archive_past_events */
  method ArchivePastEvents(events: array<Event>, now: Instant) returns (count: nat)
    modifies events
    ensures count == CountDue(old(events[..]), now)
    ensures events[..] == Swept(old(events[..]), now)
  {
    count := 0;
    var i := 0;
    while i < events.Length
      invariant 0 <= i <= events.Length
      invariant count == CountDue(events[..i], now)
    {
      assert events[..i + 1][..i] == events[..i];
      if IsDue(events[i], now) {
        count := count + 1;
      }
      i := i + 1;
    }
    assert events[..events.Length] == events[..];
    if count > 0 {
      var j := 0;
      while j < events.Length
        invariant 0 <= j <= events.Length
        invariant forall k :: 0 <= k < j ==> events[k] == ArchiveIfDue(old(events[k]), now)
        invariant forall k :: j <= k < events.Length ==> events[k] == old(events[k])
      {
        if IsDue(events[j], now) {
          events[j] := events[j].(status := ARCHIVED);
        }
        j := j + 1;
      }
    } else {
      CountDuePositive(events[..], now);
    }
  }

  /** EventArchiveService.archive_event on the row at `index`. */
  method ArchiveEvent(events: array<Event>, index: nat, now: Instant) returns (archived: bool)
    requires index < events.Length
    modifies events
    ensures archived == States.CanArchive(old(events[index]), now)
    ensures archived <==> old(events[index]).status == PUBLISHED && old(events[index]).endsAt < now
    ensures archived ==> events[index] == old(events[index]).(status := ARCHIVED)
    ensures !archived ==> events[index] == old(events[index])
    ensures forall k :: 0 <= k < events.Length && k != index ==> events[k] == old(events[k])
  {
    if events[index].status == PUBLISHED && events[index].endsAt < now {
      events[index] := events[index].(status := ARCHIVED);
      return true;
    }
    return false;
  }

  const NOTHING_TO_ARCHIVE: string := "Немає подій для архівування"

  function ArchivedLine(count: nat): string
  {
    "Успішно архівовано " + NatToString(count) + " подій"
  }

  /** The archive_past_events management command: the same selection and
      bulk update, then one line of output. */
  method ArchiveCommand(events: array<Event>, now: Instant) returns (output: string)
    modifies events
    ensures events[..] == Swept(old(events[..]), now)
    ensures CountDue(old(events[..]), now) > 0 ==> output == ArchivedLine(CountDue(old(events[..]), now))
    ensures CountDue(old(events[..]), now) == 0 ==> output == NOTHING_TO_ARCHIVE && events[..] == old(events[..])
  {
    var count := ArchivePastEvents(events, now);
    if count > 0 {
      output := ArchivedLine(count);
    } else {
      output := NOTHING_TO_ARCHIVE;
      SweepUnchangedWhenNothingDue(old(events[..]), now);
    }
  }

  lemma SweepUnchangedWhenNothingDue(s: seq<Event>, now: Instant)
    requires CountDue(s, now) == 0
    ensures Swept(s, now) == s
  {
    CountDuePositive(s, now);
  }

  /** Running the command twice in a row: the second run takes the
      "nothing to archive" branch and leaves the table as the first left it. */
  method ArchiveCommandTwice(events: array<Event>, now: Instant) returns (first: string, second: string)
    modifies events
    ensures events[..] == Swept(old(events[..]), now)
    ensures second == NOTHING_TO_ARCHIVE
  {
    first := ArchiveCommand(events, now);
    SweepIdempotent(old(events[..]), now);
    second := ArchiveCommand(events, now);
  }
}
