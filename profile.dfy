/** The figures the profile page computes: the user's age from the birth
    date, the RSVP counts split at `now`, the organizer's event counts, and
    the five most recent RSVPs and events. */
module Profile {
  import opened Common
  import opened Models

  datatype Date = Date(year: int, month: int, day: int)

  /** `(a.month, a.day) < (b.month, b.day)` as Python compares tuples. */
  predicate EarlierInYear(a: Date, b: Date)
  {
    a.month < b.month || (a.month == b.month && a.day < b.day)
  }

  /** Calendar order on dates, year first. */
  predicate NotAfter(a: Date, b: Date)
  {
    a.year < b.year || (a.year == b.year && !EarlierInYear(b, a))
  }

  /** The user's profile as the view sees it: absent, or present with an
      optional birth date. */
  datatype UserProfile = UserProfile(birthDate: Option<Date>)

  /** The `age` entry of the context. */
  function Age(profile: Option<UserProfile>, today: Date): (r: Option<int>)
    ensures r.None? <==> profile.None? || profile.value.birthDate.None?
  {
    if profile.Some? && profile.value.birthDate.Some? then
      var bd := profile.value.birthDate.value;
      Some(today.year - bd.year - (if EarlierInYear(today, bd) then 1 else 0))
    else None
  }

  /** The `n`-th birthday. */
  function Anniversary(bd: Date, n: int): Date
  {
    Date(bd.year + n, bd.month, bd.day)
  }

  /** The age is the number of whole years lived: the age-th birthday has
      been reached by today and the next one has not. */
  lemma AgeCountsBirthdays(bd: Date, today: Date)
    ensures var age := Age(Some(UserProfile(Some(bd))), today).value;
            NotAfter(Anniversary(bd, age), today) && !NotAfter(Anniversary(bd, age + 1), today)
  {
  }

  /** On the birthday the age is the difference of the years; on the day
      before (same month) it is one less. */
  lemma BirthdayAndDayBefore(bd: Date, year: int)
    ensures Age(Some(UserProfile(Some(bd))), Date(year, bd.month, bd.day)) == Some(year - bd.year)
    ensures Age(Some(UserProfile(Some(bd))), Date(year, bd.month, bd.day - 1)) == Some(year - bd.year - 1)
  {
  }

  /** As the days go by the age never decreases. */
  lemma AgeMonotonic(bd: Date, earlier: Date, later: Date)
    requires NotAfter(earlier, later)
    ensures Age(Some(UserProfile(Some(bd))), earlier).value <= Age(Some(UserProfile(Some(bd))), later).value
  {
  }

  // ---------------------------------------------------------------------------
  // Counts
  // ---------------------------------------------------------------------------

  /** Every RSVP points at a stored event (the foreign key). */
  predicate EventsKnown(rsvps: seq<Rsvp>, events: map<EventId, Event>)
  {
    forall r :: r in rsvps ==> r.event in events
  }

  function RsvpsOf(rsvps: seq<Rsvp>, user: UserId): (r: seq<Rsvp>)
    ensures |r| <= |rsvps|
    ensures forall x :: x in r <==> x in rsvps && x.user == user
  {
    if rsvps == [] then []
    else (if rsvps[0].user == user then [rsvps[0]] else []) + RsvpsOf(rsvps[1..], user)
  }

  /** `filter(event__ends_at__gte=now).count()` and
      `filter(event__ends_at__lt=now).count()`. */
  function UpcomingCount(rsvps: seq<Rsvp>, events: map<EventId, Event>, now: Instant): nat
    requires EventsKnown(rsvps, events)
  {
    if rsvps == [] then 0
    else (if events[rsvps[0].event].endsAt >= now then 1 else 0) + UpcomingCount(rsvps[1..], events, now)
  }

  function PastCount(rsvps: seq<Rsvp>, events: map<EventId, Event>, now: Instant): nat
    requires EventsKnown(rsvps, events)
  {
    if rsvps == [] then 0
    else (if events[rsvps[0].event].endsAt < now then 1 else 0) + PastCount(rsvps[1..], events, now)
  }

  /** Upcoming and past RSVPs partition the user's RSVPs. */
  lemma {:induction false} UpcomingPlusPast(rsvps: seq<Rsvp>, events: map<EventId, Event>, now: Instant)
    requires EventsKnown(rsvps, events)
    ensures UpcomingCount(rsvps, events, now) + PastCount(rsvps, events, now) == |rsvps|
  {
    if rsvps != [] {
      UpcomingPlusPast(rsvps[1..], events, now);
    }
  }

  function EventsOf(events: seq<Event>, organizer: UserId): (r: seq<Event>)
    ensures |r| <= |events|
    ensures forall e :: e in r <==> e in events && e.organizer == organizer
  {
    if events == [] then []
    else (if events[0].organizer == organizer then [events[0]] else []) + EventsOf(events[1..], organizer)
  }

  function StatusCount(events: seq<Event>, status: string): nat
  {
    if events == [] then 0
    else (if events[0].status == status then 1 else 0) + StatusCount(events[1..], status)
  }

  /** Published and archived events are disjoint parts of the user's events. */
  lemma {:induction false} PublishedPlusArchived(events: seq<Event>)
    ensures StatusCount(events, PUBLISHED) + StatusCount(events, ARCHIVED) <= |events|
  {
    if events != [] {
      PublishedPlusArchived(events[1..]);
    }
  }

  // ---------------------------------------------------------------------------
  // Recent lists: order_by("-created_at")[:5]
  // ---------------------------------------------------------------------------

  const RECENT_LIMIT: nat := 5

  /** Sorted by the key, largest first. */
  predicate NewestFirst<T>(s: seq<T>, key: T -> Instant)
  {
    forall i, j :: 0 <= i < j < |s| ==> key(s[i]) >= key(s[j])
  }

  lemma ConsNewestFirst<T>(h: T, t: seq<T>, key: T -> Instant)
    requires NewestFirst(t, key) && forall y :: y in t ==> key(h) >= key(y)
    ensures NewestFirst([h] + t, key)
  {
    var r := [h] + t;
    forall i, j | 0 <= i < j < |r|
      ensures key(r[i]) >= key(r[j])
    {
      assert r[j] == t[j - 1] && t[j - 1] in t;
      if i > 0 {
        assert r[i] == t[i - 1];
      }
    }
  }

  function Insert<T(==)>(x: T, s: seq<T>, key: T -> Instant): (r: seq<T>)
    requires NewestFirst(s, key)
    ensures |r| == |s| + 1
    ensures NewestFirst(r, key) && multiset(r) == multiset(s) + multiset{x}
  {
    if s == [] || key(x) >= key(s[0]) then
      assert forall y :: y in s ==> key(x) >= key(y) by {
        forall y | y in s
          ensures key(x) >= key(y)
        {
          var k :| 0 <= k < |s| && s[k] == y;
          assert key(s[0]) >= key(s[k]) || k == 0;
        }
      }
      ConsNewestFirst(x, s, key);
      [x] + s
    else
      assert s == [s[0]] + s[1..];
      assert NewestFirst(s[1..], key) by {
        forall i, j | 0 <= i < j < |s[1..]|
          ensures key(s[1..][i]) >= key(s[1..][j])
        {
          assert s[1..][i] == s[i + 1] && s[1..][j] == s[j + 1];
        }
      }
      var rest := Insert(x, s[1..], key);
      forall y | y in rest
        ensures key(s[0]) >= key(y)
      {
        assert y in multiset(rest);
        if y != x {
          assert y in multiset(s[1..]);
          var k :| 0 <= k < |s[1..]| && s[1..][k] == y;
          assert s[k + 1] == y;
        }
      }
      ConsNewestFirst(s[0], rest, key);
      [s[0]] + rest
  }

  /** The rows in `order_by("-created_at")` order. */
  function SortNewest<T(==)>(s: seq<T>, key: T -> Instant): (r: seq<T>)
    ensures |r| == |s|
    ensures NewestFirst(r, key) && multiset(r) == multiset(s)
  {
    if s == [] then []
    else
      assert s == [s[0]] + s[1..];
      Insert(s[0], SortNewest(s[1..], key), key)
  }

  /** `order_by("-created_at")[:5]`: at most five rows, newest first, taken
      from the given ones, and none of those left out is newer than any kept. */
  function Recent<T(==)>(s: seq<T>, key: T -> Instant): (r: seq<T>)
    ensures |r| == Min(RECENT_LIMIT, |s|)
    ensures NewestFirst(r, key)
    ensures multiset(r) <= multiset(s)
    ensures forall y, z :: y in s && y !in r && z in r ==> key(z) >= key(y)
  {
    var sorted := SortNewest(s, key);
    var n := Min(RECENT_LIMIT, |s|);
    assert sorted == sorted[..n] + sorted[n..];
    assert multiset(sorted) == multiset(sorted[..n]) + multiset(sorted[n..]);
    forall y, z | y in s && y !in sorted[..n] && z in sorted[..n]
      ensures key(z) >= key(y)
    {
      assert y in multiset(sorted);
      var k :| 0 <= k < |sorted| && sorted[k] == y;
      var i :| 0 <= i < n && sorted[..n][i] == z;
      assert k >= n;
    }
    sorted[..n]
  }

  function RsvpCreatedAt(r: Rsvp): Instant { r.createdAt }
  function EventCreatedAt(e: Event): Instant { e.createdAt }

  // ---------------------------------------------------------------------------
  // The context as a whole
  // ---------------------------------------------------------------------------

  datatype ProfileStats = ProfileStats(
    rsvpCount: nat,
    myEventsCount: nat,
    publishedCount: nat,
    archivedCount: nat,
    upcomingCount: nat,
    pastCount: nat,
    recentRsvps: seq<Rsvp>,
    recentEvents: seq<Event>,
    age: Option<int>)

  /** The entries get_context_data adds, from the RSVP table, the event
      table (as a list and by id), the clock and the user's profile. */
  function ProfileContext(rsvps: seq<Rsvp>, events: seq<Event>, stored: map<EventId, Event>, user: UserId,
                          now: Instant, profile: Option<UserProfile>, today: Date): (c: ProfileStats)
    requires EventsKnown(rsvps, stored)
    ensures c.upcomingCount + c.pastCount == c.rsvpCount
    ensures c.publishedCount + c.archivedCount <= c.myEventsCount
    ensures |c.recentRsvps| == Min(RECENT_LIMIT, c.rsvpCount) && NewestFirst(c.recentRsvps, RsvpCreatedAt)
    ensures forall r :: r in c.recentRsvps ==> r in rsvps && r.user == user
    ensures |c.recentEvents| == Min(RECENT_LIMIT, c.myEventsCount) && NewestFirst(c.recentEvents, EventCreatedAt)
    ensures forall e :: e in c.recentEvents ==> e in events && e.organizer == user
    ensures c.age.None? <==> profile.None? || profile.value.birthDate.None?
    ensures c.rsvpCount == |RsvpsOf(rsvps, user)| && c.myEventsCount == |EventsOf(events, user)|
    ensures c.upcomingCount == UpcomingCount(RsvpsOf(rsvps, user), stored, now)
    ensures c.pastCount == PastCount(RsvpsOf(rsvps, user), stored, now)
    ensures c.publishedCount == StatusCount(EventsOf(events, user), PUBLISHED)
    ensures c.archivedCount == StatusCount(EventsOf(events, user), ARCHIVED)
    ensures c.recentRsvps == Recent(RsvpsOf(rsvps, user), RsvpCreatedAt)
    ensures c.recentEvents == Recent(EventsOf(events, user), EventCreatedAt)
    ensures c.age == Age(profile, today)
  {
    var mine := RsvpsOf(rsvps, user);
    var organized := EventsOf(events, user);
    UpcomingPlusPast(mine, stored, now);
    PublishedPlusArchived(organized);
    var recentRsvps := Recent(mine, RsvpCreatedAt);
    var recentEvents := Recent(organized, EventCreatedAt);
    assert forall r :: r in recentRsvps ==> r in multiset(mine);
    assert forall e :: e in recentEvents ==> e in multiset(organized);
    ProfileStats(|mine|, |organized|, StatusCount(organized, PUBLISHED), StatusCount(organized, ARCHIVED),
                 UpcomingCount(mine, stored, now), PastCount(mine, stored, now),
                 recentRsvps, recentEvents, Age(profile, today))
  }
}
