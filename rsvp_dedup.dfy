/** The fix_rsvp_duplicates management command: for every (user, event) pair
    with several RSVPs keep only the newest, then delete every RSVP whose
    status is not "going", and report what was deleted. The RSVP table is a
    set of rows with distinct ids. */
module RsvpDedup {
  import opened Common
  import opened Models
  import NotificationFactories
  import Signals

  type Key = (UserId, EventId)

  function KeyOf(r: Rsvp): Key { (r.user, r.event) }

  predicate UniqueIds(rows: set<Rsvp>)
  {
    forall a, b :: a in rows && b in rows && a.id == b.id ==> a == b
  }

  /** The rows of one (user, event) pair. */
  function Group(rows: set<Rsvp>, k: Key): (g: set<Rsvp>)
    ensures g <= rows
  {
    set r | r in rows && KeyOf(r) == k
  }

  /** The pairs with more than one row. */
  function DuplicateKeys(rows: set<Rsvp>): set<Key>
  {
    set r | r in rows && |Group(rows, KeyOf(r))| > 1 :: KeyOf(r)
  }

  /** `a` comes before `b` in order_by('-created_at'); rows created at the
      same instant are taken in id order. */
  predicate Newer(a: Rsvp, b: Rsvp)
  {
    a.createdAt > b.createdAt || (a.createdAt == b.createdAt && a.id < b.id)
  }

  /** `r` is what `.first()` returns for the group. */
  predicate IsLatest(r: Rsvp, g: set<Rsvp>)
  {
    r in g && forall s :: s in g && s != r ==> Newer(r, s)
  }

  lemma {:induction false} LatestExists(g: set<Rsvp>)
    requires g != {} && UniqueIds(g)
    ensures exists r :: IsLatest(r, g)
    decreases |g|
  {
    var x :| x in g;
    var rest := g - {x};
    if rest == {} {
      assert g == {x};
      assert IsLatest(x, g);
    } else {
      LatestExists(rest);
      var y :| IsLatest(y, rest);
      if Newer(x, y) {
        forall s | s in g && s != x
          ensures Newer(x, s)
        {
          if s != y {
            assert s in rest && Newer(y, s);
          }
        }
        assert IsLatest(x, g);
      } else {
        assert x.id != y.id;
        assert IsLatest(y, g);
      }
    }
  }

  lemma LatestUnique(a: Rsvp, b: Rsvp, g: set<Rsvp>)
    requires IsLatest(a, g) && IsLatest(b, g)
    ensures a == b
  {
  }

  /** What phase 1 leaves once the given pairs are still to be processed:
      every row of a pending pair, and the newest row of every other pair. */
  function Phase1(rows: set<Rsvp>, pending: set<Key>): set<Rsvp>
  {
    set r | r in rows && (KeyOf(r) in pending || IsLatest(r, Group(rows, KeyOf(r))))
  }

  /** The table after both phases. */
  function Cleaned(rows: set<Rsvp>): set<Rsvp>
  {
    set r | r in rows && r.status == GOING && IsLatest(r, Group(rows, KeyOf(r)))
  }

  /** The rows of `table` whose status is not "going". */
  function NotGoing(table: set<Rsvp>): set<Rsvp>
  {
    set r | r in table && r.status != GOING
  }

  /** The rows phase 2 deletes. */
  function Invalid(rows: set<Rsvp>): set<Rsvp>
  {
    NotGoing(Phase1(rows, {}))
  }

  datatype Line =
    | GroupLine(count: nat, user: UserId, event: EventId)
    | InvalidLine(count: nat)
    | TotalLine(total: nat)

  function Render(l: Line): string
  {
    match l
    case GroupLine(count, user, event) =>
      "Видалено " + NatToString(count) + " старих RSVP для user=" + NatToString(user)
      + ", event=" + NatToString(event)
    case InvalidLine(count) => "Видалено " + NatToString(count) + " RSVP з невалідним статусом"
    case TotalLine(total) => "\n Всього видалено " + NatToString(total) + " записів RSVP"
  }

  lemma GroupOfPending(rows: set<Rsvp>, pending: set<Key>, k: Key)
    requires k in pending
    ensures Group(Phase1(rows, pending), k) == Group(rows, k)
  {
  }

  /** Deleting all but the newest row of pair `k` moves `k` out of pending. */
  lemma DropGroup(rows: set<Rsvp>, pending: set<Key>, k: Key, latest: Rsvp)
    requires k in pending && IsLatest(latest, Group(rows, k))
    ensures Phase1(rows, pending) - (Group(rows, k) - {latest}) == Phase1(rows, pending - {k})
  {
    forall r | r in rows && KeyOf(r) == k && IsLatest(r, Group(rows, KeyOf(r)))
      ensures r == latest
    {
      LatestUnique(r, latest, Group(rows, k));
    }
  }

  lemma CardinalityOfRemoval<T>(a: set<T>, b: set<T>)
    requires b <= a
    ensures |a - b| == |a| - |b|
  {
    assert a == (a - b) + b;
    assert (a - b) * b == {};
  }

  /** Before the loop nothing is pending except the duplicate pairs, and a
      pair with a single row is its own newest row. */
  lemma Phase1Initial(rows: set<Rsvp>)
    ensures rows == Phase1(rows, DuplicateKeys(rows))
  {
    forall r | r in rows && KeyOf(r) !in DuplicateKeys(rows)
      ensures IsLatest(r, Group(rows, KeyOf(r)))
    {
      assert |Group(rows, KeyOf(r))| <= 1;
      assert r in Group(rows, KeyOf(r));
      forall s | s in Group(rows, KeyOf(r))
        ensures s == r
      {
        if s != r {
          CardinalityOfRemoval(Group(rows, KeyOf(r)), {r, s});
        }
      }
    }
  }

  /** A duplicate pair has rows, all with distinct ids. */
  lemma DuplicateGroup(rows: set<Rsvp>, k: Key)
    requires UniqueIds(rows) && k in DuplicateKeys(rows)
    ensures Group(rows, k) != {} && UniqueIds(Group(rows, k))
  {
    var m :| m in rows && |Group(rows, KeyOf(m))| > 1 && KeyOf(m) == k;
    assert m in Group(rows, k);
  }

  /** One iteration of the de-duplication loop. */
  lemma Phase1Step(rows: set<Rsvp>, pending: set<Key>, k: Key, latest: Rsvp)
    requires k in pending && IsLatest(latest, Group(rows, k))
    ensures Group(Phase1(rows, pending), k) == Group(rows, k)
    ensures Phase1(rows, pending) - (Group(rows, k) - {latest}) == Phase1(rows, pending - {k})
    ensures |Phase1(rows, pending - {k})| == |Phase1(rows, pending)| - |Group(rows, k) - {latest}|
  {
    GroupOfPending(rows, pending, k);
    DropGroup(rows, pending, k, latest);
    CardinalityOfRemoval(Phase1(rows, pending), Group(rows, k) - {latest});
  }

  /** Phase 2 deletes the invalid rows and leaves the cleaned table. */
  lemma Phase2(rows: set<Rsvp>)
    ensures Invalid(rows) <= Phase1(rows, {})
    ensures Phase1(rows, {}) - Invalid(rows) == Cleaned(rows)
    ensures |Cleaned(rows)| == |Phase1(rows, {})| - |Invalid(rows)|
  {
    CardinalityOfRemoval(Phase1(rows, {}), Invalid(rows));
  }

  /** The output: one line per duplicate pair, the invalid-status line when
      there was anything to delete, and the total. */
  function Report(groupLines: seq<Line>, invalidCount: nat, total: nat): seq<Line>
  {
    groupLines + (if invalidCount > 0 then [InvalidLine(invalidCount)] else []) + [TotalLine(total)]
  }

  lemma ReportShape(groupLines: seq<Line>, invalidCount: nat, total: nat)
    requires forall i :: 0 <= i < |groupLines| ==> groupLines[i].GroupLine?
    ensures var out := Report(groupLines, invalidCount, total);
            |out| > 0 && out[|out| - 1] == TotalLine(total)
            && ((exists i :: 0 <= i < |out| && out[i].InvalidLine?) <==> invalidCount > 0)
            && (forall i :: 0 <= i < |out| && out[i].InvalidLine? ==> out[i].count == invalidCount)
            && |out| == |groupLines| + (if invalidCount > 0 then 1 else 0) + 1
            && out[..|groupLines|] == groupLines
  {
    var out := Report(groupLines, invalidCount, total);
    if invalidCount > 0 {
      assert out[|out| - 2].InvalidLine?;
    }
  }

  /** The line printed for a duplicate pair: it names the pair and the
      number of rows deleted, all but one. */
  predicate GroupLineFor(rows: set<Rsvp>, l: Line)
  {
    l.GroupLine? && (l.user, l.event) in DuplicateKeys(rows)
    && l.count + 1 == |Group(rows, (l.user, l.event))|
  }

  /** Some group line of `lines` names pair `k`. */
  predicate HasLineFor(lines: seq<Line>, k: Key)
  {
    exists i :: 0 <= i < |lines| && lines[i].GroupLine? && (lines[i].user, lines[i].event) == k
  }

  /** No two group lines name the same pair. */
  predicate DistinctPairs(lines: seq<Line>)
  {
    forall i, j :: 0 <= i < j < |lines| && lines[i].GroupLine? && lines[j].GroupLine? ==>
      (lines[i].user, lines[i].event) != (lines[j].user, lines[j].event)
  }

  lemma AppendGroupLine(rows: set<Rsvp>, lines: seq<Line>, l: Line, pending: set<Key>)
    requires forall i :: 0 <= i < |lines| ==> GroupLineFor(rows, lines[i])
    requires forall i :: 0 <= i < |lines| && lines[i].GroupLine? ==> (lines[i].user, lines[i].event) !in pending
    requires forall k :: k in DuplicateKeys(rows) && k !in pending ==> HasLineFor(lines, k)
    requires DistinctPairs(lines)
    requires GroupLineFor(rows, l) && (l.user, l.event) in pending
    ensures forall i :: 0 <= i < |lines + [l]| ==> GroupLineFor(rows, (lines + [l])[i])
    ensures forall i :: 0 <= i < |lines + [l]| && (lines + [l])[i].GroupLine? ==>
              ((lines + [l])[i].user, (lines + [l])[i].event) !in pending - {(l.user, l.event)}
    ensures forall k :: k in DuplicateKeys(rows) && k !in pending - {(l.user, l.event)} ==> HasLineFor(lines + [l], k)
    ensures DistinctPairs(lines + [l])
  {
    var t := lines + [l];
    forall k | k in DuplicateKeys(rows) && k !in pending - {(l.user, l.event)}
      ensures HasLineFor(t, k)
    {
      if k == (l.user, l.event) {
        assert t[|lines|] == l;
      } else {
        var i :| 0 <= i < |lines| && lines[i].GroupLine? && (lines[i].user, lines[i].event) == k;
        assert t[i] == lines[i];
      }
    }
  }

  /** The first loop of Command.handle, over the duplicate pairs in an
      unspecified order: each pair keeps its newest row. */
  method DeduplicatePairs(rows: set<Rsvp>) returns (table: set<Rsvp>, deleted: nat, groupLines: seq<Line>)
    requires UniqueIds(rows)
    ensures table == Phase1(rows, {})
    ensures |table| <= |rows| && deleted == |rows| - |table|
    ensures |groupLines| == |DuplicateKeys(rows)|
    ensures forall i :: 0 <= i < |groupLines| ==> GroupLineFor(rows, groupLines[i])
    ensures forall k :: k in DuplicateKeys(rows) ==> HasLineFor(groupLines, k)
    ensures DistinctPairs(groupLines)
  {
    table := rows;
    var pending := DuplicateKeys(rows);
    deleted := 0;
    groupLines := [];
    Phase1Initial(rows);
    while pending != {}
      invariant pending <= DuplicateKeys(rows)
      invariant table == Phase1(rows, pending)
      invariant |table| <= |rows| && deleted == |rows| - |table|
      invariant |groupLines| + |pending| == |DuplicateKeys(rows)|
      invariant forall i :: 0 <= i < |groupLines| ==> GroupLineFor(rows, groupLines[i])
      invariant forall i :: 0 <= i < |groupLines| && groupLines[i].GroupLine? ==> (groupLines[i].user, groupLines[i].event) !in pending
      invariant forall k :: k in DuplicateKeys(rows) && k !in pending ==> HasLineFor(groupLines, k)
      invariant DistinctPairs(groupLines)
      decreases |pending|
    {
      var k :| k in pending;
      DuplicateGroup(rows, k);
      LatestExists(Group(rows, k));
      var latest :| IsLatest(latest, Group(rows, k));
      Phase1Step(rows, pending, k, latest);
      var older := Group(table, k) - {latest};
      CardinalityOfRemoval(Group(rows, k), {latest});
      CardinalityOfRemoval(pending, {k});
      AppendGroupLine(rows, groupLines, GroupLine(|older|, k.0, k.1), pending);
      table := table - older;
      deleted := deleted + |older|;
      groupLines := groupLines + [GroupLine(|older|, k.0, k.1)];
      pending := pending - {k};
    }
  }

  /** Command.handle: the new table, total_deleted and the output lines. */
  /** Every row refers to a stored event and a known user (the table's
      foreign keys). */
  predicate KnownRows(rows: set<Rsvp>, events: map<EventId, Event>, usernames: map<UserId, string>)
  {
    forall r :: r in rows ==> r.event in events && events[r.event].id == r.event && r.user in usernames
  }

  /** The RSVP_CANCELLED notice the post_delete receiver writes to the
      organizer when row `r` is deleted. */
  function DeletedNotice(r: Rsvp, events: map<EventId, Event>, usernames: map<UserId, string>, now: Instant): Notification
    requires r.event in events && r.user in usernames
  {
    NewNotification(events[r.event].organizer, r.event, RsvpCancelled,
                    NotificationFactories.RsvpCancelledMessage(usernames[r.user], events[r.event].title), now)
  }

  /** The notices for the rows of `order`, one each, in that order. */
  function Notices(order: seq<Rsvp>, events: map<EventId, Event>, usernames: map<UserId, string>, now: Instant): (ns: seq<Notification>)
    requires forall r :: r in order ==> r.event in events && r.user in usernames
    ensures |ns| == |order|
    ensures forall i :: 0 <= i < |order| ==> ns[i] == DeletedNotice(order[i], events, usernames, now)
  {
    if order == [] then []
    else Notices(order[..|order| - 1], events, usernames, now) + [DeletedNotice(order[|order| - 1], events, usernames, now)]
  }

  lemma {:induction false} NoticesConcat(a: seq<Rsvp>, b: seq<Rsvp>, events: map<EventId, Event>, usernames: map<UserId, string>, now: Instant)
    requires forall r :: r in a + b ==> r.event in events && r.user in usernames
    ensures Notices(a + b, events, usernames, now) == Notices(a, events, usernames, now) + Notices(b, events, usernames, now)
  {
    if b != [] {
      assert (a + b)[..|a + b| - 1] == a + b[..|b| - 1];
      NoticesConcat(a, b[..|b| - 1], events, usernames, now);
    } else {
      assert a + b == a;
    }
  }

  lemma ConcatAssoc<T>(a: seq<T>, b: seq<T>, c: seq<T>)
    ensures a + b + c == a + (b + c)
  {
  }

  /** `order` lists the rows of `s`, each exactly once. */
  ghost predicate Enumerates(order: seq<Rsvp>, s: set<Rsvp>)
  {
    |order| == |s| && forall r :: r in order <==> r in s
  }

  lemma EnumeratesUnion(a: seq<Rsvp>, b: seq<Rsvp>, sa: set<Rsvp>, sb: set<Rsvp>)
    requires Enumerates(a, sa) && Enumerates(b, sb) && sa !! sb
    ensures Enumerates(a + b, sa + sb)
  {
  }

  /** Deleting the rows of `deleted` from the RSVP table: post_delete fires
      once per row, in an order the database chooses (`order`), and each
      firing appends that row's RSVP_CANCELLED notice. */
  method NotifyDeleted(notes: NotificationTable, deleted: set<Rsvp>, events: map<EventId, Event>,
                       usernames: map<UserId, string>, now: Instant) returns (ghost order: seq<Rsvp>)
    requires KnownRows(deleted, events, usernames)
    modifies notes
    ensures Enumerates(order, deleted)
    ensures notes.rows == old(notes.rows) + Notices(order, events, usernames, now)
  {
    var left := deleted;
    order := [];
    while left != {}
      invariant left <= deleted
      invariant forall r :: r in order <==> r in deleted - left
      invariant |order| + |left| == |deleted|
      invariant notes.rows == old(notes.rows) + Notices(order, events, usernames, now)
      decreases |left|
    {
      var r :| r in left;
      Signals.RsvpDeleted(notes, r, events[r.event], usernames, now);
      CardinalityOfRemoval(left, {r});
      assert (order + [r])[..|order|] == order;
      order := order + [r];
      left := left - {r};
    }
  }

  method FixRsvpDuplicates(rows: set<Rsvp>, notes: NotificationTable, events: map<EventId, Event>,
                           usernames: map<UserId, string>, now: Instant)
    returns (remaining: set<Rsvp>, totalDeleted: nat, output: seq<Line>, ghost order: seq<Rsvp>, ghost split: nat)
    requires UniqueIds(rows) && KnownRows(rows, events, usernames)
    modifies notes
    ensures remaining == Cleaned(rows)
    ensures totalDeleted == |rows| - |remaining|
    ensures RunReport(rows, output, totalDeleted)
    ensures Enumerates(order, rows - remaining) && |order| == totalDeleted
    ensures split <= |order| && Enumerates(order[..split], rows - Phase1(rows, {}))
            && Enumerates(order[split..], Invalid(rows))
    ensures notes.rows == old(notes.rows) + Notices(order, events, usernames, now)
    ensures |notes.rows| == |old(notes.rows)| + totalDeleted
  {
    ghost var start := notes.rows;
    var table, pairDeleted, groupLines;
    table, pairDeleted, groupLines := DeduplicatePairs(rows);
    ghost var first := NotifyDeleted(notes, rows - table, events, usernames, now);
    var invalidCount;
    ghost var more;
    remaining, invalidCount, more := DeleteInvalid(table, notes, events, usernames, now);
    totalDeleted := pairDeleted + invalidCount;
    Phase2(rows);
    DeletedRows(rows, first, more);
    order := first + more;
    split := |first|;
    assert order[..split] == first && order[split..] == more;
    NoticesConcat(first, more, events, usernames, now);
    ConcatAssoc(start, Notices(first, events, usernames, now), Notices(more, events, usernames, now));
    output := Report(groupLines, invalidCount, totalDeleted);
    ReportCorrect(rows, groupLines, totalDeleted);
  }

  /** What the command prints for `rows`: first one line per duplicate pair,
      each pair exactly once, with the number of rows that pair lost; then
      the invalid-status line with the number of non-attending rows left,
      present exactly when there are any; last the total. */
  predicate RunReport(rows: set<Rsvp>, output: seq<Line>, total: nat)
  {
    && |output| == |DuplicateKeys(rows)| + (if Invalid(rows) != {} then 1 else 0) + 1
    && output[|output| - 1] == TotalLine(total)
    && ((exists i :: 0 <= i < |output| && output[i].InvalidLine?) <==> Invalid(rows) != {})
    && (forall i :: 0 <= i < |output| && output[i].InvalidLine? ==> output[i].count == |Invalid(rows)|)
    && (forall i :: 0 <= i < |DuplicateKeys(rows)| ==> GroupLineFor(rows, output[i]))
    && (forall k :: k in DuplicateKeys(rows) ==> HasLineFor(output[..|DuplicateKeys(rows)|], k))
    && DistinctPairs(output[..|DuplicateKeys(rows)|])
  }

  /** The report built from a complete set of per-pair lines. */
  lemma ReportCorrect(rows: set<Rsvp>, groupLines: seq<Line>, total: nat)
    requires |groupLines| == |DuplicateKeys(rows)|
    requires forall i :: 0 <= i < |groupLines| ==> GroupLineFor(rows, groupLines[i])
    requires forall k :: k in DuplicateKeys(rows) ==> HasLineFor(groupLines, k)
    requires DistinctPairs(groupLines)
    ensures RunReport(rows, Report(groupLines, |Invalid(rows)|, total), total)
  {
    var output := Report(groupLines, |Invalid(rows)|, total);
    ReportShape(groupLines, |Invalid(rows)|, total);
    assert forall i :: 0 <= i < |groupLines| ==> output[i] == output[..|groupLines|][i];
  }

  /** Phase 2: delete every row of `table` that is not attending, one
      RSVP_CANCELLED notice per deleted row. */
  method DeleteInvalid(table: set<Rsvp>, notes: NotificationTable, events: map<EventId, Event>,
                       usernames: map<UserId, string>, now: Instant)
    returns (kept: set<Rsvp>, count: nat, ghost order: seq<Rsvp>)
    requires KnownRows(table, events, usernames)
    modifies notes
    ensures kept == table - NotGoing(table) && count == |NotGoing(table)|
    ensures Enumerates(order, NotGoing(table))
    ensures notes.rows == old(notes.rows) + Notices(order, events, usernames, now)
  {
    var invalid := set r | r in table && r.status != GOING;
    count := |invalid|;
    kept := table;
    order := [];
    if count > 0 {
      order := NotifyDeleted(notes, invalid, events, usernames, now);
      kept := table - invalid;
    }
  }

  /** The rows a run deletes are those of phase 1 and, apart from them, those
      of phase 2. */
  lemma DeletedRows(rows: set<Rsvp>, first: seq<Rsvp>, more: seq<Rsvp>)
    requires Enumerates(first, rows - Phase1(rows, {}))
    requires Enumerates(more, Invalid(rows))
    ensures Enumerates(first + more, rows - Cleaned(rows))
    ensures |first + more| == |rows| - |Cleaned(rows)|
  {
    Phase2(rows);
    CardinalityOfRemoval(rows, Phase1(rows, {}));
    assert rows - Cleaned(rows) == (rows - Phase1(rows, {})) + Invalid(rows);
    EnumeratesUnion(first, more, rows - Phase1(rows, {}), Invalid(rows));
  }

  /** Afterwards there is at most one RSVP per (user, event), it is the
      newest of its pair, and it is attending. */
  lemma CleanedProperties(rows: set<Rsvp>)
    ensures forall a, b :: a in Cleaned(rows) && b in Cleaned(rows) && KeyOf(a) == KeyOf(b) ==> a == b
    ensures forall r, s :: r in Cleaned(rows) && s in rows && KeyOf(s) == KeyOf(r) ==> r.createdAt >= s.createdAt
    ensures forall r :: r in Cleaned(rows) ==> r.status == GOING
  {
    forall a, b | a in Cleaned(rows) && b in Cleaned(rows) && KeyOf(a) == KeyOf(b)
      ensures a == b
    {
      LatestUnique(a, b, Group(rows, KeyOf(a)));
    }
    forall r, s | r in Cleaned(rows) && s in rows && KeyOf(s) == KeyOf(r)
      ensures r.createdAt >= s.createdAt
    {
      assert s in Group(rows, KeyOf(r));
    }
  }

  /** A row that is alone for its pair and attending is never deleted. */
  lemma UniqueGoingKept(rows: set<Rsvp>, r: Rsvp)
    requires r in rows && r.status == GOING
    requires forall s :: s in rows && KeyOf(s) == KeyOf(r) ==> s == r
    ensures r in Cleaned(rows)
  {
    assert IsLatest(r, Group(rows, KeyOf(r)));
  }

  /** A pair whose newest row is not attending loses all of its rows. */
  lemma NonGoingNewestEmptiesPair(rows: set<Rsvp>, latest: Rsvp)
    requires IsLatest(latest, Group(rows, KeyOf(latest))) && latest.status != GOING
    ensures Group(Cleaned(rows), KeyOf(latest)) == {}
  {
    forall r | r in Cleaned(rows) && KeyOf(r) == KeyOf(latest)
      ensures false
    {
      LatestUnique(r, latest, Group(rows, KeyOf(latest)));
    }
  }

  /** The cleaned table is a fixed point: a second run deletes nothing. */
  lemma CleanedIdempotent(rows: set<Rsvp>)
    ensures Cleaned(Cleaned(rows)) == Cleaned(rows)
  {
    CleanedProperties(rows);
    forall r | r in Cleaned(rows)
      ensures IsLatest(r, Group(Cleaned(rows), KeyOf(r)))
    {
    }
  }

  method RunTwice(rows: set<Rsvp>, notes: NotificationTable, events: map<EventId, Event>,
                  usernames: map<UserId, string>, now: Instant) returns (firstDeleted: nat, secondDeleted: nat)
    requires UniqueIds(rows) && KnownRows(rows, events, usernames)
    modifies notes
    ensures firstDeleted == |rows| - |Cleaned(rows)|
    ensures secondDeleted == 0
    ensures |notes.rows| == |old(notes.rows)| + firstDeleted
  {
    var after, out1, out2;
    ghost var order1, order2, split1, split2;
    after, firstDeleted, out1, order1, split1 := FixRsvpDuplicates(rows, notes, events, usernames, now);
    CleanedIdempotent(rows);
    var again;
    again, secondDeleted, out2, order2, split2 := FixRsvpDuplicates(after, notes, events, usernames, now);
  }
}
