/** The session proxy: user preferences under "pref_"-prefixed keys, the last
    viewed event, and a most-recent-first view history. The Django session
    is a map from keys to stored values plus its `modified` flag. */
module Session {
  import opened Common

  /** The values the proxy stores; preference values are opaque to it. */
  datatype SessionValue = Number(n: int) | IdList(ids: seq<int>) | Text(s: string) | Flag(b: bool)

  const PREF_PREFIX: string := "pref_"
  const LAST_VIEWED_KEY: string := "last_viewed_event"
  const HISTORY_KEY: string := "view_history"
  const DEFAULT_MAX_ITEMS: int := 10

  function PrefKey(key: string): (k: string)
    ensures StartsWith(k, PREF_PREFIX) && k[|PREF_PREFIX|..] == key
  {
    PREF_PREFIX + key
  }

  /** `session.get(key, default)`; None is Python's None. */
  function Lookup(session: map<string, SessionValue>, key: string, default: Option<SessionValue>): Option<SessionValue>
  {
    if key in session then Some(session[key]) else default
  }

  /** The stored history, or [] when there is none. */
  function HistoryOf(session: map<string, SessionValue>): seq<int>
  {
    if HISTORY_KEY in session && session[HISTORY_KEY].IdList? then session[HISTORY_KEY].ids else []
  }

  /** The session with every "pref_" key removed. */
  function WithoutPreferences(session: map<string, SessionValue>): map<string, SessionValue>
  {
    map k | k in session && !StartsWith(k, PREF_PREFIX) :: session[k]
  }

  /** Python's `s[:m]`: a negative bound counts from the end. */
  function SlicePrefix<T>(s: seq<T>, m: int): (r: seq<T>)
    ensures m >= 0 ==> |r| == Min(m, |s|)
    ensures m < 0 ==> |r| == Max(0, |s| + m)
    ensures r == s[..|r|]
  {
    if m >= 0 then (if m <= |s| then s[..m] else s)
    else if |s| + m > 0 then s[..|s| + m] else []
  }

  /** The list add_to_history stores. */
  function NewHistory(history: seq<int>, id: int, maxItems: int): seq<int>
  {
    SlicePrefix([id] + RemoveFirst(history, id), maxItems)
  }

  class SessionManager {
    var session: map<string, SessionValue>
    var modified: bool

    constructor (session: map<string, SessionValue>, modified: bool)
      ensures this.session == session && this.modified == modified
    {
      this.session := session;
      this.modified := modified;
    }

    method SetUserPreference(key: string, value: SessionValue)
      modifies this
      ensures session == old(session)[PrefKey(key) := value] && modified
      ensures forall d :: GetUserPreference(key, d) == Some(value)
    {
      session := session[PrefKey(key) := value];
      modified := true;
    }

    function GetUserPreference(key: string, default: Option<SessionValue>): Option<SessionValue>
      reads this
    {
      Lookup(session, PrefKey(key), default)
    }

    method ClearPreferences()
      modifies this
      ensures session == WithoutPreferences(old(session)) && modified
    {
      var keys := set k | k in session && StartsWith(k, PREF_PREFIX);
      ghost var original := session;
      while keys != {}
        invariant keys <= original.Keys && forall k :: k in keys ==> StartsWith(k, PREF_PREFIX)
        invariant session == map k | k in original && (!StartsWith(k, PREF_PREFIX) || k in keys) :: original[k]
        decreases |keys|
      {
        var k :| k in keys;
        session := session - {k};
        keys := keys - {k};
      }
      modified := true;
    }

    method SetLastViewedEvent(id: int)
      modifies this
      ensures session == old(session)[LAST_VIEWED_KEY := Number(id)] && modified
      ensures GetLastViewedEvent() == Some(Number(id))
    {
      session := session[LAST_VIEWED_KEY := Number(id)];
      modified := true;
    }

    function GetLastViewedEvent(): Option<SessionValue>
      reads this
    {
      Lookup(session, LAST_VIEWED_KEY, None)
    }

    method AddToHistory(id: int, maxItems: int := DEFAULT_MAX_ITEMS)
      modifies this
      ensures session == old(session)[HISTORY_KEY := IdList(NewHistory(old(GetViewHistory()), id, maxItems))]
      ensures modified
      ensures maxItems >= 1 ==> GetViewHistory()[0] == id
      ensures NoDuplicates(old(GetViewHistory())) ==> NoDuplicates(GetViewHistory())
    {
      var history := GetViewHistory();
      HistoryShape(history, id, maxItems);
      if NoDuplicates(history) {
        HistoryDistinct(history, id, maxItems);
      }
      if id in history {
        history := RemoveFirst(history, id);
      }
      history := [id] + history;
      session := session[HISTORY_KEY := IdList(SlicePrefix(history, maxItems))];
      modified := true;
    }

    function GetViewHistory(): seq<int>
      reads this
    {
      HistoryOf(session)
    }

    method ClearHistory()
      modifies this
      ensures old(HISTORY_KEY in session) ==> session == old(session) - {HISTORY_KEY} && modified
      ensures old(HISTORY_KEY !in session) ==> session == old(session) && modified == old(modified)
      ensures GetViewHistory() == []
    {
      if HISTORY_KEY in session {
        session := session - {HISTORY_KEY};
        modified := true;
      }
    }
  }

  // ---------------------------------------------------------------------------
  // Properties
  // ---------------------------------------------------------------------------

  lemma {:induction false} RemoveFirstKeepsDistinct(s: seq<int>, x: int)
    requires NoDuplicates(s)
    ensures NoDuplicates(RemoveFirst(s, x)) && x !in RemoveFirst(s, x)
  {
    if s != [] {
      assert NoDuplicates(s[1..]) by {
        forall i, j | 0 <= i < j < |s[1..]|
          ensures s[1..][i] != s[1..][j]
        {
          assert s[1..][i] == s[i + 1] && s[1..][j] == s[j + 1];
        }
      }
      if s[0] == x {
        assert forall i :: 0 <= i < |s[1..]| ==> s[1..][i] == s[i + 1];
      } else {
        RemoveFirstKeepsDistinct(s[1..], x);
        var rest := RemoveFirst(s[1..], x);
        assert s[0] !in s[1..] by {
          forall i | 0 <= i < |s[1..]|
            ensures s[1..][i] != s[0]
          {
            assert s[1..][i] == s[i + 1];
          }
        }
        assert s[0] !in rest;
        DistinctCons(s[0], rest);
      }
    }
  }

  lemma DistinctCons(x: int, s: seq<int>)
    requires NoDuplicates(s) && x !in s
    ensures NoDuplicates([x] + s)
  {
    var t := [x] + s;
    forall i, j | 0 <= i < j < |t|
      ensures t[i] != t[j]
    {
      assert t[j] == s[j - 1];
      if i > 0 {
        assert t[i] == s[i - 1];
      }
    }
  }

  lemma {:induction false} RemoveFirstIsSubsequence(s: seq<int>, x: int)
    ensures IsSubsequence(RemoveFirst(s, x), s)
  {
    if s != [] {
      if s[0] == x {
        SubsequenceOfTail(s);
      } else {
        RemoveFirstIsSubsequence(s[1..], x);
        var r := [s[0]] + RemoveFirst(s[1..], x);
        assert r[0] == s[0] && r[1..] == RemoveFirst(s[1..], x);
      }
    }
  }

  lemma SubsequenceOfTail(s: seq<int>)
    requires s != []
    ensures IsSubsequence(s[1..], s)
  {
    SubsequenceReflexive(s[1..]);
  }

  lemma {:induction false} PrefixIsSubsequence(a: seq<int>, b: seq<int>, k: nat)
    requires IsSubsequence(a, b) && k <= |a|
    ensures IsSubsequence(a[..k], b)
    decreases |b|
  {
    if k > 0 {
      if a[0] == b[0] && IsSubsequence(a[1..], b[1..]) {
        PrefixIsSubsequence(a[1..], b[1..], k - 1);
        assert a[..k][1..] == a[1..][..k - 1];
      } else {
        PrefixIsSubsequence(a, b[1..], k);
      }
    }
  }

  /** add_to_history puts the id first and truncates the list to
      `maxItems`, a negative bound counting from the end as in Python. */
  lemma HistoryShape(history: seq<int>, id: int, maxItems: int)
    ensures var r := NewHistory(history, id, maxItems);
            var grown := |history| + (if id in history then 0 else 1);
            (maxItems >= 1 ==> |r| > 0 && r[0] == id)
            && (maxItems >= 0 ==> |r| == Min(maxItems, grown))
            && (maxItems < 0 ==> |r| == Max(0, grown + maxItems))
            && (forall y :: y in r ==> y == id || y in history)
  {
    var full := [id] + RemoveFirst(history, id);
    var r := NewHistory(history, id, maxItems);
    assert r == full[..|r|];
    forall y | y in r
      ensures y == id || y in history
    {
      assert y in full;
    }
  }

  /** A history without duplicates stays without duplicates. */
  lemma HistoryDistinct(history: seq<int>, id: int, maxItems: int)
    requires NoDuplicates(history)
    ensures NoDuplicates(NewHistory(history, id, maxItems))
  {
    var full := [id] + RemoveFirst(history, id);
    RemoveFirstKeepsDistinct(history, id);
    DistinctCons(id, RemoveFirst(history, id));
    var r := NewHistory(history, id, maxItems);
    assert r == full[..|r|];
    assert forall i :: 0 <= i < |r| ==> r[i] == full[i];
  }

  /** The ids after the first keep their relative order from before. */
  lemma HistoryOrder(history: seq<int>, id: int, maxItems: int)
    requires |NewHistory(history, id, maxItems)| > 0
    ensures IsSubsequence(NewHistory(history, id, maxItems)[1..], history)
  {
    var full := [id] + RemoveFirst(history, id);
    var r := NewHistory(history, id, maxItems);
    assert r == full[..|r|];
    RemoveFirstIsSubsequence(history, id);
    assert full[1..] == RemoveFirst(history, id);
    assert r[1..] == full[1..][..|r| - 1];
    PrefixIsSubsequence(full[1..], history, |r| - 1);
  }

  /** A preference reads back what was stored under it; other keys, and
      keys outside the preference namespace, are unaffected. */
  lemma PreferenceRoundTrip(session: map<string, SessionValue>, key: string, value: SessionValue,
                            other: string, default: Option<SessionValue>)
    ensures Lookup(session[PrefKey(key) := value], PrefKey(key), default) == Some(value)
    ensures PrefKey(key) !in session ==> Lookup(session, PrefKey(key), default) == default
    ensures other != key ==> Lookup(session[PrefKey(key) := value], PrefKey(other), default)
                             == Lookup(session, PrefKey(other), default)
    ensures Lookup(session[PrefKey(key) := value], HISTORY_KEY, default) == Lookup(session, HISTORY_KEY, default)
    ensures Lookup(session[PrefKey(key) := value], LAST_VIEWED_KEY, default)
            == Lookup(session, LAST_VIEWED_KEY, default)
  {
    ReservedKeysAreNotPreferences();
    if other != key {
      assert PrefKey(other)[|PREF_PREFIX|..] != PrefKey(key)[|PREF_PREFIX|..];
    }
  }

  lemma ReservedKeysAreNotPreferences()
    ensures !StartsWith(HISTORY_KEY, PREF_PREFIX) && !StartsWith(LAST_VIEWED_KEY, PREF_PREFIX)
  {
    assert HISTORY_KEY[0] != PREF_PREFIX[0];
    assert LAST_VIEWED_KEY[0] != PREF_PREFIX[0];
  }

  /** clear_preferences removes exactly the "pref_" keys and leaves the
      history and the last viewed event alone. */
  lemma ClearPreferencesKeepsOtherState(session: map<string, SessionValue>, k: string)
    ensures StartsWith(k, PREF_PREFIX) ==> k !in WithoutPreferences(session)
    ensures !StartsWith(k, PREF_PREFIX) ==> Lookup(WithoutPreferences(session), k, None) == Lookup(session, k, None)
    ensures HistoryOf(WithoutPreferences(session)) == HistoryOf(session)
    ensures Lookup(WithoutPreferences(session), LAST_VIEWED_KEY, None) == Lookup(session, LAST_VIEWED_KEY, None)
  {
    ReservedKeysAreNotPreferences();
  }
}
