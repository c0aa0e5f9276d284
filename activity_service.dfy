/**
 * The activity log, after `backend/app/services/activity_service.py`: entries are appended to
 * "activity_logs.json"; queries filter by user (and type), sort newest first and keep the
 * first `limit`; the statistics count a user's entries per type.
 */
module ActivityService {
  import opened Wrappers
  import opened Seqs
  import opened MapSums
  import opened Groups

  /**
   * One log entry; a key the stored object lacks is `None`. Timestamps are instants in
   * their ISO-8601 order.
   */
  datatype Entry = Entry(userId: Option<string>, kind: Option<string>, details: map<string, string>, timestamp: Option<nat>)

  datatype ActivityStats = ActivityStats(totalActivities: nat, byType: map<string, nat>)

  const UnknownType := "unknown"

  /** The sort key `x.get("timestamp", "")`: the empty string sorts before every timestamp. */
  function Key(e: Entry): (k: int)
    ensures k >= -1 && (e.timestamp.None? <==> k == -1)
  {
    if e.timestamp.Some? then e.timestamp.value else -1
  }

  /** `log.get("type", "unknown")`. */
  function KindOf(e: Entry): string {
    e.kind.GetOr(UnknownType)
  }

  ghost predicate SortedDesc(s: seq<Entry>) {
    forall i, j :: 0 <= i < j < |s| ==> Key(s[i]) >= Key(s[j])
  }

  /** `log.get("user_id") == user_id`. */
  function OfUser(userId: string): (p: Entry -> bool)
    ensures forall e :: p(e) == (e.userId == Some(userId))
  {
    (e: Entry) => e.userId == Some(userId)
  }

  /** `log.get("user_id") == user_id and log.get("type") == activity_type`. */
  function OfUserAndType(userId: string, kind: string): (p: Entry -> bool)
    ensures forall e :: p(e) == (e.userId == Some(userId) && e.kind == Some(kind))
  {
    (e: Entry) => e.userId == Some(userId) && e.kind == Some(kind)
  }

  /** `list.sort(key=timestamp, reverse=True)`: newest first, by insertion. */
  method SortNewestFirst(a: array<Entry>)
    modifies a
    ensures SortedDesc(a[..])
    ensures multiset(a[..]) == multiset(old(a[..]))
  {
    var i := 0;
    while i < a.Length
      invariant 0 <= i <= a.Length
      invariant SortedDesc(a[..i])
      invariant multiset(a[..]) == multiset(old(a[..]))
    {
      InsertNewest(a, i);
      i := i + 1;
    }
    assert a[..a.Length] == a[..];
  }

  /** The pairs of the first `n` entries, leaving out position `j`, are newest first. */
  ghost predicate SortedExcept(s: seq<Entry>, n: nat, j: nat)
    requires n <= |s|
  {
    forall p, q :: 0 <= p < q < n && p != j && q != j ==> Key(s[p]) >= Key(s[q])
  }

  /** One insertion step: move `a[i]` towards the front past every older entry. */
  method InsertNewest(a: array<Entry>, i: nat)
    requires i < a.Length && SortedDesc(a[..i])
    modifies a
    ensures SortedDesc(a[..i + 1])
    ensures multiset(a[..]) == multiset(old(a[..]))
  {
    var j := i;
    InsertStart(a[..], i);
    while 0 < j && Key(a[j - 1]) < Key(a[j])
      invariant 0 <= j <= i
      invariant multiset(a[..]) == multiset(old(a[..]))
      invariant SortedExcept(a[..], i + 1, j)
      invariant forall q :: j < q <= i ==> Key(a[j]) >= Key(a[q])
    {
      ghost var before := a[..];
      a[j - 1], a[j] := a[j], a[j - 1];
      assert a[..] == before[j - 1 := before[j]][j := before[j - 1]];
      SwapStep(before, i, j);
      j := j - 1;
    }
    InsertDone(a[..], i, j);
  }

  /** Before any swap, only the new entry at `i` may be out of place. */
  lemma InsertStart(s: seq<Entry>, i: nat)
    requires i < |s| && SortedDesc(s[..i])
    ensures SortedExcept(s, i + 1, i)
  {
    forall p, q | 0 <= p < q < i + 1 && p != i && q != i
      ensures Key(s[p]) >= Key(s[q])
    {
      assert s[..i][p] == s[p] && s[..i][q] == s[q];
    }
  }

  /** Once the moving entry is no newer than its predecessor, the first `i + 1` entries are sorted. */
  lemma InsertDone(s: seq<Entry>, i: nat, j: nat)
    requires j <= i < |s|
    requires SortedExcept(s, i + 1, j)
    requires forall q :: j < q <= i ==> Key(s[j]) >= Key(s[q])
    requires j == 0 || Key(s[j - 1]) >= Key(s[j])
    ensures SortedDesc(s[..i + 1])
  {
    var t := s[..i + 1];
    forall p, q | 0 <= p < q < |t|
      ensures Key(t[p]) >= Key(t[q])
    {
      if p == j {
      } else if q == j {
        assert Key(s[p]) >= Key(s[j - 1]) by {
          if p < j - 1 {
            assert p != j && j - 1 != j;
          }
        }
      }
    }
  }

  /** Swapping the moving entry with an older one before it keeps the insertion invariant. */
  lemma SwapStep(s: seq<Entry>, i: nat, j: nat)
    requires 0 < j <= i < |s|
    requires SortedExcept(s, i + 1, j)
    requires forall q :: j < q <= i ==> Key(s[j]) >= Key(s[q])
    requires Key(s[j - 1]) < Key(s[j])
    ensures var t := s[j - 1 := s[j]][j := s[j - 1]];
      multiset(t) == multiset(s) &&
      SortedExcept(t, i + 1, j - 1) &&
      forall q :: j - 1 < q <= i ==> Key(t[j - 1]) >= Key(t[q])
  {
    var t := s[j - 1 := s[j]][j := s[j - 1]];
    SwapKeepsMultiset(s, j);
    forall p, q | 0 <= p < q < i + 1 && p != j - 1 && q != j - 1
      ensures Key(t[p]) >= Key(t[q])
    {
      if p == j {
        assert t[p] == s[j - 1];
      } else if q == j {
        assert t[q] == s[j - 1] && t[p] == s[p];
      } else {
        assert t[p] == s[p] && t[q] == s[q];
      }
    }
  }

  lemma SwapKeepsMultiset(s: seq<Entry>, j: nat)
    requires 0 < j < |s|
    ensures multiset(s[j - 1 := s[j]][j := s[j - 1]]) == multiset(s)
  {
    var t := s[j - 1 := s[j]][j := s[j - 1]];
    assert t == s[..j - 1] + [s[j], s[j - 1]] + s[j + 1..];
    assert s == s[..j - 1] + [s[j - 1], s[j]] + s[j + 1..];
  }

  /** Every entry left out of a prefix of a newest-first list is no newer than any entry kept. */
  lemma PrefixIsNewest(s: seq<Entry>, n: nat)
    requires SortedDesc(s) && n <= |s|
    ensures SortedDesc(s[..n])
    ensures multiset(s) - multiset(s[..n]) == multiset(s[n..])
    ensures forall x, y :: x in multiset(s) - multiset(s[..n]) && y in s[..n] ==> Key(x) <= Key(y)
  {
    assert s == s[..n] + s[n..];
    assert multiset(s) == multiset(s[..n]) + multiset(s[n..]);
    forall x, y | x in multiset(s[n..]) && y in s[..n]
      ensures Key(x) <= Key(y)
    {
      var p :| 0 <= p < |s[..n]| && s[..n][p] == y;
      var q :| 0 <= q < |s[n..]| && s[n..][q] == x;
      assert s[p] == y && s[n + q] == x;
    }
  }

  /**
   * Sort `pool` newest first and keep `pool_sorted[:limit]`: at most `limit` entries, all
   * from `pool`, newest first, and none left out newer than one kept.
   */
  method NewestFirst(pool: seq<Entry>, limit: int) returns (r: seq<Entry>)
    ensures 0 <= limit ==> |r| == (if limit <= |pool| then limit else |pool|)
    ensures limit < 0 ==> |r| == (if -limit <= |pool| then |pool| + limit else 0)
    ensures SortedDesc(r)
    ensures multiset(r) <= multiset(pool)
    ensures forall x, y :: x in multiset(pool) - multiset(r) && y in r ==> Key(x) <= Key(y)
  {
    var a := new Entry[|pool|](i requires 0 <= i < |pool| => pool[i]);
    assert a[..] == pool;
    SortNewestFirst(a);
    r := Take(a[..], limit);
    KeepNewest(a[..], pool, limit);
  }

  /** A prefix of a newest-first permutation of `pool` keeps the newest entries of `pool`. */
  lemma KeepNewest(sorted: seq<Entry>, pool: seq<Entry>, limit: int)
    requires SortedDesc(sorted) && multiset(sorted) == multiset(pool)
    ensures var r := Take(sorted, limit);
      && SortedDesc(r)
      && multiset(r) <= multiset(pool)
      && forall x, y :: x in multiset(pool) - multiset(r) && y in r ==> Key(x) <= Key(y)
  {
    var r := Take(sorted, limit);
    PrefixIsNewest(sorted, |r|);
    assert r == sorted[..|r|];
    assert sorted == r + sorted[|r|..];
    assert multiset(sorted) == multiset(r) + multiset(sorted[|r|..]);
  }

  /** The entries of one user, in log order. */
  function UserLogs(logs: seq<Entry>, userId: string): (r: seq<Entry>)
    ensures forall e :: e in r <==> e in logs && e.userId == Some(userId)
  {
    Filter(logs, OfUser(userId))
  }

  lemma StatsStep(userLogs: seq<Entry>, n: nat)
    requires n < |userLogs|
    ensures GroupSizes(userLogs[..n + 1], KindOf) == Increment(GroupSizes(userLogs[..n], KindOf), KindOf(userLogs[n]))
  {
    assert userLogs[..n + 1] == userLogs[..n] + [userLogs[n]];
    GroupSizesSnoc(userLogs[..n], userLogs[n], KindOf);
  }

  lemma StatsStart(userLogs: seq<Entry>)
    ensures GroupSizes(userLogs[..0], KindOf) == map[]
  {
    assert KeysOf(userLogs[..0], KindOf) == {};
  }

  /** An entry without a type is counted under "unknown". */
  lemma UntypedCountedAsUnknown(userLogs: seq<Entry>, e: Entry)
    requires e in userLogs && e.kind.None?
    ensures UnknownType in GroupSizes(userLogs, KindOf)
    ensures GroupSizes(userLogs, KindOf)[UnknownType] >= 1
  {
    assert e in Group(userLogs, KindOf, UnknownType);
  }

  class ActivityLog {
    /** The content of "activity_logs.json". */
    var logs: seq<Entry>

    constructor (logs: seq<Entry>)
      ensures this.logs == logs
    {
      this.logs := logs;
    }

    /**
     * `log_activity`: one entry with the given user, type and details, stamped `now`, goes at
     * the end of the log; `written` is the store's report, and a failed write changes nothing.
     */
    method LogActivity(kind: string, details: map<string, string>, userId: string, now: nat, written: bool)
      returns (ok: bool)
      modifies this
      ensures ok == written
      ensures written ==> logs == old(logs) + [Entry(Some(userId), Some(kind), details, Some(now))]
      ensures !written ==> logs == old(logs)
    {
      if written {
        logs := logs + [Entry(Some(userId), Some(kind), details, Some(now))];
      }
      ok := written;
    }

    /** `get_recent_activities`: the user's newest `limit` entries, newest first. */
    method GetRecentActivities(userId: string, limit: int) returns (r: seq<Entry>)
      ensures var n := |UserLogs(logs, userId)|;
        0 <= limit ==> |r| == (if limit <= n then limit else n)
      ensures var n := |UserLogs(logs, userId)|;
        limit < 0 ==> |r| == (if -limit <= n then n + limit else 0)
      ensures forall e :: e in r ==> e in logs && e.userId == Some(userId)
      ensures SortedDesc(r)
      ensures multiset(r) <= multiset(UserLogs(logs, userId))
      ensures forall x, y :: x in multiset(UserLogs(logs, userId)) - multiset(r) && y in r ==> Key(x) <= Key(y)
    {
      r := NewestFirst(UserLogs(logs, userId), limit);
      forall e | e in r
        ensures e in UserLogs(logs, userId)
      {
        assert e in multiset(r);
      }
    }

    /** `get_activities_by_type`: the user's newest `limit` entries of one type, newest first. */
    method GetActivitiesByType(kind: string, userId: string, limit: int) returns (r: seq<Entry>)
      ensures var n := |Filter(logs, OfUserAndType(userId, kind))|;
        0 <= limit ==> |r| == (if limit <= n then limit else n)
      ensures var n := |Filter(logs, OfUserAndType(userId, kind))|;
        limit < 0 ==> |r| == (if -limit <= n then n + limit else 0)
      ensures forall e :: e in r ==> e in logs && e.userId == Some(userId) && e.kind == Some(kind)
      ensures SortedDesc(r)
      ensures var pool := Filter(logs, OfUserAndType(userId, kind));
        multiset(r) <= multiset(pool) &&
        forall x, y :: x in multiset(pool) - multiset(r) && y in r ==> Key(x) <= Key(y)
    {
      var pool := Filter(logs, OfUserAndType(userId, kind));
      r := NewestFirst(pool, limit);
      forall e | e in r
        ensures e in pool
      {
        assert e in multiset(r);
      }
    }

    /** `get_activity_stats`: the user's entry count and the count per type, summing to it. */
    method GetActivityStats(userId: string) returns (stats: ActivityStats)
      ensures stats.totalActivities == |UserLogs(logs, userId)|
      ensures stats.byType == GroupSizes(UserLogs(logs, userId), KindOf)
      ensures Sum(stats.byType) == stats.totalActivities
    {
      var userLogs := UserLogs(logs, userId);
      var counts: map<string, nat> := map[];
      StatsStart(userLogs);
      for n := 0 to |userLogs|
        invariant counts == GroupSizes(userLogs[..n], KindOf)
      {
        StatsStep(userLogs, n);
        counts := Increment(counts, KindOf(userLogs[n]));
      }
      assert userLogs[..|userLogs|] == userLogs;
      GroupSizesSum(userLogs, KindOf);
      stats := ActivityStats(|userLogs|, counts);
    }
  }
}
