/**
 * `getDailyActivity` and `getDailyModelTokens`: the snapshot's per-day records sorted by
 * date, newest first, cut to the requested number of days, then reversed, so that the
 * result holds the most recent records in ascending date order.
 */
module DailyWindow {
  import opened Wrappers
  import opened Dates
  import opened Ordering
  import opened StatsSnapshot

  /** `[...xs].sort(newest first).slice(0, days).reverse()`. */
  function RecentWindow<T>(xs: seq<T>, date: T -> Day, days: nat): (r: seq<T>)
    ensures |r| == if days < |xs| then days else |xs|
  {
    Reverse(Take(SortDesc(xs, date), days))
  }

  /** The window is in ascending date order. */
  lemma RecentWindowAscending<T>(xs: seq<T>, date: T -> Day, days: nat)
    ensures NonDecreasing(RecentWindow(xs, date, days), date)
  {
    var sorted := SortDesc(xs, date);
    var kept := Take(sorted, days);
    assert NonIncreasing(kept, date) by {
      forall i, j | 0 <= i < j < |kept|
        ensures date(kept[i]) >= date(kept[j])
      {
        assert kept[i] == sorted[i] && kept[j] == sorted[j];
      }
    }
    ReverseOfNonIncreasing(kept, date);
  }

  /** In a list sorted newest first, everything after position `k` is no newer than anything before it. */
  lemma SortedSplit<T>(s: seq<T>, k: nat, date: T -> Day)
    requires NonIncreasing(s, date) && k <= |s|
    ensures forall x, y :: x in s[k..] && y in s[..k] ==> date(x) <= date(y)
  {
    forall x, y | x in s[k..] && y in s[..k]
      ensures date(x) <= date(y)
    {
      var i :| 0 <= i < |s[k..]| && s[k..][i] == x;
      var j :| 0 <= j < k && s[..k][j] == y;
      assert s[j] == y && s[k + i] == x;
    }
  }

  /** Reversing a prefix keeps exactly its records; the records left out are the rest. */
  lemma ReversedPrefixSplit<T>(s: seq<T>, n: nat, k: nat)
    requires k == if n < |s| then n else |s|
    ensures multiset(Reverse(Take(s, n))) == multiset(s[..k])
    ensures multiset(s) - multiset(Reverse(Take(s, n))) == multiset(s[k..])
    ensures multiset(Reverse(Take(s, n))) <= multiset(s)
  {
    var kept, dropped := s[..k], s[k..];
    assert multiset(Reverse(Take(s, n))) == multiset(kept) by {
      assert Take(s, n) == kept;
      ReverseKeepsElements(kept);
    }
    assert multiset(s) == multiset(kept) + multiset(dropped) by {
      assert s == kept + dropped;
    }
    AddThenRemove(multiset(kept), multiset(dropped));
    AddedContains(multiset(kept), multiset(dropped));
  }

  lemma AddedContains<T>(a: multiset<T>, b: multiset<T>)
    ensures a <= a + b
  {
    forall y
      ensures a[y] <= (a + b)[y]
    {
    }
  }

  lemma AddThenRemove<T>(a: multiset<T>, b: multiset<T>)
    ensures (a + b) - a == b
  {
    forall y
      ensures ((a + b) - a)[y] == b[y]
    {
    }
  }

  /** After reversing the first records of a list sorted newest first, the records left out are no newer. */
  lemma ReversedPrefixIsNewest<T>(s: seq<T>, n: nat, date: T -> Day)
    requires NonIncreasing(s, date)
    ensures forall x, y :: (x in multiset(s) - multiset(Reverse(Take(s, n))) && y in Reverse(Take(s, n))) ==>
      date(x) <= date(y)
  {
    var k := if n < |s| then n else |s|;
    var r := Reverse(Take(s, n));
    ReversedPrefixSplit(s, n, k);
    SortedSplit(s, k, date);
    forall x, y | x in multiset(s) - multiset(r) && y in r
      ensures date(x) <= date(y)
    {
      assert x in s[k..];
      assert y in multiset(r);
      assert y in s[..k];
    }
  }

  /** The window is drawn from the records. */
  lemma RecentWindowDrawn<T>(xs: seq<T>, date: T -> Day, days: nat)
    ensures multiset(RecentWindow(xs, date, days)) <= multiset(xs)
  {
    var k := if days < |xs| then days else |xs|;
    ReversedPrefixSplit(SortDesc(xs, date), days, k);
  }

  /** Every record left out of the window is no more recent than any record kept. */
  lemma RecentWindowMostRecent<T>(xs: seq<T>, date: T -> Day, days: nat)
    ensures forall x, y :: (x in multiset(xs) - multiset(RecentWindow(xs, date, days)) &&
      y in RecentWindow(xs, date, days)) ==> date(x) <= date(y)
  {
    ReversedPrefixIsNewest(SortDesc(xs, date), days, date);
  }

  /** When `days` covers every record, the window holds all of them. */
  lemma RecentWindowAll<T>(xs: seq<T>, date: T -> Day, days: nat)
    requires days >= |xs|
    ensures multiset(RecentWindow(xs, date, days)) == multiset(xs)
  {
    ReverseKeepsElements(SortDesc(xs, date));
  }

  /**
   * `getDailyActivity(days)`: `[]` when there is no snapshot; otherwise the `days` most
   * recent activity records (all of them when there are fewer), oldest first.
   */
  function GetDailyActivity(stats: Option<Snapshot>, days: nat): (r: seq<DailyActivity>)
    ensures stats.None? ==> r == []
    ensures stats.Some? ==> |r| == if days < |stats.value.dailyActivity| then days else |stats.value.dailyActivity|
    ensures NonDecreasing(r, ActivityDate)
    ensures stats.Some? ==> multiset(r) <= multiset(stats.value.dailyActivity)
    ensures stats.Some? ==>
      forall x, y :: (x in multiset(stats.value.dailyActivity) - multiset(r) && y in r) ==> x.date <= y.date
  {
    if stats.None? then []
    else
      var xs := stats.value.dailyActivity;
      RecentWindowAscending(xs, ActivityDate, days);
      RecentWindowDrawn(xs, ActivityDate, days);
      RecentWindowMostRecent(xs, ActivityDate, days);
      RecentWindow(xs, ActivityDate, days)
  }

  /**
   * `getDailyModelTokens(days)`: `[]` when there is no snapshot; otherwise the `days` most
   * recent per-day token records (all of them when there are fewer), oldest first.
   */
  function GetDailyModelTokens(stats: Option<Snapshot>, days: nat): (r: seq<DailyModelTokens>)
    ensures stats.None? ==> r == []
    ensures stats.Some? ==> |r| == if days < |stats.value.dailyModelTokens| then days else |stats.value.dailyModelTokens|
    ensures NonDecreasing(r, ModelTokensDate)
    ensures stats.Some? ==> multiset(r) <= multiset(stats.value.dailyModelTokens)
    ensures stats.Some? ==>
      forall x, y :: (x in multiset(stats.value.dailyModelTokens) - multiset(r) && y in r) ==> x.date <= y.date
  {
    if stats.None? then []
    else
      var xs := stats.value.dailyModelTokens;
      RecentWindowAscending(xs, ModelTokensDate, days);
      RecentWindowDrawn(xs, ModelTokensDate, days);
      RecentWindowMostRecent(xs, ModelTokensDate, days);
      RecentWindow(xs, ModelTokensDate, days)
  }
}
