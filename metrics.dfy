/**
 * `getDashboardMetrics` in server/src/services/claudeCodeService.ts: the all-time figures of
 * the statistics snapshot merged with today's live usage from the session logs.
 */
module Metrics {
  import opened Wrappers
  import opened Dates
  import opened Ordering
  import opened SessionLog
  import opened LiveScan
  import opened StatsSnapshot

  /** One element of `modelBreakdown`. */
  datatype ModelRow = ModelRow(model: string, inputTokens: int, outputTokens: int, cacheReadTokens: int, totalTokens: int)

  /** The object `getDashboardMetrics` returns when a snapshot exists. */
  datatype DashboardMetrics = DashboardMetrics(
    totalSessions: int,
    totalMessages: int,
    totalInputTokens: int,
    totalOutputTokens: int,
    totalCacheReadTokens: int,
    todayMessages: int,
    todayToolCalls: int,
    todayInputTokens: int,
    todayOutputTokens: int,
    todayCacheReadTokens: int,
    todayCacheCreationTokens: int,
    modelBreakdown: seq<ModelRow>)

  function InputOf(entry: (string, ModelUsage)): int
  {
    entry.1.inputTokens
  }

  function OutputOf(entry: (string, ModelUsage)): int
  {
    entry.1.outputTokens
  }

  function CacheReadOf(entry: (string, ModelUsage)): int
  {
    entry.1.cacheReadInputTokens
  }

  function RowTotal(row: ModelRow): int
  {
    row.totalTokens
  }

  /** The breakdown row pushed for one `modelUsage` entry. */
  function RowOf(entry: (string, ModelUsage)): (row: ModelRow)
    ensures row.model == entry.0
    ensures row.totalTokens == row.inputTokens + row.outputTokens
  {
    ModelRow(entry.0, entry.1.inputTokens, entry.1.outputTokens, entry.1.cacheReadInputTokens,
      entry.1.inputTokens + entry.1.outputTokens)
  }

  /** The rows in `Object.entries` order, before the sort. */
  function Rows(entries: seq<(string, ModelUsage)>): (rows: seq<ModelRow>)
    ensures |rows| == |entries|
    ensures forall i :: 0 <= i < |entries| ==> rows[i] == RowOf(entries[i])
  {
    if entries == [] then [] else Rows(entries[..|entries| - 1]) + [RowOf(entries[|entries| - 1])]
  }

  /**
   * `dailyActivity.find(activity => activity.date === today)`: the first record dated
   * today, or `None` when there is none.
   */
  function FindDay(xs: seq<DailyActivity>, day: Day): (r: Option<DailyActivity>)
    ensures r.None? <==> forall i :: 0 <= i < |xs| ==> xs[i].date != day
    ensures r.Some? ==>
      exists i :: 0 <= i < |xs| && xs[i] == r.value && r.value.date == day && forall j :: 0 <= j < i ==> xs[j].date != day
  {
    if xs == [] then None
    else if xs[0].date == day then Some(xs[0])
    else
      var r := FindDay(xs[1..], day);
      if r.Some? then
        var i :| 0 <= i < |xs[1..]| && xs[1..][i] == r.value && r.value.date == day &&
          forall j :: 0 <= j < i ==> xs[1..][j].date != day;
        assert xs[i + 1] == r.value && forall j :: 0 <= j < i + 1 ==> xs[j].date != day;
        r
      else
        assert forall i :: 1 <= i < |xs| ==> xs[i] == xs[1..][i - 1];
        r
  }

  /** `todayActivity?.messageCount || 0` and `todayActivity?.toolCallCount || 0`. */
  function MessagesOf(a: Option<DailyActivity>): int
  {
    if a.Some? then a.value.messageCount else 0
  }

  function ToolCallsOf(a: Option<DailyActivity>): int
  {
    if a.Some? then a.value.toolCallCount else 0
  }

  lemma RowsSnoc(entries: seq<(string, ModelUsage)>, i: nat)
    requires i < |entries|
    ensures Rows(entries[..i + 1]) == Rows(entries[..i]) + [RowOf(entries[i])]
  {
    assert entries[..i + 1][..i] == entries[..i];
  }

  lemma SumOfSnoc<T>(xs: seq<T>, i: nat, f: T -> int)
    requires i < |xs|
    ensures SumOf(xs[..i + 1], f) == SumOf(xs[..i], f) + f(xs[i])
  {
    assert xs[..i + 1][..i] == xs[..i];
  }

  /**
   * The `forEach` over `Object.entries(stats.modelUsage)`: running sums of the input, output
   * and cache-read tokens, and one breakdown row pushed per entry.
   */
  method AccumulateModelUsage(entries: seq<(string, ModelUsage)>)
    returns (totalInputTokens: int, totalOutputTokens: int, totalCacheReadTokens: int, rows: seq<ModelRow>)
    ensures totalInputTokens == SumOf(entries, InputOf)
    ensures totalOutputTokens == SumOf(entries, OutputOf)
    ensures totalCacheReadTokens == SumOf(entries, CacheReadOf)
    ensures rows == Rows(entries)
  {
    totalInputTokens, totalOutputTokens, totalCacheReadTokens := 0, 0, 0;
    rows := [];
    var i := 0;
    while i < |entries|
      invariant i <= |entries|
      invariant totalInputTokens == SumOf(entries[..i], InputOf)
      invariant totalOutputTokens == SumOf(entries[..i], OutputOf)
      invariant totalCacheReadTokens == SumOf(entries[..i], CacheReadOf)
      invariant rows == Rows(entries[..i])
    {
      var (model, usage) := entries[i];
      SumOfSnoc(entries, i, InputOf);
      SumOfSnoc(entries, i, OutputOf);
      SumOfSnoc(entries, i, CacheReadOf);
      RowsSnoc(entries, i);
      totalInputTokens := totalInputTokens + usage.inputTokens;
      totalOutputTokens := totalOutputTokens + usage.outputTokens;
      totalCacheReadTokens := totalCacheReadTokens + usage.cacheReadInputTokens;
      rows := rows + [ModelRow(model, usage.inputTokens, usage.outputTokens, usage.cacheReadInputTokens,
        usage.inputTokens + usage.outputTokens)];
      i := i + 1;
    }
    assert entries[..i] == entries;
  }

  /**
   * `getDashboardMetrics`: `None` (`null`) without a snapshot. Otherwise the all-time token
   * totals are the sums over `modelUsage`; the breakdown holds one row per entry, with
   * `totalTokens` the sum of its input and output tokens, in non-increasing order of
   * `totalTokens`; today's token counters are the live ones; today's message count is the
   * live one unless that is 0, then the snapshot's record for today, else 0; today's tool
   * calls come from the snapshot's record alone.
   */
  method GetDashboardMetrics(stats: Option<Snapshot>, projects: ProjectsDir, today: Day)
    returns (m: Option<DashboardMetrics>)
    ensures m.None? <==> stats.None?
    ensures m.Some? ==> m.value.totalSessions == stats.value.totalSessions
    ensures m.Some? ==> m.value.totalMessages == stats.value.totalMessages
    ensures m.Some? ==> m.value.totalInputTokens == SumOf(stats.value.modelUsage, InputOf)
    ensures m.Some? ==> m.value.totalOutputTokens == SumOf(stats.value.modelUsage, OutputOf)
    ensures m.Some? ==> m.value.totalCacheReadTokens == SumOf(stats.value.modelUsage, CacheReadOf)
    ensures m.Some? ==> multiset(m.value.modelBreakdown) == multiset(Rows(stats.value.modelUsage))
    ensures m.Some? ==> NonIncreasing(m.value.modelBreakdown, RowTotal)
    ensures m.Some? ==> forall row :: row in m.value.modelBreakdown ==> row.totalTokens == row.inputTokens + row.outputTokens
    ensures m.Some? ==>
      var live := LiveSessionUsage(projects, today);
      m.value.todayInputTokens == live.inputTokens && m.value.todayOutputTokens == live.outputTokens &&
      m.value.todayCacheReadTokens == live.cacheReadTokens &&
      m.value.todayCacheCreationTokens == live.cacheCreationTokens
    ensures m.Some? ==>
      var live := LiveSessionUsage(projects, today);
      var record := FindDay(stats.value.dailyActivity, today);
      m.value.todayMessages == (if live.messageCount != 0 then live.messageCount else MessagesOf(record)) &&
      m.value.todayToolCalls == ToolCallsOf(record)
    ensures m.Some? ==>
      var record := FindDay(stats.value.dailyActivity, today);
      (m.value.todayMessages == 0 <==>
        LiveSessionUsage(projects, today).messageCount == 0 && (record.None? || record.value.messageCount == 0))
  {
    if stats.None? {
      return None;
    }
    var snapshot := stats.value;
    var liveUsage := GetLiveSessionUsage(projects, today);

    var totalInputTokens, totalOutputTokens, totalCacheReadTokens, rows :=
      AccumulateModelUsage(snapshot.modelUsage);

    var todayActivity := FindDay(snapshot.dailyActivity, today);
    var todayMessages := liveUsage.messageCount;
    if todayMessages == 0 {
      todayMessages := if todayActivity.Some? && todayActivity.value.messageCount != 0
        then todayActivity.value.messageCount else 0;
    }
    var todayToolCalls := if todayActivity.Some? && todayActivity.value.toolCallCount != 0
      then todayActivity.value.toolCallCount else 0;

    var breakdown := SortDesc(rows, RowTotal);
    BreakdownModels(breakdown, snapshot.modelUsage);
    m := Some(DashboardMetrics(
      snapshot.totalSessions, snapshot.totalMessages,
      totalInputTokens, totalOutputTokens, totalCacheReadTokens,
      todayMessages, todayToolCalls,
      liveUsage.inputTokens, liveUsage.outputTokens, liveUsage.cacheReadTokens, liveUsage.cacheCreationTokens,
      breakdown));
  }

  /** Sorting the rows does not change their `totalTokens` sum: input plus output over all models. */
  lemma {:induction false} RowsTotal(entries: seq<(string, ModelUsage)>)
    ensures SumOf(Rows(entries), RowTotal) == SumOf(entries, InputOf) + SumOf(entries, OutputOf)
  {
    if entries != [] {
      var n := |entries| - 1;
      RowsTotal(entries[..n]);
      assert Rows(entries)[..n] == Rows(entries[..n]);
    }
  }

  /**
   * Whatever order the breakdown is in, its `totalTokens` add up to the all-time input plus
   * output totals.
   */
  lemma BreakdownAddsUp(breakdown: seq<ModelRow>, entries: seq<(string, ModelUsage)>)
    requires multiset(breakdown) == multiset(Rows(entries))
    ensures SumOf(breakdown, RowTotal) == SumOf(entries, InputOf) + SumOf(entries, OutputOf)
  {
    SumOfPermutation(breakdown, Rows(entries), RowTotal);
    RowsTotal(entries);
  }

  /** The breakdown lists every model of the snapshot, once per entry. */
  lemma BreakdownModels(breakdown: seq<ModelRow>, entries: seq<(string, ModelUsage)>)
    requires multiset(breakdown) == multiset(Rows(entries))
    ensures forall i :: 0 <= i < |entries| ==> RowOf(entries[i]) in breakdown
    ensures forall row :: row in breakdown ==> exists i :: 0 <= i < |entries| && row == RowOf(entries[i])
    ensures forall row :: row in breakdown ==> row.totalTokens == row.inputTokens + row.outputTokens
  {
    var rows := Rows(entries);
    assert forall i :: 0 <= i < |entries| ==> rows[i] in multiset(rows);
    assert forall row :: row in breakdown ==> row in multiset(rows);
  }
}
