/**
 * The precomputed statistics file (`~/.claude/stats-cache.json`) as `readStats` returns it
 * once parsed, the cached location of that file (`getStatsFilePath`) and the debugging
 * summary `getFileInfo` builds from it.
 */
module StatsSnapshot {
  import opened Wrappers
  import opened Dates

  /** One value of the snapshot's `modelUsage` object. */
  datatype ModelUsage = ModelUsage(
    inputTokens: int,
    outputTokens: int,
    cacheReadInputTokens: int,
    cacheCreationInputTokens: int)

  /** One element of the snapshot's `dailyActivity` array. */
  datatype DailyActivity = DailyActivity(date: Day, messageCount: int, sessionCount: int, toolCallCount: int)

  /** One element of the snapshot's `dailyModelTokens` array. */
  datatype DailyModelTokens = DailyModelTokens(date: Day, tokensByModel: map<string, int>)

  /**
   * The parsed statistics file. `modelUsage` lists the entries of the JSON object in the
   * order `Object.entries` yields them.
   */
  datatype Snapshot = Snapshot(
    lastComputedDate: string,
    dailyActivity: seq<DailyActivity>,
    dailyModelTokens: seq<DailyModelTokens>,
    modelUsage: seq<(string, ModelUsage)>,
    totalSessions: int,
    totalMessages: int)

  function ActivityDate(a: DailyActivity): Day
  {
    a.date
  }

  function ModelTokensDate(d: DailyModelTokens): Day
  {
    d.date
  }

  const StatsFileRelative: string := ".claude/stats-cache.json"

  /** `path.join(homeDir, '.claude', 'stats-cache.json')` with `/` as the separator. */
  function StatsPathUnder(homeDir: string): (p: string)
    ensures |p| >= |StatsFileRelative| && p[|p| - |StatsFileRelative|..] == StatsFileRelative
    ensures homeDir <= p
  {
    var prefix := if homeDir == [] || homeDir[|homeDir| - 1] == '/' then homeDir else homeDir + "/";
    assert (prefix + StatsFileRelative)[|prefix|..] == StatsFileRelative;
    prefix + StatsFileRelative
  }

  /** The class-level cache `ClaudeCodeService.statsFilePath`. */
  class StatsPathCache {
    var statsFilePath: Option<string>

    constructor()
      ensures statsFilePath == None
    {
      statsFilePath := None;
    }

    /**
     * `getStatsFilePath`: a cached path that is a non-empty string is returned as is;
     * otherwise the path under the home directory is computed, cached and returned.
     */
    method GetStatsFilePath(homeDir: string) returns (p: string)
      modifies this
      ensures old(statsFilePath).Some? && old(statsFilePath).value != "" ==>
        p == old(statsFilePath).value && statsFilePath == old(statsFilePath)
      ensures !(old(statsFilePath).Some? && old(statsFilePath).value != "") ==>
        p == StatsPathUnder(homeDir) && statsFilePath == Some(p)
      ensures statsFilePath == Some(p) && p != ""
    {
      if statsFilePath.Some? && statsFilePath.value != "" {
        return statsFilePath.value;
      }
      p := StatsPathUnder(homeDir);
      statsFilePath := Some(p);
    }
  }

  /** Two calls in a row return the same path, whatever home directory the second one sees. */
  method CachedPathIsStable(cache: StatsPathCache, home1: string, home2: string) returns (p1: string, p2: string)
    modifies cache
    ensures p1 == p2
  {
    p1 := cache.GetStatsFilePath(home1);
    p2 := cache.GetStatsFilePath(home2);
  }

  /** What `fs.statSync` reports of the statistics file; `mtime` in milliseconds since the epoch. */
  datatype FileStat = FileStat(size: nat, mtime: int)

  /** The object `getFileInfo` returns; absent properties are `None`. */
  datatype FileInfo = FileInfo(
    fileExists: bool,
    path: string,
    size: Option<nat>,
    lastModified: Option<int>,
    lastComputedDate: Option<string>)

  /**
   * `getFileInfo`: `stat` is `None` when the file does not exist, `stats` is what
   * `readStats` returned (`None` for `null`). The path is always echoed; a missing file
   * reports nothing else; an existing one reports its size and modification time; the
   * last computed date is present exactly when the file exists, parses and names a
   * non-empty date (`stats?.lastComputedDate || undefined`).
   */
  function GetFileInfo(path: string, stat: Option<FileStat>, stats: Option<Snapshot>): (info: FileInfo)
    ensures info.path == path
    ensures info.fileExists <==> stat.Some?
    ensures stat.None? ==> info.size.None? && info.lastModified.None?
    ensures stat.Some? ==> info.size == Some(stat.value.size) && info.lastModified == Some(stat.value.mtime)
    ensures info.lastComputedDate.Some? <==> stat.Some? && stats.Some? && stats.value.lastComputedDate != ""
    ensures info.lastComputedDate.Some? ==> info.lastComputedDate.value == stats.value.lastComputedDate
  {
    if stat.None? then FileInfo(false, path, None, None, None)
    else
      FileInfo(true, path, Some(stat.value.size), Some(stat.value.mtime),
        if stats.Some? && stats.value.lastComputedDate != "" then Some(stats.value.lastComputedDate) else None)
  }
}
