# Claude Code usage aggregation — a Dafny model

This project models the usage-aggregation core of the AI monitoring dashboard's server:

- **Session-log fold** (`parseSessionFile`): a session log is a JSONL file of assistant
  turns. Lines that decode, have type `assistant`, carry a `message.usage` object and a
  truthy `requestId` not yet seen in that file each add their four token counters and one
  message to the file's total. The seen-set is fresh for every file. A malformed line is
  skipped. A read failure returns what was gathered so far.
- **Live usage scan** (`getLiveSessionUsage`): over the project folders of
  `~/.claude/projects`, every `.jsonl` file whose modification day (UTC) is today is
  folded, and the per-file totals are summed counter by counter. One `try` surrounds the
  whole scan.
- **Metrics merge** (`getDashboardMetrics` of the Claude Code service): the all-time
  figures of the statistics snapshot (`~/.claude/stats-cache.json`) are merged with
  today's live usage. The per-model breakdown is sorted by total tokens.
- **Recent-window selection** (`getDailyActivity`, `getDailyModelTokens`): sort newest
  first, keep `days` records, reverse.
- **Statistics file location and summary** (`getStatsFilePath` with its class-level
  cache, `getFileInfo`).
- **Alert classification** of the token-usage dashboard (`getDashboardMetrics` of the
  dashboard service): the day's and the month's token counts are compared, as
  percentages of their configured limits, with each limit's alert threshold and with 95.

The model follows the code's order of effects. Loops that accumulate are methods with
loop invariants, proved against prefix-recursive specification functions. The
`getStatsFilePath` cache is a class whose method updates its field. Pure pipelines are
functions. Every specification function has lemmas that tie it to an independent
description:

- the session total equals the sum over the first occurrence of each request id;
- the message count equals the number of distinct counted request ids;
- a scan that no exception interrupts equals a counter-wise sum over the files modified
  today, so it does not depend on listing order;
- the sort is a permutation in non-increasing order;
- the window holds the most recent records, in ascending order;
- the real-valued percentage test equals an integer cross-multiplication.

Files:

| file | module | models |
|---|---|---|
| `wrappers.dfy` | `Wrappers`, `Dates` | `Option`; days as integers |
| `session_log.dfy` | `SessionLog` | `parseSessionFile` |
| `live_scan.dfy` | `LiveScan` | `getLiveSessionUsage` |
| `ordering.dfy` | `Ordering` | `sort` with a `b - a` comparator, `slice(0, n)`, `reverse`, `+=` sums |
| `stats_snapshot.dfy` | `StatsSnapshot` | the snapshot shape, `getStatsFilePath`, `getFileInfo` |
| `daily_window.dfy` | `DailyWindow` | `getDailyActivity`, `getDailyModelTokens` |
| `metrics.dfy` | `Metrics` | `getDashboardMetrics` of the Claude Code service |
| `alert_status.dfy` | `AlertStatus` | the alert status in `getDashboardMetrics` of the dashboard service |

Modelling choices:

- **Dates are day numbers.** The code compares `toISOString().split('T')[0]` strings,
  which are UTC calendar days. Equal strings are equal day numbers. Sorting by
  `new Date(date).getTime()` is monotone in the day number.
- **Inputs instead of effects.** `today` is a parameter. The directory tree, each
  `statSync` outcome and each file's lines (with an optional failing line) are values. A
  parsed snapshot is an `Option<Snapshot>` (`None` for `readStats` returning `null`).
- **Counters are unbounded integers.** A missing or falsy counter is `None` and counts
  as 0.

Three behaviours of the code that the model keeps as they are:

- A usage line without a truthy `requestId` is **dropped**
  (server/src/services/claudeCodeService.ts:281). Such lines are never counted.
- One `try` surrounds the whole live scan
  (server/src/services/claudeCodeService.ts:209, 245). A project whose `statSync` or
  `readdirSync` throws, or a session file whose `statSync` throws, **ends the scan**.
  The sums gathered so far are returned; the failing project is not skipped.
- "Today" is the **UTC** date (server/src/services/claudeCodeService.ts:232-233), not
  the local one.

## Model

Paths are relative to the repository root.

| member | source | states |
|---|---|---|
| SessionLog.ParseSessionFile | server/src/services/claudeCodeService.ts:255-301 | the result is the fold of the lines read before the first read failure, starting from a fresh seen-set and zero counters; malformed lines are skipped |
| SessionLog.ScanSeenIsCountedIds | server/src/services/claudeCodeService.ts:271-289 | after the fold the seen-set is exactly the set of request ids of candidate lines, and `messageCount` is its size |
| SessionLog.MessageCountIsDistinctIds | server/src/services/claudeCodeService.ts:281-289 | `messageCount` equals the number of distinct truthy request ids on assistant lines with a usage object |
| SessionLog.SeenBeforeIffRepeated | server/src/services/claudeCodeService.ts:281 | a candidate line's id is already in the seen-set exactly when an earlier line carries the same id |
| SessionLog.SessionTotalIsFirstOccurrenceTotal | server/src/services/claudeCodeService.ts:278-289 | the file total equals the sum of the contributions of the lines that first carry their request id |
| SessionLog.IgnoredLineAnywhere | server/src/services/claudeCodeService.ts:278-282 | a malformed, non-assistant, usage-less or id-less line, or one whose id was counted earlier, leaves the fold unchanged wherever it is inserted |
| SessionLog.UsageLineWithoutRequestIdIgnored | server/src/services/claudeCodeService.ts:280-281 | an assistant usage line with no or an empty `requestId` contributes nothing |
| SessionLog.RepeatedRequestIdIgnored | server/src/services/claudeCodeService.ts:281-282 | a line repeating a request id already counted contributes nothing, whatever its counters |
| SessionLog.SingleLineTotal | server/src/services/claudeCodeService.ts:284-289 | one counted line adds its four counters, each missing one as 0, and exactly one message |
| SessionLog.DuplicateRequestCountedOnce | server/src/services/claudeCodeService.ts:279-289 | two lines with the same id and {in:10, out:5} yield {in:10, out:5, messageCount:1} |
| SessionLog.NonNegativeTotal | server/src/services/claudeCodeService.ts:284-288 | with no negative counter in the file, no total counter is negative |
| SessionLog.NonNegativeReadable | server/src/services/claudeCodeService.ts:284-300 | the lines read before a read failure, with no negative counter, give a total with no negative counter |
| SessionLog.ReadFailureNeverOvercounts | server/src/services/claudeCodeService.ts:296-300 | the partial total after a read failure never counts more messages than the whole file would |
| LiveScan.VisitFile | server/src/services/claudeCodeService.ts:225-242 | one file of a folder: non-`.jsonl` files are skipped, a throwing `statSync` ends the scan, a log modified today adds its parsed totals counter by counter |
| LiveScan.ScanProjectFiles | server/src/services/claudeCodeService.ts:224-243 | the inner loop computes the specification scan of one folder's files |
| LiveScan.GetLiveSessionUsage | server/src/services/claudeCodeService.ts:197-250 | all zeros for a missing or unlistable projects directory; otherwise the scan over its entries, cut short by the first exception with the sums gathered so far |
| LiveScan.AbortedFilesScanIsFinal | server/src/services/claudeCodeService.ts:227-247 | once a file's `statSync` has thrown, later files of the folder change nothing |
| LiveScan.AbortedScanIsFinal | server/src/services/claudeCodeService.ts:209-247 | once an exception has ended the scan, later projects change nothing |
| LiveScan.ScanFilesIsSum | server/src/services/claudeCodeService.ts:225-242 | a folder's scan is interrupted exactly when one of its session logs cannot be stat-ed; otherwise it is the counter-wise sum of the totals of the logs modified today |
| LiveScan.CompleteScanIsSum | server/src/services/claudeCodeService.ts:217-244 | the live scan is interrupted exactly when some entry cannot be stat-ed or listed; otherwise it is the sum over directories of their today's logs |
| LiveScan.SumByCounters | server/src/services/claudeCodeService.ts:237-241 | each of the five counters of a counter-wise sum is the plain sum of that counter over the terms |
| LiveScan.SumByPermutation | server/src/services/claudeCodeService.ts:237-241 | a counter-wise sum does not depend on the order of its terms |
| LiveScan.LiveUsageOrderIndependent | server/src/services/claudeCodeService.ts:215-244 | when no exception interrupts it, the live total does not depend on the order of the project entries |
| LiveScan.FileOrderIndependent | server/src/services/claudeCodeService.ts:224-243 | when no file's `statSync` throws, a folder's scan does not depend on file order |
| LiveScan.IgnoredFileContributesNothing | server/src/services/claudeCodeService.ts:225-235 | a non-`.jsonl` file, or one modified on another day, leaves a folder's scan unchanged wherever it is listed |
| LiveScan.ScanProjectsRespectsFiles | server/src/services/claudeCodeService.ts:217-244 | replacing one folder's listing by one with the same scan leaves the live scan unchanged |
| LiveScan.StaleFileContributesNothing | server/src/services/claudeCodeService.ts:232-235 | removing a file not modified today from its folder leaves the live total unchanged |
| LiveScan.ScanFilesNeverOvercounts | server/src/services/claudeCodeService.ts:227-243 | an interrupted folder scan never counts more messages than the sum over its today's logs |
| LiveScan.ScanNeverOvercounts | server/src/services/claudeCodeService.ts:209-247 | an exception part-way through can only lose messages compared with the sum over all folders |
| LiveScan.NonNegativeFilesScan | server/src/services/claudeCodeService.ts:224-243 | with no negative counter in a folder's session logs, the folder's scan (complete or cut short) has no negative sum |
| LiveScan.NonNegativeProjectsScan | server/src/services/claudeCodeService.ts:209-247 | with no negative counter in any listed session log, the scan of the projects (complete or cut short) has no negative sum |
| LiveScan.NonNegativeLive | server/src/services/claudeCodeService.ts:197-250 | the live total, which `GetDashboardMetrics` copies into today's four token counters, has no negative counter when no session log carries one |
| Ordering.SortDesc | server/src/services/claudeCodeService.ts:126 | the sort returns a permutation of its input in non-increasing key order |
| Ordering.InsertDescSorted | server/src/services/claudeCodeService.ts:126 | each insertion step keeps the list in non-increasing key order |
| Ordering.Take | server/src/services/claudeCodeService.ts:144 | `slice(0, n)` is a prefix of length `min(n, length)` |
| Ordering.Reverse | server/src/services/claudeCodeService.ts:145 | `reverse()` puts element `i` at position `length - 1 - i` |
| Ordering.ReverseKeepsElements | server/src/services/claudeCodeService.ts:145 | reversing keeps the same elements |
| Ordering.ReverseOfNonIncreasing | server/src/services/claudeCodeService.ts:142-145 | reversing a newest-first list gives an oldest-first one |
| Ordering.SumOfPermutation | server/src/services/claudeCodeService.ts:95-98 | the `+=` totals over `Object.entries` do not depend on entry order |
| DailyWindow.RecentWindow | server/src/services/claudeCodeService.ts:142-145 | the window holds `days` records, or all of them when there are fewer |
| DailyWindow.RecentWindowAscending | server/src/services/claudeCodeService.ts:142-145 | the window is in ascending date order |
| DailyWindow.RecentWindowDrawn | server/src/services/claudeCodeService.ts:142-145 | every record of the window comes from the snapshot, with no duplication |
| DailyWindow.RecentWindowMostRecent | server/src/services/claudeCodeService.ts:142-145 | every record left out is no more recent than any record kept |
| DailyWindow.RecentWindowAll | server/src/services/claudeCodeService.ts:144 | when `days` covers every record, the window holds all of them |
| DailyWindow.GetDailyActivity | server/src/services/claudeCodeService.ts:134-148 | `[]` without a snapshot; otherwise the `min(days, n)` most recent activity records, in ascending date order |
| DailyWindow.GetDailyModelTokens | server/src/services/claudeCodeService.ts:154-168 | `[]` without a snapshot; otherwise the `min(days, n)` most recent per-day token records, in ascending date order |
| StatsSnapshot.StatsPathUnder | server/src/services/claudeCodeService.ts:32-33 | the statistics path is non-empty, starts with the home directory and ends in `.claude/stats-cache.json` |
| StatsSnapshot.StatsPathCache.constructor | server/src/services/claudeCodeService.ts:21 | the cache starts empty |
| StatsSnapshot.StatsPathCache.GetStatsFilePath | server/src/services/claudeCodeService.ts:27-37 | a cached non-empty path is returned unchanged; otherwise the path under the home directory is computed, cached and returned |
| StatsSnapshot.CachedPathIsStable | server/src/services/claudeCodeService.ts:27-37 | two calls in a row return the same path even when the home directory changes in between |
| StatsSnapshot.GetFileInfo | server/src/services/claudeCodeService.ts:306-324 | the path is always echoed; a missing file reports nothing else; an existing one reports size and modification time; the last computed date is present exactly when the snapshot parsed and names a non-empty one |
| Metrics.RowOf | server/src/services/claudeCodeService.ts:100-106 | a breakdown row keeps its model name, and its `totalTokens` is input plus output |
| Metrics.Rows | server/src/services/claudeCodeService.ts:95-107 | one row per `modelUsage` entry, in entry order |
| Metrics.FindDay | server/src/services/claudeCodeService.ts:111 | `None` exactly when no record is dated today; otherwise the first record dated today |
| Metrics.AccumulateModelUsage | server/src/services/claudeCodeService.ts:88-107 | the `forEach` gives the sums of input, output and cache-read tokens over `modelUsage` and one row per entry |
| Metrics.GetDashboardMetrics | server/src/services/claudeCodeService.ts:77-128 | `null` exactly without a snapshot; otherwise totals are the sums over `modelUsage`, the breakdown is a permutation of the rows in non-increasing `totalTokens` with `totalTokens = input + output`, today's token counters are the live ones, `todayMessages` is the live count unless it is 0, then today's snapshot record, else 0, and `todayToolCalls` comes from the snapshot record alone |
| Metrics.RowsTotal | server/src/services/claudeCodeService.ts:95-106 | the rows' `totalTokens` add up to all-time input plus output tokens |
| Metrics.BreakdownAddsUp | server/src/services/claudeCodeService.ts:95-126 | whatever its order, the breakdown's `totalTokens` add up to input plus output totals |
| Metrics.BreakdownModels | server/src/services/claudeCodeService.ts:95-126 | the breakdown holds exactly the rows of the `modelUsage` entries, each with `totalTokens = input + output` |
| AlertStatus.PercentageAtLeast | server/src/services/dashboardService.ts:56-57 | for a positive limit, the percentage is at least `p` exactly when `tokens * 100 >= p * limit` |
| AlertStatus.CheckLimit | server/src/services/dashboardService.ts:56-59 | a limit fires exactly when `tokens * 100 >= threshold * limit`; a fired check is critical exactly from 95 percent on, else a warning |
| AlertStatus.AlertStatusOf | server/src/services/dashboardService.ts:53-67 | safe without limits; a fired daily check decides the status; otherwise the monthly check decides, else safe |
| AlertStatus.ClassifyAlert | server/src/services/dashboardService.ts:52-77 | the imperative classification computes that status, echoes the token counts, and echoes each limit's `limit_value` or nothing |
| AlertStatus.CriticalNeedsBothMarks | server/src/services/dashboardService.ts:55-67 | `critical` only when some checked percentage is at least 95 and at least that limit's threshold |
| AlertStatus.DailyVerdictIsFinal | server/src/services/dashboardService.ts:62 | once the daily check fires, the monthly figures and limit do not matter |
| AlertStatus.DailyWarningMasksMonthlyCritical | server/src/services/dashboardService.ts:55-67 | a daily warning is never raised by monthly figures, so more daily usage can turn a monthly critical into a warning |
| AlertStatus.ZeroThresholdAlwaysAlerts | server/src/services/dashboardService.ts:55-59 | with a threshold of 0 and a non-negative count, a configured daily limit always raises an alert |

## Left out

- `watchStatsFile` (server/src/services/claudeCodeService.ts:174-192): `fs.watch` callbacks are OS notifications delivered asynchronously.
- `readStats` and `statsFileExists`: they are file-system access and `JSON.parse`. The parsed snapshot is an input, and an unreadable or malformed file is `None`. Snapshot objects whose fields are missing or of the wrong type (which make the code throw or produce `NaN`) are not modelled.
- `JSON.parse` of session lines is foreign. A line is given already decoded, and `Malformed` stands for any line on which decoding or field access throws. Non-string `requestId` values and non-numeric counters are not modelled.
- I/O, `os.homedir()` and the clock are parameters: the home directory, the directory tree with each `statSync` and `readdirSync` outcome, each file's lines and failing line, and `today`.
- `GetLiveSessionUsage`: the code recomputes `new Date()` for every file. A scan that runs across midnight UTC is not modelled.
- `GetFileInfo`: the file being removed between `existsSync` and `statSync` (which makes the code throw) is not modelled. Modification times are milliseconds, not ISO strings.
- `StatsPathUnder`: `path.join` normalisation (`.`, `..`, repeated separators) and Windows separators are not modelled.
- `GetDailyActivity`, `GetDailyModelTokens`: `days` is a natural number. The HTTP layer admits 1 to 365 (server/src/controllers/claudeCodeController.ts:45). Negative `slice` bounds are not modelled. The default of 7 days (server/src/services/claudeCodeService.ts:134, 154) is not modelled; every caller passes `days`.
- `SortDesc`: stability is built into the insertion sort, matching `Array.prototype.sort`, but no lemma states it.
- All numbers are exact integers and reals. JavaScript's 53-bit integer precision and IEEE rounding of `(tokens / limit) * 100` are not modelled; in doubles `57 / 100 * 100` is `56.99999999999999`, so a threshold of 57 at exactly 57 percent does not fire there, while it fires here.
- `ClassifyAlert`: the SQL queries that produce the token counts and the limits, the costs and the session tokens are not modelled. `limit_value >= 1` is a precondition. The usage-limit schema requires it (server/src/middleware/validation.ts:14), but no route of the server applies `validateUsageLimit`. A stored limit of 0, which gives an `Infinity` or `NaN` percentage, is not modelled.
- Asynchrony, `await` ordering and cancellation are not modelled. Each scan runs to completion on the values it is given.
- Logging (`console.error`, `console.warn`) is not modelled.
