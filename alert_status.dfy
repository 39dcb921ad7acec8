/**
 * The alert status of the token-usage dashboard (`getDashboardMetrics` in
 * server/src/services/dashboardService.ts): the day's and the month's token counts are
 * compared, as percentages of their configured limits, with each limit's alert threshold
 * and with a fixed 95 percent mark.
 */
module AlertStatus {
  import opened Wrappers

  datatype Status = Safe | Warning | Critical

  /** A row of `usage_limits`: `limit_value` is at least 1, `alert_threshold` a percentage. */
  datatype UsageLimit = UsageLimit(limitValue: int, alertThreshold: int)

  /** The fields of the returned metrics that the classification touches. */
  datatype AlertReport = AlertReport(
    dailyTokens: int,
    monthlyTokens: int,
    dailyLimit: Option<int>,
    monthlyLimit: Option<int>,
    alertStatus: Status)

  /** The fixed percentage from which a limit that has been reached is critical. */
  const CriticalPercent: real := 95.0

  /** A limit as the validation of `limit_value` admits it: at least 1. */
  predicate ValidLimit(limit: Option<UsageLimit>)
  {
    limit.Some? ==> limit.value.limitValue >= 1
  }

  /** `(tokens / limit_value) * 100`, in exact arithmetic. */
  function Percentage(tokens: int, limitValue: int): real
    requires limitValue >= 1
  {
    (tokens as real / limitValue as real) * 100.0
  }

  /** Comparing a percentage of a positive limit is comparing `tokens * 100` with a multiple of the limit. */
  lemma PercentageAtLeast(tokens: int, limitValue: int, percent: int)
    requires limitValue >= 1
    ensures Percentage(tokens, limitValue) >= percent as real <==> tokens * 100 >= percent * limitValue
  {
    var l := limitValue as real;
    assert Percentage(tokens, limitValue) == (tokens * 100) as real / l;
    assert (percent * limitValue) as real == percent as real * l;
    assert (tokens * 100) as real / l * l == (tokens * 100) as real;
  }

  /**
   * One limit's check: `None` when the percentage is below the alert threshold, otherwise
   * `Critical` from 95 percent on and `Warning` below it.
   */
  function CheckLimit(tokens: int, limit: UsageLimit): (r: Option<Status>)
    requires limit.limitValue >= 1
    ensures r.Some? <==> tokens * 100 >= limit.alertThreshold * limit.limitValue
    ensures r.Some? ==> (r.value == Critical <==> tokens * 100 >= 95 * limit.limitValue)
    ensures r != Some(Safe)
  {
    PercentageAtLeast(tokens, limit.limitValue, limit.alertThreshold);
    PercentageAtLeast(tokens, limit.limitValue, 95);
    var percentage := Percentage(tokens, limit.limitValue);
    if percentage >= limit.alertThreshold as real then
      Some(if percentage >= CriticalPercent then Critical else Warning)
    else None
  }

  /**
   * The status the two checks give: the daily limit first; the monthly limit only while the
   * status is still safe; safe when neither limit is configured or neither is reached.
   */
  function AlertStatusOf(dailyTokens: int, monthlyTokens: int, dailyLimit: Option<UsageLimit>, monthlyLimit: Option<UsageLimit>): (s: Status)
    requires ValidLimit(dailyLimit) && ValidLimit(monthlyLimit)
    ensures dailyLimit.None? && monthlyLimit.None? ==> s == Safe
    ensures dailyLimit.Some? && CheckLimit(dailyTokens, dailyLimit.value).Some? ==>
      s == CheckLimit(dailyTokens, dailyLimit.value).value
    ensures (dailyLimit.None? || CheckLimit(dailyTokens, dailyLimit.value).None?) ==>
      s == (if monthlyLimit.Some? && CheckLimit(monthlyTokens, monthlyLimit.value).Some?
            then CheckLimit(monthlyTokens, monthlyLimit.value).value else Safe)
  {
    var afterDaily :=
      if dailyLimit.Some? && CheckLimit(dailyTokens, dailyLimit.value).Some?
      then CheckLimit(dailyTokens, dailyLimit.value).value else Safe;
    if afterDaily == Safe && monthlyLimit.Some? && CheckLimit(monthlyTokens, monthlyLimit.value).Some?
    then CheckLimit(monthlyTokens, monthlyLimit.value).value
    else afterDaily
  }

  /**
   * The classification as `dashboardService.getDashboardMetrics` runs it on the summed
   * token counts, together with the echo of the configured limits.
   */
  method ClassifyAlert(dailyTokens: int, monthlyTokens: int, dailyLimit: Option<UsageLimit>, monthlyLimit: Option<UsageLimit>)
    returns (report: AlertReport)
    requires ValidLimit(dailyLimit) && ValidLimit(monthlyLimit)
    ensures report.alertStatus == AlertStatusOf(dailyTokens, monthlyTokens, dailyLimit, monthlyLimit)
    ensures report.dailyTokens == dailyTokens && report.monthlyTokens == monthlyTokens
    ensures report.dailyLimit == if dailyLimit.Some? then Some(dailyLimit.value.limitValue) else None
    ensures report.monthlyLimit == if monthlyLimit.Some? then Some(monthlyLimit.value.limitValue) else None
  {
    var alertStatus := Safe;

    if dailyLimit.Some? {
      var dailyPercentage := Percentage(dailyTokens, dailyLimit.value.limitValue);
      if dailyPercentage >= dailyLimit.value.alertThreshold as real {
        alertStatus := if dailyPercentage >= CriticalPercent then Critical else Warning;
      }
    }

    if monthlyLimit.Some? && alertStatus == Safe {
      var monthlyPercentage := Percentage(monthlyTokens, monthlyLimit.value.limitValue);
      if monthlyPercentage >= monthlyLimit.value.alertThreshold as real {
        alertStatus := if monthlyPercentage >= CriticalPercent then Critical else Warning;
      }
    }

    report := AlertReport(
      dailyTokens, monthlyTokens,
      if dailyLimit.Some? then Some(dailyLimit.value.limitValue) else None,
      if monthlyLimit.Some? then Some(monthlyLimit.value.limitValue) else None,
      alertStatus);
  }

  /** `Critical` only when some checked percentage is at least 95 and at least that limit's threshold. */
  lemma CriticalNeedsBothMarks(dailyTokens: int, monthlyTokens: int, dailyLimit: Option<UsageLimit>, monthlyLimit: Option<UsageLimit>)
    requires ValidLimit(dailyLimit) && ValidLimit(monthlyLimit)
    requires AlertStatusOf(dailyTokens, monthlyTokens, dailyLimit, monthlyLimit) == Critical
    ensures
      (dailyLimit.Some? && Percentage(dailyTokens, dailyLimit.value.limitValue) >= CriticalPercent &&
        Percentage(dailyTokens, dailyLimit.value.limitValue) >= dailyLimit.value.alertThreshold as real) ||
      (monthlyLimit.Some? && Percentage(monthlyTokens, monthlyLimit.value.limitValue) >= CriticalPercent &&
        Percentage(monthlyTokens, monthlyLimit.value.limitValue) >= monthlyLimit.value.alertThreshold as real)
  {
    if dailyLimit.Some? && CheckLimit(dailyTokens, dailyLimit.value).Some? {
      PercentageAtLeast(dailyTokens, dailyLimit.value.limitValue, 95);
      PercentageAtLeast(dailyTokens, dailyLimit.value.limitValue, dailyLimit.value.alertThreshold);
    } else {
      PercentageAtLeast(monthlyTokens, monthlyLimit.value.limitValue, 95);
      PercentageAtLeast(monthlyTokens, monthlyLimit.value.limitValue, monthlyLimit.value.alertThreshold);
    }
  }

  /** Once the daily limit has been reached, the monthly figures are not looked at. */
  lemma DailyVerdictIsFinal(dailyTokens: int, m1: int, m2: int, dailyLimit: Option<UsageLimit>, l1: Option<UsageLimit>, l2: Option<UsageLimit>)
    requires ValidLimit(dailyLimit) && ValidLimit(l1) && ValidLimit(l2)
    requires dailyLimit.Some? && dailyTokens * 100 >= dailyLimit.value.alertThreshold * dailyLimit.value.limitValue
    ensures AlertStatusOf(dailyTokens, m1, dailyLimit, l1) == AlertStatusOf(dailyTokens, m2, dailyLimit, l2) != Safe
  {
  }

  /**
   * A daily warning is never raised to critical by the monthly figures: with a daily limit
   * of 100 tokens at 50 percent and a monthly limit of 1000 tokens at 50 percent, 990 tokens
   * this month is critical while the day stands at 10 tokens, but only a warning once the
   * day reaches 60.
   */
  lemma DailyWarningMasksMonthlyCritical()
    ensures AlertStatusOf(10, 990, Some(UsageLimit(100, 50)), Some(UsageLimit(1000, 50))) == Critical
    ensures AlertStatusOf(60, 990, Some(UsageLimit(100, 50)), Some(UsageLimit(1000, 50))) == Warning
  {
    assert CheckLimit(10, UsageLimit(100, 50)).None?;
    assert CheckLimit(990, UsageLimit(1000, 50)) == Some(Critical);
    assert CheckLimit(60, UsageLimit(100, 50)) == Some(Warning);
  }

  /** With a threshold of 0 and a non-negative count, a configured daily limit always raises an alert. */
  lemma ZeroThresholdAlwaysAlerts(dailyTokens: int, monthlyTokens: int, dailyLimit: UsageLimit, monthlyLimit: Option<UsageLimit>)
    requires dailyLimit.limitValue >= 1 && ValidLimit(monthlyLimit)
    requires dailyLimit.alertThreshold <= 0 && dailyTokens >= 0
    ensures AlertStatusOf(dailyTokens, monthlyTokens, Some(dailyLimit), monthlyLimit) != Safe
  {
  }
}
