/** The two decision rules on holding times: which unit a duration is shown in,
    and whether an account counts as a high-frequency trader. */
module Decisions {
  import opened Statistics

  datatype TimeUnit = Minutes | Hours | Days

  /** A duration as `format_time` shows it: an amount in a unit. */
  datatype Shown = Shown(amount: real, unit: TimeUnit)

  /** Converts a shown amount back to hours. */
  function InHours(s: Shown): real {
    match s.unit
    case Minutes => s.amount / 60.0
    case Hours => s.amount
    case Days => s.amount * 24.0
  }

  /** `format_time`: minutes below one hour, hours below one day, days from then on.
      The boundaries belong to the larger unit: exactly 1.0 is hours, exactly 24.0 is days. */
  function FormatTime(hours: real): (s: Shown)
    ensures s.unit == Minutes <==> hours < 1.0
    ensures s.unit == Hours <==> 1.0 <= hours < 24.0
    ensures s.unit == Days <==> 24.0 <= hours
    // the amount shown is the same duration in that unit
    ensures InHours(s) == hours
  {
    if hours < 1.0 then Shown(hours * 60.0, Minutes)
    else if hours < 24.0 then Shown(hours, Hours)
    else Shown(hours / 24.0, Days)
  }

  /** The amount shown lies in the range its unit stands for. */
  lemma FormatTimeRange(hours: real)
    requires hours >= 0.0
    ensures var s := FormatTime(hours);
      match s.unit
      case Minutes => 0.0 <= s.amount < 60.0
      case Hours => 1.0 <= s.amount < 24.0
      case Days => 1.0 <= s.amount
  {
  }

  datatype Option<T> = None | Some(value: T)

  /** The decision at the end of `analyze`. A run with no observations leaves the
      overall statistics `None`, and reading its average raises, which `analyze`
      catches, so the account is not returned; nor is one whose pooled simple average
      is above one hour. Any other account is returned once the report is printed,
      unless printing it raises (`reportRaises`), which `analyze` catches as well. */
  function HighFrequency(address: string, overall: Outcome<OverallStats>, reportRaises: bool): (r: Option<string>)
    ensures r.Some? ==> r.value == address
    ensures r.Some? <==> overall.Computed? && overall.value.overallSimpleAvg <= 1.0 && !reportRaises
  {
    match overall
    case Computed(stats) => if stats.overallSimpleAvg > 1.0 || reportRaises then None else Some(address)
    case _ => None
  }
}
