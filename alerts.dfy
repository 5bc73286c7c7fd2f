/** `_check_alert`: maps the current level of a station against its two
    thresholds to one of three tiers, checked in priority order. */
module Alerts {
  import opened Config

  datatype AlertLevel = Normal | Warning | Critical

  /** Position of a tier in the order NORMAL < WARNING < CRITICAL. */
  function Rank(a: AlertLevel): nat {
    match a
    case Normal => 0
    case Warning => 1
    case Critical => 2
  }

  /** The tier together with the figures its message reports: the level and
      the threshold reached, or for NORMAL the distance left to the warning
      threshold. */
  datatype Alert =
    | CriticalAlert(level: real, floodThreshold: real)
    | WarningAlert(level: real, warningThreshold: real)
    | NormalAlert(level: real, distanceToWarning: real)
  {
    function Tier(): AlertLevel {
      match this
      case CriticalAlert(_, _) => Critical
      case WarningAlert(_, _) => Warning
      case NormalAlert(_, _) => Normal
    }
  }

  /** First match wins: the flood threshold, then the warning threshold;
      reaching a threshold exactly counts as reaching it. */
  function CheckAlert(level: real, info: StationConfig): (r: Alert)
    ensures r.level == level
    ensures r.Tier() == Critical <==> level >= info.floodThreshold
    ensures r.Tier() == Warning <==> info.warningThreshold <= level < info.floodThreshold
    ensures r.Tier() == Normal <==> level < info.floodThreshold && level < info.warningThreshold
    ensures r.CriticalAlert? ==> r.floodThreshold == info.floodThreshold
    ensures r.WarningAlert? ==> r.warningThreshold == info.warningThreshold
    ensures r.NormalAlert? ==> r.distanceToWarning > 0.0 && r.level + r.distanceToWarning == info.warningThreshold
  {
    if level >= info.floodThreshold then CriticalAlert(level, info.floodThreshold)
    else if level >= info.warningThreshold then WarningAlert(level, info.warningThreshold)
    else NormalAlert(level, info.warningThreshold - level)
  }

  /** With ordered thresholds, a higher level never yields a lower tier. */
  lemma AlertMonotone(info: StationConfig, lower: real, higher: real)
    requires ThresholdsOrdered(info)
    requires lower <= higher
    ensures Rank(CheckAlert(lower, info).Tier()) <= Rank(CheckAlert(higher, info).Tier())
  {
  }

  /** With ordered thresholds the tiers partition the levels into three
      bands: below warning, from warning up to flood, and from flood up. */
  lemma AlertBands(info: StationConfig, level: real)
    requires ThresholdsOrdered(info)
    ensures CheckAlert(level, info).Tier() == Normal <==> level < info.warningThreshold
    ensures CheckAlert(level, info).Tier() == Warning <==> info.warningThreshold <= level < info.floodThreshold
    ensures CheckAlert(level, info).Tier() == Critical <==> info.floodThreshold <= level
  {
  }

  /** Tan Chau (warning 4.0 m, flood 4.5 m) at 4.6 m is CRITICAL and the
      message reports 4.6 and 4.5. */
  lemma TanChauAboveFlood()
    ensures CheckAlert(4.6, Stations["tan_chau"]) == CriticalAlert(4.6, 4.5)
  {
  }
}
