/** What the history queries of both kinds share: grouping by process or group, and the width of timeline points. */
module QueryRange {
  datatype GroupBy = PerProcess | PerGroup

  const HOUR: nat := 3600

  function Interval(from: nat, to: nat): nat {
    if to - from > 72 * HOUR then 6 * HOUR
    else if to - from > 24 * HOUR then HOUR
    else 300
  }
}
