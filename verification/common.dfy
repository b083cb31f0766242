/**
 Vocabulary shared by every module: optional values, and time as an integer number of microseconds.
 */
module Common {

  datatype Option<+T> = None | Some(value: T)

  const SECOND: int := 1_000_000
  const MINUTE: int := 60 * SECOND
  const HOUR: int := 60 * MINUTE
  const DAY: int := 24 * HOUR

  /** Start of the Buenos Aires calendar day `date`; the zone is UTC-3 with no daylight saving. */
  function DayStart(date: int): int {
    date * DAY + 3 * HOUR
  }

  /** The Buenos Aires calendar day that contains the instant `t`. */
  function LocalDate(t: int): (date: int)
    ensures DayStart(date) <= t < DayStart(date + 1)
  {
    (t - 3 * HOUR) / DAY
  }

  /** The calendar day in microseconds: it begins at three in the morning of universal time. */
  lemma LocalDayExactly(t: int, date: int)
    ensures LocalDate(t) == date <==>
              date * 86_400_000_000 + 10_800_000_000 <= t < (date + 1) * 86_400_000_000 + 10_800_000_000
  {
    assert DAY == 86_400_000_000 && 3 * HOUR == 10_800_000_000;
  }
}
