/** src/features/titles/components/field-date-range.js: the start and end
    pickers of a test. A picked start must come before the end and a picked
    end after the start, or the handler substitutes a date one day from the
    other end; a range shorter than two weeks shows a recommendation. Times
    are millisecond counts; the current time is an input. */
module DateRange {
  const DAY_MS: int := 24 * 60 * 60 * 1000
  const RECOMMENDED_MS: int := 14 * DAY_MS
  const DEFAULT_LENGTH_MS: int := 30 * DAY_MS

  /** The start handed to `onChangeStart` for a picked time. */
  function StartChange(time: int, endTime: int): int {
    if time < endTime then time else endTime - DAY_MS
  }

  /** The end handed to `onChangeEnd` for a picked time. */
  function EndChange(time: int, startTime: int): int {
    if time > startTime then time else startTime + DAY_MS
  }

  /** The two-week recommendation is shown. */
  predicate ShowsRecommendation(startTime: int, endTime: int) {
    endTime - startTime < RECOMMENDED_MS
  }

  /** `defaultProps`: start now, end thirty days later. */
  function Defaults(now: int): (int, int) {
    (now, now + DEFAULT_LENGTH_MS)
  }

  /** A new start is always before the end: the picked time when it is, the
      day before the end otherwise. */
  lemma StartChangeMeans(time: int, endTime: int)
    ensures StartChange(time, endTime) < endTime
    ensures StartChange(time, endTime) == time <==> time < endTime
    ensures time >= endTime ==> endTime - StartChange(time, endTime) == DAY_MS
  {
  }

  /** A new end is always after the start: the picked time when it is, the
      day after the start otherwise. */
  lemma EndChangeMeans(time: int, startTime: int)
    ensures EndChange(time, startTime) > startTime
    ensures EndChange(time, startTime) == time <==> time > startTime
    ensures time <= startTime ==> EndChange(time, startTime) - startTime == DAY_MS
  {
  }

  /** Whatever is picked, either handler leaves a range whose start is before
      its end; a substituted date makes a one-day range, which always shows
      the recommendation, while the default range never does. */
  lemma RangeStaysOrdered(startTime: int, endTime: int, time: int, now: int)
    ensures StartChange(time, endTime) < endTime && startTime < EndChange(time, startTime)
    ensures time >= endTime ==> ShowsRecommendation(StartChange(time, endTime), endTime)
    ensures time <= startTime ==> ShowsRecommendation(startTime, EndChange(time, startTime))
    ensures var (s, e) := Defaults(now); s < e && !ShowsRecommendation(s, e)
  {
  }
}
