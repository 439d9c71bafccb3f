/** src/features/titles/field-date-range.js: the date range the title test
    settings use. Its start handler keeps the start at or before the end; its
    end handler, as written, keeps the end at or before the start, the mirror
    image of what it evidently means to do. Both hand on the picker's value
    unparsed. Missing times default to now and thirty days from now. Stored
    times are millisecond counts; the current time is an input. */
module LegacyDateRange {
  import opened Common

  const DAY_MS: int := 24 * 60 * 60 * 1000
  const DEFAULT_LENGTH_MS: int := 30 * DAY_MS

  /** The value `TimePicker` hands `onChange`, passed on unparsed: a millisecond
      count, or the picker's date text. The date text is never a numeric
      literal, so JavaScript's `<` converts it to NaN and the comparison is
      false. */
  datatype PickValue = Millis(ms: int) | DateText(text: string)

  /** `time < limit` with a number on the right. */
  predicate Below(time: PickValue, limit: int) {
    time.Millis? && time.ms < limit
  }

  /** The start handed to `onChangeStart`: `time < endTime ? time : endTime`. */
  function StartChange(time: PickValue, endTime: int): PickValue {
    if Below(time, endTime) then time else Millis(endTime)
  }

  /** A numeric pick gives the earlier of it and the end, a tie giving the end;
      a date-text pick always gives the end, so the range collapses to zero
      length at the end. Either way the new start is a number not after the
      end. */
  lemma StartChangeMeans(time: PickValue, endTime: int)
    ensures var r := StartChange(time, endTime);
      && r.Millis? && r.ms <= endTime
      && (time.Millis? ==> r.ms <= time.ms && (r == time || r.ms == endTime))
      && (time.Millis? && time.ms == endTime ==> r.ms == endTime)
      && (time.DateText? ==> r == Millis(endTime))
  {
  }

  /** The end handed to `onChangeEnd`, as written: `time < startTime ? time : startTime`. */
  function EndChangeAsWritten(time: PickValue, startTime: int): PickValue {
    if Below(time, startTime) then time else Millis(startTime)
  }

  /** As written, the end can never be after the start: a numeric end before
      the start is taken as is, and one after it collapses the test to zero
      length, so a day after the start yields the start itself; a date-text
      pick always yields the start. */
  lemma EndNeverAfterStart(time: PickValue, startTime: int)
    ensures EndChangeAsWritten(time, startTime).Millis?
    ensures EndChangeAsWritten(time, startTime).ms <= startTime
    ensures time.Millis? && time.ms > startTime ==> EndChangeAsWritten(time, startTime) == Millis(startTime)
    ensures time.DateText? ==> EndChangeAsWritten(time, startTime) == Millis(startTime)
    ensures EndChangeAsWritten(Millis(startTime + DAY_MS), startTime) == Millis(startTime)
  {
  }

  /** The end handler as evidently intended, the mirror of the start handler,
      on the pick parsed to milliseconds: the later of the picked time and the
      start. */
  function EndChange(time: int, startTime: int): int {
    if time > startTime then time else startTime
  }

  /** The corrected end is never before the start, keeps any picked time at or
      after the start, and together with the start handler on a numeric pick
      keeps every range ordered. */
  lemma EndChangeMeans(time: int, startTime: int, endTime: int, picked: int)
    ensures EndChange(time, startTime) >= startTime
    ensures EndChange(time, startTime) >= time
    ensures EndChange(time, startTime) == time <==> time >= startTime
    ensures startTime <= endTime ==>
      StartChange(Millis(picked), endTime).ms <= endTime && startTime <= EndChange(picked, startTime)
  {
  }

  /** The default parameters: a missing start is now and a missing end thirty
      days from now; given times are kept. */
  function DefaultRange(startTime: Option<int>, endTime: Option<int>, now: int): (int, int) {
    (startTime.GetOr(now), endTime.GetOr(now + DEFAULT_LENGTH_MS))
  }

  lemma DefaultRangeMeans(startTime: Option<int>, endTime: Option<int>, now: int)
    ensures var (s, e) := DefaultRange(startTime, endTime, now);
      && (startTime.Some? ==> s == startTime.value) && (startTime.None? ==> s == now)
      && (endTime.Some? ==> e == endTime.value) && (endTime.None? ==> e == now + DEFAULT_LENGTH_MS)
      && (startTime.None? && endTime.None? ==> e - s == DEFAULT_LENGTH_MS && s < e)
  {
  }
}
