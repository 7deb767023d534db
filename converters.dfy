/** The Room type converters between `Long?` columns and `Date?` values. */
module Converters {
  import opened Wrappers
  import opened Model

  /** `fromTimestamp`: a null column is a null date, otherwise the date at those milliseconds. */
  function FromTimestamp(value: Option<Long>): (d: Option<Date>)
    ensures d.None? <==> value.None?
    ensures d.Some? ==> d.value.time == value.value
  {
    match value
    case None => None
    case Some(v) => Some(Date(v))
  }

  /** `dateToTimestamp`: a null date is a null column, otherwise its milliseconds. */
  function DateToTimestamp(date: Option<Date>): (v: Option<Long>)
    ensures v.None? <==> date.None?
    ensures v.Some? ==> v.value == date.value.time
  {
    match date
    case None => None
    case Some(d) => Some(d.time)
  }

  /** Reading back a stored timestamp gives the stored value, null included. */
  lemma TimestampRoundTrip(value: Option<Long>)
    ensures DateToTimestamp(FromTimestamp(value)) == value
  {
  }

  /** Storing a date and reading it back gives the same date, null included. */
  lemma DateRoundTrip(date: Option<Date>)
    ensures FromTimestamp(DateToTimestamp(date)) == date
  {
  }
}
