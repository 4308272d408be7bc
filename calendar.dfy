/**
 * Instants as the feed sees them: a day number, the minute of that day and the
 * microseconds within that minute. Day 0 is a Monday, so the weekday of a day
 * (Monday = 0 ... Sunday = 6, as Python's `weekday()` numbers them) is `day % 7`.
 */
module Calendar {

  const MinutesPerDay := 1440
  const MicrosPerMinute := 60_000_000

  datatype Stamp = Stamp(day: int, minute: int, micro: int) {
    /** A real wall-clock instant: the minute and the sub-minute part are in range. */
    predicate Valid() {
      0 <= minute < MinutesPerDay && 0 <= micro < MicrosPerMinute
    }
  }

  /** Chronological order on instants (`<=` on datetimes). */
  predicate Le(a: Stamp, b: Stamp) {
    a.day < b.day || (a.day == b.day && (a.minute < b.minute || (a.minute == b.minute && a.micro <= b.micro)))
  }

  /** Strict chronological order (`<` on datetimes). */
  predicate Lt(a: Stamp, b: Stamp) {
    a.day < b.day || (a.day == b.day && (a.minute < b.minute || (a.minute == b.minute && a.micro < b.micro)))
  }

  /** The same clock time on the following day (`+ timedelta(days=1)`). */
  function NextDay(s: Stamp): Stamp {
    s.(day := s.day + 1)
  }

  /** Monday = 0 ... Sunday = 6. */
  function Weekday(day: int): (w: int)
    ensures 0 <= w < 7
  {
    day % 7
  }

  /** Monday to Friday (`weekday() < 5`). */
  predicate IsWeekday(day: int) {
    Weekday(day) < 5
  }

  /** Every instant in `s` is strictly later than the one before it. */
  predicate StrictlyIncreasing(s: seq<Stamp>) {
    forall i, j :: 0 <= i < j < |s| ==> Lt(s[i], s[j])
  }
}
