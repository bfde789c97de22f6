/**
 * Dates and date-times as integers.
 *
 * A LocalDate is its epoch day (days since 1970-01-01); a LocalDateTime is the
 * number of nanoseconds since 1970-01-01T00:00. LocalTime.MAX is the last
 * nanosecond of a day, 23:59:59.999999999.
 */
module Calendar {

  const NanosPerDay: int := 86_400_000_000_000

  /** LocalDate.atStartOfDay(): midnight at the start of the day. */
  function AtStartOfDay(day: int): int {
    day * NanosPerDay
  }

  /** LocalDate.atTime(LocalTime.MAX): the last nanosecond of the day. */
  function AtEndOfDay(day: int): int {
    AtStartOfDay(day) + NanosPerDay - 1
  }

  /** LocalDateTime.toLocalDate(): the day a date-time falls on (floor division). */
  function EpochDay(t: int): int {
    t / NanosPerDay
  }

  /** A date-time lies between the start and the end of a day, both included, exactly when it falls on that day. */
  lemma SameDay(day: int, t: int)
    ensures AtStartOfDay(day) <= t <= AtEndOfDay(day) <==> EpochDay(t) == day
  {
    var q, r := t / NanosPerDay, t % NanosPerDay;
    assert t == q * NanosPerDay + r && 0 <= r < NanosPerDay;
    if q < day {
      assert q * NanosPerDay + NanosPerDay <= day * NanosPerDay;
    } else if q > day {
      assert day * NanosPerDay + NanosPerDay <= q * NanosPerDay;
    }
  }

  /** The lemma above for every date-time at once. */
  lemma SameDayEverywhere(day: int)
    ensures forall t :: AtStartOfDay(day) <= t <= AtEndOfDay(day) <==> EpochDay(t) == day
  {
    forall t
      ensures AtStartOfDay(day) <= t <= AtEndOfDay(day) <==> EpochDay(t) == day
    {
      SameDay(day, t);
    }
  }
}
