/**
 * Calendar dates without time of day, as the settlement code uses them once a
 * `java.util.Date` has been normalised to midnight: a date is a day number,
 * day 0 being 1 January 1970 (a Thursday), and the day of the week follows
 * `Calendar.DAY_OF_WEEK`, Sunday = 1 through Saturday = 7.
 */
module Calendar {

  type Day = int

  const Sunday: int := 1
  const Thursday: int := 5
  const Saturday: int := 7

  /** `Calendar.get(Calendar.DAY_OF_WEEK)` for the given day. */
  function DayOfWeek(d: Day): (w: int)
    ensures Sunday <= w <= Saturday
  {
    (d + 4) % 7 + 1
  }

  /** Day 0, 1 January 1970, is a Thursday, which fixes the offset in `DayOfWeek`. */
  lemma EpochIsThursday()
    ensures DayOfWeek(0) == Thursday
  {
  }

  /** Weekdays advance by one each day and wrap from Saturday to Sunday. */
  lemma NextDayOfWeek(d: Day)
    ensures DayOfWeek(d + 1) == if DayOfWeek(d) == Saturday then Sunday else DayOfWeek(d) + 1
  {
  }

  /** Any seven consecutive days, starting anywhere, include every weekday. */
  lemma WeekCovers(d: Day, w: int)
    requires Sunday <= w <= Saturday
    ensures exists e :: d <= e < d + 7 && DayOfWeek(e) == w
  {
    var i := (w - 1 - (d + 4) % 7) % 7;
    assert DayOfWeek(d + i) == w;
  }
}
