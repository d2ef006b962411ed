/** `get_time_seed`: the wall-clock bucket.

    The Python function reads the clock in the America/Sao_Paulo zone and
    applies a fixed linear formula to the calendar fields, with the minute
    floored to a multiple of 3.  The formula assumes 365-day years and
    30.4-day months and is not a count of elapsed minutes; it must stay as it
    is to match the front end.  The model takes the calendar fields as input:
    reading the clock is left to the caller. */
module TimeSeed {

  const MinutesPerYear: int := 525600
  const MinutesPerMonth: int := 43800
  const MinutesPerDay: int := 1440
  const MinutesPerHour: int := 60
  /** The bucket width in minutes. */
  const Window: int := 3

  /** The fields of a `datetime` read in the fixed civil zone. */
  datatype CivilTime = CivilTime(year: int, month: int, day: int, hour: int, minute: int)
  {
    /** The ranges `datetime` guarantees for its fields. */
    predicate Valid()
    {
      1 <= month <= 12 && 1 <= day <= 31 && 0 <= hour < 24 && 0 <= minute < 60
    }

    /** Real minutes elapsed since the start of the month. */
    function MinuteOfMonth(): int
    {
      (day - 1) * MinutesPerDay + hour * MinutesPerHour + minute
    }
  }

  /** The formula of `get_time_seed`; the month is 1-based in `datetime` and
      the formula subtracts 1.  Every term is a multiple of the window width,
      so the bucket is always one: the bucket plus 1 or plus 2 is never
      produced by the clock. */
  function TimeSeed(t: CivilTime): (s: int)
    ensures s % Window == 0
  {
    t.year * MinutesPerYear + (t.month - 1) * MinutesPerMonth + t.day * MinutesPerDay
      + t.hour * MinutesPerHour + (t.minute / Window) * Window
  }

  /** Within one month the bucket is a fixed base plus the start of the
      current 3-minute window, counted in real minutes from the month start. */
  lemma WithinMonth(t: CivilTime)
    ensures TimeSeed(t) == t.year * MinutesPerYear + (t.month - 1) * MinutesPerMonth
                           + MinutesPerDay + (t.MinuteOfMonth() / Window) * Window
  {
    var whole := (t.day - 1) * 480 + t.hour * 20;
    assert t.MinuteOfMonth() == whole * Window + t.minute;
    assert (whole * Window + t.minute) / Window == whole + t.minute / Window;
  }

  /** Two instants of the same month in the same 3-minute window share the
      bucket, also when their calendar fields differ. */
  lemma SameWindowSameSeed(t: CivilTime, u: CivilTime)
    requires t.year == u.year && t.month == u.month
    requires t.MinuteOfMonth() / Window == u.MinuteOfMonth() / Window
    ensures TimeSeed(t) == TimeSeed(u)
  {
    WithinMonth(t);
    WithinMonth(u);
  }

  /** Moving to the next window of the same month adds exactly 3, across
      hour and day boundaries too. */
  lemma NextWindowAddsThree(t: CivilTime, u: CivilTime)
    requires t.year == u.year && t.month == u.month
    requires u.MinuteOfMonth() / Window == t.MinuteOfMonth() / Window + 1
    ensures TimeSeed(u) == TimeSeed(t) + Window
  {
    WithinMonth(t);
    WithinMonth(u);
  }

  /** Within one month the bucket never decreases as time advances. */
  lemma MonotoneWithinMonth(t: CivilTime, u: CivilTime)
    requires t.year == u.year && t.month == u.month
    requires t.MinuteOfMonth() <= u.MinuteOfMonth()
    ensures TimeSeed(t) <= TimeSeed(u)
  {
    WithinMonth(t);
    WithinMonth(u);
    DivMonotone(t.MinuteOfMonth(), u.MinuteOfMonth());
  }

  lemma DivMonotone(a: int, b: int)
    requires a <= b
    ensures a / Window <= b / Window
  {
  }

  /** Across a month end the bucket can go down: the last window of January 31
      has a larger bucket than the first window of February 1, because a day
      adds 1440 and a month only 43800 (less than 31 days). */
  lemma DropsAtMonthEnd(year: int)
    ensures CivilTime(year, 1, 31, 23, 57).Valid() && CivilTime(year, 2, 1, 0, 0).Valid()
    ensures TimeSeed(CivilTime(year, 2, 1, 0, 0)) == TimeSeed(CivilTime(year, 1, 31, 23, 57)) - 837
  {
  }
}
