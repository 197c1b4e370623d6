/** The split of the hour of the day into the four periods of the sky. */
module TimeOfDay {

  datatype Period = Dawn | Day | Dusk | Night

  predicate IsDawn(hour: int) { hour >= 5 && hour < 8 }
  predicate IsDay(hour: int) { hour >= 8 && hour < 18 }
  predicate IsDusk(hour: int) { hour >= 18 && hour < 21 }
  predicate IsNight(hour: int) { hour >= 21 || hour < 5 }

  /**
   * The period an hour falls in. Each of the four flags holds exactly when
   * the hour is classified as that period, so exactly one flag holds; this
   * is true of every integer, not only of the hours 0..23.
   */
  function PeriodOf(hour: int): (p: Period)
    ensures (p == Dawn) == IsDawn(hour)
    ensures (p == Day) == IsDay(hour)
    ensures (p == Dusk) == IsDusk(hour)
    ensures (p == Night) == IsNight(hour)
  {
    if IsDawn(hour) then Dawn
    else if IsDay(hour) then Day
    else if IsDusk(hour) then Dusk
    else Night
  }
}
