/** The instants crates/core-ids/src/issued_at.rs supports, in calendar terms. */
module ClockYears {
  import opened CivilDate
  import opened IssuedAtClock
  import opened Integers

  /** Supported are exactly the instants from the Unix epoch on whose year has four digits. */
  lemma SupportedExactly(t: IssuedAt)
    ensures IsSupported(t) <==> t >= 0 && DayByDay(t / 86_400_000_000).year <= 9999
  {
    if t >= 0 { YearsOfDays(t / 86_400_000_000); }
  }
}
