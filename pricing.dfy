/** How a booking's total amount is computed from its car's rates, its rental
    type and its window, and when saving a booking fills that amount in. */
module Pricing {
  import opened Records

  /** `timedelta.days` of a duration of `dur` seconds: days rounded toward
      minus infinity, so that the leftover seconds are never negative. */
  function DaysOf(dur: int): (d: int)
    ensures d * SecondsPerDay <= dur < (d + 1) * SecondsPerDay
  {
    dur / SecondsPerDay
  }

  /** `timedelta.seconds`: what is left over after the whole days. */
  function SecondsOf(dur: int): (s: int)
    ensures 0 <= s < SecondsPerDay
    ensures DaysOf(dur) * SecondsPerDay + s == dur
  {
    dur % SecondsPerDay
  }

  /** Billed hours: the duration in hours, fractions included. */
  function HourlyUnits(dur: int): (h: real)
    ensures h * 3600.0 == dur as real
  {
    dur as real / SecondsPerHour as real
  }

  /** Billed days: whole days plus one when any seconds are left over, that is,
      the duration in days rounded up. */
  function DailyUnits(dur: int): (k: int)
    ensures (k - 1) * SecondsPerDay < dur <= k * SecondsPerDay
  {
    DaysOf(dur) + (if SecondsOf(dur) > 0 then 1 else 0)
  }

  /** Billed months: whole 30-day months of the whole days, plus one when any
      days are left over. The seconds beyond the whole days play no part. */
  function MonthlyUnits(dur: int): (m: int)
    ensures (m - 1) * DaysPerMonth < DaysOf(dur) <= m * DaysPerMonth
  {
    DaysOf(dur) / DaysPerMonth + (if DaysOf(dur) % DaysPerMonth > 0 then 1 else 0)
  }

  /** The rate the rental type bills by. */
  function RateFor(rates: Rates, rentalType: string): real {
    if rentalType == Hourly then rates.hourly
    else if rentalType == Daily then rates.daily
    else rates.monthly
  }

  /** The total amount of a booking of type `rentalType` from `start` to
      `end`: proportional for hourly rentals, rounded up to whole days for
      daily rentals and to whole 30-day months for every other type. */
  function TotalAmount(rates: Rates, rentalType: string, start: int, end: int): real {
    var dur := end - start;
    if rentalType == Hourly then rates.hourly * HourlyUnits(dur)
    else if rentalType == Daily then rates.daily * DailyUnits(dur) as real
    else rates.monthly * MonthlyUnits(dur) as real
  }

  /** Every amount is the type's rate times its billed units. The first two
      clauses state the proportional hourly rule and the monthly default; the
      third only spells the amount out as rate times units, in the form
      `Bookings.RoundTrip` uses to reach `RateFor(rates, rentalType) * n`. */
  lemma AmountIsRateTimesUnits(rates: Rates, rentalType: string, start: int, end: int)
    ensures rentalType == Hourly ==>
      TotalAmount(rates, rentalType, start, end) * 3600.0 == rates.hourly * (end - start) as real
    ensures rentalType != Hourly && rentalType != Daily ==>
      TotalAmount(rates, rentalType, start, end) == TotalAmount(rates, Monthly, start, end)
    ensures TotalAmount(rates, rentalType, start, end) == RateFor(rates, rentalType) *
      (if rentalType == Hourly then HourlyUnits(end - start)
       else if rentalType == Daily then DailyUnits(end - start) as real
       else MonthlyUnits(end - start) as real)
  {
    var h := HourlyUnits(end - start);
    assert rates.hourly * h * 3600.0 == rates.hourly * (h * 3600.0);
  }

  /** Daily billing is the ceiling of the duration in days: any started day is
      billed in full, and a duration of whole days is billed exactly. */
  lemma DailyIsCeiling(days: int, seconds: int)
    requires 0 <= seconds < SecondsPerDay
    ensures DailyUnits(days * SecondsPerDay + seconds) == if seconds > 0 then days + 1 else days
  {
    var k := DailyUnits(days * SecondsPerDay + seconds);
    assert (k - 1) * SecondsPerDay < days * SecondsPerDay + seconds <= k * SecondsPerDay;
    if seconds > 0 {
      assert days < k && k - 1 <= days by {
        assert (k - 1) * SecondsPerDay < (days + 1) * SecondsPerDay;
        assert days * SecondsPerDay < k * SecondsPerDay;
      }
    } else {
      assert (k - 1) * SecondsPerDay < days * SecondsPerDay <= k * SecondsPerDay;
    }
  }

  /** Monthly billing rounds whole days up to 30-day months and ignores the
      hours beyond the last whole day. */
  lemma MonthlyIgnoresLeftoverHours(days: int, seconds: int)
    requires 0 <= seconds < SecondsPerDay
    ensures MonthlyUnits(days * SecondsPerDay + seconds) == MonthlyUnits(days * SecondsPerDay)
    ensures DaysOf(days * SecondsPerDay + seconds) == days
  {
    var d := DaysOf(days * SecondsPerDay + seconds);
    assert d * SecondsPerDay <= days * SecondsPerDay + seconds < (d + 1) * SecondsPerDay;
    assert d <= days && days <= d by {
      assert d * SecondsPerDay < (days + 1) * SecondsPerDay;
      assert days * SecondsPerDay < (d + 1) * SecondsPerDay;
    }
    var d0 := DaysOf(days * SecondsPerDay);
    assert d0 * SecondsPerDay <= days * SecondsPerDay < (d0 + 1) * SecondsPerDay;
    assert d0 == days;
  }

  /** The documented billing examples: 90 minutes is 1.5 hours, 25 hours
      is 2 days, 31 days is 2 months and 30 days and 5 hours is 1 month. */
  lemma BillingExamples(rates: Rates, t: int)
    ensures TotalAmount(rates, Hourly, t, t + 90 * 60) == rates.hourly * 1.5
    ensures TotalAmount(rates, Daily, t, t + 25 * SecondsPerHour) == rates.daily * 2.0
    ensures TotalAmount(rates, Monthly, t, t + 31 * SecondsPerDay) == rates.monthly * 2.0
    ensures TotalAmount(rates, Monthly, t, t + 30 * SecondsPerDay + 5 * SecondsPerHour) == rates.monthly
  {
    DailyIsCeiling(1, 3600);
    MonthlyIgnoresLeftoverHours(31, 0);
    MonthlyIgnoresLeftoverHours(30, 5 * SecondsPerHour);
  }

  /** The amount `Booking.save` stores: a preset amount is kept unless it is
      missing or zero, in which case the computed amount replaces it. */
  function SavedAmount(preset: Option<real>, computed: real): real {
    if preset.None? || preset.value == 0.0 then computed else preset.value
  }

  /** Saving a booking again, when the amount it computes then is `c2`: with
      the same computed amount nothing changes; a non-zero stored amount is
      kept whatever is computed; a stored zero counts as unset and is
      replaced by the new computation. */
  lemma SaveIsIdempotent(preset: Option<real>, c1: real, c2: real)
    ensures SavedAmount(Some(SavedAmount(preset, c1)), c1) == SavedAmount(preset, c1)
    ensures SavedAmount(preset, c1) != 0.0 ==>
      SavedAmount(Some(SavedAmount(preset, c1)), c2) == SavedAmount(preset, c1)
    ensures SavedAmount(preset, c1) == 0.0 ==>
      SavedAmount(Some(SavedAmount(preset, c1)), c2) == c2
  {
  }

  // The hourly rule as written multiplies a decimal rate by a float.

  /** The numeric kinds a rate is multiplied by: the billed units are an `int`
      for daily and monthly rentals, and a `float` (true division) for hourly. */
  datatype PyNumber = PyInt(i: int) | PyFloat(x: real)

  /** The outcome of multiplying a decimal rate: a product, or the type error
      Python raises for a decimal times a float. */
  datatype Product = Product(value: real) | TypeError

  function DecimalTimes(rate: real, factor: PyNumber): Product {
    match factor
    case PyInt(i) => Product(rate * i as real)
    case PyFloat(_) => TypeError
  }

  /** `calculate_total_amount` exactly as written, numeric kinds included. */
  function TotalAmountAsWritten(rates: Rates, rentalType: string, start: int, end: int): Product {
    var dur := end - start;
    if rentalType == Hourly then DecimalTimes(rates.hourly, PyFloat(HourlyUnits(dur)))
    else if rentalType == Daily then DecimalTimes(rates.daily, PyInt(DailyUnits(dur)))
    else DecimalTimes(rates.monthly, PyInt(MonthlyUnits(dur)))
  }

  /** As written, every hourly booking fails to be priced, whatever its window;
      every other type is priced as `TotalAmount` prices it. */
  lemma AsWrittenHourlyRaises(rates: Rates, rentalType: string, start: int, end: int)
    ensures rentalType == Hourly ==> TotalAmountAsWritten(rates, rentalType, start, end) == TypeError
    ensures rentalType != Hourly ==>
      TotalAmountAsWritten(rates, rentalType, start, end) == Product(TotalAmount(rates, rentalType, start, end))
  {
  }
}
