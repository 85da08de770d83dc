/** The booking engine's rules: the end of a requested window, the conflict
    test against the booking table, and the table-level invariant that the
    active bookings of a car never overlap. */
module Bookings {
  import opened Records
  import opened Pricing

  /** The end of a rental of `n` units from `start`: `n` hours, `n` days, or
      `n` 30-day months for every other rental type. `n` is not checked for
      sign, so a negative count gives an end before the start. */
  function EndTime(rentalType: string, start: int, n: int): int {
    if rentalType == Hourly then start + n * SecondsPerHour
    else if rentalType == Daily then start + n * SecondsPerDay
    else start + n * DaysPerMonth * SecondsPerDay
  }

  /** Pricing the window made from `n` units bills exactly `n` units at the
      rate of the rental type, for every `n`. */
  lemma RoundTrip(rates: Rates, rentalType: string, start: int, n: int)
    ensures TotalAmount(rates, rentalType, start, EndTime(rentalType, start, n)) ==
      RateFor(rates, rentalType) * n as real
  {
    var dur := EndTime(rentalType, start, n) - start;
    AmountIsRateTimesUnits(rates, rentalType, start, EndTime(rentalType, start, n));
    if rentalType == Hourly {
      assert HourlyUnits(dur) == n as real by {
        var h := HourlyUnits(dur);
        assert h * 3600.0 == n as real * 3600.0;
        assert (h - n as real) * 3600.0 == 0.0;
      }
    } else if rentalType == Daily {
      // The two codes differ in their first letter, which keeps the hourly
      // case out of this branch.
      assert Daily[0] != Hourly[0];
      assert DailyUnits(dur) == n by {
        DailyIsCeiling(n, 0);
        assert dur == n * SecondsPerDay + 0;
      }
    } else {
      assert MonthlyUnits(dur) == n by {
        MonthlyIgnoresLeftoverHours(n * DaysPerMonth, 0);
        var m := MonthlyUnits(dur);
        assert (m - 1) * DaysPerMonth < n * DaysPerMonth <= m * DaysPerMonth;
      }
    }
  }

  /** Booking `b` blocks a request for `car` over [start, end): it is a
      pending or confirmed booking of the same car whose window overlaps the
      request's, touching endpoints excluded. */
  predicate Blocks(b: Booking, car: CarId, start: int, end: int) {
    b.car == car && b.status.IsActive() && b.start < end && b.end > start
  }

  /** Some booking in the table blocks the request. */
  predicate Conflicts(bookings: seq<Booking>, car: CarId, start: int, end: int) {
    exists i :: 0 <= i < |bookings| && Blocks(bookings[i], car, start, end)
  }

  /** Two windows share an instant. */
  predicate Overlap(a: Booking, b: Booking) {
    a.start < b.end && b.start < a.end
  }

  /** No two active bookings of one car overlap. */
  predicate NoDoubleBooking(bookings: seq<Booking>) {
    forall i, j ::
      (0 <= i < j < |bookings| && bookings[i].car == bookings[j].car &&
       bookings[i].status.IsActive() && bookings[j].status.IsActive()) ==>
      !Overlap(bookings[i], bookings[j])
  }

  /** Appending a booking that nothing in the table blocks keeps the active
      bookings of every car pairwise disjoint. */
  lemma AppendKeepsNoDoubleBooking(bookings: seq<Booking>, b: Booking)
    requires NoDoubleBooking(bookings)
    requires !Conflicts(bookings, b.car, b.start, b.end)
    ensures NoDoubleBooking(bookings + [b])
  {
    var all := bookings + [b];
    forall i, j | 0 <= i < j < |all| && all[i].car == all[j].car &&
      all[i].status.IsActive() && all[j].status.IsActive()
      ensures !Overlap(all[i], all[j])
    {
      if j == |bookings| {
        assert all[j] == b;
        assert !Blocks(bookings[i], b.car, b.start, b.end);
      } else {
        assert all[i] == bookings[i] && all[j] == bookings[j];
      }
    }
  }

  /** Bookings of other cars and cancelled or completed bookings never block:
      adding one to the table does not change whether a request conflicts. */
  lemma NonBlockingRowsIgnored(bookings: seq<Booking>, b: Booking, car: CarId, start: int, end: int)
    requires b.car != car || !b.status.IsActive()
    ensures Conflicts(bookings + [b], car, start, end) == Conflicts(bookings, car, start, end)
  {
    var all := bookings + [b];
    if Conflicts(all, car, start, end) {
      var i :| 0 <= i < |all| && Blocks(all[i], car, start, end);
      assert i < |bookings| && all[i] == bookings[i];
    }
    if Conflicts(bookings, car, start, end) {
      var i :| 0 <= i < |bookings| && Blocks(bookings[i], car, start, end);
      assert all[i] == bookings[i];
    }
  }

  /** The documented conflict examples: [10:00, 12:00) and [12:00, 14:00)
      touch and do not conflict; [10:00, 12:00) and [11:00, 13:00) do; a
      cancelled booking does not block the same window. */
  lemma ConflictExamples(car: CarId, user: UserId, rentalType: string, day: int, amount: Option<real>)
    ensures
      var b := Booking(car, user, rentalType, day + 10 * SecondsPerHour, day + 12 * SecondsPerHour, Pending, amount);
      && !Conflicts([b], car, day + 12 * SecondsPerHour, day + 14 * SecondsPerHour)
      && Conflicts([b], car, day + 11 * SecondsPerHour, day + 13 * SecondsPerHour)
      && !Conflicts([b.(status := Cancelled)], car, b.start, b.end)
  {
    var b := Booking(car, user, rentalType, day + 10 * SecondsPerHour, day + 12 * SecondsPerHour, Pending, amount);
    assert Blocks([b][0], car, day + 11 * SecondsPerHour, day + 13 * SecondsPerHour);
  }
}
