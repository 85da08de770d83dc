/** The rows of the car-rental schema that the booking engine and the rating
    aggregator read and write: cars' rates, ratings and bookings.
    Instants are whole seconds on one time line; identifiers are opaque. */
module Records {

  datatype Option<+T> = None | Some(value: T)

  type CarId = nat
  type UserId = nat

  /** Seconds in an hour and in a day, as `timedelta` counts them. */
  const SecondsPerHour: int := 3600
  const SecondsPerDay: int := 86400
  /** The fixed month length, in days, used for monthly rentals. */
  const DaysPerMonth: int := 30

  /** The two rental-type codes the engine tells apart; every other code,
      "MONTHLY" included, is billed and timed as a monthly rental. */
  const Hourly: string := "HOURLY"
  const Daily: string := "DAILY"
  const Monthly: string := "MONTHLY"

  datatype Status = Pending | Confirmed | Cancelled | Completed {
    /** Only pending and confirmed bookings occupy their car. */
    predicate IsActive() {
      this == Pending || this == Confirmed
    }
  }

  /** The three charge fields of a car. */
  datatype Rates = Rates(hourly: real, daily: real, monthly: real)

  /** A booking row. `totalAmount` is `None` until the row is saved. */
  datatype Booking = Booking(
    car: CarId,
    user: UserId,
    rentalType: string,
    start: int,
    end: int,
    status: Status,
    totalAmount: Option<real>)

  /** A rating row; (car, user) is unique in the rating table. */
  datatype CarRating = CarRating(car: CarId, user: UserId, rating: int, comment: string)
}
