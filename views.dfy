/** The two request handlers that write to the database, `book_car` and
    `rate_car`, together with the save hooks they go through, over a database
    holding the booking table and the rating table. */
module Views {
  import opened Records
  import opened Pricing
  import opened Ratings
  import opened Bookings

  /** What a booking request comes to: a new booking at the given row of the
      booking table, a refusal because the car is taken, or a start or
      duration that does not parse. */
  datatype BookingOutcome = Booked(row: nat) | Unavailable | InvalidInput

  /** The rating field of a rating request: absent or empty, present but not
      an integer, or an integer (its range is not checked on this path). */
  datatype RatingInput = Missing | Unparseable | Given(score: int)

  /** What a rating request comes to: a rating written (`created` when it is
      the user's first for the car), or a refusal that writes nothing. */
  datatype RatingOutcome = Rated(created: bool) | RatingRequired | InvalidRating

  class RentalDb {
    var bookings: seq<Booking>
    var ratings: seq<CarRating>

    /** The database's own constraint: one rating per (car, user). */
    predicate Valid()
      reads this
    {
      UniqueRatings(ratings)
    }

    constructor ()
      ensures Valid() && bookings == [] && ratings == []
    {
      bookings := [];
      ratings := [];
    }

    /** `Booking.save`: fill in the total amount when it is missing or zero,
        then insert the row. */
    method SaveBooking(b: Booking, rates: Rates)
      modifies this
      ensures bookings == old(bookings) +
        [b.(totalAmount := Some(SavedAmount(b.totalAmount, TotalAmount(rates, b.rentalType, b.start, b.end))))]
      ensures b.totalAmount.Some? && b.totalAmount.value != 0.0 ==> bookings[|bookings| - 1] == b
      ensures ratings == old(ratings)
    {
      var amount := b.totalAmount;
      if amount.None? || amount.value == 0.0 {
        amount := Some(TotalAmount(rates, b.rentalType, b.start, b.end));
      }
      bookings := bookings + [b.(totalAmount := amount)];
    }

    /** The conflict query of `book_car`: is there a pending or confirmed
        booking of `car` whose window overlaps [start, end)? */
    method HasConflict(car: CarId, start: int, end: int) returns (found: bool)
      ensures found <==> Conflicts(bookings, car, start, end)
    {
      var i := 0;
      while i < |bookings|
        invariant 0 <= i <= |bookings|
        invariant forall j :: 0 <= j < i ==> !Blocks(bookings[j], car, start, end)
      {
        if Blocks(bookings[i], car, start, end) {
          return true;
        }
        i := i + 1;
      }
      return false;
    }

    /** `book_car`: derive the end of the window from the rental type and the
        duration, refuse it when an active booking of the car overlaps it, and
        otherwise insert a pending booking priced by `TotalAmount`. A start
        or duration that does not parse changes nothing. */
    method BookCar(car: Car, user: UserId, rentalType: string, start: Option<int>, duration: Option<int>)
      returns (outcome: BookingOutcome)
      requires Valid()
      modifies this
      ensures Valid() && ratings == old(ratings)
      ensures start.None? || duration.None? ==> outcome == InvalidInput && bookings == old(bookings)
      ensures start.Some? && duration.Some? ==>
        var end := EndTime(rentalType, start.value, duration.value);
        if Conflicts(old(bookings), car.id, start.value, end) then
          outcome == Unavailable && bookings == old(bookings)
        else
          outcome == Booked(|old(bookings)|) &&
          bookings == old(bookings) +
            [Booking(car.id, user, rentalType, start.value, end, Pending,
                     Some(TotalAmount(car.rates, rentalType, start.value, end)))]
      ensures NoDoubleBooking(old(bookings)) ==> NoDoubleBooking(bookings)
    {
      if start.None? || duration.None? {
        return InvalidInput;
      }
      var end := EndTime(rentalType, start.value, duration.value);
      var taken := HasConflict(car.id, start.value, end);
      if taken {
        return Unavailable;
      }
      var b := Booking(car.id, user, rentalType, start.value, end, Pending, None);
      ghost var wasDisjoint := NoDoubleBooking(bookings);
      if wasDisjoint {
        AppendKeepsNoDoubleBooking(bookings, b.(totalAmount := Some(TotalAmount(car.rates, rentalType, start.value, end))));
      }
      SaveBooking(b, car.rates);
      outcome := Booked(|bookings| - 1);
    }

    /** The lookup of `update_or_create`: the first row holding a rating of
        `car` by `user`, if any. */
    method FindRating(car: CarId, user: UserId) returns (at: Option<nat>)
      ensures at.Some? ==>
        && at.value < |ratings|
        && ratings[at.value].car == car && ratings[at.value].user == user
        && forall j :: 0 <= j < at.value ==> !(ratings[j].car == car && ratings[j].user == user)
      ensures at.None? ==> forall j :: 0 <= j < |ratings| ==> !(ratings[j].car == car && ratings[j].user == user)
    {
      var i := 0;
      while i < |ratings|
        invariant 0 <= i <= |ratings|
        invariant forall j :: 0 <= j < i ==> !(ratings[j].car == car && ratings[j].user == user)
      {
        if ratings[i].car == car && ratings[i].user == user {
          return Some(i);
        }
        i := i + 1;
      }
      return None;
    }

    /** `CarRating.save`: write the row (over row `at` when it already
        exists, as a new row otherwise; the (car, user) constraint refuses a
        second row with the same key, so callers insert only new keys), then
        recompute the car's derived
        fields from the rating table. */
    method SaveRating(car: Car, r: CarRating, at: Option<nat>)
      requires Valid() && r.car == car.id
      requires at.Some? ==> at.value < |ratings| && SameKey(ratings[at.value], r)
      requires at.None? ==> !HasKey(ratings, r)
      modifies this, car
      ensures Valid()
      ensures ratings == if at.Some? then old(ratings)[at.value := r] else old(ratings) + [r]
      ensures bookings == old(bookings) && car.rates == old(car.rates)
      ensures car.ConsistentWith(ratings)
    {
      if at.Some? {
        OverwriteKeepsUnique(ratings, at.value, r);
        ratings := ratings[at.value := r];
      } else {
        AppendKeepsUnique(ratings, r);
        ratings := ratings + [r];
      }
      car.UpdateRating(ratings);
    }

    /** `rate_car`: with a score, update or create the user's one rating of
        the car and recompute the car's derived fields; without a usable
        score, change nothing. */
    method RateCar(car: Car, user: UserId, input: RatingInput, comment: string)
      returns (outcome: RatingOutcome)
      requires Valid()
      modifies this, car
      ensures Valid() && bookings == old(bookings) && car.rates == old(car.rates)
      ensures input.Missing? ==> outcome == RatingRequired
      ensures input.Unparseable? ==> outcome == InvalidRating
      ensures !input.Given? ==> ratings == old(ratings) && unchanged(car)
      ensures input.Given? ==>
        var r := CarRating(car.id, user, input.score, comment);
        && ratings == Upsert(old(ratings), r)
        && outcome == Rated(!HasKey(old(ratings), r))
        && car.ConsistentWith(ratings)
        && r in ratings
        && (forall x :: x in ratings && SameKey(x, r) ==> x == r)
        && Others(ratings, r) == Others(old(ratings), r)
        && (forall c: CarId :: c != car.id ==> Scores(ratings, c) == Scores(old(ratings), c))
    {
      match input
      case Missing =>
        return RatingRequired;
      case Unparseable =>
        return InvalidRating;
      case Given(score) =>
        var r := CarRating(car.id, user, score, comment);
        var at := FindRating(car.id, user);
        UpsertUnique(ratings, r);
        UpsertHoldsRating(ratings, r);
        UpsertKeepsOthers(ratings, r);
        if at.Some? {
          UpsertAt(ratings, r, at.value);
        } else {
          UpsertAppends(ratings, r);
        }
        forall c: CarId | c != car.id ensures Scores(Upsert(ratings, r), c) == Scores(ratings, c) {
          UpsertKeepsOtherCars(ratings, r, c);
        }
        SaveRating(car, r, at);
        outcome := Rated(at.None?);
    }
  }
}
