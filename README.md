# Car rental: booking engine and rating aggregator

A Dafny model of the two parts of the Django car-rental application
(`Carapp`) that hold logic of their own:

- **The booking engine.** `book_car` turns a start instant, a rental type and
  a whole-number duration into a window `[start, end)`. It refuses the
  request when a pending or confirmed booking of the same car overlaps that
  window. Otherwise it inserts a pending booking. `Booking.save` fills in the
  booking's total amount from the car's hourly, daily or monthly rate.
- **The rating aggregator.** `rate_car` updates or creates the one rating a
  user holds for a car. Each `CarRating.save` then runs `Car.update_rating`,
  which sets the car's `average_rating` and `total_ratings` to the mean and
  the count of the car's ratings.

Layout, one module per file:

- `records.dfy` (`Records`): the rows (bookings, ratings, a car's rates), the
  booking statuses, the rental-type codes and the time constants.
- `pricing.dfy` (`Pricing`): `calculate_total_amount`, the amount rule of
  `Booking.save`, and the pricing as written, which fails for hourly rentals
  (see Findings).
- `ratings.dfy` (`Ratings`): the rating table keyed on (car, user), the
  upsert, mean and count, and the class `Car` with `UpdateRating`.
- `bookings.dfy` (`Bookings`): end-time derivation, the conflict rule, and the
  invariant that active bookings of one car never overlap.
- `views.dfy` (`Views`): the class `RentalDb`, which holds the booking table
  and the rating table. Its methods model the save hooks and the two views.

Instants and durations are whole seconds. Dafny's `/` and `%` by a positive
divisor round toward minus infinity, exactly as Python's do. So
`timedelta.days` is `dur / 86400` and `timedelta.seconds` is `dur % 86400`,
negative durations included. Money and averages are exact `real`s.

The booking workflow is described as enforcing `end > start`, but
`book_car` never checks the duration's sign, and the model follows the code.
A zero or negative duration books an empty or reversed window. Such a window
is tested by the same overlap rule as any other. An active booking that spans
it blocks it, and once stored it blocks any later request that spans it. It
is priced by the same rules, to zero or a negative amount. `EndTime` and
`BookCar` accept every integer.

`rate_car` does not check the score's range on the path the model follows.
`MinValueValidator` and `MaxValueValidator` run only on form or model
validation, not on `save`. The 1..5 bound on the average is proved under the
hypothesis that every stored score lies in 1..5.

## Model

| member | source | states |
|---|---|---|
| `Pricing.DaysOf` | Carproject/Carapp/models.py:120-126 | the whole days of a duration are its floor in days: `d·86400 <= dur < (d+1)·86400` |
| `Pricing.SecondsOf` | Carproject/Carapp/models.py:126 | the leftover seconds lie in `[0, 86400)` and whole days plus leftover give back the duration |
| `Pricing.HourlyUnits` | Carproject/Carapp/models.py:122-124 | billed hours are the exact fractional hour count: `h·3600 == dur` |
| `Pricing.DailyUnits` | Carproject/Carapp/models.py:125-127 | `days + (seconds > 0)` is the ceiling of the duration in days: `(k-1)·86400 < dur <= k·86400`, for every integer duration |
| `Pricing.MonthlyUnits` | Carproject/Carapp/models.py:128-130 | `days // 30 + (days % 30 > 0)` is the ceiling of the whole days in 30-day months |
| `Pricing.TotalAmount` | Carproject/Carapp/models.py:119-130 | computes `calculate_total_amount`: hourly rate times fractional hours, daily rate times days rounded up, and the monthly rate times 30-day months rounded up for every other type; no ensures, characterised by `Pricing.AmountIsRateTimesUnits`, `Pricing.DailyIsCeiling`, `Pricing.MonthlyIgnoresLeftoverHours` and `Bookings.RoundTrip` |
| `Pricing.AmountIsRateTimesUnits` | Carproject/Carapp/models.py:119-130 | each amount is its type's rate times its billed units; hourly is proportional (`amount·3600 == rate·dur`); every code other than HOURLY or DAILY is priced exactly as MONTHLY |
| `Pricing.DailyIsCeiling` | Carproject/Carapp/models.py:125-127 | `d` days plus `s` seconds, with `0 <= s < 86400`, bill `d+1` days when `s > 0` and `d` days when `s == 0` |
| `Pricing.MonthlyIgnoresLeftoverHours` | Carproject/Carapp/models.py:128-130 | seconds beyond the last whole day do not change the billed months |
| `Pricing.BillingExamples` | Carproject/Carapp/models.py:119-130 | 90 min bills 1.5 × hourly rate, 25 h bills 2 days, 31 days bills 2 months, 30 days 5 h bills 1 month |
| `Pricing.SavedAmount` | Carproject/Carapp/models.py:132-135 | the amount `Booking.save` stores: the computed amount when the preset one is missing or zero, the preset one otherwise; no ensures, characterised by `Pricing.SaveIsIdempotent` and `Views.RentalDb.SaveBooking` |
| `Pricing.SaveIsIdempotent` | Carproject/Carapp/models.py:132-135 | a second save that computes the same amount changes nothing; a non-zero stored amount survives any later recomputation; a stored zero counts as unset and is replaced by whatever the later save computes |
| `Pricing.TotalAmountAsWritten` | Carproject/Carapp/models.py:119-130 | `calculate_total_amount` as written, with Python's numeric kinds: a decimal rate times an `int` for daily and monthly, times a `float` for hourly; no ensures, characterised by `Pricing.AsWrittenHourlyRaises` |
| `Pricing.AsWrittenHourlyRaises` | Carproject/Carapp/models.py:122-124 | as written, an hourly amount is a decimal times a float and fails for every window; the daily and monthly amounts as written equal `TotalAmount` |
| `Bookings.EndTime` | Carproject/Carapp/views.py:124-129 | the end of the window: `n` hours, `n` days, or `30·n` days after the start for every other type; no ensures, characterised by `Bookings.RoundTrip` |
| `Bookings.RoundTrip` | Carproject/Carapp/views.py:124-129 | pricing the window derived from `n` hours, days or 30-day months bills exactly `rate × n`, for every integer `n` |
| `Bookings.Blocks` | Carproject/Carapp/views.py:133-136 | one row of the conflict filter: same car, status PENDING or CONFIRMED, `start < newEnd` and `end > newStart`; a predicate, characterised by `Bookings.ConflictExamples` and `Bookings.NonBlockingRowsIgnored` |
| `Bookings.Conflicts` | Carproject/Carapp/views.py:132-139 | `conflicting_bookings.exists()`: some row of the table blocks the request; a predicate, decided by `Views.RentalDb.HasConflict` |
| `Bookings.AppendKeepsNoDoubleBooking` | Carproject/Carapp/views.py:132-151 | appending a booking that no active booking of its car overlaps keeps the active bookings of every car pairwise disjoint |
| `Bookings.NonBlockingRowsIgnored` | Carproject/Carapp/views.py:132-136 | a booking of another car, or a cancelled or completed one, never changes whether a request conflicts |
| `Bookings.ConflictExamples` | Carproject/Carapp/views.py:132-139 | [10:00,12:00) and [12:00,14:00) do not conflict, [10:00,12:00) and [11:00,13:00) do, and a cancelled booking blocks nothing |
| `Ratings.Scores` | Carproject/Carapp/models.py:65 | `carrating_set.all()`: the scores of the car's rows, in table order; no ensures, characterised by `Ratings.ScoresOfCar` |
| `Ratings.ScoresOfCar` | Carproject/Carapp/models.py:65 | every score of the car comes from a row of the table for that car, every row for the car contributes its score, and each score occurs exactly as often as rows of the car hold it |
| `Ratings.Average` | Carproject/Carapp/models.py:66-71 | the average is 0 with no ratings and otherwise the mean: `average · count == sum` |
| `Ratings.SumBounds` | Carproject/Carapp/models.py:80-82 | with every score in 1..5, the sum lies between the count and five times the count |
| `Ratings.AverageBounds` | Carproject/Carapp/models.py:56-61 | with every score in 1..5, the average lies in [1,5] once a rating exists and always in the declared bound [0,5] |
| `Ratings.UniqueRatings` | Carproject/Carapp/models.py:86-87 | `unique_together = ('car', 'user')`: at most one rating per (car, user); `Views.RentalDb.Valid()` is this constraint, kept by `Views.RentalDb.SaveRating`, `Views.RentalDb.RateCar` and `Ratings.UpsertUnique`; a predicate, no ensures |
| `Ratings.RatersAreUsersWhoRated` | Carproject/Carapp/models.py:87 | a user is among a car's raters exactly when the table holds a row for that car and user |
| `Ratings.CountIsRaters` | Carproject/Carapp/models.py:62-72 | under the (car, user) uniqueness constraint, `total_ratings` counts the distinct users who rated the car |
| `Ratings.Upsert` | Carproject/Carapp/views.py:59-63 | `update_or_create` on (car, user): replaces the first row with the rating's key, or appends the rating when there is none; no ensures, characterised by the `Ratings.Upsert*` lemmas |
| `Ratings.OverwriteKeepsUnique` | Carproject/Carapp/models.py:86-87 | overwriting the row that holds a rating's own (car, user) key keeps the table unique |
| `Ratings.AppendKeepsUnique` | Carproject/Carapp/models.py:86-87 | inserting a rating whose (car, user) key the table lacks keeps the table unique |
| `Ratings.UpsertUnique` | Carproject/Carapp/models.py:86-87 | the update-or-create keeps the rating table unique on (car, user) |
| `Ratings.UpsertHoldsRating` | Carproject/Carapp/views.py:59-63 | afterwards the new rating is in the table and is the only row with its (car, user) key, so it holds the new score and comment |
| `Ratings.UpsertKeepsOthers` | Carproject/Carapp/views.py:59-63 | every row with another (car, user) key is kept, in order, and no other row is added |
| `Ratings.UpsertAt` | Carproject/Carapp/views.py:59-63 | when the key is already in the table, the update-or-create overwrites that row in place |
| `Ratings.UpsertAppends` | Carproject/Carapp/views.py:59-63 | when the key is absent, the update-or-create appends the new row |
| `Ratings.UpsertKeepsOtherCars` | Carproject/Carapp/models.py:64-68 | writing a rating for one car leaves every other car's scores, and so its derived fields, as they were |
| `Ratings.UpsertCount` | Carproject/Carapp/views.py:59-63 | a second rating by the same user leaves the car's count unchanged; a first rating adds one |
| `Ratings.Car.constructor` | Carproject/Carapp/models.py:56-62 | a new car's average and count are both 0, consistent with an empty rating table |
| `Ratings.Car.UpdateRating` | Carproject/Carapp/models.py:64-72 | afterwards the count is the number of the car's ratings and the average their mean (both 0 with none); the rates are untouched |
| `Views.RentalDb.SaveBooking` | Carproject/Carapp/models.py:132-135 | inserts the booking with its amount computed when it was missing or zero; a non-zero preset amount is stored unchanged |
| `Views.RentalDb.HasConflict` | Carproject/Carapp/views.py:132-139 | answers true exactly when some pending or confirmed booking of the car has `start < newEnd` and `end > newStart` |
| `Views.RentalDb.BookCar` | Carproject/Carapp/views.py:109-158 | an unparseable start or duration changes nothing; a conflict leaves the table unchanged; otherwise exactly one pending booking is appended with the car, user, type, derived window and computed total; pairwise disjointness of active bookings is preserved |
| `Views.RentalDb.FindRating` | Carproject/Carapp/views.py:59-61 | finds the first row for (car, user), or reports that none exists |
| `Views.RentalDb.SaveRating` | Carproject/Carapp/models.py:86-91 | writes the row, over the row with its key or as a new key (the constraint refuses a duplicate insert), keeps the table unique, and then recomputes the car's fields, so on both paths they agree with the new table |
| `Views.RentalDb.RateCar` | Carproject/Carapp/views.py:49-70 | with a score, the table becomes the upsert of the old one: exactly one row for (car, user) holding the new score and comment, every other row and every other car's scores unchanged, and the car's fields consistent; `created` says whether the row is new; with no score or an unparseable one nothing changes |

## Left out

- Page rendering, redirects, flash messages, `get_object_or_404` and
  `login_required`. They are framework plumbing. The car and the user reach
  the model as arguments.
- `home`, the category and company pages, `car_detail`, `car_list`,
  `search_cars`, `booking_detail`, `my_bookings`, `register`, `about` and
  `contact`. They only filter, order or display rows.
- `admin.py` and `urls.py`. They are declarative configuration.
- `strptime` and `int` parsing. A start instant or duration that does not
  parse is an `Option` that is `None`. That is the `ValueError` path: nothing
  is written.
- A missing `duration` field. `int(None)` raises `TypeError`, which
  `book_car` does not catch; nothing is written. `duration` is an `Option`
  whose `None` stands for text that does not parse as an integer.
- A missing `rental_type` field. It is priced as monthly and then refused by
  the database, since `rental_type` may not be NULL; nothing is written.
  `rentalType` is a string and cannot be absent.
- A `rental_type` longer than ten characters. It is timed and priced as
  monthly; `rental_type` is stored in at most ten characters, and `save`
  checks neither that length nor the listed choices. On databases that
  enforce the column length `booking.save()` then raises an error that
  `book_car` does not catch, and nothing is stored; others store the code.
  `BookCar` always stores the booking.
- A total amount of zero. A zero daily or monthly rate, or a zero-length
  window, prices a booking at 0, and `book_car` stores it. The next save of
  that row counts 0 as unset and re-prices it from the car's rates and the
  window as they are then (`Pricing.SaveIsIdempotent`), so such an amount
  is not fixed at creation. Later saves come only from the admin screens,
  which the model does not include.
- An average of magnitude 9.995 or more. `average_rating` is stored with
  three digits, two after the point, and the average is first rounded to
  three significant digits. Scores are not range-checked, so a score of 20
  or of -20 gives such an average. On some Django versions and databases
  it fails `car.save()` and the whole `update_or_create` is rolled back;
  others may store it. The model stores the row. Scores in 1..5 never reach
  this bound (`Ratings.AverageBounds`).
- A total amount of magnitude 10^8 or more. `total_amount` is stored with
  ten digits, two after the point. Durations are not sign-checked, so a
  daily rate of 1000.00 for 100000 days, or for -100000 days, gives such an
  amount. On some Django versions and databases it makes `booking.save()`
  raise an error that `book_car` does not catch, and nothing is stored;
  others may store it. `BookCar` always stores the booking.
- Dates outside `datetime`'s range. A huge duration makes the real code
  raise `OverflowError`. That error is not caught, and the model does not
  represent it. Instants are unbounded integers.
- The 2-decimal storage of `average_rating` and `total_amount`. The model
  uses exact reals.
- Concurrency. Requests are strictly sequential here. The check-then-insert
  race of `book_car` and the write-then-recompute race of the rating hook
  are not modelled.
- Status transitions (confirm, cancel, complete). Only the admin screens
  make them, and the core has no logic for them. Statuses appear only as the
  values the conflict rule reads.
- `created_at`, `booking_date`, images, descriptions and `__str__`. These
  fields and methods play no part in the logic.
- `rate_car` on a GET request, which only redirects to the car's page, and
  `book_car` on a GET request, which only renders a page.
- Persistence of other `Car` objects. `RateCar` recomputes the fields of the
  car it is given. `UpsertKeepsOtherCars` shows that the scores of every
  other car are unchanged.

## Findings

| source | as written | input that shows it | evidently intended | confidence | as-written member | corrected member |
|---|---|---|---|---|---|---|
| Carproject/Carapp/models.py:123-124 | `self.car.hourly_rate * hours` multiplies the `Decimal` rate by the `float` from `total_seconds() / 3600`, which Python rejects with `TypeError` | any HOURLY booking that no active booking blocks, e.g. 2 hours at any rate: `book_car` fails in `booking.save()` and stores nothing | hourly amount = hourly rate × hours, fractions billed proportionally | high (not executed) | `Pricing.TotalAmountAsWritten`, shown by `Pricing.AsWrittenHourlyRaises` | `Pricing.TotalAmount`, proved proportional by `Pricing.AmountIsRateTimesUnits` and `Pricing.BillingExamples`; used by `Views.RentalDb.BookCar` |
