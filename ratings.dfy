/** The rating aggregator: the rating table keyed on (car, user), the upsert
    that writes one car's rating by one user, and the car's derived average
    and count. */
module Ratings {
  import opened Records

  /** The scores of `car`'s ratings, in table order (`car.carrating_set`). */
  function Scores(table: seq<CarRating>, car: CarId): seq<int> {
    if table == [] then []
    else (if table[0].car == car then [table[0].rating] else []) + Scores(table[1..], car)
  }

  function Sum(s: seq<int>): int {
    if s == [] then 0 else s[0] + Sum(s[1..])
  }

  /** The arithmetic mean of the scores, and 0 when there are none. */
  function Average(s: seq<int>): (r: real)
    ensures s == [] ==> r == 0.0
    ensures s != [] ==> r * |s| as real == Sum(s) as real
  {
    if s == [] then 0.0 else Sum(s) as real / |s| as real
  }

  /** Two ratings are for the same car by the same user. */
  predicate SameKey(a: CarRating, b: CarRating) {
    a.car == b.car && a.user == b.user
  }

  /** The table holds at most one rating per (car, user) pair. */
  predicate UniqueRatings(table: seq<CarRating>) {
    forall i, j :: 0 <= i < j < |table| ==> !SameKey(table[i], table[j])
  }

  predicate InRange(s: seq<int>) {
    forall i :: 0 <= i < |s| ==> 1 <= s[i] <= 5
  }

  /** The users who have rated `car`. */
  function Raters(table: seq<CarRating>, car: CarId): set<UserId> {
    if table == [] then {}
    else (if table[0].car == car then {table[0].user} else {}) + Raters(table[1..], car)
  }

  /** A user is a rater of `car` exactly when the table holds a row for the
      car by that user. */
  lemma {:induction false} RatersAreUsersWhoRated(table: seq<CarRating>, car: CarId, u: UserId)
    ensures u in Raters(table, car) <==>
      exists i :: 0 <= i < |table| && table[i].car == car && table[i].user == u
  {
    if table != [] {
      RatersAreUsersWhoRated(table[1..], car, u);
      if u in Raters(table[1..], car) {
        var k :| 0 <= k < |table[1..]| && table[1..][k].car == car && table[1..][k].user == u;
        assert table[k + 1] == table[1..][k];
      }
      if exists i :: 1 <= i < |table| && table[i].car == car && table[i].user == u {
        var i :| 1 <= i < |table| && table[i].car == car && table[i].user == u;
        assert table[1..][i - 1] == table[i];
      }
    }
  }

  /** `update_or_create` keyed on (car, user): the rating replaces the row
      with its key where there is one, and is appended otherwise. */
  function Upsert(table: seq<CarRating>, r: CarRating): seq<CarRating> {
    if table == [] then [r]
    else if SameKey(table[0], r) then [r] + table[1..]
    else [table[0]] + Upsert(table[1..], r)
  }

  /** The rows whose key differs from `r`'s. */
  function Others(table: seq<CarRating>, r: CarRating): seq<CarRating> {
    if table == [] then []
    else (if SameKey(table[0], r) then [] else [table[0]]) + Others(table[1..], r)
  }

  predicate HasKey(table: seq<CarRating>, r: CarRating) {
    exists i :: 0 <= i < |table| && SameKey(table[i], r)
  }

  lemma UniqueTail(table: seq<CarRating>)
    requires table != [] && UniqueRatings(table)
    ensures UniqueRatings(table[1..])
    ensures forall j :: 1 <= j < |table| ==> !SameKey(table[0], table[j])
  {
    forall i, j | 0 <= i < j < |table[1..]| ensures !SameKey(table[1..][i], table[1..][j]) {
      assert table[1..][i] == table[i + 1] && table[1..][j] == table[j + 1];
    }
  }

  /** Writing a rating over the row with its own key keeps the table unique. */
  lemma OverwriteKeepsUnique(table: seq<CarRating>, i: nat, r: CarRating)
    requires UniqueRatings(table) && i < |table| && SameKey(table[i], r)
    ensures UniqueRatings(table[i := r])
  {
    var u := table[i := r];
    forall j, k | 0 <= j < k < |u| ensures !SameKey(u[j], u[k]) {
      assert !SameKey(table[j], table[k]);
    }
  }

  /** Inserting a rating whose key the table lacks keeps the table unique. */
  lemma AppendKeepsUnique(table: seq<CarRating>, r: CarRating)
    requires UniqueRatings(table) && !HasKey(table, r)
    ensures UniqueRatings(table + [r])
  {
    var u := table + [r];
    forall j, k | 0 <= j < k < |u| ensures !SameKey(u[j], u[k]) {
      assert u[j] == table[j];
      if k < |table| { assert u[k] == table[k]; }
    }
  }

  /** Some row of `car` in the table holds score `v`. */
  predicate IsScoreOfRow(table: seq<CarRating>, car: CarId, v: int) {
    exists i :: 0 <= i < |table| && table[i].car == car && table[i].rating == v
  }

  /** The number of rows of `car` that hold score `v`. */
  function CountRows(table: seq<CarRating>, car: CarId, v: int): nat {
    if table == [] then 0
    else (if table[0].car == car && table[0].rating == v then 1 else 0) + CountRows(table[1..], car, v)
  }

  /** The scores of `car` are exactly the scores of the rows for `car`: each
      one comes from such a row, each such row contributes its score, and
      every score occurs as many times as there are rows of `car` holding it. */
  lemma {:induction false} ScoresOfCar(table: seq<CarRating>, car: CarId)
    ensures forall k :: 0 <= k < |Scores(table, car)| ==> IsScoreOfRow(table, car, Scores(table, car)[k])
    ensures forall i :: 0 <= i < |table| && table[i].car == car ==> table[i].rating in Scores(table, car)
    ensures forall v :: multiset(Scores(table, car))[v] == CountRows(table, car, v)
  {
    if table != [] {
      var s := Scores(table, car);
      var head := if table[0].car == car then [table[0].rating] else [];
      var tail := Scores(table[1..], car);
      assert s == head + tail;
      ScoresOfCar(table[1..], car);
      forall k | 0 <= k < |s| ensures IsScoreOfRow(table, car, s[k]) {
        if k < |head| {
          assert table[0].car == car && table[0].rating == s[k];
        } else {
          assert s[k] == tail[k - |head|];
          var i :| 0 <= i < |table[1..]| && table[1..][i].car == car && table[1..][i].rating == tail[k - |head|];
          assert table[i + 1] == table[1..][i];
          assert table[i + 1].car == car && table[i + 1].rating == s[k];
        }
      }
      forall i | 0 <= i < |table| && table[i].car == car ensures table[i].rating in s {
        if i > 0 {
          assert table[1..][i - 1] == table[i];
        }
      }
      forall v ensures multiset(s)[v] == CountRows(table, car, v) {
        assert multiset(s) == multiset(head) + multiset(tail);
      }
    } else {
      assert Scores(table, car) == [];
    }
  }

  /** With a score in 1..5 every sum lies between the count and five times it. */
  lemma {:induction false} SumBounds(s: seq<int>)
    requires InRange(s)
    ensures |s| <= Sum(s) <= 5 * |s|
  {
    if s != [] {
      assert InRange(s[1..]) by {
        forall i | 0 <= i < |s[1..]| ensures 1 <= s[1..][i] <= 5 {
          assert s[1..][i] == s[i + 1];
        }
      }
      SumBounds(s[1..]);
    }
  }

  /** If every stored score lies in 1..5, the average lies in 1..5 once there
      is a rating, and so always within the field's declared bound 0..5. */
  lemma AverageBounds(s: seq<int>)
    requires InRange(s)
    ensures s != [] ==> 1.0 <= Average(s) <= 5.0
    ensures 0.0 <= Average(s) <= 5.0
  {
    if s != [] {
      SumBounds(s);
      MeanBounds(Sum(s) as real, |s| as real, Average(s), 1.0, 5.0);
    }
  }

  /** A mean of values between `lo` and `hi` lies between them. */
  lemma MeanBounds(sum: real, n: real, mean: real, lo: real, hi: real)
    requires n > 0.0 && mean * n == sum && lo * n <= sum <= hi * n
    ensures lo <= mean <= hi
  {
    assert (mean - lo) * n == sum - lo * n;
    assert (hi - mean) * n == hi * n - sum;
    NonNegativeFactor(mean - lo, n);
    NonNegativeFactor(hi - mean, n);
  }

  lemma NonNegativeFactor(x: real, n: real)
    requires n > 0.0 && x * n >= 0.0
    ensures x >= 0.0
  {
  }

  /** Under the uniqueness constraint the count of a car's ratings is the
      number of distinct users who have rated it. */
  lemma {:induction false} CountIsRaters(table: seq<CarRating>, car: CarId)
    requires UniqueRatings(table)
    ensures |Scores(table, car)| == |Raters(table, car)|
  {
    if table != [] {
      UniqueTail(table);
      CountIsRaters(table[1..], car);
      if table[0].car == car {
        RatersAreUsersWhoRated(table[1..], car, table[0].user);
      }
    }
  }

  /** The upsert's result holds the new rating. */
  lemma {:induction false} UpsertContains(table: seq<CarRating>, r: CarRating)
    ensures r in Upsert(table, r)
  {
    if table != [] && !SameKey(table[0], r) {
      UpsertContains(table[1..], r);
    }
  }

  /** A row whose key differs from the new rating's and from every row of
      the table differs from every row of the upsert's result. */
  lemma {:induction false} UpsertAvoids(table: seq<CarRating>, r: CarRating, x: CarRating)
    requires !SameKey(x, r)
    requires forall j :: 0 <= j < |table| ==> !SameKey(x, table[j])
    ensures forall j :: 0 <= j < |Upsert(table, r)| ==> !SameKey(x, Upsert(table, r)[j])
  {
    if table != [] {
      assert forall j :: 0 <= j < |table[1..]| ==> table[1..][j] == table[j + 1];
      if !SameKey(table[0], r) {
        UpsertAvoids(table[1..], r, x);
      }
    }
  }

  /** The upsert keeps the rating table unique on (car, user). */
  lemma {:induction false} UpsertUnique(table: seq<CarRating>, r: CarRating)
    requires UniqueRatings(table)
    ensures UniqueRatings(Upsert(table, r))
  {
    if table != [] {
      UniqueTail(table);
      if SameKey(table[0], r) {
        var u := [r] + table[1..];
        forall i, j | 0 <= i < j < |u| ensures !SameKey(u[i], u[j]) {
          assert u[j] == table[j];
          if i > 0 { assert u[i] == table[i]; }
        }
      } else {
        var tail := Upsert(table[1..], r);
        UpsertUnique(table[1..], r);
        UpsertAvoids(table[1..], r, table[0]);
        var u := [table[0]] + tail;
        forall i, j | 0 <= i < j < |u| ensures !SameKey(u[i], u[j]) {
          assert u[j] == tail[j - 1];
          if i > 0 { assert u[i] == tail[i - 1]; }
        }
      }
    }
  }

  /** After the upsert exactly one row has the new rating's key, and it holds
      the new score and comment. */
  lemma UpsertHoldsRating(table: seq<CarRating>, r: CarRating)
    requires UniqueRatings(table)
    ensures r in Upsert(table, r)
    ensures forall x :: x in Upsert(table, r) && SameKey(x, r) ==> x == r
  {
    UpsertUnique(table, r);
    UpsertContains(table, r);
    var u := Upsert(table, r);
    forall x | x in u && SameKey(x, r) ensures x == r {
      var j :| 0 <= j < |u| && u[j] == x;
      var k :| 0 <= k < |u| && u[k] == r;
    }
  }

  /** The upsert keeps every row with another key, in order. */
  lemma {:induction false} UpsertKeepsOthers(table: seq<CarRating>, r: CarRating)
    ensures Others(Upsert(table, r), r) == Others(table, r)
  {
    if table == [] {
      assert Others([r], r) == [] + Others([], r);
    } else if SameKey(table[0], r) {
      assert ([r] + table[1..])[1..] == table[1..];
    } else {
      UpsertKeepsOthers(table[1..], r);
      assert ([table[0]] + Upsert(table[1..], r))[1..] == Upsert(table[1..], r);
    }
  }

  /** Where the key first occurs at index `i`, the upsert overwrites row `i`. */
  lemma {:induction false} UpsertAt(table: seq<CarRating>, r: CarRating, i: nat)
    requires i < |table| && SameKey(table[i], r)
    requires forall j :: 0 <= j < i ==> !SameKey(table[j], r)
    ensures Upsert(table, r) == table[i := r]
  {
    if i > 0 {
      UpsertAt(table[1..], r, i - 1);
      assert table[i := r] == [table[0]] + table[1..][i - 1 := r];
    }
  }

  /** Where the key does not occur, the upsert appends the rating. */
  lemma {:induction false} UpsertAppends(table: seq<CarRating>, r: CarRating)
    requires forall j :: 0 <= j < |table| ==> !SameKey(table[j], r)
    ensures Upsert(table, r) == table + [r]
  {
    if table != [] {
      UpsertAppends(table[1..], r);
      assert table + [r] == [table[0]] + (table[1..] + [r]);
    }
  }

  /** A rating for one car leaves every other car's ratings as they were, so
      their derived fields stay consistent. */
  lemma {:induction false} UpsertKeepsOtherCars(table: seq<CarRating>, r: CarRating, car: CarId)
    requires car != r.car
    ensures Scores(Upsert(table, r), car) == Scores(table, car)
  {
    if table == [] {
      assert Scores([r], car) == [] + Scores([], car);
    } else if SameKey(table[0], r) {
      assert ([r] + table[1..])[1..] == table[1..];
    } else {
      UpsertKeepsOtherCars(table[1..], r, car);
      assert ([table[0]] + Upsert(table[1..], r))[1..] == Upsert(table[1..], r);
    }
  }

  /** A second rating by the same user leaves the car's count as it was; a
      first rating adds one. */
  lemma {:induction false} UpsertCount(table: seq<CarRating>, r: CarRating)
    ensures |Scores(Upsert(table, r), r.car)| ==
      |Scores(table, r.car)| + (if HasKey(table, r) then 0 else 1)
  {
    if table == [] {
      assert Scores([r], r.car) == [r.rating] + Scores([], r.car);
    } else if SameKey(table[0], r) {
      assert ([r] + table[1..])[1..] == table[1..];
    } else {
      UpsertCount(table[1..], r);
      assert ([table[0]] + Upsert(table[1..], r))[1..] == Upsert(table[1..], r);
      assert HasKey(table, r) == HasKey(table[1..], r) by {
        if HasKey(table, r) {
          var i :| 0 <= i < |table| && SameKey(table[i], r);
          assert table[1..][i - 1] == table[i];
        }
        if HasKey(table[1..], r) {
          var i :| 0 <= i < |table[1..]| && SameKey(table[1..][i], r);
          assert table[i + 1] == table[1..][i];
        }
      }
    }
  }

  /** A car and its two derived fields. */
  class Car {
    const id: CarId
    var rates: Rates
    var averageRating: real
    var totalRatings: int

    /** A new car has no ratings: both derived fields start at zero. */
    constructor (id: CarId, rates: Rates)
      ensures this.id == id && this.rates == rates
      ensures averageRating == 0.0 && totalRatings == 0
      ensures ConsistentWith([])
    {
      this.id := id;
      this.rates := rates;
      averageRating := 0.0;
      totalRatings := 0;
    }

    /** The derived fields are the mean and the count of the car's ratings. */
    predicate ConsistentWith(table: seq<CarRating>)
      reads this
    {
      averageRating == Average(Scores(table, id)) && totalRatings == |Scores(table, id)|
    }

    /** `update_rating`: recompute both fields from the rating table. */
    method UpdateRating(table: seq<CarRating>)
      modifies this
      ensures ConsistentWith(table)
      ensures rates == old(rates)
      ensures totalRatings == |Scores(table, id)|
      ensures (totalRatings == 0 && averageRating == 0.0) ||
              averageRating * totalRatings as real == Sum(Scores(table, id)) as real
    {
      var scores := Scores(table, id);
      if scores != [] {
        averageRating := Sum(scores) as real / |scores| as real;
        totalRatings := |scores|;
      } else {
        averageRating := 0.0;
        totalRatings := 0;
      }
    }
  }
}
