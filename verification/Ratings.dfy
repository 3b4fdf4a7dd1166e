/** `server/rating.py`: ELO updates in exact arithmetic. */
module Ratings {
  import opened Pieces
  import opened Sessions

  /** `RATING_K_FACTOR`. */
  const K := 32

  /** Python's `round`: to the nearest integer, a half to the even one. */
  function Round(x: real): int {
    var low := x.Floor;
    var part := x - low as real;
    if part < 0.5 then low
    else if part > 0.5 then low + 1
    else if low % 2 == 0 then low
    else low + 1
  }

  /** `d => 10 ** (d / 400)`: ten at 400, one at zero, positive, increasing, and inverted by
      changing the sign. */
  ghost predicate Exponential(power: int -> real) {
    && power(400) == 10.0 && power(0) == 1.0
    && (forall d :: power(d) > 0.0)
    && (forall d :: power(d) * power(-d) == 1.0)
    && (forall d, e :: d < e ==> power(d) < power(e))
  }

  /** `_expected_score`. */
  function Expected(power: int -> real, rating: int, opponent: int): real
    requires power(opponent - rating) > 0.0
  {
    1.0 / (1.0 + power(opponent - rating))
  }

  /** `_actual_scores`. */
  function Scores(winner: Option<Color>): (real, real) {
    match winner
    case Some(White) => (1.0, 0.0)
    case Some(Black) => (0.0, 1.0)
    case None => (0.5, 0.5)
  }

  function Updated(power: int -> real, rating: int, opponent: int, score: real): int
    requires power(opponent - rating) > 0.0
  {
    Round(rating as real + K as real * (score - Expected(power, rating, opponent)))
  }

  // ----- rounding --------------------------------------------------------------------------------------

  lemma RoundNear(x: real)
    ensures x - 0.5 <= Round(x) as real <= x + 0.5
  {
  }

  /** Rounding never crosses an integer. */
  lemma RoundKeepsSide(x: real, n: int)
    ensures x <= n as real ==> Round(x) <= n
    ensures x >= n as real ==> Round(x) >= n
  {
    RoundNear(x);
    assert Round(x) > n ==> Round(x) as real >= n as real + 1.0;
    assert Round(x) < n ==> Round(x) as real <= n as real - 1.0;
  }

  // ----- expectation -----------------------------------------------------------------------------------

  lemma Inverses(p: real, q: real)
    requires p > 0.0 && q > 0.0 && p * q == 1.0
    ensures 1.0 / (1.0 + p) + 1.0 / (1.0 + q) == 1.0
  {
    var a, b := 1.0 + p, 1.0 + q;
    assert a * b == a + b;
    SumOfInverses(a, b);
  }

  lemma SumOfInverses(a: real, b: real)
    requires a > 0.0 && b > 0.0 && a * b == a + b
    ensures 1.0 / a + 1.0 / b == 1.0
  {
    var x, y := 1.0 / a, 1.0 / b;
    assert x * a == 1.0 && y * b == 1.0;
    assert (x + y) * (a * b) == (x * a) * b + (y * b) * a;
    assert (x + y) * (a * b) == a * b;
  }

  lemma InverseBetween(a: real)
    requires a > 1.0
    ensures 0.0 < 1.0 / a < 1.0
    ensures a >= 2.0 ==> 1.0 / a <= 0.5
    ensures a <= 2.0 ==> 1.0 / a >= 0.5
  {
    var x := 1.0 / a;
    assert x * a == 1.0;
  }

  /** The two expectations are complementary, and the stronger player has the larger one. */
  lemma Expectations(power: int -> real, a: int, b: int)
    requires Exponential(power)
    ensures 0.0 < Expected(power, a, b) < 1.0
    ensures Expected(power, a, b) + Expected(power, b, a) == 1.0
    ensures a >= b ==> Expected(power, a, b) >= 0.5
  {
    assert -(b - a) == a - b;
    Inverses(power(b - a), power(a - b));
    InverseBetween(1.0 + power(b - a));
    InverseBetween(1.0 + power(a - b));
    if a >= b {
      assert power(b - a) <= power(a - b);
      AtMostOne(power(b - a), power(a - b));
    }
  }

  lemma AtMostOne(p: real, q: real)
    requires 0.0 < p <= q && p * q == 1.0
    ensures p <= 1.0
  {
    assert p > 1.0 ==> p * q > 1.0;
  }

  lemma Cross(p: real)
    requires p > 0.0
    ensures 1.0 - 1.0 / (1.0 + p) == p * (1.0 / (1.0 + p))
  {
    var x := 1.0 / (1.0 + p);
    assert x * (1.0 + p) == 1.0;
  }

  /** The odds of the opponent are the exponential of its lead: what the two may expect stands
      in this proportion, so 400 points of lead are odds of ten to one. */
  lemma Odds(power: int -> real, a: int, b: int)
    requires Exponential(power)
    ensures Expected(power, b, a) == power(b - a) * Expected(power, a, b)
    ensures a == b ==> Expected(power, a, b) == 0.5
    ensures a == b + 400 ==> Expected(power, a, b) == 10.0 / 11.0
    ensures b == a + 400 ==> Expected(power, a, b) == 1.0 / 11.0
  {
    Expectations(power, a, b);
    Cross(power(b - a));
    if a == b + 400 {
      assert power(400) * power(-400) == 1.0;
      assert power(b - a) == 0.1;
    }
  }

  // ----- updates ---------------------------------------------------------------------------------------

  /** A rating moves by at most K. A winner never drops and a loser never rises. In a draw the
      stronger player never gains. */
  lemma UpdateBounds(power: int -> real, rating: int, opponent: int, score: real)
    requires Exponential(power) && (score == 0.0 || score == 0.5 || score == 1.0)
    ensures var after := Updated(power, rating, opponent, score);
      && rating - K <= after <= rating + K
      && (score == 1.0 ==> after >= rating)
      && (score == 0.0 ==> after <= rating)
      && (score == 0.5 && rating >= opponent ==> after <= rating)
      && (score == 1.0 && rating <= opponent ==> after >= rating + K / 2)
  {
    Expectations(power, rating, opponent);
    Expectations(power, opponent, rating);
    var x := rating as real + K as real * (score - Expected(power, rating, opponent));
    RoundKeepsSide(x, rating - K);
    RoundKeepsSide(x, rating + K);
    RoundKeepsSide(x, rating);
    RoundKeepsSide(x, rating + K / 2);
  }

  /** Between equals a win is worth 16 and a draw nothing. With a lead of 400 points the winner
      gains 3, and the winner from 400 points behind 29. */
  lemma Examples(power: int -> real, rating: int)
    requires Exponential(power)
    ensures Updated(power, rating, rating, 1.0) == rating + 16 && Updated(power, rating, rating, 0.0) == rating - 16
    ensures Updated(power, rating, rating, 0.5) == rating
    ensures Updated(power, rating, rating - 400, 1.0) == rating + 3
    ensures Updated(power, rating, rating + 400, 1.0) == rating + 29
  {
    Odds(power, rating, rating);
    Odds(power, rating, rating - 400);
    Odds(power, rating, rating + 400);
    RoundKeepsSide(rating as real + 16.0, rating + 16);
    RoundKeepsSide(rating as real - 16.0, rating - 16);
    RoundKeepsSide(rating as real, rating);
    RoundNear(rating as real + 32.0 / 11.0);
    RoundNear(rating as real + 320.0 / 11.0);
    hide Round, Expected;
  }

  /** A half is rounded to the even neighbour. */
  lemma HalfToEven(n: int)
    ensures Round(n as real + 0.5) in {n, n + 1} && Round(n as real + 0.5) % 2 == 0
  {
    assert (n as real + 0.5).Floor == n;
  }

  /** A game moves the sum of the two ratings by at most one point, and that only by rounding. */
  lemma SumAlmostKept(power: int -> real, white: int, black: int, winner: Option<Color>)
    requires Exponential(power)
    ensures var (w, b) := Scores(winner);
      -1 <= Updated(power, white, black, w) + Updated(power, black, white, b) - white - black <= 1
  {
    var (w, b) := Scores(winner);
    Expectations(power, white, black);
    Expectations(power, black, white);
    var x := white as real + K as real * (w - Expected(power, white, black));
    var y := black as real + K as real * (b - Expected(power, black, white));
    assert x + y == white as real + black as real;
    RoundNear(x);
    RoundNear(y);
  }

  /** The rating rows. */
  class RatingStore {
    var ratings: map<User, int>

    constructor (ratings: map<User, int>)
      ensures this.ratings == ratings
    {
      this.ratings := ratings;
    }

    /** Both rows change together, from the ratings before the game. */
    method UpdateRatings(power: int -> real, white: User, black: User, winner: Option<Color>)
      returns (newWhite: int, newBlack: int)
      requires white in ratings && black in ratings && Exponential(power)
      modifies this
      ensures ratings == old(ratings)[white := newWhite][black := newBlack]
      ensures newWhite == Updated(power, old(ratings)[white], old(ratings)[black], Scores(winner).0)
      ensures newBlack == Updated(power, old(ratings)[black], old(ratings)[white], Scores(winner).1)
      ensures -1 <= newWhite + newBlack - old(ratings)[white] - old(ratings)[black] <= 1
      ensures -32 <= newWhite - old(ratings)[white] <= 32 && -32 <= newBlack - old(ratings)[black] <= 32
      ensures winner == Some(White) ==> newWhite >= old(ratings)[white] && newBlack <= old(ratings)[black]
      ensures winner == Some(Black) ==> newWhite <= old(ratings)[white] && newBlack >= old(ratings)[black]
    {
      var whiteRating, blackRating := ratings[white], ratings[black];
      var (whiteScore, blackScore) := Scores(winner);
      SumAlmostKept(power, whiteRating, blackRating, winner);
      UpdateBounds(power, whiteRating, blackRating, whiteScore);
      UpdateBounds(power, blackRating, whiteRating, blackScore);
      hide Exponential, Expected, Round;
      newWhite := Updated(power, whiteRating, blackRating, whiteScore);
      newBlack := Updated(power, blackRating, whiteRating, blackScore);
      ratings := ratings[white := newWhite][black := newBlack];
    }
  }
}
