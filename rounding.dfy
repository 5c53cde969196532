/**
 * `round(total / count)` on the mean of integer ratings. Python's `round`
 * breaks ties towards the even neighbour; the quotient is taken exactly
 * here, as a rational number.
 */
module Rounding {

  /** The integer nearest to `num / den`, the even one when two are equally near. */
  function RoundHalfEven(num: int, den: int): int
    requires den > 0
  {
    var q, rem := num / den, num % den;
    if 2 * rem < den then q
    else if 2 * rem > den then q + 1
    else if q % 2 == 0 then q
    else q + 1
  }

  /**
   * RoundHalfEven is within half a unit of `num / den` (so `r * den` is
   * within `den / 2` of `num`), and at an exact half it is even.
   */
  lemma RoundHalfEvenNearest(num: int, den: int)
    requires den > 0
    ensures var r := RoundHalfEven(num, den);
      && -den <= 2 * (num - r * den) <= den
      && ((2 * (num - r * den) == den || 2 * (num - r * den) == -den) ==> r % 2 == 0)
  {
    var q := num / den;
    Split(num, den, q, 0);
    Split(num, den, q, 1);
  }

  /** The distance from `num` to `(q + t) * den`, in terms of the remainder. */
  lemma Split(num: int, den: int, q: int, t: int)
    requires den > 0 && q == num / den
    ensures num - (q + t) * den == num % den - t * den
  {
    assert (q + t) * den == q * den + t * den;
  }

  lemma Multiples(t: int, d: int)
    requires d > 0
    ensures t >= 2 ==> t * d >= 2 * d
    ensures t <= -1 ==> t * d <= -d
    ensures t == 0 ==> t * d == 0
    ensures t == 1 ==> t * d == d
  {
  }

  /** The two properties of RoundHalfEven single out one integer: no other rounding satisfies them. */
  lemma RoundHalfEvenUnique(num: int, den: int, r: int)
    requires den > 0
    requires -den <= 2 * (num - r * den) <= den
    requires (2 * (num - r * den) == den || 2 * (num - r * den) == -den) ==> r % 2 == 0
    ensures r == RoundHalfEven(num, den)
  {
    var q := num / den;
    var t := r - q;
    Split(num, den, q, t);
    Multiples(t, den);
  }

  /** The displayed rating: the rounded mean, or 0 when there is nothing to average. */
  function MeanRating(total: int, count: int): int {
    if count > 0 then RoundHalfEven(total, count) else 0
  }
}
