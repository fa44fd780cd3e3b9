/** Facts about Euclidean division shared by the time-bucketing code of the
    backend and the calendar arithmetic of the clients. */
module Arith {

  /** Euclidean division has one quotient and one remainder. */
  lemma DivModUnique(x: int, p: int, q: int, r: int)
    requires p > 0 && 0 <= r < p && x == q * p + r
    ensures x / p == q && x % p == r
  {
    var q', r' := x / p, x % p;
    assert (q - q') * p == r' - r;
    ProductBound(q - q', p);
  }

  lemma ProductBound(d: int, p: int)
    requires p > 0 && -p < d * p < p
    ensures d == 0
  {
  }

  /** A multiple of `p` leaves no remainder. */
  lemma MultipleMod(q: int, p: int)
    requires p > 0
    ensures (q * p) % p == 0
  {
    DivModUnique(q * p, p, q, 0);
  }

  /** Rounding down to a multiple of `p`. */
  function RoundDown(x: int, p: int): (w: int)
    requires p > 0
    ensures w <= x < w + p
    ensures w % p == 0
  {
    MultipleMod(x / p, p);
    x - x % p
  }

  /** JavaScript's `%` on integers: the remainder of division truncated
      toward zero. It takes the sign of the dividend, so the divisor's sign
      does not matter. */
  function JsRem(a: int, b: int): (r: int)
    requires b != 0
    ensures a >= 0 ==> 0 <= r <= a && a - r == RoundDown(a, Abs(b))
    ensures a < 0 ==> r <= 0 && r + Abs(b) > 0
  {
    var m := Abs(b);
    if a >= 0 then
      ModBelow(a, m);
      a % m
    else
      -((-a) % m)
  }

  /** A remainder never exceeds a nonnegative dividend. */
  lemma ModBelow(a: nat, m: int)
    requires m > 0
    ensures a % m <= a
  {
    if a < m {
      DivModUnique(a, m, 0, a);
    }
  }

  function Abs(x: int): nat {
    if x < 0 then -x else x
  }
}
