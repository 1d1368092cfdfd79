/**
 Exact rounding of a quotient n / d to an integer, as Python's `decimal` does it when a
 value is quantized. Every amount of the project is an integer count of its smallest unit,
 so a quantize call is always one of these functions.
 */
module Rounding {

  type Pos = x: int | 1 <= x witness 1

  // ROUND_HALF_EVEN, the default of `quantize`: nearest, ties to the even neighbour.
  function HalfEven(n: int, d: int): int
    requires 1 <= d
  {
    var q, rest := n / d, n % d;
    if 2 * rest < d || (2 * rest == d && q % 2 == 0) then q else q + 1
  }

  // ROUND_HALF_UP: nearest, ties away from zero.
  function HalfUp(n: int, d: int): int
    requires 1 <= d
  {
    if n < 0 then -HalfUpNonNegative(-n, d) else HalfUpNonNegative(n, d)
  }

  function HalfUpNonNegative(n: int, d: int): int
    requires 1 <= d
  {
    var q, rest := n / d, n % d;
    if 2 * rest < d then q else q + 1
  }

  lemma DivMod(n: int, d: int)
    requires 1 <= d
    ensures n == (n / d) * d + n % d
    ensures 0 <= n % d < d
    ensures 0 <= n ==> 0 <= n / d
  {
  }

  // Half-even rounding is the one multiple of d within half of d of n whose tie is even.
  lemma HalfEvenNearest(n: int, d: int)
    requires 1 <= d
    ensures var e := 2 * (HalfEven(n, d) * d - n);
            -d <= e <= d && (e == d || e == -d ==> HalfEven(n, d) % 2 == 0)
  {
    DivMod(n, d);
    var q := n / d;
    assert (q + 1) * d == q * d + d;
  }

  lemma HalfEvenUnique(n: int, d: int, r: int)
    requires 1 <= d
    requires var e := 2 * (r * d - n);
             -d <= e <= d && (e == d || e == -d ==> r % 2 == 0)
    ensures r == HalfEven(n, d)
  {
    HalfEvenNearest(n, d);
    MultiplesApart(r, HalfEven(n, d), d);
  }

  // Half-up rounding is the one multiple of d within half of d, with ties going away from zero.
  lemma HalfUpNearest(n: int, d: int)
    requires 1 <= d
    ensures var e := 2 * (HalfUp(n, d) * d - n);
            -d <= e <= d && (e == d ==> 0 <= n) && (e == -d ==> n < 0)
  {
    var m := if n < 0 then -n else n;
    DivMod(m, d);
    var q := m / d;
    assert (q + 1) * d == q * d + d;
    assert HalfUp(n, d) * d == if n < 0 then -(HalfUpNonNegative(m, d) * d) else HalfUpNonNegative(m, d) * d;
  }

  lemma HalfUpUnique(n: int, d: int, r: int)
    requires 1 <= d
    requires var e := 2 * (r * d - n);
             -d <= e <= d && (e == d ==> 0 <= n) && (e == -d ==> n < 0)
    ensures r == HalfUp(n, d)
  {
    HalfUpNearest(n, d);
    MultiplesApart(r, HalfUp(n, d), d);
  }

  lemma MulMonotone(a: int, b: int, d: int)
    requires a <= b && 0 <= d
    ensures a * d <= b * d
  {
    assert 0 <= (b - a) * d;
  }

  lemma Distribute(c: int, x: int, y: int)
    ensures c * (x + y) == c * x + c * y
  {
  }

  lemma MultiplesApart(a: int, b: int, d: int)
    requires 1 <= d
    ensures a > b ==> a * d >= b * d + d
    ensures a < b ==> b * d >= a * d + d
    ensures a > b + 1 ==> a * d >= b * d + 2 * d
    ensures a < b - 1 ==> b * d >= a * d + 2 * d
  {
    if a > b {
      MulMonotone(b + 1, a, d);
      if a > b + 1 {
        MulMonotone(b + 2, a, d);
      }
    } else if a < b {
      MulMonotone(a + 1, b, d);
      if a < b - 1 {
        MulMonotone(a + 2, b, d);
      }
    }
  }

  // The greatest whole number of parts of size d that fit in n.
  lemma FloorIsGreatest(n: int, d: int, k: int)
    requires 1 <= d
    ensures k <= n / d <==> k * d <= n
  {
    DivMod(n, d);
    MultiplesApart(k, n / d, d);
  }
}
