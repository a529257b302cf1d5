/** Java `int` arithmetic that differs from Dafny's. */
module JavaInt {

  function Abs(n: int): (a: int)
    ensures 0 <= a && (a == n || a == -n)
  {
    if n < 0 then -n else n
  }

  /** Java's `n / d` for a positive divisor: the quotient is truncated toward
      zero, so for a negative `n` it differs from Dafny's Euclidean `/`. */
  function Div(n: int, d: int): (q: int)
    requires d > 0
    ensures 0 <= n ==> 0 <= n - d * q < d
    ensures n < 0 ==> -d < n - d * q <= 0
  {
    if n >= 0 then
      assert n == d * (n / d) + n % d;
      n / d
    else
      assert -n == d * ((-n) / d) + (-n) % d;
      -((-n) / d)
  }
}
