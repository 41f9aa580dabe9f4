/** Value wrappers and the pieces of Python's numeric semantics both core files rely on. */
module Common {

  /** A value that may be absent: Python's None, or a missing (NaN) cell of a data frame. */
  datatype Option<+T> = None | Some(value: T)

  /** A computation that either succeeds or raises. */
  datatype Result<+R, +E> = Success(value: R) | Failure(error: E)

  /** Python's int() applied to a float: truncation toward zero (not floor). */
  function Trunc(x: real): (r: int)
    ensures 0.0 <= x ==> r as real <= x < r as real + 1.0
    ensures x < 0.0 ==> r as real - 1.0 < x <= r as real
  {
    if x >= 0.0 then x.Floor else -((-x).Floor)
  }

  /** Python's max(lo, min(v, hi)) on integers. */
  function ClampInt(v: int, lo: int, hi: int): (r: int)
    requires lo <= hi
    ensures lo <= r <= hi
    ensures lo <= v <= hi ==> r == v
    ensures v < lo ==> r == lo
    ensures hi < v ==> r == hi
  {
    if v < lo then lo else if hi < v then hi else v
  }

  /** Python's min(max(v, lo), hi) on floats. */
  function ClampReal(v: real, lo: real, hi: real): (r: real)
    requires lo <= hi
    ensures lo <= r <= hi
    ensures lo <= v <= hi ==> r == v
    ensures v < lo ==> r == lo
    ensures hi < v ==> r == hi
  {
    if v < lo then lo else if hi < v then hi else v
  }

  /** The number of iterations of Python's range(n): zero when n is negative. */
  function RangeLength(n: int): (r: nat)
    ensures n <= 0 ==> r == 0
    ensures 0 <= n ==> r == n
  {
    if n < 0 then 0 else n
  }
}
