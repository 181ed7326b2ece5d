/** Small datatypes shared by every module of the project. */
module Prelude {

  datatype Option<+T> = None | Some(value: T)

  /** A value, or the exception that ended the call. */
  datatype Result<+T, +E> = Ok(value: T) | Err(error: E)

  function Or<T>(a: Option<T>, b: Option<T>): Option<T> {
    if a.Some? then a else b
  }

  function OrElse<T>(a: Option<T>, default: T): T {
    if a.Some? then a.value else default
  }

  newtype Byte = b: int | 0 <= b < 256

  function Max(a: int, b: int): int {
    if a >= b then a else b
  }

  lemma MulMonotone(a: int, b: int, p: nat)
    requires a <= b
    ensures a * p <= b * p && (a >= 0 ==> a * p >= 0)
  {
    assert (b - a) * p >= 0;
  }

  lemma MulOrder(p: real, q: real, m: real)
    requires m > 0.0
    ensures p <= q <==> p * m <= q * m
  {
    if p < q {
      assert (q - p) * m > 0.0;
    } else if p > q {
      assert (p - q) * m > 0.0;
    }
  }

  /** A quotient is bounded by `r` exactly when its numerator is bounded by `r * m`. */
  lemma RatioAtMost(d: real, m: real, r: real)
    requires m > 0.0
    ensures d / m <= r <==> d <= r * m
  {
    var q := d / m;
    assert q * m == d;
    MulOrder(q, r, m);
  }
}
