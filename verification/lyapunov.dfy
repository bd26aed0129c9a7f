/**
 * The Lyapunov residual of the control kernel
 * (crates/cpvm-kernel/src/lyapunov.rs): the residual of a deviation is its
 * square, and a step is decreasing when the next residual is no larger.
 */
module Lyapunov {
  datatype LyapunovResidual = LyapunovResidual(vK: real)

  function Abs(x: real): real {
    if x < 0.0 then -x else x
  }

  /** `LyapunovResidual::from_state`. */
  function FromState(deviation: real): (r: LyapunovResidual)
    ensures r.vK >= 0.0
  {
    SquarePositive(deviation);
    LyapunovResidual(deviation * deviation)
  }

  lemma SquarePositive(d: real)
    ensures d * d >= 0.0
  {
    AbsSquare(d);
    SquareMonotone(0.0, Abs(d));
  }

  /** Multiplying by a positive factor keeps a strict order. */
  lemma ScaleMonotone(c: real, x: real, y: real)
    requires c > 0.0 && x < y
    ensures c * x < c * y
  {
    assert c * y - c * x == c * (y - x);
  }

  lemma ScaleMonotoneWeak(c: real, x: real, y: real)
    requires c >= 0.0 && x <= y
    ensures c * x <= c * y
  {
    assert c * y - c * x == c * (y - x);
  }

  /** `LyapunovResidual::decreasing`: `next` is no larger than `current`. */
  predicate Decreasing(current: LyapunovResidual, next: LyapunovResidual) {
    next.vK <= current.vK
  }

  /** The residual vanishes exactly at zero deviation. */
  lemma ResidualZeroIffNoDeviation(d: real)
    ensures FromState(d).vK == 0.0 <==> d == 0.0
  {
    AbsSquare(d);
    if d != 0.0 {
      SquareStrict(0.0, Abs(d));
    }
  }

  lemma FromStateSymmetric(d: real)
    ensures FromState(d) == FromState(-d)
  {
  }

  lemma DecreasingReflexive(r: LyapunovResidual)
    ensures Decreasing(r, r)
  {
  }

  lemma DecreasingTransitive(a: LyapunovResidual, b: LyapunovResidual, c: LyapunovResidual)
    requires Decreasing(a, b) && Decreasing(b, c)
    ensures Decreasing(a, c)
  {
  }

  /** Moving from deviation `a` to deviation `b` is decreasing exactly when `b` is no further from zero. */
  lemma {:induction false} DecreasingIffCloser(a: real, b: real)
    ensures Decreasing(FromState(a), FromState(b)) <==> Abs(b) <= Abs(a)
  {
    AbsSquare(a);
    AbsSquare(b);
    if Abs(b) <= Abs(a) {
      SquareMonotone(Abs(b), Abs(a));
    } else {
      SquareStrict(Abs(a), Abs(b));
    }
  }

  lemma AbsSquare(x: real)
    ensures Abs(x) * Abs(x) == x * x
  {
  }

  lemma SquareMonotone(x: real, y: real)
    requires 0.0 <= x <= y
    ensures x * x <= y * y
  {
    assert y * y - x * x == (y - x) * (y + x);
    ScaleMonotoneWeak(y - x, 0.0, y + x);
  }

  lemma SquareStrict(x: real, y: real)
    requires 0.0 <= x < y
    ensures x * x < y * y
  {
    assert y * y - x * x == (y - x) * (y + x);
    ScaleMonotone(y - x, 0.0, y + x);
  }
}
