/**
 The rounding operations of JavaScript's `Math` that the billing engine relies on,
 stated over exact integers and reals.

 - `Math.ceil(a / b)` on integers with a positive divisor is `CeilDiv`.
 - `Math.floor(a / b)` is Dafny's `/`, because with a positive divisor the
   Euclidean quotient is the floor quotient.
 - JavaScript's `%` keeps the sign of the dividend, so it needs the truncating
   quotient `TruncDiv`.
 - `Math.ceil(x)` on a real amount is `Ceil`.
 */
module Arith {

  /** Quotient rounded toward positive infinity: `Math.ceil(a / b)` for `b > 0`. */
  function CeilDiv(a: int, b: int): (q: int)
    requires b > 0
    ensures (q - 1) * b < a <= q * b
  {
    var f := (-a) / b;
    var r := (-a) % b;
    assert -a == f * b + r && 0 <= r < b;
    -f
  }

  /** Quotient rounded toward zero: `Math.trunc(a / b)` for `b > 0`. */
  function TruncDiv(a: int, b: int): (q: int)
    requires b > 0
    ensures a >= 0 ==> q == a / b
    ensures a < 0 ==> (q - 1) * b < a <= q * b
  {
    if a >= 0 then a / b else CeilDiv(a, b)
  }

  /** `Math.ceil(x)`: the least integer that is not below `x`. */
  function Ceil(x: real): (n: int)
    ensures x <= n as real < x + 1.0
  {
    -((-x).Floor)
  }

  /** The ceiling is the only integer in `[x, x + 1)`. */
  lemma CeilUnique(x: real, n: int)
    requires x <= n as real < x + 1.0
    ensures Ceil(x) == n
  {
  }

  /** Rounding up a larger amount never gives a smaller integer. */
  lemma CeilMonotone(x: real, y: real)
    requires x <= y
    ensures Ceil(x) <= Ceil(y)
  {
  }

  /** Rounding up a larger count of milliseconds never gives fewer minutes. */
  lemma CeilDivMonotone(a: int, c: int, b: int)
    requires b > 0 && a <= c
    ensures CeilDiv(a, b) <= CeilDiv(c, b)
  {
    var qa := CeilDiv(a, b);
    var qc := CeilDiv(c, b);
    if qa > qc {
      assert (qa - 1) * b >= qc * b by {
        assert qa - 1 >= qc;
        MulMonotone(qc, qa - 1, b);
      }
      assert false;
    }
  }

  /** Multiplying by a positive factor keeps the order. */
  lemma MulMonotone(x: int, y: int, b: int)
    requires x <= y && b > 0
    ensures x * b <= y * b
  {
  }

  /** A quotient is pinned down by any remainder in range. */
  lemma DivUnique(a: int, d: int, q: int, r: int)
    requires d > 0 && a == q * d + r && 0 <= r < d
    ensures a / d == q && a % d == r
  {
    var q' := a / d;
    var r' := a % d;
    assert a == q' * d + r';
    if q' < q {
      MulMonotone(q' + 1, q, d);
      assert false;
    } else if q' > q {
      MulMonotone(q + 1, q', d);
      assert false;
    }
  }

  /** Dividing twice is dividing by the product: `(a / b) / c == a / (b * c)`. */
  lemma DivDiv(a: int, b: int, c: int)
    requires b > 0 && c > 0
    ensures (a / b) / c == a / (b * c)
  {
    var q := a / b;
    var r := a % b;
    var q2 := q / c;
    var r2 := q % c;
    assert a == q2 * (b * c) + (r2 * b + r) by {
      assert a == q * b + r;
      assert q == q2 * c + r2;
    }
    assert r2 * b + r < b * c by {
      MulMonotone(r2, c - 1, b);
    }
    DivUnique(a, b * c, q2, r2 * b + r);
  }
}
