/** The progress-bar percentage helper (`calculatePercentage` in src/App.jsx). */
module Percentage {

  /** `Math.floor(a / b)` on exact rationals. Dafny's `/` is Euclidean, which
      agrees with the floor only for a positive divisor. */
  function FloorDiv(a: int, b: int): (q: int)
    requires b != 0
    ensures b > 0 ==> q * b <= a < q * b + b
    ensures b < 0 ==> q * b + b < a <= q * b
  {
    if b > 0 then a / b else (-a) / (-b)
  }

  /** Integer percentage of `fraction` out of `total`, rounded down, with the
      zero short-circuit: no progress, or nothing to progress through, is 0%. */
  function CalculatePercentage(fraction: int, total: int): (r: int)
    ensures fraction == 0 || total == 0 ==> r == 0
    ensures fraction != 0 && total > 0 ==> r * total <= fraction * 100 < r * total + total
    ensures fraction != 0 && total < 0 ==> r * total + total < fraction * 100 <= r * total
    ensures 0 <= fraction <= total ==> 0 <= r <= 100
  {
    if fraction == 0 || total == 0 then 0
    else
      var q := FloorDiv(fraction * 100, total);
      assert 0 < fraction <= total ==> 0 <= q <= 100 by {
        if 0 < fraction <= total {
          BoundedQuotient(fraction, total, q);
        }
      }
      q
  }

  lemma BoundedQuotient(f: int, t: int, q: int)
    requires 0 < f <= t
    requires q * t <= f * 100 < q * t + t
    ensures 0 <= q <= 100
  {
    CancelPositive(q, 100, t);
    assert (q - 1) * t == q * t - t;
    CancelPositive(-1, q - 1, t);
  }

  /** Dividing both sides of `x * t <= y * t` by a positive `t`. */
  lemma CancelPositive(x: int, y: int, t: int)
    requires t > 0
    requires x * t <= y * t + t - 1
    ensures x <= y
  {
    assert (x - y) * t == x * t - y * t;
    BelowOneFactor(x - y, t);
  }

  lemma BelowOneFactor(d: int, t: int)
    requires t > 0
    requires d * t < t
    ensures d < 1
  {
  }

  /** The bar shows 100% exactly at completion: anything short of the total
      floors below 100. */
  lemma {:induction false} FullOnlyAtCompletion(f: int, t: int)
    requires 0 < f <= t
    ensures CalculatePercentage(f, t) == 100 <==> f == t
  {
    var r := CalculatePercentage(f, t);
    assert r * t <= f * 100 < r * t + t;
    if f < t {
      assert f * 100 < t * 100;
      CancelPositive(r, 99, t);
    } else {
      CancelPositive(r, 100, t);
      assert t * 100 < (r + 1) * t;
      CancelPositive(100, r, t);
    }
  }

  /** The worked values: zero on either side is 0, and the result floors. */
  lemma Examples()
    ensures CalculatePercentage(0, 7) == 0 && CalculatePercentage(3, 0) == 0
    ensures CalculatePercentage(50, 200) == 25
    ensures CalculatePercentage(99, 100) == 99
    ensures CalculatePercentage(1, 3) == 33
  {
  }
}
