/**
 * Pixel distances, shared by the server's click scoring and the client's
 * `calculateDistance`. Both compute `Math.sqrt(dx*dx + dy*dy)`; here the
 * distance is kept as its exact square, and the rounded values the source
 * derives from it (`Math.round(d * 1000) / 1000` on the server,
 * `Math.round(d)` in the feedback panel) are computed with an integer square
 * root, so no floating point is involved.
 */
module Geometry {

  datatype Pixel = Pixel(x: int, y: int)

  /** The square of the Euclidean distance between `p` and `(x, y)`. */
  function SquaredDistance(p: Pixel, x: int, y: int): (d: nat)
    ensures d == 0 <==> p.x == x && p.y == y
  {
    var dx, dy := p.x - x, p.y - y;
    assert dx * dx >= 0 && dy * dy >= 0;
    assert dx != 0 ==> dx * dx > 0;
    assert dy != 0 ==> dy * dy > 0;
    dx * dx + dy * dy
  }

  /** The integer square root: the largest `r` with `r * r <= n`. */
  function ISqrt(n: nat): (r: nat)
    ensures r * r <= n < (r + 1) * (r + 1)
    decreases n
  {
    if n < 4 then
      (if n == 0 then 0 else 1)
    else
      var s := ISqrt(n / 4);
      var h := 2 * s;
      DoubledRootBounds(n, s);
      if (h + 1) * (h + 1) <= n then h + 1 else h
  }

  /** Doubling the root of `n / 4` brackets the root of `n` within two. */
  lemma DoubledRootBounds(n: nat, s: nat)
    requires s * s <= n / 4 < (s + 1) * (s + 1)
    ensures (2 * s) * (2 * s) <= n < (2 * s + 2) * (2 * s + 2)
  {
    var q := n / 4;
    assert n == 4 * q + n % 4;
    assert (2 * s) * (2 * s) == 4 * (s * s);
    assert (2 * s + 2) * (2 * s + 2) == 4 * ((s + 1) * (s + 1));
    assert q + 1 <= (s + 1) * (s + 1);
  }

  /**
   * `Math.round(Math.sqrt(m))` computed exactly: the nearest integer to the
   * square root of `m`, halves rounded up. `k - 1/2 <= sqrt(m) < k + 1/2` is
   * written without fractions as `(2k - 1)^2 <= 4m < (2k + 1)^2`.
   */
  function RoundSqrt(m: nat): (k: nat)
    ensures k == 0 <==> m == 0
    ensures k > 0 ==> (2 * k - 1) * (2 * k - 1) <= 4 * m
    ensures 4 * m < (2 * k + 1) * (2 * k + 1)
  {
    var s := ISqrt(4 * m);
    HalvedRootBounds(4 * m, s);
    (s + 1) / 2
  }

  /** Rounding half the root of `n` up brackets the half-integer neighbours of `sqrt(n) / 2`. */
  lemma HalvedRootBounds(n: nat, s: nat)
    requires s * s <= n < (s + 1) * (s + 1)
    ensures var k := (s + 1) / 2;
      && (k > 0 ==> (2 * k - 1) * (2 * k - 1) <= n)
      && n < (2 * k + 1) * (2 * k + 1)
  {
    var k := (s + 1) / 2;
    if s % 2 == 1 {
      assert s == 2 * k - 1;
      SquareMonotone(s + 1, 2 * k + 1);
    } else {
      assert s == 2 * k;
      if k > 0 {
        SquareMonotone(2 * k - 1, s);
      }
    }
  }

  lemma SquareMonotone(a: nat, b: nat)
    requires a <= b
    ensures a * a <= b * b
  {
    assert a * a <= a * b <= b * b;
  }

  /** The rounding bounds of `RoundSqrt` pin down the root of a perfect square. */
  lemma RoundingBoundsOfSquare(r: nat, k: nat)
    requires r > 0 ==> (2 * r - 1) * (2 * r - 1) <= 4 * (k * k)
    requires 4 * (k * k) < (2 * r + 1) * (2 * r + 1)
    ensures r == k
  {
    assert 4 * (k * k) == (2 * k) * (2 * k);
    if r > k {
      assert (2 * k + 1) * (2 * k + 1) == (2 * k) * (2 * k) + 4 * k + 1;
      SquareMonotone(2 * k + 1, 2 * r - 1);
    } else if r < k {
      SquareMonotone(2 * r + 1, 2 * k);
    }
  }

  /** A whole distance rounds to itself: `Math.round(Math.sqrt(k * k)) == k`. */
  lemma RoundSqrtOfSquare(k: nat)
    ensures RoundSqrt(k * k) == k
  {
    RoundingBoundsOfSquare(RoundSqrt(k * k), k);
  }
}
