/** Division facts with a variable divisor. */
module Arith {

  function Min(a: int, b: int): int {
    if a < b then a else b
  }

  function Max(a: int, b: int): int {
    if a < b then b else a
  }

  lemma MulAtLeast(d: int, b: int)
    requires d >= 1 && b > 0
    ensures d * b >= b
  {
  }

  lemma QuotientUnique(q: int, r: int, q': int, r': int, b: int)
    requires b > 0 && 0 <= r < b && 0 <= r' < b
    requires q * b + r == q' * b + r'
    ensures q == q' && r == r'
  {
    assert (q' - q) * b == q' * b - q * b;
    assert (q - q') * b == q * b - q' * b;
    if q < q' {
      MulAtLeast(q' - q, b);
    } else if q' < q {
      MulAtLeast(q - q', b);
    }
  }

  lemma DivMod(x: int, q: int, r: int, b: int)
    requires b > 0 && 0 <= r < b && x == q * b + r
    ensures x / b == q && x % b == r
  {
    QuotientUnique(x / b, x % b, q, r, b);
  }

  /** Moving on inside one window of b. */
  lemma ModPlus(a: int, d: int, b: int)
    requires b > 0 && 0 <= d && a % b + d < b
    ensures (a + d) % b == a % b + d && (a + d) / b == a / b
  {
    DivMod(a + d, a / b, a % b + d, b);
  }

  /** A range lies in one window of b iff its first and last elements do. */
  lemma OneWindow(a: int, n: int, b: int)
    requires b > 0 && n > 0
    ensures a / b == (a + n - 1) / b <==> a % b + n <= b
  {
    if a % b + n <= b {
      ModPlus(a, n - 1, b);
    }
  }

  lemma ModMultiple(x: int, k: int, b: int)
    requires b > 0
    ensures (x + k * b) % b == x % b
  {
    DivMod(x + k * b, x / b + k, x % b, b);
  }

  lemma SameMod(x: int, y: int, d: int, b: int)
    requires b > 0 && x % b == y % b
    ensures (x + d) % b == (y + d) % b
  {
    var k := x / b - y / b;
    assert k * b == x / b * b - y / b * b;
    ModMultiple(y + d, k, b);
  }

  /** x % (k*b), reduced by b, is x % b. */
  lemma ModMod(x: int, b: int, m: int)
    requires b > 0 && m > 0 && m % b == 0
    ensures (x % m) % b == x % b
  {
    var k, q := m / b, x / m;
    assert x == x % m + (q * k) * b by {
      assert x == q * m + x % m;
      assert m == k * b;
      assert q * (k * b) == (q * k) * b;
    }
    ModMultiple(x % m, q * k, b);
  }

  lemma ModSum(x: int, y: int, b: int)
    requires b > 0 && x % b == 0 && y % b == 0
    ensures (x + y) % b == 0 && (x - y) % b == 0
  {
    DivMod(x + y, x / b + y / b, 0, b);
    DivMod(x - y, x / b - y / b, 0, b);
  }

  function RoundDown(x: nat, b: nat): (r: nat)
    requires b > 0
    ensures r % b == 0 && x - b < r <= x
  {
    DivMod(x - x % b, x / b, 0, b);
    x - x % b
  }

  /** Stepping back from x by the distance to the last position congruent to a. */
  lemma StepBack(x: int, a: int, b: int)
    requires b > 0 && 0 <= a < b
    ensures (x - (x - a) % b) % b == a
  {
    DivMod(x - (x - a) % b, (x - a) / b, a, b);
  }

  lemma MultipleAtLeast(x: int, b: int)
    requires 0 < b && 0 < x && x % b == 0
    ensures b <= x
  {
  }
}
