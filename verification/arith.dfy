/** Facts about Euclidean division that the carousel and countdown proofs rest on. */
module Arith {

  lemma MulAtLeast(n: int, d: int)
    requires n > 0 && d >= 1
    ensures n * d >= n
  {
    assert n * d == n * (d - 1) + n;
    assert n * (d - 1) >= 0;
  }

  /** Quotient and remainder are determined by `a == n * q + r` with `0 <= r < n`. */
  lemma DivModUnique(a: int, n: int, q: int, r: int)
    requires n > 0 && 0 <= r < n && a == n * q + r
    ensures a / n == q && a % n == r
  {
    var q', r' := a / n, a % n;
    assert n * q + r == n * q' + r';
    var d := q - q';
    assert n * d == r' - r by {
      assert n * d == n * q - n * q';
    }
    if d >= 1 {
      MulAtLeast(n, d);
    } else if d <= -1 {
      MulAtLeast(n, -d);
    }
  }

  /** Adding one moves the remainder one step round the circle. */
  lemma ModSucc(a: int, n: int)
    requires n > 0
    ensures (a + 1) % n == if a % n == n - 1 then 0 else a % n + 1
  {
    var q, r := a / n, a % n;
    if r == n - 1 {
      DivModUnique(a + 1, n, q + 1, 0);
    } else {
      DivModUnique(a + 1, n, q, r + 1);
    }
  }

  lemma ModSelf(i: int, n: int)
    requires n > 0 && 0 <= i < n
    ensures (i + n) % n == i
  {
    DivModUnique(i + n, n, 1, i);
  }

  lemma MulBelow(b: int, r: int, c: int)
    requires b > 0 && 0 <= r < c
    ensures 0 <= b * r <= b * c - b
  {
    assert b * c - b - b * r == b * (c - 1 - r);
    if c - 1 - r > 0 {
      MulAtLeast(b, c - 1 - r);
    }
    if r > 0 {
      MulAtLeast(b, r);
    }
  }

  /** Dividing by `b` and then by `c` is dividing by `b * c`. */
  lemma DivDiv(a: int, b: int, c: int)
    requires a >= 0 && b > 0 && c > 0
    ensures a / b / c == a / (b * c)
  {
    var q, r := a / b, a % b;
    var q2, r2 := q / c, q % c;
    var bc := b * c;
    assert a == b * q + r;
    assert q == c * q2 + r2;
    assert b * q == bc * q2 + b * r2 by {
      assert b * (c * q2 + r2) == b * (c * q2) + b * r2;
      assert b * (c * q2) == (b * c) * q2;
    }
    MulBelow(b, r2, c);
    DivModUnique(a, bc, q2, b * r2 + r);
  }
}
