/** Nonlinear facts, each proved once and used by name. */
module Arithmetic {

  lemma DivMod(moved: nat, size: nat)
    requires size > 0
    ensures moved == size * (moved / size) + moved % size
    ensures 0 <= moved / size
  {}

  lemma Distribute(size: int, a: int, b: int)
    ensures size * (a + b) == size * a + size * b
    ensures size * (a - b) == size * a - size * b
  {}

  lemma LargerFactor(size: int, a: int, b: int)
    requires size > 0 && a > b
    ensures size * a > size * b
  {
    Distribute(size, a, b);
    assert size * (a - b) > 0;
  }

  lemma SmallMultiple(d: int, w: int)
    requires w > 0 && -w < d * w < w
    ensures d == 0
  {
    if d >= 1 { Product(d - 1, w); }
    else if d <= -1 { Product(-1 - d, w); }
  }

  lemma Product(a: nat, w: nat)
    ensures a * w >= 0
    ensures (a + 1) * w == a * w + w
    ensures (-1 - a) * w == -(a * w) - w
  {}

  lemma ModUnique(y: int, w: int, k: int, r: int)
    requires w > 0 && y == k * w + r && 0 <= r < w
    ensures y % w == r && y / w == k
  {
    var q, m := y / w, y % w;
    var qw, kw := q * w, k * w;
    assert y == qw + m;
    assert (k - q) * w == kw - qw;
    SmallMultiple(k - q, w);
  }

  lemma AddWindow(x: int, w: int)
    requires w > 0
    ensures (x + w) % w == x % w
  {
    var q, r := x / w, x % w;
    assert x == q * w + r;
    assert (q + 1) * w == q * w + w;
    ModUnique(x + w, w, q + 1, r);
  }

  lemma RoundsLeft(n: int, k: int)
    ensures (n - 1) * k == n * k - k
    ensures n >= 1 && k >= 0 ==> n * k >= k
    ensures n >= 0 && k >= 0 ==> n * k >= 0
    ensures n == 0 ==> n * k == 0
  {
    if n >= 1 && k >= 0 { Product(n - 1, k); }
  }
}
