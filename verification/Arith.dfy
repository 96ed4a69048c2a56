module Arith {

  lemma DivModUnique(x: int, n: int, q: int, r: int)
    requires 0 <= r < n && x == q * n + r
    ensures x / n == q && x % n == r
  {
    var d := q - x / n;
    assert d * n == x % n - r;
    assert d >= 1 ==> d * n >= n;
    assert d <= -1 ==> d * n <= -n;
  }

  lemma DivStep(x: nat, n: nat)
    requires n > 0
    ensures x < n ==> x / n == 0 && x % n == x
    ensures x / n >= 0
    ensures x >= n ==> x / n == (x - n) / n + 1 && x % n == (x - n) % n
  {
    if x < n {
      DivModUnique(x, n, 0, x);
    } else {
      var q, r := (x - n) / n, (x - n) % n;
      assert (q + 1) * n == q * n + n;
      DivModUnique(x, n, q + 1, r);
    }
  }

  lemma ModTwice(x: nat, cap: nat)
    requires cap > 0
    ensures x % (2 * cap) % cap == x % cap
  {
    var q, r := x / (2 * cap), x % (2 * cap);
    var q', r' := r / cap, r % cap;
    assert x == cap * (2 * q + q') + r';
    DivModUnique(x, cap, 2 * q + q', r');
  }

  lemma HalfQuotient(x: nat, m: nat)
    requires m > 0
    ensures x / 2 / m == x / (2 * m)
  {
    var q, r := x / 2 / m, x / 2 % m;
    var bit := x % 2;
    assert x == 2 * (x / 2) + bit;
    assert x / 2 == q * m + r;
    assert x == q * (2 * m) + (2 * r + bit);
    DivModUnique(x, 2 * m, q, 2 * r + bit);
  }
}
