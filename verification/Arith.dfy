/** Powers of two, and division and remainder for the nonlinear steps. */
module Arith {

  function Pow2(n: nat): (p: nat)
    ensures p > 0
  {
    if n == 0 then 1 else 2 * Pow2(n - 1)
  }

  lemma {:induction false} Pow2Sum(m: nat, n: nat)
    ensures Pow2(m + n) == Pow2(m) * Pow2(n)
    decreases m
  {
    if m > 0 {
      assert Pow2(m + n) == 2 * Pow2(m - 1 + n) && Pow2(m) == 2 * Pow2(m - 1);
      hide Pow2;
      Pow2Sum(m - 1, n);
      Twice(Pow2(m - 1), Pow2(n));
    }
  }

  lemma Twice(x: nat, y: nat)
    ensures 2 * (x * y) == 2 * x * y
  {
  }

  lemma {:induction false} Pow2Mono(m: nat, n: nat)
    requires m <= n
    ensures Pow2(m) <= Pow2(n)
    decreases n
  {
    if m < n { Pow2Mono(m, n - 1); }
  }

  lemma Pow2Values()
    ensures Pow2(3) == 8 && Pow2(9) == 512 && Pow2(10) == 1024 && Pow2(11) == 2048 && Pow2(12) == 4096
    ensures Pow2(20) == 0x10_0000 && Pow2(21) == 0x20_0000 && Pow2(22) == 0x40_0000 && Pow2(23) == 0x80_0000
    ensures Pow2(31) == 0x8000_0000 && Pow2(32) == 0x1_0000_0000
  {
    assert Pow2(13) == 8192 && Pow2(20) == 0x10_0000;
    assert Pow2(25) == 0x200_0000 && Pow2(31) == 0x8000_0000;
  }

  lemma MulGap(x: nat, y: nat, d: nat)
    ensures x < y ==> x * d + d <= y * d
  {
    if x < y {
      var gap := y - x - 1;
      assert y * d == (x + 1 + gap) * d == x * d + d + gap * d;
    }
  }

  lemma DivUnique(a: nat, d: nat, q: nat, r: nat)
    requires d > 0 && r < d && a == q * d + r
    ensures a / d == q
  {
    var k, m := a / d, a % d;
    assert a == k * d + m;
    MulGap(q, k, d);
    MulGap(k, q, d);
  }

  lemma ModOfMul(q: nat, m: nat)
    requires m > 0
    ensures q * m % m == 0
  {
    DivUnique(q * m, m, q, 0);
    var z := q * m;
    assert z == z / m * m + z % m;
  }

  lemma DivSame(a: nat, n: nat, d: nat)
    requires d > 0 && 0 < n <= d - a % d
    ensures a / d == (a + n - 1) / d
  {
    var q, r := a / d, a % d;
    assert a == q * d + r;
    assert a + n - 1 == q * d + (r + n - 1);
    DivUnique(a + n - 1, d, q, r + n - 1);
  }

  lemma DivSum(x: nat, y: nat, m: nat)
    requires m > 0 && x % m == 0
    ensures (x + y) / m == x / m + y / m
  {
    var q := x / m;
    assert x == q * m;
    assert y == y / m * m + y % m;
    assert (q + y / m) * m == q * m + y / m * m;
    DivUnique(x + y, m, q + y / m, y % m);
  }

  lemma RoundDown(x: nat, m: nat)
    requires m > 0
    ensures (x - x % m) % m == 0
  {
    assert x - x % m == x / m * m;
    ModOfMul(x / m, m);
  }

  lemma SubMod(a: nat, b: nat, m: nat)
    requires m > 0 && a % m == 0 && b % m == 0 && b <= a
    ensures (a - b) % m == 0
  {
    var x, y := a / m, b / m;
    assert a == x * m && b == y * m;
    MulGap(x, y, m);
    assert a - b == (x - y) * m;
    ModOfMul(x - y, m);
  }

  lemma AddMod(a: nat, b: nat, m: nat)
    requires m > 0 && a % m == 0 && b % m == 0
    ensures (a + b) % m == 0
  {
    var x, y := a / m, b / m;
    assert a == x * m && b == y * m;
    assert a + b == (x + y) * m;
    ModOfMul(x + y, m);
  }

  lemma ModUnique(a: nat, d: nat, q: nat, r: nat)
    requires d > 0 && r < d && a == q * d + r
    ensures a % d == r
  {
    DivUnique(a, d, q, r);
    assert a == a / d * d + a % d;
  }

  /** Less than `d` apart, two numbers agree modulo `d` exactly when equal. */
  lemma ModApart(a: nat, b: nat, d: nat)
    requires b <= a < b + d
    ensures a % d == b % d <==> a == b
  {
    if a % d == b % d {
      var x, y := a / d, b / d;
      assert a == x * d + a % d && b == y * d + b % d;
      MulGap(x, y, d);
      MulGap(y, x, d);
    }
  }

  lemma AddWhole(a: nat, d: nat)
    requires d > 0
    ensures (a + d) % d == a % d
  {
    var x := a / d;
    assert a + d == (x + 1) * d + a % d;
    ModUnique(a + d, d, x + 1, a % d);
  }

  lemma ShiftLeft(a: nat, b: nat, d: nat)
    requires d > 0
    ensures (a % d + b) % d == (a + b) % d
  {
    var x, y := a / d, a % d;
    var u, t := (y + b) / d, (y + b) % d;
    assert a == x * d + y;
    assert y + b == u * d + t;
    Regroup(x, u, d);
    ModUnique(a + b, d, x + u, t);
  }

  lemma Regroup(x: nat, u: nat, d: nat)
    ensures (x + u) * d == x * d + u * d
  {
  }
}
