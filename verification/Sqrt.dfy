/** Integer logarithm and square root on 256-bit words. */
module Sqrt {
  import opened Bits
  import opened Field
  import opened Modular
  import MulDiv
  import opened WideArith

  // ------------------------------------------------------------------ log2

  /** What is left of v after shifting out s bits is positive and below 2^n. */
  ghost predicate Shifted(v: nat, s: nat, value: nat, n: nat) {
    0 < value < Pow2(n) && value * Pow2(s) <= v < (value + 1) * Pow2(s)
  }

  lemma ShiftFurther(v: nat, s: nat, value: nat, m: nat, n: nat)
    requires Shifted(v, s, value, m + n) && m == n && value / Pow2(n) > 0
    ensures Shifted(v, s + n, value / Pow2(n), n)
  {
    hide Pow2;
    var p, q := Pow2(n), value / Pow2(n);
    Pow2Add(n, n);
    Pow2Add(s, n);
    QuotientBounds(value, p);
    CancelBelow(q, p, p);
    ScaleBounds(v, value, q, p, Pow2(s));
  }

  lemma QuotientBounds(value: nat, p: nat)
    requires p > 0
    ensures value / p * p <= value < (value / p + 1) * p
  {
    var q := value / p;
    assert value == q * p + value % p && (q + 1) * p == q * p + p;
  }

  lemma ScaleBounds(v: nat, value: nat, q: nat, p: nat, t: nat)
    requires q * p <= value < (q + 1) * p && value * t <= v < (value + 1) * t
    ensures q * (t * p) <= v < (q + 1) * (t * p)
  {
    MulMonotone(q * p, value, t);
    MulMonotone(value + 1, (q + 1) * p, t);
    assert (q * p) * t == q * (t * p) && ((q + 1) * p) * t == (q + 1) * (t * p);
  }

  /** One rung: shift by n when something is left above. */
  method ShiftIfAbove(value: nat, result: nat, n: nat, power: nat, ghost v: nat) returns (left: nat, sum: nat)
    requires Shifted(v, result, value, n + n) && power == Pow2(n) && power > 0
    ensures Shifted(v, sum, left, n)
  {
    hide Pow2, Shifted;
    left, sum := value, result;
    if left / power > 0 {
      ShiftFurther(v, result, value, n, n);
      left := left / power;
      sum := sum + n;
    } else {
      assert Shifted(v, sum, left, n) by { BelowPower(v, result, value, n + n, n); }
    }
  }

  lemma BelowPower(v: nat, s: nat, value: nat, m: nat, n: nat)
    requires Shifted(v, s, value, m) && Pow2(n) > 0 && value / Pow2(n) == 0
    ensures Shifted(v, s, value, n)
  {
    hide Pow2;
    var p := Pow2(n);
    assert value == value / p * p + value % p;
  }

  lemma Powers()
    ensures Pow2(0) == 1 && Pow2(1) == 2 && Pow2(2) == 4 && Pow2(4) == 0x10 && Pow2(8) == 0x100 && Pow2(16) == 0x1_0000
    ensures Pow2(32) == 0x1_0000_0000 && Pow2(64) == 0x1_0000_0000_0000_0000
    ensures Pow2(128) == 0x1_0000_0000_0000_0000_0000_0000_0000_0000
  {
    hide Pow2;
    assert Pow2(0) == 1 && Pow2(1) == 2 && Pow2(2) == 4 && Pow2(4) == 0x10 by { SmallPowers(); }
    MulDiv.Squared(4, 0x10);
    MulDiv.Squared(8, 0x100);
    MulDiv.Squared(16, 0x1_0000);
    MulDiv.Squared(32, 0x1_0000_0000);
    MulDiv.Squared(64, 0x1_0000_0000_0000_0000);
  }

  lemma SmallPowers()
    ensures Pow2(0) == 1 && Pow2(1) == 2 && Pow2(2) == 4 && Pow2(4) == 0x10
  {
    assert Pow2(2) == 4 && Pow2(3) == 8;
  }

  /** The index of the highest set bit; 0 for 0. */
  method Log2(v: MulDiv.Word) returns (result: nat)
    ensures v == 0 ==> result == 0
    ensures v > 0 ==> Pow2(result) <= v < Pow2(result + 1) && result < 256
  {
    hide Pow2, Shifted, MulDiv.W;
    var value;
    value, result := v, 0;
    if v == 0 {
      return;
    }
    MulDiv.WordSize();
    Powers();
    assert Shifted(v, 0, v, 256) by { Unshifted(v, 256); }
    value, result := ShiftIfAbove(value, result, 128, 0x1_0000_0000_0000_0000_0000_0000_0000_0000, v);
    value, result := ShiftIfAbove(value, result, 64, 0x1_0000_0000_0000_0000, v);
    value, result := ShiftIfAbove(value, result, 32, 0x1_0000_0000, v);
    value, result := ShiftIfAbove(value, result, 16, 0x1_0000, v);
    value, result := ShiftIfAbove(value, result, 8, 0x100, v);
    value, result := ShiftIfAbove(value, result, 4, 0x10, v);
    value, result := ShiftIfAbove(value, result, 2, 4, v);
    ghost var left := value;
    if value / 2 > 0 {
      ShiftFurther(v, result, value, 1, 1);
      left, result := value / 2, result + 1;
    } else {
      assert Shifted(v, result, value, 1) by { BelowPower(v, result, value, 2, 1); }
    }
    LastBit(v, result, left);
  }

  lemma Unshifted(v: nat, n: nat)
    requires 0 < v < Pow2(n)
    ensures Shifted(v, 0, v, n)
  {
    assert Pow2(0) == 1;
  }

  lemma LastBit(v: nat, s: nat, value: nat)
    requires Shifted(v, s, value, 1) && v < MulDiv.W()
    ensures Pow2(s) <= v < Pow2(s + 1) && s < 256
  {
    hide Pow2, MulDiv.W;
    assert value == 1 by { Powers(); }
    assert Pow2(s + 1) == 2 * Pow2(s) by { Pow2Add(s, 1); Powers(); }
    if s >= 256 {
      MulDiv.WordSize();
      Pow2Add(256, s - 256);
      PowerPositive(s - 256);
      MulMonotone(1, Pow2(s - 256), Pow2(256));
      assert Pow2(s) >= Pow2(256) by { assert Pow2(s - 256) * Pow2(256) == Pow2(256) * Pow2(s - 256); }
    }
  }

  lemma {:induction false} PowerPositive(n: nat)
    ensures Pow2(n) > 0
  {
    if n == 0 {
    } else {
      PowerPositive(n - 1);
    }
  }

  // ------------------------------------------------------------------ Newton's iteration

  /** r is the square root of a, rounded down. */
  predicate IsRoot(a: nat, r: nat) {
    r * r <= a < (r + 1) * (r + 1)
  }

  lemma {:induction false} RootExists(a: nat) returns (r: nat)
    ensures IsRoot(a, r)
  {
    if a == 0 {
      r := 0;
    } else {
      r := RootExists(a - 1);
      if a >= (r + 1) * (r + 1) {
        assert (r + 2) * (r + 2) == (r + 1) * (r + 1) + 2 * (r + 1) + 1;
        r := r + 1;
      }
    }
  }

  lemma SquareOrder(x: nat, y: nat)
    requires x * x < y * y
    ensures x < y
  {
    if x >= y {
      MulMonotone(y, x, y);
      MulMonotone(y, x, x);
    }
  }

  lemma CancelBelow(x: int, y: int, c: nat)
    requires x * c < y * c
    ensures x < y
  {
    if x >= y {
      MulMonotone(y, x, c);
    }
  }

  lemma DivAtLeast(a: nat, x: nat, q: int)
    requires x > 0 && q * x <= a
    ensures q <= a / x
  {
    var k := a / x;
    assert a == k * x + a % x;
    assert (k + 1) * x == k * x + x;
    CancelBelow(q, k + 1, x);
  }

  /** One Newton step never falls below the root. */
  lemma StepAtLeast(a: nat, r: nat, x: nat)
    requires x > 0 && r * r <= a
    ensures (x + a / x) / 2 >= r
  {
    SquareNonNegative(r - x);
    assert (2 * r - x) * x == r * r - (r - x) * (r - x);
    DivAtLeast(a, x, 2 * r - x);
  }

  lemma SquareNonNegative(y: int)
    ensures y * y >= 0
  {
  }

  /** x is at or above the root r, by at most 2 plus the k-th part of r. */
  predicate Near(x: nat, r: nat, k: nat) {
    r <= x && k * (x - r - 2) <= r
  }

  /** From a seed within a factor of two, the first step is above the root by at most a quarter of it plus 2. */
  lemma FirstStep(a: nat, r: nat, x: nat)
    requires IsRoot(a, r) && 0 < x <= r < 2 * x
    ensures Near((x + a / x) / 2, r, 4)
    ensures x + a / x <= 3 * r + 4
  {
    StepAtLeast(a, r, x);
    var q := a / x;
    QuotientBelow(a, x);
    assert a <= r * r + 2 * r by { assert (r + 1) * (r + 1) == r * r + 2 * r + 1; }
    QuarterBound(r, x, q);
    FirstSum(r, x, q);
  }

  lemma FirstSum(r: nat, x: nat, q: nat)
    requires 0 < x <= r < 2 * x && q * x <= r * r + 2 * r
    ensures x + q <= 3 * r + 4
  {
    assert q * x < (2 * r + 5) * x by {
      assert (2 * r + 5) * x == 2 * (x * r) + 5 * x;
      MulMonotone(r, 2 * x, r);
      assert (2 * x) * r == 2 * (x * r);
    }
    CancelBelow(q, 2 * r + 5, x);
  }

  lemma FactorsNonNegative(r: nat, x: nat)
    requires x <= r <= 2 * x
    ensures 5 * (r * x) >= 2 * (x * x) + 2 * (r * r)
  {
    MulMonotone(0, 2 * x - r, 2 * r - x);
    assert (2 * x - r) * (2 * r - x) == 5 * (r * x) - 2 * (x * x) - 2 * (r * r);
  }

  lemma QuarterBound(r: nat, x: nat, q: nat)
    requires 0 < x <= r < 2 * x && q * x <= r * r + 2 * r
    ensures 2 * x + 2 * q <= 5 * r + 8
  {
    var xx, rr, rx := x * x, r * r, r * x;
    assert 5 * rx >= 2 * xx + 2 * rr by { FactorsNonNegative(r, x); }
    assert (5 * r + 9) * x == 5 * rx + 9 * x;
    assert (2 * x + 2 * q) * x == 2 * xx + 2 * (q * x);
    CancelBelow(2 * x + 2 * q, 5 * r + 9, x);
  }

  lemma ExcessProduct(r: nat, d: nat, q: nat, d': nat)
    requires 2 * d' + 2 * r <= r + d + q
    ensures 2 * (d' * (r + d)) <= d * d - r * r + q * (r + d)
  {
    var x := r + d;
    MulMonotone(2 * d' + 2 * r, x + q, x);
    Expand(r, d, q, d');
  }

  lemma Expand(r: nat, d: nat, q: nat, d': nat)
    ensures (2 * d' + 2 * r) * (r + d) == 2 * (d' * (r + d)) + 2 * (r * r) + 2 * (r * d)
    ensures (r + d + q) * (r + d) == r * r + 2 * (r * d) + d * d + q * (r + d)
  {
    var x := r + d;
    assert x * x == r * r + 2 * (r * d) + d * d && r * x == r * r + r * d;
  }

  /** The excess over the root after a step: 2 d' (r + d) <= d^2 + (a - r^2). */
  lemma StepExcess(a: nat, r: nat, d: nat)
    requires r * r <= a && r + d > 0
    ensures var d' := (r + d + a / (r + d)) / 2 - r;
            d' >= 0 && 2 * (d' * (r + d)) <= d * d + a - r * r
  {
    StepAtLeast(a, r, r + d);
    QuotientBelow(a, r + d);
    ExcessOfQuotient(a, r, d, a / (r + d), (r + d + a / (r + d)) / 2 - r);
  }

  lemma QuotientBelow(a: nat, x: nat)
    requires x > 0
    ensures a / x * x <= a
  {
    assert a == a / x * x + a % x;
  }

  lemma ExcessOfQuotient(a: nat, r: nat, d: nat, q: nat, d': nat)
    requires q * (r + d) <= a && 2 * d' + 2 * r <= r + d + q
    ensures 2 * (d' * (r + d)) <= d * d + a - r * r
  {
    ExcessProduct(r, d, q, d');
  }

  /** Once within the k-th part, the next step is within the 2 k^2-th part. */
  lemma LaterStep(a: nat, r: nat, x: nat, k: nat)
    requires IsRoot(a, r) && r > 0 && k > 0 && Near(x, r, k)
    ensures Near((x + a / x) / 2, r, 2 * (k * k))
    ensures x + a / x <= 3 * r + 4
  {
    var d := x - r;
    var d' := (x + a / x) / 2 - r;
    StepExcess(a, r, d);
    assert a <= r * r + 2 * r by { assert (r + 1) * (r + 1) == r * r + 2 * r + 1; }
    if d' > 2 {
      Quadratic(r, d - 2, d' - 2, k);
    } else {
      MulMonotone(d' - 2, 0, 2 * (k * k));
      assert (d' - 2) * (2 * (k * k)) == (2 * (k * k)) * (d' - 2);
    }
    SmallSum(a, r, x, k);
  }

  lemma SmallSum(a: nat, r: nat, x: nat, k: nat)
    requires r > 0 && k > 0 && Near(x, r, k) && a <= r * r + 2 * r
    ensures x + a / x <= 3 * r + 4
  {
    if x > 2 * r + 2 {
      MulMonotone(1, k, x - r - 2);
    }
    var q := a / x;
    assert q * x <= a by { assert a == q * x + a % x; }
    assert q * x < (r + 3) * x by {
      MulMonotone(r, x, r + 3);
      assert x * (r + 3) == (r + 3) * x && r * (r + 3) == r * r + 3 * r;
    }
    CancelBelow(q, r + 3, x);
  }

  lemma Quadratic(r: nat, e: int, e': nat, k: nat)
    requires e >= -2 && e' > 0 && k > 0 && r > 0 && k * e <= r
    requires 2 * ((e' + 2) * (r + e + 2)) <= (e + 2) * (e + 2) + 2 * r
    ensures (2 * (k * k)) * e' <= r
  {
    assert (e' + 2) * (r + e + 2) == e' * r + e' * (e + 2) + 2 * r + 2 * (e + 2);
    MulMonotone(0, e', e + 2);
    assert 2 * (e' * r) <= e * e by { assert (e + 2) * (e + 2) == e * e + 4 * e + 4; }
    MulMonotone(1, e', r);
    assert e > 2 by { SquareAtMostFour(e); }
    Scaled(r, e, e', k);
  }

  lemma SquareAtMostFour(e: int)
    requires e >= -2
    ensures e <= 2 ==> e * e <= 4
  {
    assert e == -2 || e == -1 || e == 0 || e == 1 || e == 2 || e > 2;
  }

  lemma Scaled(r: nat, e: nat, e': nat, k: nat)
    requires r > 0 && k * e <= r && 2 * (e' * r) <= e * e
    ensures (2 * (k * k)) * e' <= r
  {
    var t := (2 * (k * k)) * e';
    assert t * r <= r * r by {
      MulMonotone(2 * (e' * r), e * e, k * k);
      assert t * r == (2 * (e' * r)) * (k * k);
      MulMonotone(k * e, r, k * e);
      MulMonotone(k * e, r, r);
      assert r * (k * e) == (k * e) * r;
      assert (e * e) * (k * k) == (k * e) * (k * e);
    }
    assert (r + 1) * r == r * r + r;
    CancelBelow(t, r + 1, r);
  }

  /** The last step from close enough: the root or one above, and above only when the quotient is the root. */
  lemma LastStep(a: nat, r: nat, x: nat, k: nat)
    requires IsRoot(a, r) && r > 0 && Near(x, r, k) && r < k * (k - 1)
    ensures var y := (x + a / x) / 2; y > 0 && r == if y < a / y then y else a / y
  {
    var d := x - r;
    var d' := (x + a / x) / 2 - r;
    StepExcess(a, r, d);
    assert a <= r * r + 2 * r by { assert (r + 1) * (r + 1) == r * r + 2 * r + 1; }
    assert d * d <= r + 2 * d by { ExcessSquare(r, d, k); }
    assert d' * (r + d) < 2 * (r + d);
    CancelBelow(d', 2, r + d);
    assert d' == 1 ==> a >= r * r + r;
    RootOrNext(a, r, r + d');
  }

  lemma RootOrNext(a: nat, r: nat, y: nat)
    requires IsRoot(a, r) && r > 0 && (y == r || (y == r + 1 && a >= r * r + r))
    ensures r == if y < a / y then y else a / y
  {
    if y == r {
      DivAtLeast(a, r, r);
    } else {
      assert (r + 1) * (r + 1) == r * (r + 1) + (r + 1) && r * (r + 1) == r * r + r;
      QuotientUnique(a, r + 1, r, a - r * (r + 1));
    }
  }

  lemma ExcessSquare(r: nat, d: nat, k: nat)
    requires k * (d - 2) <= r < k * (k - 1)
    ensures d * d <= r + 2 * d
  {
    if d > 2 {
      var e := d - 2;
      assert e * k == k * e && (k - 1) * k == k * (k - 1);
      CancelBelow(e, k - 1, k);
      MulMonotone(e + 2, k, e);
      assert (e + 2) * e == d * d - 2 * d;
    } else {
      SquareAtMostFour(d);
    }
  }

  /** The seed 2^(log2(a) / 2) is within a factor of two of the root. */
  lemma SeedNearRoot(a: nat, r: nat, k: nat)
    requires IsRoot(a, r) && Pow2(k) <= a < Pow2(k + 1)
    ensures 0 < Pow2(k / 2) <= r < 2 * Pow2(k / 2)
  {
    hide Pow2;
    var e := k / 2;
    var x := Pow2(e);
    PowerPositive(e);
    Powers();
    Pow2Add(e, e);
    Pow2Add(e + e, 1);
    Pow2Add(e + e + 1, 1);
    SquareOrder(x, r + 1);
    assert (2 * x) * (2 * x) == 4 * (x * x);
    SquareOrder(r, 2 * x);
  }

  function Average(a: nat, x: nat): nat
    requires x > 0
  {
    ((x + a / x) % MulDiv.W()) / 2
  }

  lemma NoOverflow(a: nat, r: nat, x: nat)
    requires x > 0 && x + a / x <= 3 * r + 4 && r < 0x1_0000_0000_0000_0000_0000_0000_0000_0000
    ensures Average(a, x) == (x + a / x) / 2
  {
    SmallMod(x + a / x, MulDiv.W());
  }

  lemma RootOfWord(a: MulDiv.Word, r: nat)
    requires IsRoot(a, r)
    ensures r < 0x1_0000_0000_0000_0000_0000_0000_0000_0000
  {
    assert MulDiv.W() == 0x1_0000_0000_0000_0000_0000_0000_0000_0000 * 0x1_0000_0000_0000_0000_0000_0000_0000_0000;
    SquareOrder(r, 0x1_0000_0000_0000_0000_0000_0000_0000_0000);
  }

  method AverageStep(a: nat, x: nat, ghost r: nat, ghost k: nat) returns (y: nat)
    requires IsRoot(a, r) && 0 < r < 0x1_0000_0000_0000_0000_0000_0000_0000_0000 && k > 0 && Near(x, r, k)
    ensures y == (x + a / x) / 2 && Near(y, r, 2 * (k * k)) && y > 0
  {
    hide IsRoot, MulDiv.W;
    MulDiv.WordSize();
    LaterStep(a, r, x, k);
    NoOverflow(a, r, x);
    y := ((x + a / x) % MulDiv.W()) / 2;
  }

  /** floor(sqrt(a)) for every word. */
  method Root(a: MulDiv.Word) returns (result: nat)
    ensures IsRoot(a, result)
  {
    hide IsRoot, Near, Pow2, MulDiv.W;
    if a == 0 {
      assert IsRoot(0, 0) by { ZeroRoot(); }
      return 0;
    }
    ghost var r := RootExists(a);
    RootOfWord(a, r);
    var log := Log2(a);
    SeedNearRoot(a, r, log);
    result := Pow2(log / 2);
    FirstStep(a, r, result);
    NoOverflow(a, r, result);
    result := ((result + a / result) % MulDiv.W()) / 2;
    result := AverageStep(a, result, r, 4);
    result := AverageStep(a, result, r, 32);
    result := AverageStep(a, result, r, 0x800);
    result := AverageStep(a, result, r, 0x80_0000);
    result := AverageStep(a, result, r, 0x8000_0000_0000);
    LastStep(a, r, result, 0x8000_0000_0000_0000_0000_0000);
    result := AverageStep(a, result, r, 0x8000_0000_0000_0000_0000_0000);
    result := if result < a / result then result else a / result;
  }

  lemma ZeroRoot()
    ensures IsRoot(0, 0)
  {
  }

  /** Rounded up, it is the least number whose square reaches a. */
  method RootRounded(a: MulDiv.Word, roundsUp: bool) returns (result: nat)
    ensures !roundsUp ==> IsRoot(a, result)
    ensures roundsUp ==> a <= result * result && (result > 0 ==> (result - 1) * (result - 1) < a)
  {
    var root := Root(a);
    RootOfWord(a, root);
    assert (root - 1) * (root - 1) == root * root - 2 * root + 1;
    result := root + if roundsUp && (root * root) % MulDiv.W() < a then 1 else 0;
  }
}
