/** Division and remainder by a variable modulus, primes, and Fermat's little theorem. */
module Modular {

  lemma QuotientUnique(x: int, d: int, q: int, r: int)
    requires d > 0 && x == q * d + r && 0 <= r < d
    ensures x / d == q && x % d == r
  {
    var q', r' := x / d, x % d;
    assert x == q' * d + r' && 0 <= r' < d;
    assert (q - q') * d == r' - r && (q' - q) * d == r - r';
    if q > q' {
      MulAtLeast(q - q', d);
    } else if q < q' {
      MulAtLeast(q' - q, d);
    }
  }

  lemma MulAtLeast(k: int, d: int)
    requires k >= 1 && d > 0
    ensures k * d >= d
  {
    assert (k - 1) * d >= 0;
  }

  lemma ModPlusMultiple(x: int, k: int, p: int)
    requires p > 0
    ensures (x + k * p) % p == x % p
  {
    var q, r := x / p, x % p;
    assert x + k * p == (q + k) * p + r;
    QuotientUnique(x + k * p, p, q + k, r);
  }

  lemma MulModLeft(x: int, y: int, p: int)
    requires p > 0
    ensures ((x % p) * y) % p == (x * y) % p
  {
    var q, r := x / p, x % p;
    assert x * y == r * y + (q * y) * p by {
      assert x == q * p + r;
      assert (q * p) * y == (q * y) * p;
    }
    ModPlusMultiple(r * y, q * y, p);
  }

  lemma MulModBoth(x: int, y: int, p: int)
    requires p > 0
    ensures ((x % p) * (y % p)) % p == (x * y) % p
  {
    MulModLeft(x, y % p, p);
    MulModLeft(y, x, p);
    assert x * (y % p) == (y % p) * x && x * y == y * x;
  }

  lemma AddModLeft(x: int, y: int, p: int)
    requires p > 0
    ensures (x % p + y) % p == (x + y) % p
  {
    ModPlusMultiple(x % p + y, x / p, p);
  }

  lemma SmallMod(x: int, p: int)
    requires 0 <= x < p
    ensures x % p == x
  {
  }

  // ------------------------------------------------------------------ primes

  ghost predicate Prime(p: nat) {
    p > 1 && forall d: nat | 1 < d < p :: p % d != 0
  }

  /** Euclid: a prime dividing a product with a smaller positive factor divides the other factor. */
  lemma {:induction false} Euclid(p: nat, a: nat, b: int)
    requires Prime(p) && 0 < a < p && (a * b) % p == 0
    ensures b % p == 0
    decreases a
  {
    if a > 1 {
      var q, r, k := p / a, p % a, (a * b) / p;
      assert p == q * a + r && a * b == k * p;
      calc {
        r * b;
        (p - q * a) * b;
        p * b - q * a * b;
        { assert q * a * b == q * (a * b); assert q * (k * p) == (q * k) * p; }
        (b - q * k) * p;
      }
      ModPlusMultiple(0, b - q * k, p);
      Euclid(p, r, b);
    }
  }

  // ------------------------------------------------------------------ multiplication modulo p

  function Mul(x: int, y: int, p: nat): (r: nat)
    requires p > 1
    ensures r < p
  {
    (x * y) % p
  }

  lemma MulComm(x: int, y: int, p: nat)
    requires p > 1
    ensures Mul(x, y, p) == Mul(y, x, p)
  {
  }

  lemma MulAssoc(x: int, y: int, z: int, p: nat)
    requires p > 1
    ensures Mul(x, Mul(y, z, p), p) == Mul(Mul(x, y, p), z, p)
  {
    MulModLeft(y * z, x, p);
    MulModLeft(x * y, z, p);
    assert x * ((y * z) % p) == ((y * z) % p) * x;
    assert (y * z) * x == (x * y) * z;
  }

  lemma MulSwap(x: int, y: int, z: int, p: nat)
    requires p > 1
    ensures Mul(x, Mul(y, z, p), p) == Mul(y, Mul(x, z, p), p)
  {
    hide Mul;
    MulAssoc(x, y, z, p);
    MulComm(x, y, p);
    MulAssoc(y, x, z, p);
  }

  lemma MulOne(x: nat, p: nat)
    requires x < p && p > 1
    ensures Mul(1, x, p) == x && Mul(x, 1, p) == x
  {
  }

  // ------------------------------------------------------------------ powers

  function PowMod(x: int, e: nat, p: nat): (r: nat)
    requires p > 1
    ensures r < p
  {
    if e == 0 then 1 else Mul(x, PowMod(x, e - 1, p), p)
  }

  lemma {:induction false} PowModAdd(x: int, d: nat, e: nat, p: nat)
    requires p > 1
    ensures PowMod(x, d + e, p) == Mul(PowMod(x, d, p), PowMod(x, e, p), p)
  {
    hide Mul;
    if d == 0 {
      MulOne(PowMod(x, e, p), p);
    } else {
      PowModAdd(x, d - 1, e, p);
      assert (d - 1) + e == d + e - 1;
      MulAssoc(x, PowMod(x, d - 1, p), PowMod(x, e, p), p);
    }
  }

  /** (x^d)^e = x^(d*e). */
  lemma {:induction false} PowModMul(x: int, d: nat, e: nat, p: nat)
    requires p > 1
    ensures PowMod(PowMod(x, d, p), e, p) == PowMod(x, d * e, p)
  {
    hide Mul;
    if e == 0 {
    } else {
      PowModMul(x, d, e - 1, p);
      assert d + d * (e - 1) == d * e;
      PowModAdd(x, d, d * (e - 1), p);
    }
  }

  lemma {:induction false} PowModOne(e: nat, p: nat)
    requires p > 1
    ensures PowMod(1, e, p) == 1
  {
    hide Mul;
    MulOne(1, p);
    if e == 0 {
    } else {
      PowModOne(e - 1, p);
    }
  }

  // ------------------------------------------------------------------ products over sets

  ghost function Pick(s: set<nat>): (x: nat)
    requires s != {}
    ensures x in s
  {
    var x :| x in s; x
  }

  ghost function ProdMod(s: set<nat>, p: nat): nat
    requires p > 1
  {
    if s == {} then 1 else Mul(Pick(s), ProdMod(s - {Pick(s)}, p), p)
  }

  /** Any element can be split off a product. */
  lemma {:induction false} ProdSplit(s: set<nat>, y: nat, p: nat)
    requires p > 1 && y in s
    ensures ProdMod(s, p) == Mul(y, ProdMod(s - {y}, p), p)
    decreases |s|
  {
    hide Mul;
    var x := Pick(s);
    if x != y {
      ProdSplit(s - {x}, y, p);
      ProdSplit(s - {y}, x, p);
      assert s - {x} - {y} == s - {y} - {x};
      MulSwap(x, y, ProdMod(s - {x} - {y}, p), p);
    }
  }

  function Range(n: nat): set<nat> {
    if n == 0 then {} else Range(n - 1) + {n}
  }

  lemma {:induction false} RangeContents(n: nat)
    ensures forall v: nat :: v in Range(n) <==> 1 <= v <= n
    ensures |Range(n)| == n
  {
    if n == 0 {
    } else {
      RangeContents(n - 1);
    }
  }

  /** Residues of a, 2a, ..., na. */
  function Multiples(a: nat, n: nat, p: nat): set<nat>
    requires p > 1
  {
    if n == 0 then {} else Multiples(a, n - 1, p) + {Mul(a, n, p)}
  }

  lemma {:induction false} MultipleOrigin(a: nat, n: nat, p: nat, v: nat) returns (i: nat)
    requires p > 1 && v in Multiples(a, n, p)
    ensures 1 <= i <= n && v == Mul(a, i, p)
  {
    hide Mul;
    if v == Mul(a, n, p) {
      i := n;
    } else {
      i := MultipleOrigin(a, n - 1, p, v);
    }
  }

  /** Multiples of a by different numbers below a prime have different residues. */
  lemma MultiplesDiffer(p: nat, a: nat, i: nat, j: nat)
    requires Prime(p) && 0 < a < p && 0 < i < p && j < i
    ensures Mul(a, i, p) != Mul(a, j, p)
  {
    if (a * i) % p == (a * j) % p {
      var q1, q2, r := (a * i) / p, (a * j) / p, (a * i) % p;
      assert a * i == q1 * p + r && a * j == q2 * p + r;
      assert a * (i - j) == (q1 - q2) * p by {
        assert a * (i - j) == a * i - a * j;
        assert (q1 - q2) * p == q1 * p - q2 * p;
      }
      ModPlusMultiple(0, q1 - q2, p);
      Euclid(p, a, i - j);
      SmallMod(i - j, p);
    }
  }

  lemma MultipleNotZero(p: nat, a: nat, i: nat)
    requires Prime(p) && 0 < a < p && 0 < i < p
    ensures 0 < Mul(a, i, p)
  {
    hide Mul, Prime;
    MultiplesDiffer(p, a, i, 0);
    MulZero(a, p);
  }

  lemma MulZero(x: int, p: nat)
    requires p > 1
    ensures Mul(x, 0, p) == 0
  {
    assert x * 0 == 0;
  }

  /** Product and size of the first n multiples. */
  lemma {:induction false} ProdOfMultiples(p: nat, a: nat, n: nat)
    requires Prime(p) && 0 < a < p && n < p
    ensures ProdMod(Multiples(a, n, p), p) == Mul(PowMod(a, n, p), ProdMod(Range(n), p), p)
    ensures |Multiples(a, n, p)| == n
    ensures forall v | v in Multiples(a, n, p) :: 0 < v < p
  {
    hide Mul, Prime;
    if n == 0 {
      MulOne(1, p);
    } else {
      ProdOfMultiples(p, a, n - 1);
      var m, v := Multiples(a, n - 1, p), Mul(a, n, p);
      if v in m {
        var i := MultipleOrigin(a, n - 1, p, v);
        MultiplesDiffer(p, a, n, i);
        assert false;
      }
      MultipleNotZero(p, a, n);
      assert Multiples(a, n, p) - {v} == m;
      ProdSplit(Multiples(a, n, p), v, p);
      RangeContents(n - 1);
      assert Range(n) - {n} == Range(n - 1);
      ProdSplit(Range(n), n, p);
      ProductStep(a, n, PowMod(a, n - 1, p), ProdMod(Range(n - 1), p), p);
    }
  }

  lemma ProductStep(a: nat, n: nat, u: nat, w: nat, p: nat)
    requires p > 1
    ensures Mul(Mul(a, n, p), Mul(u, w, p), p) == Mul(Mul(a, u, p), Mul(n, w, p), p)
  {
    hide Mul;
    MulAssoc(a, n, Mul(u, w, p), p);
    MulSwap(n, u, w, p);
    MulAssoc(a, u, Mul(n, w, p), p);
  }

  lemma {:induction false} SubsetSize(a: set<nat>, b: set<nat>)
    requires a <= b
    ensures |a| <= |b| && (|a| == |b| ==> a == b)
    decreases |a|
  {
    if a != {} {
      var x :| x in a;
      SubsetSize(a - {x}, b - {x});
      assert a == (a - {x}) + {x} && b == (b - {x}) + {x};
    }
  }

  lemma {:induction false} FactorialNotZero(p: nat, n: nat)
    requires Prime(p) && n < p
    ensures 0 < ProdMod(Range(n), p) < p
  {
    if n == 0 {
    } else {
      FactorialNotZero(p, n - 1);
      RangeContents(n - 1);
      assert Range(n) - {n} == Range(n - 1);
      ProdSplit(Range(n), n, p);
      MultipleNotZero(p, n, ProdMod(Range(n - 1), p));
    }
  }

  /** A non-zero factor that leaves a residue unchanged cannot be told from 1. */
  lemma CancelFactor(p: nat, x: nat, f: nat)
    requires Prime(p) && x < p && 0 < f < p && Mul(x, f, p) == f
    ensures x == 1
  {
    var q := (x * f) / p;
    assert x * f == q * p + f;
    assert f * (x - 1) == q * p by { assert f * (x - 1) == x * f - f; }
    ModPlusMultiple(0, q, p);
    Euclid(p, f, x - 1);
    if x == 0 {
      QuotientUnique(-1, p, -1, p - 1);
    } else {
      SmallMod(x - 1, p);
    }
  }

  /** Fermat's little theorem. */
  lemma Fermat(p: nat, a: nat)
    requires Prime(p) && 0 < a < p
    ensures PowMod(a, p - 1, p) == 1
  {
    hide Mul, Prime, PowMod, ProdMod;
    var n := p - 1;
    ProdOfMultiples(p, a, n);
    RangeContents(n);
    assert Multiples(a, n, p) <= Range(n);
    SubsetSize(Multiples(a, n, p), Range(n));
    FactorialNotZero(p, n);
    CancelFactor(p, PowMod(a, n, p), ProdMod(Range(n), p));
  }
}
