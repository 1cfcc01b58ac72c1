/** Word arithmetic for an arbitrary word size w: high words, exact division, modular inverses. */
module WideArith {
  import opened Modular

  lemma MulMonotone(a: int, b: int, c: nat)
    requires a <= b
    ensures a * c <= b * c
  {
  }

  lemma DivExact(x: int, d: nat, q: int)
    requires d > 0 && x == q * d
    ensures x / d == q && x % d == 0
  {
    QuotientUnique(x, d, q, 0);
  }

  lemma ProductBound(x: nat, y: nat, w: nat)
    requires x < w && y < w
    ensures x * y <= (w - 1) * (w - 1)
  {
    MulMonotone(x, w - 1, y);
    MulMonotone(y, w - 1, w - 1);
    assert (w - 1) * y == y * (w - 1);
  }

  lemma HighBelow(n: nat, hi: nat, lo: nat, w: nat)
    requires w > 2 && n == hi * w + lo && n <= (w - 1) * (w - 1)
    ensures hi <= w - 2
  {
    assert (w - 1) * w == (w - 1) * (w - 1) + (w - 1);
    if hi >= w - 1 {
      MulMonotone(w - 1, hi, w);
    }
  }

  lemma SubtractWords(hi: nat, lo: nat, mm: nat, w: nat)
    requires w > 2 && hi <= w - 2 && lo < w
    requires mm == if hi + lo < w - 1 then hi + lo else hi + lo - (w - 1)
    ensures (mm - lo - if mm < lo then 1 else 0) % w == hi
  {
    if hi + lo < w - 1 {
      SmallMod(hi, w);
    } else {
      QuotientUnique(hi - w, w, -1, hi);
    }
  }

  /** The high word of a product, recovered from the product modulo w and modulo w - 1. */
  lemma HighWord(n: nat, w: nat)
    requires w > 2 && n <= (w - 1) * (w - 1)
    ensures var lo, mm := n % w, n % (w - 1);
            (mm - lo - if mm < lo then 1 else 0) % w == n / w
    ensures n / w * w + n % w == n
  {
    var hi, lo := n / w, n % w;
    assert n == hi * w + lo;
    HighBelow(n, hi, lo, w);
    assert hi * w == hi * (w - 1) + hi && (hi + 1) * (w - 1) == hi * (w - 1) + (w - 1);
    if hi + lo < w - 1 {
      QuotientUnique(n, w - 1, hi, hi + lo);
    } else {
      QuotientUnique(n, w - 1, hi + 1, hi + lo - (w - 1));
    }
    SubtractWords(hi, lo, n % (w - 1), w);
  }

  lemma QuotientFits(n: nat, hi: nat, lo: nat, d: nat, w: nat)
    requires n == hi * w + lo && lo < w && d > 0
    ensures n / d < w <==> hi < d
  {
    var q, r := n / d, n % d;
    assert n == q * d + r && w * d == d * w;
    assert (hi + 1) * w == hi * w + w && (q + 1) * d == q * d + d;
    if hi < d {
      MulMonotone(hi + 1, d, w);
      if q >= w {
        MulMonotone(w, q, d);
      }
    } else {
      MulMonotone(d, hi, w);
      if q < w {
        MulMonotone(q + 1, w, d);
      }
    }
  }

  lemma ModOfMod(x: int, m: nat, c: nat, w: nat)
    requires m > 0 && w == m * c && w > 0
    ensures (x % w) % m == x % m
  {
    var k := x / w;
    assert x == k * w + x % w;
    assert k * w == (k * c) * m by { assert k * (m * c) == (k * c) * m; }
    ModPlusMultiple(x % w, k * c, m);
  }

  /** The high word times u, split at the word size w = t * u. */
  lemma SplitAtWord(hi: nat, u: nat, t: nat, w: nat)
    requires t > 0 && t * u == w > 0
    ensures hi * u == (hi / t) * w + (hi % t) * u
    ensures u > 0 && (hi % t) * u <= w - u
  {
    var a, b := hi / t, hi % t;
    assert t * 0 == 0;
    assert hi == a * t + b;
    assert hi * u == (a * t) * u + b * u;
    assert (a * t) * u == a * (t * u);
    MulMonotone(b, t - 1, u);
    assert (t - 1) * u == t * u - u;
  }

  /** Dividing a two-word multiple of t by t, when t times u is the word size. */
  lemma ShiftedWords(hi: nat, lo: nat, q: nat, t: nat, u: nat, w: nat)
    requires q * t == hi * w + lo && lo < w && t > 0 && t * u == w
    ensures lo / t < u
    ensures (hi * (u % w)) % w == (hi % t) * u
    ensures lo / t + (hi % t) * u < w
    ensures q % w == lo / t + (hi % t) * u
  {
    LowPart(hi, lo, q, t, u, w);
    HighPart(hi, u, t, w);
    SplitAtWord(hi, u, t, w);
    AssembleWord(q, hi * u, hi / t, (hi % t) * u, lo / t, w);
  }

  lemma AssembleWord(q: nat, high: int, carry: int, part: nat, low: int, w: nat)
    requires low == q - high && high == carry * w + part && 0 <= low && low + part < w
    ensures q % w == low + part
  {
    QuotientUnique(q, w, carry, low + part);
  }

  lemma LowPart(hi: nat, lo: nat, q: nat, t: nat, u: nat, w: nat)
    requires q * t == hi * w + lo && lo < w && t > 0 && t * u == w
    ensures 0 <= q - hi * u < u && lo / t == q - hi * u
  {
    var a := q - hi * u;
    assert lo == a * t by {
      assert (q - hi * u) * t == q * t - (hi * u) * t;
      assert (hi * u) * t == hi * (t * u);
    }
    assert u * t == t * u;
    if a < 0 {
      MulMonotone(a, -1, t);
    }
    DivExact(lo, t, a);
    if a >= u {
      MulMonotone(u, a, t);
    }
  }

  lemma HighPart(hi: nat, u: nat, t: nat, w: nat)
    requires t > 0 && t * u == w && w > 0
    ensures (hi * (u % w)) % w == (hi % t) * u
  {
    MulModLeft(u, hi, w);
    assert u * hi == hi * u && (u % w) * hi == hi * (u % w);
    SplitAtWord(hi, u, t, w);
    QuotientUnique(hi * u, w, hi / t, (hi % t) * u);
  }

  /** One Newton step for the inverse of d modulo w. */
  function NewtonStep(d: nat, inverse: nat, w: nat): (r: nat)
    requires w > 0
    ensures r < w
  {
    (inverse * ((2 - d * inverse) % w)) % w
  }

  lemma NewtonProduct(d: nat, inverse: nat, w: nat)
    requires w > 0
    ensures (d * NewtonStep(d, inverse, w)) % w == ((d * inverse) * (2 - d * inverse)) % w
  {
    var e := d * inverse;
    var s := (2 - e) % w;
    MulModLeft(inverse * s, d, w);
    assert ((inverse * s) % w) * d == d * ((inverse * s) % w);
    assert (inverse * s) * d == s * e;
    MulModLeft(2 - e, e, w);
    assert (2 - e) * e == e * (2 - e);
  }

  /** Each step doubles the number of digits to which the inverse is right. */
  lemma NewtonDoubles(d: nat, inverse: nat, m: nat, c: nat, w: nat)
    requires m > 1 && w == (m * m) * c && w > 0 && (d * inverse) % m == 1
    ensures (d * NewtonStep(d, inverse, w)) % (m * m) == 1
  {
    hide NewtonStep;
    var e, mm := d * inverse, m * m;
    var k := e / m;
    assert e == k * m + 1;
    NewtonProduct(d, inverse, w);
    MulAtLeast(m, m);
    ModOfMod(d * NewtonStep(d, inverse, w), mm, c, w);
    ModOfMod(e * (2 - e), mm, c, w);
    SquareStep(k, m);
    ModPlusMultiple(1, -(k * k), mm);
    SmallMod(1, mm);
  }

  lemma SquareStep(k: int, m: int)
    ensures (k * m + 1) * (2 - (k * m + 1)) == 1 + (-(k * k)) * (m * m)
  {
    var e := k * m;
    assert (e + 1) * (1 - e) == 1 - e * e;
    assert e * e == (k * k) * (m * m);
  }

  /** Multiplying by the inverse divides an exact multiple. */
  lemma InverseDivides(q: nat, d: nat, inverse: nat, w: nat)
    requires w > 1 && q < w && (d * inverse) % w == 1
    ensures (((q * d) % w) * inverse) % w == q
  {
    MulModLeft(q * d, inverse, w);
    assert (q * d) * inverse == (d * inverse) * q;
    MulModLeft(d * inverse, q, w);
    assert 1 * q == q;
    SmallMod(q, w);
  }

  /** w / t computed as (-t mod w) / t + 1. */
  lemma FlippedPower(t: nat, u: nat, w: nat)
    requires 0 < t < w && t * u == w
    ensures (((0 - t) % w) / t + 1) == u
  {
    QuotientUnique(0 - t, w, -1, w - t);
    assert (u - 1) * t == t * u - t;
    DivExact(w - t, t, u - 1);
  }
}
