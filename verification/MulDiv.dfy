/** 512-bit multiply-and-divide on 256-bit words. */
module MulDiv {
  import opened Field
  import opened Bits
  import opened Modular
  import opened WideArith

  /** Number of values of a 256-bit word. */
  function W(): nat {
    0x1_0000000000000000_0000000000000000_0000000000000000_0000000000000000
  }

  type Word = x: int | 0 <= x < W()

  datatype Result = Reverted | Value(quotient: nat)

  lemma Squared(n: nat, v: nat)
    requires Pow2(n) == v
    ensures Pow2(n + n) == v * v
  {
    hide Pow2;
    Pow2Add(n, n);
  }

  lemma WordSize()
    ensures W() == Pow2(256) && W() > 16
  {
    hide Pow2;
    assert Pow2(4) == 0x10 by { FourBits(); }
    Squared(4, 0x10);
    Squared(8, 0x100);
    Squared(16, 0x1_0000);
    Squared(32, 0x1_0000_0000);
    Squared(64, 0x1_0000_0000_0000_0000);
    Squared(128, 0x1_0000_0000_0000_0000_0000_0000_0000_0000);
  }

  lemma FourBits()
    ensures Pow2(4) == 0x10
  {
    assert Pow2(2) == 4;
  }

  // ------------------------------------------------------------------ the modular inverse

  /** The seed (3d) ^ 2 inverts an odd d modulo 16. */
  lemma SeedInverts(d: nat, w: nat)
    requires d % 2 == 1 && w > 16 && w == 16 * (w / 16)
    ensures (d * Xor((3 * d) % w, 2)) % 16 == 1
  {
    hide Xor;
    var a := (3 * d) % w;
    XorTwo(a);
    ModOfMod(3 * d, 16, w / 16, w);
    SeedOfResidue(d, a, Xor(a, 2));
  }

  lemma SeedOfResidue(d: nat, a: nat, i: nat)
    requires d % 2 == 1 && a % 16 == (3 * d) % 16
    requires i == if (a / 2) % 2 == 1 then a - 2 else a + 2
    ensures (d * i) % 16 == 1
  {
    MulModBoth(d, i, 16);
    SeedResidue(a, a / 16, a % 16, i);
    TripleResidue(d);
    SeedTable(d % 16, a % 16, i % 16);
  }

  lemma TripleResidue(d: nat)
    ensures (3 * d) % 16 == (3 * (d % 16)) % 16 && (d % 16) % 2 == d % 2
  {
    TripleOf(d, d / 16, d % 16);
  }

  lemma TripleOf(d: nat, q: nat, r: nat)
    requires d == 16 * q + r
    ensures (3 * d) % 16 == (3 * r) % 16 && r % 2 == d % 2
  {
    ModPlusMultiple(3 * r, 3 * q, 16);
    ModPlusMultiple(r, 8 * q, 2);
  }

  lemma SecondDigit(a: nat, q: nat, r: nat)
    requires a == 16 * q + r
    ensures (a / 2) % 2 == (r / 2) % 2
  {
    QuotientUnique(a, 2, 8 * q + r / 2, r % 2);
    ModPlusMultiple(r / 2, 4 * q, 2);
  }

  lemma SeedResidue(a: nat, q: nat, r: nat, inverse: nat)
    requires a == 16 * q + r && r < 16
    requires inverse == if (a / 2) % 2 == 1 then a - 2 else a + 2
    ensures inverse % 16 == if (r / 2) % 2 == 1 then r - 2 else (r + 2) % 16
  {
    assert (a / 2) % 2 == (r / 2) % 2 by { SecondDigit(a, q, r); }
    if (r / 2) % 2 == 1 {
      QuotientUnique(inverse, 16, q, r - 2);
    } else if r < 14 {
      QuotientUnique(inverse, 16, q, r + 2);
    }
  }

  lemma SeedTable(r: nat, a: nat, i: nat)
    requires r < 16 && r % 2 == 1 && a == (3 * r) % 16
    requires i == if (a / 2) % 2 == 1 then a - 2 else (a + 2) % 16
    ensures (r * i) % 16 == 1
  {
    assert r == 1 || r == 3 || r == 5 || r == 7 || r == 9 || r == 11 || r == 13 || r == 15;
  }

  lemma SeedFits(d: nat, w: nat)
    requires d % 2 == 1 && w > 16 && w % 4 == 0
    ensures Xor((3 * d) % w, 2) < w
  {
    hide Xor;
    var a := (3 * d) % w;
    XorTwo(a);
    TwoMoreFits(a, w, a / 4, a % 4, w / 4);
  }

  lemma TwoMoreFits(a: nat, w: nat, p: nat, r: nat, v: nat)
    requires a < w && w == 4 * v && a == 4 * p + r && r < 4
    ensures (a / 2) % 2 == 0 ==> a + 2 < w
  {
    QuotientUnique(a, 2, 2 * p + r / 2, r % 2);
    ModPlusMultiple(r / 2, p, 2);
  }

  /** Seed and six Newton steps: 4, 8, 16, 32, 64, 128 and 256 correct bits. */
  method Inverse(d: Word) returns (inverse: nat)
    requires d % 2 == 1
    ensures (d * inverse) % W() == 1
  {
    hide Xor, NewtonStep;
    SeedInverts(d, W());
    SeedFits(d, W());
    inverse := Xor((3 * d) % W(), 2);
    NewtonDoubles(d, inverse, 0x10, W() / 0x100, W());
    inverse := NewtonStep(d, inverse, W());
    NewtonDoubles(d, inverse, 0x100, W() / 0x1_0000, W());
    inverse := NewtonStep(d, inverse, W());
    NewtonDoubles(d, inverse, 0x1_0000, W() / 0x1_0000_0000, W());
    inverse := NewtonStep(d, inverse, W());
    NewtonDoubles(d, inverse, 0x1_0000_0000, W() / 0x1_0000_0000_0000_0000, W());
    inverse := NewtonStep(d, inverse, W());
    NewtonDoubles(d, inverse, 0x1_0000_0000_0000_0000, W() / 0x1_0000_0000_0000_0000_0000_0000_0000_0000, W());
    inverse := NewtonStep(d, inverse, W());
    NewtonDoubles(d, inverse, 0x1_0000_0000_0000_0000_0000_0000_0000_0000, 1, W());
    inverse := NewtonStep(d, inverse, W());
  }

  // ------------------------------------------------------------------ the power of two in the denominator

  /** d & -d is the largest power of two dividing d, and it divides the word size. */
  lemma TwosOf(d: Word, twos: nat)
    requires d > 0 && twos == And(d, (0 - d) % W())
    ensures 0 < twos < W() && twos == Pow2(TrailingZeros(d)) && TrailingZeros(d) < 256
    ensures twos * Pow2(256 - TrailingZeros(d)) == W()
    ensures (d / twos) * twos == d && (d / twos) % 2 == 1
  {
    hide And, Pow2, TrailingZeros, W;
    WordSize();
    QuotientUnique(0 - d, W(), -1, W() - d);
    AndNegative(d, 256);
    TrailingZerosBound(d, 256);
    OddPart(d);
    Pow2Add(TrailingZeros(d), 256 - TrailingZeros(d));
    FactorBounds(d, twos, d / twos);
  }

  lemma FactorBounds(d: nat, t: nat, q: nat)
    requires d > 0 && q * t == d
    ensures 0 < t <= d && 0 < q <= d
  {
    assert 0 * t == 0 && q * 0 == 0;
    MulMonotone(1, q, t);
    MulMonotone(1, t, q);
  }

  // ------------------------------------------------------------------ the whole operation

  function Product(x: nat, y: nat): nat {
    x * y
  }

  /** The EVM's mulmod: the full product reduced modulo m. */
  function MulMod(x: nat, y: nat, m: nat): nat
    requires m > 0
  {
    Product(x, y) % m
  }

  /** The promised result: the quotient when it is a word, a revert otherwise. */
  function FloorOrRevert(n: nat, d: nat): Result {
    if d > 0 && n / d < W() then Value(n / d) else Reverted
  }

  /** floor(x * y / denominator) whenever it fits a word; otherwise, and for a zero denominator, a revert. */
  method MulDivide(x: Word, y: Word, denominator: Word) returns (result: Result)
    ensures result == FloorOrRevert(Product(x, y), denominator)
  {
    hide W, Product;
    WordSize();
    var prod0, prod1 := FullProduct(x, y);
    QuotientOfWords(Product(x, y), prod1, prod0, denominator);
    if prod1 == 0 {
      if denominator == 0 {
        return Reverted;
      }
      return Value(prod0 / denominator);
    }
    if denominator <= prod1 {
      return Reverted;
    }
    result := LongDivide(x, y, prod1, prod0, denominator);
  }

  lemma QuotientOfWords(n: nat, high: Word, low: Word, d: Word)
    requires n == high * W() + low
    ensures high == 0 && d > 0 ==> FloorOrRevert(n, d) == Value(low / d)
    ensures high >= d ==> FloorOrRevert(n, d) == Reverted
    ensures high < d ==> FloorOrRevert(n, d) == Value(n / d) && n / d < W()
  {
    hide W;
    if d > 0 {
      QuotientFits(n, high, low, d, W());
    }
    if high == 0 {
      assert n == low by { assert 0 * W() == 0; }
    }
  }

  method FullProduct(x: Word, y: Word) returns (prod0: Word, prod1: Word)
    ensures prod1 * W() + prod0 == Product(x, y)
  {
    hide W;
    WordSize();
    ghost var n := Product(x, y);
    ProductBound(x, y, W());
    HighWord(n, W());
    prod0 := (x * y) % W();
    var mm := MulMod(x, y, W() - 1);
    prod1 := (mm - prod0 - if mm < prod0 then 1 else 0) % W();
  }

  lemma ExactPart(x: nat, y: nat, d: nat)
    requires d > 0
    ensures Product(x, y) / d * d == Product(x, y) - MulMod(x, y, d) && MulMod(x, y, d) < d
  {
    hide Product;
    var n := Product(x, y);
    assert n == n / d * d + n % d;
  }

  /** The quotient fits, so it is found exactly modulo 2^256. */
  method LongDivide(x: Word, y: Word, high: Word, low: Word, d: Word) returns (result: Result)
    requires high * W() + low == Product(x, y) && high < d
    ensures result == Value(Product(x, y) / d)
  {
    hide Or, And, Pow2, W, TrailingZeros, Product, MulMod, FloorOrRevert;
    WordSize();
    ghost var q := Product(x, y) / d;
    QuotientOfWords(Product(x, y), high, low, d);
    var remainder := MulMod(x, y, d);
    ExactPart(x, y, d);
    var prod1, prod0 := SubtractRemainder(high, low, remainder, q * d);
    var twos, odd := SplitDenominator(d);
    prod0 := DivideOutTwos(prod1, prod0, twos, odd, q);
    var inverse := Inverse(odd);
    InverseDivides(q, odd, inverse, W());
    result := Value((prod0 * inverse) % W());
  }

  method SubtractRemainder(high: Word, low: Word, remainder: nat, ghost exact: nat)
    returns (prod1: nat, prod0: nat)
    requires exact == high * W() + low - remainder && remainder < W()
    ensures prod1 * W() + prod0 == exact && prod0 < W()
  {
    hide W;
    if remainder > low {
      QuotientUnique(low - remainder, W(), -1, low - remainder + W());
      assert (high - 1) * W() == high * W() - W();
      assert high > 0 by { assert 0 * W() == 0; }
    } else {
      SmallMod(low - remainder, W());
    }
    prod1 := high - if remainder > low then 1 else 0;
    prod0 := (low - remainder) % W();
  }

  method SplitDenominator(d: Word) returns (twos: nat, odd: nat)
    requires d > 0
    ensures 0 < odd < W() && odd % 2 == 1 && odd * twos == d
    ensures IsPowerOfTwo(twos)
  {
    hide And, Pow2, W, TrailingZeros;
    twos := And(d, (0 - d) % W());
    TwosOf(d, twos);
    odd := d / twos;
    FactorBounds(d, twos, odd);
  }

  /** A power of two below the word size, so it divides the word size. */
  ghost predicate IsPowerOfTwo(twos: nat) {
    0 < twos < W() && exists k :: twos * Pow2(k) == W()
  }

  /** The second word's low part, scaled by the word size over twos, fills the bits the shift freed. */
  lemma JoinedWords(prod1: nat, prod0: nat, exact: nat, twos: nat, u: nat, k: nat, w: nat)
    requires exact * twos == prod1 * w + prod0 && prod0 < w && 0 < twos < w
    requires u == Pow2(k) && twos * u == w
    ensures exact % w == Or(prod0 / twos, (prod1 * ((((0 - twos) % w) / twos + 1) % w)) % w)
  {
    hide Or, Pow2;
    FlippedPower(twos, u, w);
    ShiftedWords(prod1, prod0, exact, twos, u, w);
    OrDisjoint(prod0 / twos, prod1 % twos, k);
  }

  /** prod1 : prod0 divided by twos, keeping the low word. */
  method DivideOutTwos(prod1: nat, prod0: nat, twos: nat, ghost odd: nat, ghost q: nat) returns (word: nat)
    requires prod1 * W() + prod0 == q * (odd * twos) && prod0 < W() && IsPowerOfTwo(twos)
    ensures word == (q * odd) % W()
  {
    hide Or, Pow2, W;
    ghost var k :| twos * Pow2(k) == W();
    assert (q * odd) * twos == q * (odd * twos);
    JoinedWords(prod1, prod0, q * odd, twos, Pow2(k), k, W());
    var flipped := (((0 - twos) % W()) / twos + 1) % W();
    word := Or(prod0 / twos, (prod1 * flipped) % W());
  }

  // ------------------------------------------------------------------ the rounding overload

  /** Least quotient whose product with d reaches n. */
  ghost predicate IsCeiling(n: nat, d: nat, q: nat) {
    n <= q * d && (q > 0 ==> (q - 1) * d < n)
  }

  lemma CeilingOfFloor(n: nat, d: nat)
    requires d > 0
    ensures IsCeiling(n, d, if n % d > 0 then n / d + 1 else n / d)
  {
    var q := n / d;
    assert n == q * d + n % d;
    assert (q + 1) * d == q * d + d && (q - 1) * d == q * d - d;
  }

  /** Rounding up gives the ceiling; the increment reverts exactly when the ceiling is not a word. */
  method MulDivideRounded(x: Word, y: Word, denominator: Word, roundsUp: bool) returns (result: Result)
    ensures !roundsUp ==> result == FloorOrRevert(Product(x, y), denominator)
    ensures roundsUp && result.Value? ==>
              result.quotient < W() && IsCeiling(Product(x, y), denominator, result.quotient)
    ensures roundsUp && result.Reverted? ==>
      denominator == 0 || (exists q :: q >= W() && IsCeiling(Product(x, y), denominator, q))
  {
    hide Product, W;
    result := MulDivide(x, y, denominator);
    if roundsUp && denominator > 0 {
      CeilingOfFloor(Product(x, y), denominator);
      if result.Value? && MulMod(x, y, denominator) > 0 {
        result := if result.quotient + 1 < W() then Value(result.quotient + 1) else Reverted;
      }
    }
  }
}
