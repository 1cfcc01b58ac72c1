/** Bitwise operations on unbounded naturals. */
module Bits {
  import opened Field
  import WideArith

  function And(a: nat, b: nat): nat {
    if a == 0 || b == 0 then 0 else (if a % 2 == 1 && b % 2 == 1 then 1 else 0) + 2 * And(a / 2, b / 2)
  }

  function Or(a: nat, b: nat): nat {
    if a == 0 then b else if b == 0 then a
    else (if a % 2 == 1 || b % 2 == 1 then 1 else 0) + 2 * Or(a / 2, b / 2)
  }

  function Xor(a: nat, b: nat): nat {
    if a == 0 then b else if b == 0 then a
    else (if a % 2 != b % 2 then 1 else 0) + 2 * Xor(a / 2, b / 2)
  }

  lemma {:induction false} Pow2Add(m: nat, n: nat)
    ensures Pow2(m + n) == Pow2(m) * Pow2(n)
  {
    if m == 0 {
    } else {
      Pow2Add(m - 1, n);
      assert Pow2(m + n) == 2 * Pow2(m - 1 + n);
      assert 2 * (Pow2(m - 1) * Pow2(n)) == (2 * Pow2(m - 1)) * Pow2(n);
    }
  }

  /** Largest power of two dividing d. */
  function TrailingZeros(d: nat): nat
    requires d > 0
  {
    if d % 2 == 1 then 0 else 1 + TrailingZeros(d / 2)
  }

  lemma {:induction false} OddPart(d: nat)
    requires d > 0
    ensures var t := Pow2(TrailingZeros(d)); d / t * t == d && (d / t) % 2 == 1
  {
    if d % 2 == 0 {
      OddPart(d / 2);
      OddPartDoubled(d, TrailingZeros(d / 2));
    } else {
      assert Pow2(0) == 1;
    }
  }

  lemma OddPartDoubled(d: nat, k: nat)
    requires d > 0 && d % 2 == 0
    requires var t := Pow2(k); d / 2 / t * t == d / 2 && (d / 2 / t) % 2 == 1
    ensures var t := Pow2(k + 1); d / t * t == d && (d / t) % 2 == 1
  {
    hide Pow2;
    var t, q := Pow2(k), d / 2 / Pow2(k);
    assert Pow2(k + 1) == 2 * t by { Doubled(k); }
    assert q * (2 * t) == d by { assert q * (2 * t) == 2 * (q * t); }
    WideArith.DivExact(d, 2 * t, q);
  }

  lemma Doubled(k: nat)
    ensures Pow2(k + 1) == 2 * Pow2(k)
  {
  }

  lemma {:induction false} TrailingZerosBound(d: nat, n: nat)
    requires 0 < d < Pow2(n)
    ensures TrailingZeros(d) < n
  {
    assert Pow2(0) == 1;
    if d % 2 == 0 {
      TrailingZerosBound(d / 2, n - 1);
    }
  }

  /** A number and its complement share no bit. */
  lemma {:induction false} AndComplement(e: nat, m: nat)
    requires e < Pow2(m)
    ensures And(e, Pow2(m) - 1 - e) == 0
  {
    if m > 0 && e > 0 && Pow2(m) - 1 - e > 0 {
      var f := Pow2(m) - 1 - e;
      assert f / 2 == Pow2(m - 1) - 1 - e / 2 && e % 2 + f % 2 == 1;
      AndComplement(e / 2, m - 1);
    }
  }

  /** x & -x isolates the lowest set bit. */
  lemma {:induction false} AndNegative(d: nat, n: nat)
    requires 0 < d < Pow2(n)
    ensures And(d, Pow2(n) - d) == Pow2(TrailingZeros(d))
  {
    assert n > 0 by { assert Pow2(0) == 1; }
    var e := Pow2(n) - d;
    if d % 2 == 0 {
      assert e % 2 == 0 && e / 2 == Pow2(n - 1) - d / 2;
      AndNegative(d / 2, n - 1);
    } else {
      assert e % 2 == 1 && e / 2 == Pow2(n - 1) - 1 - d / 2;
      AndComplement(d / 2, n - 1);
      assert Pow2(0) == 1;
    }
  }

  /** Numbers with no common bit positions are joined by addition. */
  lemma {:induction false} OrDisjoint(a: nat, b: nat, n: nat)
    requires a < Pow2(n)
    ensures Or(a, b * Pow2(n)) == a + b * Pow2(n)
  {
    if n == 0 {
      assert Pow2(0) == 1;
    } else if a > 0 && b > 0 {
      var c := b * Pow2(n);
      assert c == 2 * (b * Pow2(n - 1)) by { assert Pow2(n) == 2 * Pow2(n - 1); }
      assert c / 2 == b * Pow2(n - 1) && c % 2 == 0 && c > 0;
      OrDisjoint(a / 2, b, n - 1);
    }
  }

  lemma XorTwo(a: nat)
    ensures Xor(a, 2) == if (a / 2) % 2 == 1 then a - 2 else a + 2
  {
    var e := a / 2;
    if a > 0 {
      assert Xor(a, 2) == a % 2 + 2 * Xor(e, 1);
      if e > 0 {
        assert Xor(e, 1) == (if e % 2 != 1 then 1 else 0) + 2 * Xor(e / 2, 0);
        assert Xor(e / 2, 0) == e / 2;
      }
    }
  }
}
