/** The contract's MiMC library: the block cipher, its hash, and why each key permutes the field. */
module MiMC {
  import opened Field
  import opened Modular

  /** addmod and mulmod over the field order, on 256-bit words. */
  function AddMod(x: nat, y: nat): Fe {
    (x + y) % Q
  }

  function MulMod(x: nat, y: nat): Fe {
    (x * y) % Q
  }

  function Fifth(x: Fe): Fe {
    MulMod(MulMod(MulMod(x, x), MulMod(x, x)), x)
  }

  /** State after the first n rounds; `c` holds the round constants. */
  function Rounds(c: seq<Fe>, m: nat, k: nat, n: nat): nat
    requires n <= |c|
  {
    if n == 0 then m else Fifth(AddMod(AddMod(Rounds(c, m, k, n - 1), k), c[n - 1]))
  }

  function Cipher(c: seq<Fe>, m: nat, k: nat): Fe {
    AddMod(Rounds(c, m, k, |c|), k)
  }

  method Encrypt(c: seq<Fe>, m: nat, k: nat) returns (out: Fe)
    ensures out == Cipher(c, m, k)
  {
    var cur := m;
    for i := 0 to |c|
      invariant cur == Rounds(c, m, k, i)
    {
      var tmp := AddMod(cur, k);
      tmp := AddMod(tmp, c[i]);
      var tmp2 := MulMod(tmp, tmp);
      var tmp4 := MulMod(tmp2, tmp2);
      cur := MulMod(tmp4, tmp);
    }
    out := AddMod(cur, k);
  }

  /** Digest of the first n words. */
  function Chain(c: seq<Fe>, data: seq<nat>, n: nat): Fe
    requires n <= |data|
  {
    if n == 0 then 0
    else
      var h := Chain(c, data, n - 1);
      AddMod(AddMod(Cipher(c, data[n - 1], h), h), data[n - 1])
  }

  method HashData(c: seq<Fe>, data: seq<nat>) returns (h: Fe)
    ensures h == Chain(c, data, |data|)
  {
    h := 0;
    for i := 0 to |data|
      invariant h == Chain(c, data, i)
    {
      var r := Encrypt(c, data[i], h);
      h := AddMod(AddMod(r, h), data[i]);
    }
  }

  // ------------------------------------------------------------------ words are seen modulo Q

  lemma CipherOfResidue(c: seq<Fe>, m: nat, k: nat)
    ensures Cipher(c, m, k) == Cipher(c, Reduce(m), k)
  {
    AddModLeft(m, k, Q);
    if |c| > 0 {
      RoundsOfResidue(c, m, k, |c|);
    }
  }

  lemma {:induction false} RoundsOfResidue(c: seq<Fe>, m: nat, k: nat, n: nat)
    requires 0 < n <= |c|
    ensures Rounds(c, m, k, n) == Rounds(c, Reduce(m), k, n)
  {
    hide Fifth;
    if n == 1 {
      AddModLeft(m, k, Q);
      assert Rounds(c, m, k, 0) == m && Rounds(c, Reduce(m), k, 0) == Reduce(m);
    } else {
      RoundsOfResidue(c, m, k, n - 1);
    }
  }

  /** The digest depends only on the residues of the hashed words, so on field elements the library is one function. */
  lemma {:induction false} ChainOfResidues(c: seq<Fe>, data: seq<nat>, residues: seq<nat>, n: nat)
    requires n <= |data| == |residues| && forall i | 0 <= i < |data| :: residues[i] == Reduce(data[i])
    ensures Chain(c, data, n) == Chain(c, residues, n)
  {
    hide Cipher;
    if n == 0 {
    } else {
      ChainOfResidues(c, data, residues, n - 1);
      var h := Chain(c, data, n - 1);
      CipherOfResidue(c, data[n - 1], h);
      AddModRight(AddMod(Cipher(c, data[n - 1], h), h), data[n - 1]);
    }
  }

  lemma AddModRight(x: nat, y: nat)
    ensures AddMod(x, y) == AddMod(x, Reduce(y))
  {
    AddModLeft(y, x, Q);
  }

  /** The library as a hash over field elements, the form the tree and the circuit use. */
  function AsHash(c: seq<Fe>): Hash {
    (xs: seq<Fe>) => Chain(c, xs, |xs|)
  }

  /** Hashing 256-bit words is hashing their residues. */
  lemma WordsHashAsResidues(c: seq<Fe>, data: seq<nat>)
    ensures Chain(c, data, |data|) == AsHash(c)(ReduceAll(data))
  {
    ChainOfResidues(c, data, ReduceAll(data), |data|);
  }

  // ------------------------------------------------------------------ the permutation

  lemma FifthIsPower(x: Fe)
    ensures Fifth(x) == PowMod(x, 5, Q)
  {
    hide Mul;
    MulIsMulMod(x, x);
    var x2 := Mul(x, x, Q);
    MulIsMulMod(x2, x2);
    var x4 := Mul(x2, x2, Q);
    MulIsMulMod(x4, x);
    MulOne(x, Q);
    assert PowMod(x, 0, Q) == 1;
    assert PowMod(x, 1, Q) == Mul(x, PowMod(x, 0, Q), Q) == x;
    assert PowMod(x, 2, Q) == Mul(x, PowMod(x, 1, Q), Q);
    PowModAdd(x, 2, 2, Q);
    assert PowMod(x, 5, Q) == Mul(x, PowMod(x, 4, Q), Q);
    MulComm(x, x4, Q);
  }

  lemma MulIsMulMod(x: Fe, y: Fe)
    ensures MulMod(x, y) == Mul(x, y, Q)
  {
  }

  lemma {:induction false} PowZero(e: nat, p: nat)
    requires e > 0 && p > 1
    ensures PowMod(0, e, p) == 0
  {
    hide Mul;
    MulComm(0, PowMod(0, e - 1, p), p);
    MulZero(PowMod(0, e - 1, p), p);
  }

  /** Modulo a prime p, taking the power e with 5 * e == 4 * (p - 1) + 1 and taking the fifth power undo each other. */
  lemma PowersInvert(x: nat, e: nat, p: nat)
    requires Prime(p) && 1 < p && x < p && 5 * e == 4 * (p - 1) + 1
    ensures PowMod(PowMod(x, 5, p), e, p) == x && PowMod(PowMod(x, e, p), 5, p) == x
  {
    hide Mul, PowMod, Prime;
    PowModMul(x, 5, e, p);
    PowModMul(x, e, 5, p);
    assert e * 5 == 5 * e;
    if x == 0 {
      PowZero(5 * e, p);
    } else {
      Fermat(p, x);
      PowModMul(x, p - 1, 4, p);
      PowModOne(4, p);
      assert (p - 1) * 4 == 4 * (p - 1);
      PowModAdd(x, 4 * (p - 1), 1, p);
      FirstPower(x, p);
      MulOne(x, p);
    }
  }

  lemma FirstPower(x: nat, p: nat)
    requires x < p && p > 1
    ensures PowMod(x, 1, p) == x
  {
    MulOne(x, p);
    assert PowMod(x, 1, p) == Mul(x, PowMod(x, 0, p), p);
  }

  /** The power that undoes the fifth modulo p, when 5 divides 4 * p - 3. */
  function FifthRootMod(x: nat, p: nat): (r: nat)
    requires p > 1
    ensures r < p
  {
    PowMod(x, (4 * p - 3) / 5, p)
  }

  function FifthRoot(x: Fe): Fe {
    FifthRootMod(x, Q)
  }

  lemma RootExponent()
    ensures 5 * ((4 * Q - 3) / 5) == 4 * (Q - 1) + 1
  {
  }

  lemma FifthRootInverts(x: Fe)
    requires Prime(Q)
    ensures FifthRoot(Fifth(x)) == x && Fifth(FifthRoot(x)) == x
  {
    hide Mul, PowMod, Prime, Fifth;
    FifthIsPower(x);
    FifthIsPower(FifthRoot(x));
    RootExponent();
    PowersInvert(x, (4 * Q - 3) / 5, Q);
  }

  /** Undoes one round. */
  function UnRound(y: Fe, k: nat, constant: Fe): Fe {
    (FifthRoot(y) - constant - k) % Q
  }

  lemma AddTwice(x: nat, k: nat, constant: Fe)
    ensures AddMod(AddMod(x, k), constant) == (x + k + constant) % Q
  {
    AddModLeft(x + k, constant, Q);
  }

  lemma ShiftBack(x: Fe, shift: int)
    ensures ((x + shift) % Q - shift) % Q == x
  {
    AddModLeft(x + shift, -shift, Q);
    SmallMod(x, Q);
  }

  lemma ShiftInverts(x: Fe, k: nat, constant: Fe)
    ensures (AddMod(AddMod(x, k), constant) - constant - k) % Q == x
    ensures AddMod(AddMod((x - constant - k) % Q, k), constant) == x
  {
    hide AddMod;
    AddTwice(x, k, constant);
    ShiftBack(x, k + constant);
    AddTwice((x - constant - k) % Q, k, constant);
    ShiftBack(x, -(k + constant));
  }

  lemma RoundInverts(x: Fe, k: nat, constant: Fe)
    requires Prime(Q)
    ensures UnRound(Fifth(AddMod(AddMod(x, k), constant)), k, constant) == x
    ensures Fifth(AddMod(AddMod(UnRound(x, k, constant), k), constant)) == x
  {
    hide Fifth, FifthRoot, Prime, AddMod;
    FifthRootInverts(AddMod(AddMod(x, k), constant));
    ShiftInverts(x, k, constant);
    FifthRootInverts(x);
    ShiftInverts(FifthRoot(x), k, constant);
  }

  /** The state before the first n rounds, recovered from the state after them. */
  function UnRounds(c: seq<Fe>, y: Fe, k: nat, n: nat): Fe
    requires n <= |c|
    decreases n
  {
    if n == 0 then y else UnRounds(c, UnRound(y, k, c[n - 1]), k, n - 1)
  }

  function Decipher(c: seq<Fe>, y: Fe, k: nat): Fe {
    UnRounds(c, (y - k) % Q, k, |c|)
  }

  lemma {:induction false} RoundsInvert(c: seq<Fe>, m: Fe, k: nat, n: nat)
    requires Prime(Q) && n <= |c|
    ensures Rounds(c, m, k, n) < Q && UnRounds(c, Rounds(c, m, k, n), k, n) == m
  {
    hide Fifth, UnRound, Prime, AddMod;
    if n == 0 {
    } else {
      RoundsInvert(c, m, k, n - 1);
      RoundInverts(Rounds(c, m, k, n - 1), k, c[n - 1]);
    }
  }

  lemma {:induction false} UnRoundsInvert(c: seq<Fe>, y: Fe, k: nat, n: nat)
    requires Prime(Q) && n <= |c|
    ensures Rounds(c, UnRounds(c, y, k, n), k, n) == y
    decreases n
  {
    hide Fifth, UnRound, Prime, AddMod;
    if n == 0 {
    } else {
      UnRoundsInvert(c, UnRound(y, k, c[n - 1]), k, n - 1);
      RoundInverts(y, k, c[n - 1]);
    }
  }

  /** For every key and any number of rounds the cipher is a permutation of the field, with an explicit inverse. */
  lemma CipherIsPermutation(c: seq<Fe>, m: Fe, y: Fe, k: nat)
    requires Prime(Q)
    ensures Decipher(c, Cipher(c, m, k), k) == m
    ensures Cipher(c, Decipher(c, y, k), k) == y
  {
    hide Fifth, UnRounds, Prime, Rounds;
    RoundsInvert(c, m, k, |c|);
    KeyInverts(Rounds(c, m, k, |c|), k);
    UnRoundsInvert(c, (y - k) % Q, k, |c|);
    KeyInverts(y, k);
  }

  lemma KeyInverts(x: Fe, k: nat)
    ensures (AddMod(x, k) - k) % Q == x && AddMod((x - k) % Q, k) == x
  {
    ShiftBack(x, k);
    ShiftBack(x, 0 - k);
  }

  /** Different messages never encrypt alike under one key. */
  lemma CipherInjective(c: seq<Fe>, m: Fe, m': Fe, k: nat)
    requires Prime(Q) && Cipher(c, m, k) == Cipher(c, m', k)
    ensures m == m'
  {
    hide Cipher, Decipher, Prime;
    CipherIsPermutation(c, m, m, k);
    CipherIsPermutation(c, m', m', k);
  }

  /** Each round adds key and constant and takes the fifth power modulo Q. */
  lemma RoundIsFifthPower(c: seq<Fe>, m: nat, k: nat, n: nat)
    requires 0 < n <= |c|
    ensures Rounds(c, m, k, n) == PowMod(Rounds(c, m, k, n - 1) + k + c[n - 1], 5, Q)
  {
    hide Fifth, PowMod;
    var sum := Rounds(c, m, k, n - 1) + k + c[n - 1];
    AddTwice(Rounds(c, m, k, n - 1), k, c[n - 1]);
    FifthIsPower(sum % Q);
    PowModOfResidue(sum, 5, Q);
  }

  lemma {:induction false} PowModOfResidue(x: nat, e: nat, p: nat)
    requires p > 1
    ensures PowMod(x % p, e, p) == PowMod(x, e, p)
  {
    if e == 0 {
    } else {
      PowModOfResidue(x, e - 1, p);
      MulModLeft(x, PowMod(x, e - 1, p), p);
    }
  }

  /** The digest runs through the words in order: taking a word in adds to the digest so far the word and the word's
      cipher under that digest as key, so deciphering the difference gives the word back. */
  lemma DigestStep(c: seq<Fe>, data: seq<nat>, x: nat)
    requires Prime(Q)
    ensures Chain(c, [], 0) == 0
    ensures var before, after := Chain(c, data, |data|), Chain(c, data + [x], |data| + 1);
            Decipher(c, (after - before - x) % Q, before) == Reduce(x)
  {
    hide Cipher, Decipher, Prime, Chain;
    ChainStep(c, data, x);
    var before := Chain(c, data, |data|);
    CipherOfResidue(c, x, before);
    CipherIsPermutation(c, Reduce(x), 0, before);
    ShiftBack(Cipher(c, x, before), before + x);
  }

  lemma ChainStep(c: seq<Fe>, data: seq<nat>, x: nat)
    ensures Chain(c, [], 0) == 0
    ensures var before := Chain(c, data, |data|);
            Chain(c, data + [x], |data| + 1) == (Cipher(c, x, before) + before + x) % Q
  {
    hide Cipher;
    var before := Chain(c, data, |data|);
    ChainPrefix(c, data, x, |data|);
    AddModLeft(Cipher(c, x, before) + before, x, Q);
  }

  lemma {:induction false} ChainPrefix(c: seq<Fe>, data: seq<nat>, x: nat, n: nat)
    requires n <= |data|
    ensures Chain(c, data + [x], n) == Chain(c, data, n)
  {
    hide Cipher;
    if n == 0 {
    } else {
      ChainPrefix(c, data, x, n - 1);
    }
  }
}
