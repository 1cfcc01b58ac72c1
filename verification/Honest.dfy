/** Legs whose paths were read from the tree just before each leg was written. */
module Honest {
  import opened Field
  import opened Merkle
  import opened Circuit
  import opened Batcher
  import MerkleDB

  /** The leg carries the path and content of the leaf it names, in the tree over `leaves`. */
  predicate HonestLeg(h: Hash, depth: nat, leaves: map<nat, Fe>, leg: Leg) {
    && Shaped(depth, leg.u) && AllBoolean(leg.u.bits)
    && leg.u.path == PathUp(h, leaves, 0, PosOf(leg.u.bits), depth)
    && OldLeaf(h, leg.u, leg.key) == LeafAt(leaves, PosOf(leg.u.bits))
  }

  function WriteLeg(h: Hash, leaves: map<nat, Fe>, leg: Leg): map<nat, Fe>
    requires AllBoolean(leg.u.bits)
  {
    leaves[PosOf(leg.u.bits) := NewLeaf(h, leg)]
  }

  /** Every leg is honest for the tree as the previous legs left it. */
  predicate HonestLegs(h: Hash, depth: nat, leaves: map<nat, Fe>, legs: seq<Leg>)
    decreases |legs|
  {
    legs == [] || (HonestLeg(h, depth, leaves, legs[0])
                   && HonestLegs(h, depth, WriteLeg(h, leaves, legs[0]), legs[1..]))
  }

  function WriteLegs(h: Hash, depth: nat, leaves: map<nat, Fe>, legs: seq<Leg>): map<nat, Fe>
    requires HonestLegs(h, depth, leaves, legs)
    decreases |legs|
  {
    if legs == [] then leaves else WriteLegs(h, depth, WriteLeg(h, leaves, legs[0]), legs[1..])
  }

  predicate Covered(legs: seq<Leg>) {
    forall i | 0 <= i < |legs| :: legs[i].debit <= legs[i].u.balance
  }

  lemma HonestLegAccepted(h: Hash, depth: nat, leaves: map<nat, Fe>, leg: Leg)
    requires HonestLeg(h, depth, leaves, leg)
    ensures LegOk(h, leg, Node(h, leaves, depth, 0)) <==> leg.debit <= leg.u.balance
    ensures LegRoot(h, leg) == Node(h, WriteLeg(h, leaves, leg), depth, 0)
  {
    BitsOfPos(leg.u.bits);
    UpdateByPath(h, leaves, PosOf(leg.u.bits), NewLeaf(h, leg), depth);
  }

  /** Honest legs satisfy the circuit exactly when every debit is covered, and the circuit's root follows the tree's. */
  lemma {:induction false} HonestLegsAccepted(h: Hash, depth: nat, leaves: map<nat, Fe>, legs: seq<Leg>)
    requires HonestLegs(h, depth, leaves, legs)
    ensures LegsShaped(legs)
    ensures LegsOk(h, legs, Node(h, leaves, depth, 0)) <==> Covered(legs)
    ensures LegsRoot(h, legs, Node(h, leaves, depth, 0)) == Node(h, WriteLegs(h, depth, leaves, legs), depth, 0)
    decreases |legs|
  {
    hide Node, NewLeaf, OldLeaf, PathUp, Fold;
    if legs == [] {
    } else {
      HonestLegAccepted(h, depth, leaves, legs[0]);
      HonestLegsAccepted(h, depth, WriteLeg(h, leaves, legs[0]), legs[1..]);
      assert Covered(legs) <==> legs[0].debit <= legs[0].u.balance && Covered(legs[1..]) by {
        forall i | 1 <= i < |legs| ensures legs[i] == legs[1..][i - 1] {}
      }
    }
  }

  /** An operation with honest legs satisfies the circuit exactly when its amounts have 252 bits, every debit is
      covered, the debited maker has signed (for all types but deposits) and the taker has signed too (for trades). */
  lemma HonestOperationAccepted(p: Params, leaves: map<nat, Fe>, op: Operation)
    requires OpShaped(p, op) && op.opType < 4
    requires UpdateOk(op.makerBase) && UpdateOk(op.makerQuote) && UpdateOk(op.takerBase) && UpdateOk(op.takerQuote)
    requires HonestLegs(p.h, p.depth, leaves, ActiveLegs(op))
    ensures Satisfied(p, op, Node(p.h, leaves, p.depth, 0)) <==>
              && op.amount < Pow2(252) && op.quoteAmount < Pow2(252)
              && (op.opType in {0, 1, 2} ==>
                    op.amount <= op.makerBase.balance
                    && p.verify(op.maker, op.makerSig,
                         p.h([op.opType, op.maker.x, op.maker.y, op.makerBase.index, op.makerQuote.index])))
              && (op.opType == 0 ==>
                    op.quoteAmount <= op.takerQuote.balance
                    && p.verify(op.taker, op.takerSig,
                         p.h([op.opType, op.taker.x, op.taker.y, op.takerBase.index, op.takerQuote.index])))
    ensures OutRoot(p, op, Node(p.h, leaves, p.depth, 0))
         == Node(p.h, WriteLegs(p.h, p.depth, leaves, ActiveLegs(op)), p.depth, 0)
  {
    hide Node, HonestLegs, WriteLegs, LegsOk, LegsRoot, UpdateOk, Pow2;
    HonestLegsAccepted(p.h, p.depth, leaves, ActiveLegs(op));
    DebitsOf(op);
    RangeBits();
  }

  lemma DebitsOf(op: Operation)
    requires op.opType < 4
    ensures Covered(ActiveLegs(op)) <==>
              (op.opType in {0, 1, 2} ==> op.amount <= op.makerBase.balance)
              && (op.opType == 0 ==> op.quoteAmount <= op.takerQuote.balance)
  {
    var legs := ActiveLegs(op);
    assert legs[0].debit == if op.opType in {0, 1, 2} then op.amount else 0;
    assert op.opType == 0 ==> legs[3].debit == op.quoteAmount;
  }

  lemma RangeBits()
    ensures AMOUNT_LIMIT == Pow2(252)
  {
    hide Pow2;
    SmallPowers();
    Pow2Sum(16, 16);
    Pow2Sum(16, 15);
    Pow2Sum(31, 32);
    Pow2Sum(63, 63);
    Pow2Sum(126, 126);
  }

  lemma SmallPowers()
    ensures Pow2(15) == 0x8000 && Pow2(16) == 0x1_0000
  {
    assert Pow2(8) == 256;
    assert Pow2(15) == 128 * Pow2(8);
  }

  lemma {:induction false} Pow2Sum(m: nat, n: nat)
    ensures Pow2(m + n) == Pow2(m) * Pow2(n)
  {
    if m == 0 {
    } else {
      Pow2Sum(m - 1, n);
    }
  }

  // ------------------------------------------------------------------ legs of a recorded transition

  /** The leaf a recorded leg writes, as a database record of the key that owns it. */
  function LegRecord(u: LeafUpdate, x: nat, y: nat, delta: int, bump: nat): MerkleDB.BalanceState
    requires u.balance + delta >= 0
  {
    MerkleDB.BalanceState(u.index / 256, u.index % 256, x, y, u.balance + delta, u.nonce + bump)
  }

  lemma Residues(balance: int, debit: int, credit: int, nonce: int, bump: int)
    ensures (Reduce(balance) - Reduce(debit) + Reduce(credit)) % Q == Reduce(balance - debit + credit)
    ensures (Reduce(nonce) + Reduce(bump)) % Q == Reduce(nonce + bump)
  {
  }

  lemma SmallResidue(bump: nat)
    requires bump < 2
    ensures Reduce(bump) == bump
  {
  }

  /** The circuit's new leaf is the hash of the record with the debit and credit applied over the integers. */
  lemma NewLeafIsRecordHash(h: Hash, u: LeafUpdate, x: nat, y: nat, debit: nat, credit: nat, bump: nat)
    requires u.balance - debit + credit >= 0 && bump < 2
    ensures NewLeaf(h, Leg(WitnessLeg(u), PublicKey(Reduce(x), Reduce(y)), Reduce(debit), Reduce(credit), bump))
         == MerkleDB.RecordHash(h, LegRecord(u, x, y, credit - debit, bump))
  {
    hide Reduce;
    Residues(u.balance, debit, credit, u.nonce, bump);
    SmallResidue(bump);
    assert u.index / 256 * 256 + u.index % 256 == u.index;
  }
}
