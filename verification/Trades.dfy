/** Fills as the sequencer applies them: what is looked up, written and recorded, and when the run stays provable. */
module Trades {
  import opened Options
  import opened Field
  import opened Merkle
  import opened MerkleDB
  import opened Circuit
  import opened Batcher
  import opened Honest
  import opened Sequencer
  import Modular

  /** The four records a trade touches. */
  datatype Legs4 = Legs4(sellerBase: BalanceState, sellerQuote: BalanceState, buyerBase: BalanceState,
                         buyerQuote: BalanceState)

  /** One account a side and one token a leg. */
  predicate TwoByTwo(s: Legs4) {
    && s.sellerBase.accountID == s.sellerQuote.accountID && s.buyerBase.accountID == s.buyerQuote.accountID
    && s.sellerBase.tokenID == s.buyerBase.tokenID < 256 && s.sellerQuote.tokenID == s.buyerQuote.tokenID < 256
    && s.sellerBase.tokenID != s.sellerQuote.tokenID
  }

  /** Two accounts, two tokens. */
  predicate FourLeaves(s: Legs4) {
    TwoByTwo(s) && s.sellerBase.accountID != s.buyerBase.accountID
  }

  /** The records after the fill: seller gives base for quote, buyer gives quote for base. */
  function Filled(s: Legs4, amount: nat, quote: nat): Legs4
    requires amount <= s.sellerBase.balance && quote <= s.buyerQuote.balance
  {
    Legs4(s.sellerBase.(balance := s.sellerBase.balance - amount),
          s.sellerQuote.(balance := s.sellerQuote.balance + quote),
          s.buyerBase.(balance := s.buyerBase.balance + amount), s.buyerQuote.(balance := s.buyerQuote.balance - quote))
  }

  function StoreAll(balances: BalanceMap, s: Legs4): BalanceMap {
    balances[Key(s.sellerBase) := s.sellerBase][Key(s.sellerQuote) := s.sellerQuote]
            [Key(s.buyerBase) := s.buyerBase][Key(s.buyerQuote) := s.buyerQuote]
  }

  /** The leaves after the first n writes of a fill. */
  function TradeLeaves(h: Hash, leaves: map<nat, Fe>, f: Legs4, n: nat): map<nat, Fe> {
    if n == 0 then leaves
    else if n == 1 then StoreLeaf(h, TradeLeaves(h, leaves, f, 0), f.sellerBase)
    else if n == 2 then StoreLeaf(h, TradeLeaves(h, leaves, f, 1), f.sellerQuote)
    else if n == 3 then StoreLeaf(h, TradeLeaves(h, leaves, f, 2), f.buyerBase)
    else StoreLeaf(h, TradeLeaves(h, leaves, f, 3), f.buyerQuote)
  }

  /** The recorded trade: each leg's path is taken after the previous leg's write. */
  function TradeTransition(h: Hash, depth: nat, leaves: map<nat, Fe>, s: Legs4, amount: nat, quote: nat,
                           sellSig: string, buySig: string): StateTransition
    requires amount <= s.sellerBase.balance && quote <= s.buyerQuote.balance
  {
    var f := Filled(s, amount, quote);
    StateTransition(0, amount, quote,
      s.sellerBase.pubX, s.sellerBase.pubY, sellSig,
      Snapshot(h, depth, TradeLeaves(h, leaves, f, 0), s.sellerBase, false),
      Snapshot(h, depth, TradeLeaves(h, leaves, f, 1), s.sellerQuote, false),
      s.buyerBase.pubX, s.buyerBase.pubY, buySig,
      Snapshot(h, depth, TradeLeaves(h, leaves, f, 2), s.buyerBase, false),
      Snapshot(h, depth, TradeLeaves(h, leaves, f, 3), s.buyerQuote, false))
  }

  /** What the circuit still asks of a fill that the sequencer has applied. */
  predicate TradeCondition(env: Env, t: StateTransition) {
    && Reduce(t.amount) < AMOUNT_LIMIT && Reduce(t.quoteAmount) < AMOUNT_LIMIT
    && Reduce(t.amount) <= Reduce(t.makerBase.balance) && Reduce(t.quoteAmount) <= Reduce(t.takerQuote.balance)
    && SignaturesOk(env.p, Witness(env.decodeSig, t))
  }

  /** The leaves of the tree are those of the four records, which fit in it. */
  predicate Stored(h: Hash, depth: nat, leaves: map<nat, Fe>, acc: BalanceState) {
    Ancestor(IndexOf(acc), depth) == 0 && LeafAt(leaves, IndexOf(acc)) == RecordHash(h, acc)
  }

  predicate OneKeyASide(s: Legs4) {
    SameKey(s.sellerQuote, s.sellerBase.pubX, s.sellerBase.pubY)
    && SameKey(s.buyerQuote, s.buyerBase.pubX, s.buyerBase.pubY)
  }

  predicate AllStored(h: Hash, depth: nat, leaves: map<nat, Fe>, s: Legs4) {
    forall acc {:trigger Stored(h, depth, leaves, acc)} | acc in RecordsIn(s) :: Stored(h, depth, leaves, acc)
  }

  function RecordsIn(s: Legs4): set<BalanceState> {
    {s.sellerBase, s.sellerQuote, s.buyerBase, s.buyerQuote}
  }

  lemma EachStored(h: Hash, depth: nat, leaves: map<nat, Fe>, s: Legs4)
    requires AllStored(h, depth, leaves, s)
    ensures Stored(h, depth, leaves, s.sellerBase) && Stored(h, depth, leaves, s.sellerQuote)
    ensures Stored(h, depth, leaves, s.buyerBase) && Stored(h, depth, leaves, s.buyerQuote)
  {
    hide Stored;
    assert Stored(h, depth, leaves, s.sellerBase) && Stored(h, depth, leaves, s.sellerQuote);
    assert Stored(h, depth, leaves, s.buyerBase) && Stored(h, depth, leaves, s.buyerQuote);
  }
  lemma DistinctIndices(s: Legs4)
    requires FourLeaves(s)
    ensures IndexOf(s.sellerBase) != IndexOf(s.sellerQuote) && IndexOf(s.sellerBase) != IndexOf(s.buyerBase)
         && IndexOf(s.sellerBase) != IndexOf(s.buyerQuote) && IndexOf(s.sellerQuote) != IndexOf(s.buyerBase)
         && IndexOf(s.sellerQuote) != IndexOf(s.buyerQuote) && IndexOf(s.buyerBase) != IndexOf(s.buyerQuote)
  {
  }

  /** Writing one record leaves another record's leaf as it was. */
  lemma OtherLeafUntouched(h: Hash, depth: nat, leaves: map<nat, Fe>, written: BalanceState, acc: BalanceState)
    requires Stored(h, depth, leaves, acc) && IndexOf(acc) != IndexOf(written)
    ensures Stored(h, depth, StoreLeaf(h, leaves, written), acc)
  {
    hide RecordHash, IndexOf, Ancestor;
  }

  lemma FourHonestLegs(h: Hash, depth: nat, l0: map<nat, Fe>, l1: map<nat, Fe>, l2: map<nat, Fe>, l3: map<nat, Fe>,
                       legs: seq<Leg>)
    requires |legs| == 4 && HonestLeg(h, depth, l0, legs[0]) && HonestLeg(h, depth, l1, legs[1])
    requires HonestLeg(h, depth, l2, legs[2]) && HonestLeg(h, depth, l3, legs[3])
    requires l1 == WriteLeg(h, l0, legs[0]) && l2 == WriteLeg(h, l1, legs[1]) && l3 == WriteLeg(h, l2, legs[2])
    ensures HonestLegs(h, depth, l0, legs) && WriteLegs(h, depth, l0, legs) == WriteLeg(h, l3, legs[3])
  {
    hide WriteLeg;
    var t1, t2, t3 := legs[1..], legs[2..], legs[3..];
    assert t1[1..] == t2 && t2[1..] == t3 && t3[1..] == [];
    assert HonestLegs(h, depth, WriteLeg(h, l3, legs[3]), []);
    assert HonestLegs(h, depth, l3, t3) && WriteLegs(h, depth, l3, t3) == WriteLeg(h, l3, legs[3]);
    assert HonestLegs(h, depth, l2, t2) && WriteLegs(h, depth, l2, t2) == WriteLeg(h, l3, legs[3]);
    assert HonestLegs(h, depth, l1, t1) && WriteLegs(h, depth, l1, t1) == WriteLeg(h, l3, legs[3]);
  }

  /** The legs of a recorded trade are honest and end at the filled leaves. */
  lemma TradeLegsHonest(env: Env, leaves: map<nat, Fe>, s: Legs4, amount: nat, quote: nat, sellSig: string,
                        buySig: string)
    requires FourLeaves(s) && amount <= s.sellerBase.balance && quote <= s.buyerQuote.balance
    requires OneKeyASide(s) && AllStored(env.p.h, env.p.depth, leaves, s)
    ensures var h, depth := env.p.h, env.p.depth;
            var legs := ActiveLegs(Witness(env.decodeSig,
                                           TradeTransition(h, depth, leaves, s, amount, quote, sellSig, buySig)));
            && |legs| == 4 && HonestLegs(h, depth, leaves, legs)
            && WriteLegs(h, depth, leaves, legs) == TradeLeaves(h, leaves, Filled(s, amount, quote), 4)
  {
    hide Node, PathUp, Bits, Ancestor, RecordHash, NewLeaf, OldLeaf, Reduce, HonestLeg, WriteLeg, HonestLegs,
         WriteLegs, PosOf, AllBoolean;
    ReduceSmall();
    var h, depth := env.p.h, env.p.depth;
    var f := Filled(s, amount, quote);
    var t := TradeTransition(h, depth, leaves, s, amount, quote, sellSig, buySig);
    var legs := ActiveLegs(Witness(env.decodeSig, t));
    var l0, l1, l2, l3 := leaves, TradeLeaves(h, leaves, f, 1), TradeLeaves(h, leaves, f, 2),
        TradeLeaves(h, leaves, f, 3);
    EachStored(h, depth, leaves, s);
    DistinctIndices(s);
    OtherLeafUntouched(h, depth, l0, f.sellerBase, s.sellerQuote);
    OtherLeafUntouched(h, depth, l0, f.sellerBase, s.buyerBase);
    OtherLeafUntouched(h, depth, l0, f.sellerBase, s.buyerQuote);
    OtherLeafUntouched(h, depth, l1, f.sellerQuote, s.buyerBase);
    OtherLeafUntouched(h, depth, l1, f.sellerQuote, s.buyerQuote);
    OtherLeafUntouched(h, depth, l2, f.buyerBase, s.buyerQuote);
    SnapshotIsHonest(h, depth, l0, s.sellerBase, false, s.sellerBase.pubX, s.sellerBase.pubY, amount, 0);
    SnapshotWrites(h, depth, l0, s.sellerBase, false, s.sellerBase.pubX, s.sellerBase.pubY, amount, 0);
    WriteAt(h, l0, legs[0], IndexOf(s.sellerBase));
    SnapshotIsHonest(h, depth, l1, s.sellerQuote, false, s.sellerBase.pubX, s.sellerBase.pubY, 0, quote);
    SnapshotWrites(h, depth, l1, s.sellerQuote, false, s.sellerBase.pubX, s.sellerBase.pubY, 0, quote);
    WriteAt(h, l1, legs[1], IndexOf(s.sellerQuote));
    SnapshotIsHonest(h, depth, l2, s.buyerBase, false, s.buyerBase.pubX, s.buyerBase.pubY, 0, amount);
    SnapshotWrites(h, depth, l2, s.buyerBase, false, s.buyerBase.pubX, s.buyerBase.pubY, 0, amount);
    WriteAt(h, l2, legs[2], IndexOf(s.buyerBase));
    SnapshotIsHonest(h, depth, l3, s.buyerQuote, false, s.buyerBase.pubX, s.buyerBase.pubY, quote, 0);
    SnapshotWrites(h, depth, l3, s.buyerQuote, false, s.buyerBase.pubX, s.buyerBase.pubY, quote, 0);
    WriteAt(h, l3, legs[3], IndexOf(s.buyerQuote));
    FourHonestLegs(h, depth, l0, l1, l2, l3, legs);
  }

  /** A recorded trade satisfies the circuit exactly under TradeCondition, and takes the old root to the new one. */
  lemma TradeProvable(env: Env, leaves: map<nat, Fe>, s: Legs4, amount: nat, quote: nat, sellSig: string,
                      buySig: string)
    requires FourLeaves(s) && amount <= s.sellerBase.balance && quote <= s.buyerQuote.balance
    requires OneKeyASide(s) && AllStored(env.p.h, env.p.depth, leaves, s)
    ensures var h, depth := env.p.h, env.p.depth;
            var t := TradeTransition(h, depth, leaves, s, amount, quote, sellSig, buySig);
            Proves(env.p, env.decodeSig, Added(t, Node(h, leaves, depth, 0),
                                               Node(h, TradeLeaves(h, leaves, Filled(s, amount, quote), 4), depth, 0)))
            <==> TradeCondition(env, t)
  {
    hide Node, PathUp, Bits, Ancestor, RecordHash, NewLeaf, OldLeaf, Reduce, HonestLegs, WriteLegs, Fold, TradeLeaves,
         LegsOk, LegsRoot, SignaturesOk;
    ReduceSmall();
    var h, depth := env.p.h, env.p.depth;
    var t := TradeTransition(h, depth, leaves, s, amount, quote, sellSig, buySig);
    var op := Witness(env.decodeSig, t);
    EachStored(h, depth, leaves, s);
    TradeLegsHonest(env, leaves, s, amount, quote, sellSig, buySig);
    HonestLegsAccepted(h, depth, leaves, ActiveLegs(op));
    TradeCovered(op);
    RecordedUpdateOk(t.makerBase);
    RecordedUpdateOk(t.makerQuote);
    RecordedUpdateOk(t.takerBase);
    RecordedUpdateOk(t.takerQuote);
    assert OpShaped(env.p, op);
  }

  /** The conditions in the sequencer's own terms: 252-bit amounts, covered residues, and each side's own signature
      under its own key over the indices of its two leaves. */
  lemma TradeConditionExactly(env: Env, leaves: map<nat, Fe>, s: Legs4, amount: nat, quote: nat, sellSig: string,
                              buySig: string)
    requires amount <= s.sellerBase.balance && quote <= s.buyerQuote.balance
    ensures var seller := PublicKey(Reduce(s.sellerBase.pubX), Reduce(s.sellerBase.pubY));
            var buyer := PublicKey(Reduce(s.buyerBase.pubX), Reduce(s.buyerBase.pubY));
            TradeCondition(env, TradeTransition(env.p.h, env.p.depth, leaves, s, amount, quote, sellSig, buySig)) <==>
              && Reduce(amount) < Pow2(252) && Reduce(quote) < Pow2(252)
              && Reduce(amount) <= Reduce(s.sellerBase.balance) && Reduce(quote) <= Reduce(s.buyerQuote.balance)
              && env.p.verify(seller, env.decodeSig(sellSig),
                   env.p.h([0, seller.x, seller.y, Reduce(IndexOf(s.sellerBase)), Reduce(IndexOf(s.sellerQuote))]))
              && env.p.verify(buyer, env.decodeSig(buySig),
                   env.p.h([0, buyer.x, buyer.y, Reduce(IndexOf(s.buyerBase)), Reduce(IndexOf(s.buyerQuote))]))
  {
    hide Reduce, Pow2, PathUp, Bits, TradeLeaves, Filled, LeafIndex;
    ReduceSmall();
    RangeBits();
  }

  lemma TradeCovered(op: Operation)
    requires op.opType == OP_TRADE
    ensures Covered(ActiveLegs(op)) <==> op.amount <= op.makerBase.balance && op.quoteAmount <= op.takerQuote.balance
  {
    var legs := ActiveLegs(op);
    assert legs[0].debit == op.amount && legs[3].debit == op.quoteAmount;
  }

  predicate InTree(s: Legs4, depth: nat) {
    IndexOf(s.sellerBase) < Pow2(depth) && IndexOf(s.sellerQuote) < Pow2(depth)
    && IndexOf(s.buyerBase) < Pow2(depth) && IndexOf(s.buyerQuote) < Pow2(depth)
  }

  predicate HeldIn(balances: BalanceMap, acc: BalanceState) {
    Key(acc) in balances && balances[Key(acc)] == acc
  }

  predicate AmongRecords(balances: BalanceMap, s: Legs4) {
    HeldIn(balances, s.sellerBase) && HeldIn(balances, s.sellerQuote)
    && HeldIn(balances, s.buyerBase) && HeldIn(balances, s.buyerQuote)
  }

  lemma OwnKey(acc: BalanceState)
    ensures SameKey(acc, acc.pubX, acc.pubY)
  {
  }

  lemma FilledFields(s: Legs4, amount: nat, quote: nat)
    requires amount <= s.sellerBase.balance && quote <= s.buyerQuote.balance
    ensures var f := Filled(s, amount, quote);
            && f.sellerBase == s.sellerBase.(balance := s.sellerBase.balance - amount)
            && f.sellerQuote == s.sellerQuote.(balance := s.sellerQuote.balance + quote)
            && f.buyerBase == s.buyerBase.(balance := s.buyerBase.balance + amount)
            && f.buyerQuote == s.buyerQuote.(balance := s.buyerQuote.balance - quote)
  {
  }

  lemma TradeUnfolds(h: Hash, depth: nat, balances: BalanceMap, leaves: map<nat, Fe>, s: Legs4, amount: nat, quote: nat,
                     sellSig: string, buySig: string)
    requires amount <= s.sellerBase.balance && quote <= s.buyerQuote.balance
    ensures var f := Filled(s, amount, quote);
            && TradeLeaves(h, leaves, f, 0) == leaves
            && TradeLeaves(h, leaves, f, 1) == StoreLeaf(h, leaves, f.sellerBase)
            && TradeLeaves(h, leaves, f, 2) == StoreLeaf(h, TradeLeaves(h, leaves, f, 1), f.sellerQuote)
            && TradeLeaves(h, leaves, f, 3) == StoreLeaf(h, TradeLeaves(h, leaves, f, 2), f.buyerBase)
            && TradeLeaves(h, leaves, f, 4) == StoreLeaf(h, TradeLeaves(h, leaves, f, 3), f.buyerQuote)
            && StoreAll(balances, f) == balances[Key(f.sellerBase) := f.sellerBase][Key(f.sellerQuote) := f.sellerQuote]
                                                [Key(f.buyerBase) := f.buyerBase][Key(f.buyerQuote) := f.buyerQuote]
            && TradeTransition(h, depth, leaves, s, amount, quote, sellSig, buySig) == StateTransition(0, amount, quote,
                 s.sellerBase.pubX, s.sellerBase.pubY, sellSig,
                 Snapshot(h, depth, leaves, s.sellerBase, false),
                 Snapshot(h, depth, TradeLeaves(h, leaves, f, 1), s.sellerQuote, false),
                 s.buyerBase.pubX, s.buyerBase.pubY, buySig,
                 Snapshot(h, depth, TradeLeaves(h, leaves, f, 2), s.buyerBase, false),
                 Snapshot(h, depth, TradeLeaves(h, leaves, f, 3), s.buyerQuote, false))
  {
    hide Snapshot, StoreLeaf;
  }

  // ------------------------------------------------------------------ a trader trading with itself

  function RecordInputs(acc: BalanceState): seq<Fe> {
    [Reduce(IndexOf(acc)), Reduce(acc.pubX), Reduce(acc.pubY), Reduce(acc.balance), Reduce(acc.nonce)]
  }

  /** Two records of one leaf hash alike, or fold alike along the leaf's path. */
  predicate StaleBreaks(h: Hash, depth: nat, leaves: map<nat, Fe>, was: BalanceState, now: BalanceState) {
    var path, bits := PathUp(h, leaves, 0, IndexOf(was), depth), Bits(IndexOf(was), depth);
    || Clash(h, [RecordInputs(was)], [RecordInputs(now)])
    || Clash(h, FoldInputs(h, RecordHash(h, was), path, bits), FoldInputs(h, RecordHash(h, now), path, bits))
  }

  lemma StaleHash(h: Hash, was: BalanceState, now: BalanceState)
    requires now == was.(balance := now.balance)
    ensures Reduce(was.balance) == Reduce(now.balance) ==> RecordHash(h, was) == RecordHash(h, now)
    ensures RecordHash(h, was) == RecordHash(h, now) ==>
              Reduce(was.balance) == Reduce(now.balance) || Clash(h, [RecordInputs(was)], [RecordInputs(now)])
  {
    hide Reduce, LeafIndex;
    var xs, ys := RecordInputs(was), RecordInputs(now);
    assert xs[3] == Reduce(was.balance) && ys[3] == Reduce(now.balance);
    assert [xs][0] == xs && [ys][0] == ys;
  }

  /** A leg recorded from a copy that the tree no longer holds passes exactly when the two balances have one residue,
      but for a break; its new root does not depend on that. */
  lemma StaleLeg(h: Hash, depth: nat, leaves: map<nat, Fe>, was: BalanceState, now: BalanceState, x: nat, y: nat,
                 debit: nat, credit: nat)
    requires now == was.(balance := now.balance) && SameKey(was, x, y)
    requires Stored(h, depth, leaves, now)
    ensures var leg := SnapshotLeg(h, depth, leaves, was, false, x, y, debit, credit);
            && |leg.u.path| == |leg.u.bits|
            && (var passes := LegOk(h, leg, Node(h, leaves, depth, 0));
                var same := Reduce(was.balance) == Reduce(now.balance);
                (same && leg.debit <= leg.u.balance ==> passes)
                && (passes ==> leg.debit <= leg.u.balance && (same || StaleBreaks(h, depth, leaves, was, now))))
            && LegRoot(h, leg) == Node(h, leaves[IndexOf(was) := NewLeaf(h, leg)], depth, 0)
  {
    hide Node, PathUp, Bits, Ancestor, Fold, FoldInputs, NewLeaf, RecordHash, Reduce, LeafIndex, Clash, LeafAt;
    var leg := SnapshotLeg(h, depth, leaves, was, false, x, y, debit, credit);
    var i := IndexOf(was);
    SnapshotOldLeaf(h, depth, leaves, was, x, y, debit, credit);
    UpdateByPath(h, leaves, i, NewLeaf(h, leg), depth);
    StaleHash(h, was, now);
    if Fold(h, RecordHash(h, was), leg.u.path, leg.u.bits) == Node(h, leaves, depth, 0) {
      FoldBinds(h, RecordHash(h, was), leg.u.path, RecordHash(h, now), leg.u.path, leg.u.bits);
    }
  }

  lemma SnapshotOldLeaf(h: Hash, depth: nat, leaves: map<nat, Fe>, acc: BalanceState, x: nat, y: nat, debit: nat,
                        credit: nat)
    requires SameKey(acc, x, y)
    ensures var leg := SnapshotLeg(h, depth, leaves, acc, false, x, y, debit, credit);
            OldLeaf(h, leg.u, leg.key) == RecordHash(h, acc)
  {
    hide PathUp, Bits, Reduce;
  }

  /** A leg recorded from a leaf's own copy is honest. */
  lemma FreshLeg(h: Hash, depth: nat, leaves: map<nat, Fe>, acc: BalanceState, x: nat, y: nat, debit: nat, credit: nat)
    requires SameKey(acc, x, y) && Stored(h, depth, leaves, acc)
    ensures var leg := SnapshotLeg(h, depth, leaves, acc, false, x, y, debit, credit);
            && |leg.u.path| == |leg.u.bits|
            && (LegOk(h, leg, Node(h, leaves, depth, 0)) <==> leg.debit <= leg.u.balance)
            && LegRoot(h, leg) == Node(h, leaves[IndexOf(acc) := NewLeaf(h, leg)], depth, 0)
  {
    hide Node, PathUp, Bits, Ancestor, Fold, NewLeaf, RecordHash, Reduce, LeafIndex, LeafAt;
    SnapshotOldLeaf(h, depth, leaves, acc, x, y, debit, credit);
    UpdateByPath(h, leaves, IndexOf(acc), NewLeaf(h, SnapshotLeg(h, depth, leaves, acc, false, x, y, debit, credit)),
                 depth);
  }

  lemma FourLegs(h: Hash, legs: seq<Leg>, r0: Fe, r1: Fe, r2: Fe, r3: Fe)
    requires |legs| == 4 && LegsShaped(legs)
    requires LegRoot(h, legs[0]) == r1 && LegRoot(h, legs[1]) == r2 && LegRoot(h, legs[2]) == r3
    ensures LegsOk(h, legs, r0)
            <==> LegOk(h, legs[0], r0) && LegOk(h, legs[1], r1) && LegOk(h, legs[2], r2) && LegOk(h, legs[3], r3)
    ensures LegsRoot(h, legs, r0) == LegRoot(h, legs[3])
  {
    hide LegOk, LegRoot;
    var t1, t2, t3 := legs[1..], legs[2..], legs[3..];
    assert t1[1..] == t2 && t2[1..] == t3 && t3[1..] == [];
    assert LegsOk(h, t3, r3) <==> LegOk(h, legs[3], r3);
    assert LegsOk(h, t2, r2) <==> LegOk(h, legs[2], r2) && LegsOk(h, t3, r3);
    assert LegsOk(h, t1, r1) <==> LegOk(h, legs[1], r1) && LegsOk(h, t2, r2);
    assert LegsRoot(h, t3, r3) == LegRoot(h, legs[3]);
    assert LegsRoot(h, t2, r2) == LegsRoot(h, t3, r3) && LegsRoot(h, t1, r1) == LegsRoot(h, t2, r2);
  }

  /** The second copy of a leaf breaks: the base record after the sale, or the quote record after the payment. */
  predicate SelfBreaks(h: Hash, depth: nat, leaves: map<nat, Fe>, s: Legs4, amount: nat, quote: nat)
    requires amount <= s.sellerBase.balance && quote <= s.buyerQuote.balance
  {
    var f := Filled(s, amount, quote);
    || StaleBreaks(h, depth, TradeLeaves(h, leaves, f, 2), s.sellerBase, f.sellerBase)
    || StaleBreaks(h, depth, TradeLeaves(h, leaves, f, 3), s.sellerQuote, f.sellerQuote)
  }

  /** The legs of a self-trade: the seller's two are honest, and the buyer's two are copies from before the sale. */
  lemma SelfTradeLegs(env: Env, leaves: map<nat, Fe>, s: Legs4, amount: nat, quote: nat, sellSig: string,
                      buySig: string)
    requires TwoByTwo(s) && s.buyerBase == s.sellerBase && s.buyerQuote == s.sellerQuote && OneKeyASide(s)
    requires amount <= s.sellerBase.balance && quote <= s.buyerQuote.balance
    requires AllStored(env.p.h, env.p.depth, leaves, s)
    ensures var h, depth := env.p.h, env.p.depth;
            var t := TradeTransition(h, depth, leaves, s, amount, quote, sellSig, buySig);
            var legs, root := ActiveLegs(Witness(env.decodeSig, t)), Node(h, leaves, depth, 0);
            && |legs| == 4 && LegsShaped(legs)
            && LegsRoot(h, legs, root) == Node(h, TradeLeaves(h, leaves, Filled(s, amount, quote), 4), depth, 0)
            && (var covered := Reduce(amount) <= Reduce(s.sellerBase.balance)
                               && Reduce(quote) <= Reduce(s.buyerQuote.balance);
                var still := Reduce(amount) == 0 && Reduce(quote) == 0;
                (covered && still ==> LegsOk(h, legs, root))
                && (LegsOk(h, legs, root) ==> covered && (still || SelfBreaks(h, depth, leaves, s, amount, quote))))
  {
    hide Node, PathUp, Bits, Ancestor, RecordHash, NewLeaf, OldLeaf, Reduce, LegOk, LegRoot, StaleBreaks, SameKey,
         LeafIndex;
    ReduceSmall();
    var h, depth, f := env.p.h, env.p.depth, Filled(s, amount, quote);
    var t := TradeTransition(h, depth, leaves, s, amount, quote, sellSig, buySig);
    var legs := ActiveLegs(Witness(env.decodeSig, t));
    var l1, l2, l3 := TradeLeaves(h, leaves, f, 1), TradeLeaves(h, leaves, f, 2), TradeLeaves(h, leaves, f, 3);
    var x, y := s.sellerBase.pubX, s.sellerBase.pubY;
    EachStored(h, depth, leaves, s);
    SelfTradeStored(h, depth, leaves, s, amount, quote);
    OwnKey(s.sellerBase);
    FreshLeg(h, depth, leaves, s.sellerBase, x, y, amount, 0);
    SnapshotWrites(h, depth, leaves, s.sellerBase, false, x, y, amount, 0);
    FreshLeg(h, depth, l1, s.sellerQuote, x, y, 0, quote);
    SnapshotWrites(h, depth, l1, s.sellerQuote, false, x, y, 0, quote);
    StaleLeg(h, depth, l2, s.buyerBase, f.sellerBase, x, y, 0, amount);
    SnapshotWrites(h, depth, l2, s.buyerBase, false, x, y, 0, amount);
    StaleLeg(h, depth, l3, s.buyerQuote, f.sellerQuote, x, y, quote, 0);
    SnapshotWrites(h, depth, l3, s.buyerQuote, false, x, y, quote, 0);
    FourLegs(h, legs, Node(h, leaves, depth, 0), Node(h, l1, depth, 0), Node(h, l2, depth, 0), Node(h, l3, depth, 0));
    ResidueMoves(s.sellerBase.balance, amount);
    ResidueMoves(s.sellerQuote.balance + quote, quote);
  }

  lemma ResidueMoves(balance: nat, amount: nat)
    requires amount <= balance
    ensures Reduce(balance) == Reduce(balance - amount) <==> Reduce(amount) == 0
  {
    Modular.AddModLeft(balance - amount, amount, Q);
  }

  /** The tree holds the copies the first two legs take, and the written records when the other two come. */
  lemma SelfTradeStored(h: Hash, depth: nat, leaves: map<nat, Fe>, s: Legs4, amount: nat, quote: nat)
    requires TwoByTwo(s) && s.buyerBase == s.sellerBase && s.buyerQuote == s.sellerQuote
    requires amount <= s.sellerBase.balance && quote <= s.buyerQuote.balance && AllStored(h, depth, leaves, s)
    ensures var f := Filled(s, amount, quote);
            && Stored(h, depth, TradeLeaves(h, leaves, f, 1), s.sellerQuote)
            && Stored(h, depth, TradeLeaves(h, leaves, f, 2), f.sellerBase)
            && Stored(h, depth, TradeLeaves(h, leaves, f, 3), f.sellerQuote)
  {
    hide RecordHash, Ancestor;
    EachStored(h, depth, leaves, s);
    assert IndexOf(s.sellerBase) != IndexOf(s.sellerQuote);
  }

  /** A trader's trade with itself satisfies the circuit exactly when, beside the conditions on any trade, what is
      sold and paid is 0 modulo Q; or a break is exhibited. */
  lemma SelfTradeProvable(env: Env, leaves: map<nat, Fe>, s: Legs4, amount: nat, quote: nat, sellSig: string,
                          buySig: string)
    requires TwoByTwo(s) && s.buyerBase == s.sellerBase && s.buyerQuote == s.sellerQuote && OneKeyASide(s)
    requires amount <= s.sellerBase.balance && quote <= s.buyerQuote.balance
    requires AllStored(env.p.h, env.p.depth, leaves, s)
    ensures var h, depth := env.p.h, env.p.depth;
            var t := TradeTransition(h, depth, leaves, s, amount, quote, sellSig, buySig);
            var proves := Proves(env.p, env.decodeSig,
              Added(t, Node(h, leaves, depth, 0),
                    Node(h, TradeLeaves(h, leaves, Filled(s, amount, quote), 4), depth, 0)));
            var still := Reduce(amount) == 0 && Reduce(quote) == 0;
            && (TradeCondition(env, t) && still ==> proves)
            && (proves ==> TradeCondition(env, t) && (still || SelfBreaks(h, depth, leaves, s, amount, quote)))
  {
    hide Node, PathUp, Bits, Ancestor, RecordHash, NewLeaf, OldLeaf, Reduce, Fold, TradeLeaves, LegsOk, LegsRoot,
         SignaturesOk, LeafIndex, LeafAt, SelfBreaks;
    ReduceSmall();
    var h, depth := env.p.h, env.p.depth;
    var t := TradeTransition(h, depth, leaves, s, amount, quote, sellSig, buySig);
    SelfTradeLegs(env, leaves, s, amount, quote, sellSig, buySig);
    EachStored(h, depth, leaves, s);
    PosOfBits(IndexOf(s.sellerBase), depth);
    PosOfBits(IndexOf(s.sellerQuote), depth);
    RecordedUpdateOk(t.makerBase);
    RecordedUpdateOk(t.makerQuote);
    RecordedUpdateOk(t.takerBase);
    RecordedUpdateOk(t.takerQuote);
    assert OpShaped(env.p, Witness(env.decodeSig, t));
  }

  /** Applied, it leaves the trader with the amount gained and the quote lost: the later copy overwrites the earlier
      write. */
  lemma SelfTradeMints(balances: BalanceMap, s: Legs4, amount: nat, quote: nat)
    requires TwoByTwo(s) && s.buyerBase == s.sellerBase && s.buyerQuote == s.sellerQuote && AmongRecords(balances, s)
    requires amount <= s.sellerBase.balance && quote <= s.buyerQuote.balance
    ensures StoreAll(balances, Filled(s, amount, quote))
         == balances[Key(s.sellerBase) := s.sellerBase.(balance := s.sellerBase.balance + amount)]
                    [Key(s.sellerQuote) := s.sellerQuote.(balance := s.sellerQuote.balance - quote)]
  {
  }

  // ------------------------------------------------------------------ orientation: the seller is the circuit's maker

  predicate Oriented(trade: Trade) {
    trade.makerOrder.isBuy != trade.takerOrder.isBuy
  }

  function SellOf(trade: Trade): Order {
    if trade.makerOrder.isBuy then trade.takerOrder else trade.makerOrder
  }

  function BuyOf(trade: Trade): Order {
    if trade.makerOrder.isBuy then trade.makerOrder else trade.takerOrder
  }

  function BaseOf(trade: Trade): nat {
    SellOf(trade).tokenID
  }

  function QuoteOf(trade: Trade): nat {
    if SellOf(trade).tokenID != BuyOf(trade).tokenID then BuyOf(trade).tokenID
    else QuoteTokenForBook(SellOf(trade).tokenID)
  }

  function MatchQuote(trade: Trade): nat {
    trade.matchAmount * trade.matchPrice
  }

  function SellKey(trade: Trade): string {
    SellOf(trade).makerAddress
  }

  function BuyKey(trade: Trade): string {
    BuyOf(trade).makerAddress
  }

  predicate SameTrader(trade: Trade) {
    TrimPrefix(SellKey(trade)) == TrimPrefix(BuyKey(trade))
  }

  // ------------------------------------------------------------------ looking leaves up

  /** The id a key has, or the one it would be given next. */
  function IdIn(b: Books, key: string): nat {
    if TrimPrefix(key) in b.pubkeys then b.pubkeys[TrimPrefix(key)] else b.next
  }

  /** The record of a key for a token; a leaf not yet opened gets the lab credit, and zeros for a key that does not
      decode. */
  function RecordFor(env: Env, b: Books, key: string, token: nat): BalanceState {
    var id, xy := IdIn(b, key), env.decodeKey(TrimPrefix(key));
    if (id, token) in b.balances then b.balances[(id, token)]
    else if xy.Some? then BalanceState(id, token, xy.value.0, xy.value.1, INITIAL_CREDIT, 0)
    else BalanceState(id, token, 0, 0, INITIAL_CREDIT, 0)
  }

  /** The books after the lookup: a new key has an id, and a leaf not yet opened is written. */
  function Looked(env: Env, b: Books, key: string, token: nat): Books {
    var acc, id := RecordFor(env, b, key, token), IdIn(b, key);
    var known := if TrimPrefix(key) in b.pubkeys then b
                 else b.(pubkeys := b.pubkeys[TrimPrefix(key) := b.next], next := b.next + 1);
    if (id, token) in b.balances then known
    else known.(balances := b.balances[(id, token) := acc], leaves := StoreLeaf(env.p.h, b.leaves, acc))
  }

  method GetOrCreateBalance(env: Env, tree: LevelDBMerkleTree, key: string, token: nat) returns (acc: BalanceState)
    requires tree.Synced() && tree.h == env.p.h && token < 256
    modifies tree`pubkeys, tree`nextAccountID, tree`balances, tree`nodes, tree`leaves, tree`writes
    ensures tree.Synced()
    ensures acc == RecordFor(env, old(BooksOf(tree)), key, token)
    ensures BooksOf(tree) == Looked(env, old(BooksOf(tree)), key, token)
  {
    hide NodesOf, LeavesMatch, RecordHash;
    var accID := tree.GetAccountID(key);
    var found := tree.GetBalance(accID, token);
    if found.Some? {
      return found.value;
    }
    var coordinates := env.decodeKey(TrimPrefix(key));
    var pubX, pubY := 0, 0;
    if coordinates.Some? {
      pubX, pubY := coordinates.value.0, coordinates.value.1;
    }
    acc := BalanceState(accID, token, pubX, pubY, INITIAL_CREDIT, 0);
    tree.SetBalance(acc);
  }

  /** What a lookup does to books in order. */
  lemma LookedUp(env: Env, b: Books, key: string, token: nat)
    requires BooksOk(env.p.h, b) && token < 256
    ensures var acc, b' := RecordFor(env, b, key, token), Looked(env, b, key, token);
            && BooksOk(env.p.h, b')
            && acc.accountID == IdIn(b, key) == IdIn(b', key) && acc.tokenID == token && TrimPrefix(key) in b'.pubkeys
            && HeldIn(b'.balances, acc)
            && (Key(acc) in b.balances ==> b'.balances == b.balances && b'.leaves == b.leaves)
            && Extends(b, b')
  {
    hide RecordHash, LeafIndex;
    var acc, b' := RecordFor(env, b, key, token), Looked(env, b, key, token);
    if (IdIn(b, key), token) !in b.balances {
      LeavesMatchPut(env.p.h, b.balances, b.leaves, acc);
    } else {
      RecordIsFiled(env.p.h, b.balances, b.leaves, IdIn(b, key), token);
    }
  }

  lemma RecordIsFiled(h: Hash, balances: BalanceMap, leaves: map<nat, Fe>, id: nat, token: nat)
    requires LeavesMatch(h, balances, leaves) && (id, token) in balances
    ensures Key(balances[(id, token)]) == (id, token)
  {
    hide HoldsRecord;
  }

  /** Records and ids only get added. */
  ghost predicate Extends(b: Books, b': Books) {
    && (forall k | k in b.balances :: k in b'.balances && b'.balances[k] == b.balances[k])
    && (forall p | p in b.pubkeys :: p in b'.pubkeys && b'.pubkeys[p] == b.pubkeys[p])
  }

  /** The four copies a trade works on, each looked up in the books as the previous lookup left them. */
  function Copies(env: Env, b: Books, trade: Trade): Legs4 {
    var b1 := Looked(env, b, SellKey(trade), BaseOf(trade));
    var b2 := Looked(env, b1, SellKey(trade), QuoteOf(trade));
    var b3 := Looked(env, b2, BuyKey(trade), BaseOf(trade));
    Legs4(RecordFor(env, b, SellKey(trade), BaseOf(trade)), RecordFor(env, b1, SellKey(trade), QuoteOf(trade)),
          RecordFor(env, b2, BuyKey(trade), BaseOf(trade)), RecordFor(env, b3, BuyKey(trade), QuoteOf(trade)))
  }

  function Opened(env: Env, b: Books, trade: Trade): Books {
    var b1 := Looked(env, b, SellKey(trade), BaseOf(trade));
    var b2 := Looked(env, b1, SellKey(trade), QuoteOf(trade));
    var b3 := Looked(env, b2, BuyKey(trade), BaseOf(trade));
    Looked(env, b3, BuyKey(trade), QuoteOf(trade))
  }

  predicate TokensFit(trade: Trade) {
    BaseOf(trade) < 256 && QuoteOf(trade) < 256
  }

  /** All four leaves had been opened before. */
  predicate AllOpen(b: Books, s: Legs4) {
    Key(s.sellerBase) in b.balances && Key(s.sellerQuote) in b.balances
    && Key(s.buyerBase) in b.balances && Key(s.buyerQuote) in b.balances
  }

  lemma ExtendsTrans(b: Books, b1: Books, b2: Books)
    requires Extends(b, b1) && Extends(b1, b2)
    ensures Extends(b, b2)
  {
  }

  lemma CopiesAreHeld(env: Env, b: Books, trade: Trade)
    requires BooksOk(env.p.h, b) && TokensFit(trade)
    ensures var s, b4 := Copies(env, b, trade), Opened(env, b, trade);
            && BooksOk(env.p.h, b4) && Extends(b, b4) && AmongRecords(b4.balances, s) && TwoByTwo(s)
            && (AllOpen(b, s) ==> b4.balances == b.balances && b4.leaves == b.leaves)
            && TrimPrefix(SellKey(trade)) in b4.pubkeys && TrimPrefix(BuyKey(trade)) in b4.pubkeys
            && s.sellerBase.accountID == b4.pubkeys[TrimPrefix(SellKey(trade))]
            && s.buyerBase.accountID == b4.pubkeys[TrimPrefix(BuyKey(trade))]
  {
    hide BooksOk, Looked, RecordFor;
    var b1 := Looked(env, b, SellKey(trade), BaseOf(trade));
    var b2 := Looked(env, b1, SellKey(trade), QuoteOf(trade));
    var b3 := Looked(env, b2, BuyKey(trade), BaseOf(trade));
    var b4 := Opened(env, b, trade);
    LookedUp(env, b, SellKey(trade), BaseOf(trade));
    LookedUp(env, b1, SellKey(trade), QuoteOf(trade));
    LookedUp(env, b2, BuyKey(trade), BaseOf(trade));
    LookedUp(env, b3, BuyKey(trade), QuoteOf(trade));
    ExtendsTrans(b2, b3, b4);
    ExtendsTrans(b1, b2, b4);
    ExtendsTrans(b, b1, b4);
    assert QuoteOf(trade) != BaseOf(trade);
  }

  /** The two sides are one account exactly when they are one trader, and then both sides work on copies of the same two
      records. */
  lemma Sides(env: Env, b: Books, trade: Trade)
    requires BooksOk(env.p.h, b) && TokensFit(trade)
    ensures var s := Copies(env, b, trade);
            && (SameTrader(trade) <==> s.sellerBase.accountID == s.buyerBase.accountID)
            && (SameTrader(trade) ==> s.buyerBase == s.sellerBase && s.buyerQuote == s.sellerQuote)
  {
    hide Copies, Opened, LeavesMatch;
    CopiesAreHeld(env, b, trade);
  }

  // ------------------------------------------------------------------ what a trade moves

  /** The balance a lookup finds: the stored one, or the lab credit. */
  function BalanceFound(env: Env, b: Books, key: string, token: nat): nat {
    RecordFor(env, b, key, token).balance
  }

  /** Looking one leaf up leaves what other lookups find as it was. */
  lemma LookupKeepsFound(env: Env, b: Books, key: string, token: nat, key': string, token': nat)
    requires BooksOk(env.p.h, b)
    ensures BalanceFound(env, Looked(env, b, key, token), key', token') == BalanceFound(env, b, key', token')
  {
    hide StoreLeaf, LeavesMatch;
  }

  /** The copies hold the balances that lookups before the trade find. */
  lemma CopiesAreFound(env: Env, b: Books, trade: Trade)
    requires BooksOk(env.p.h, b) && TokensFit(trade)
    ensures var s := Copies(env, b, trade);
            && s.sellerBase.balance == BalanceFound(env, b, SellKey(trade), BaseOf(trade))
            && s.sellerQuote.balance == BalanceFound(env, b, SellKey(trade), QuoteOf(trade))
            && s.buyerBase.balance == BalanceFound(env, b, BuyKey(trade), BaseOf(trade))
            && s.buyerQuote.balance == BalanceFound(env, b, BuyKey(trade), QuoteOf(trade))
            && s.sellerBase.tokenID == BaseOf(trade) && s.sellerQuote.tokenID == QuoteOf(trade)
  {
    hide BooksOk, Looked, RecordFor;
    var sell, buy, base, quote := SellKey(trade), BuyKey(trade), BaseOf(trade), QuoteOf(trade);
    var b1 := Looked(env, b, sell, base);
    var b2 := Looked(env, b1, sell, quote);
    LookedUp(env, b, sell, base);
    LookedUp(env, b1, sell, quote);
    LookedUp(env, b2, buy, base);
    LookupKeepsFound(env, b, sell, base, sell, quote);
    LookupKeepsFound(env, b, sell, base, buy, base);
    LookupKeepsFound(env, b1, sell, quote, buy, base);
    LookupKeepsFound(env, b, sell, base, buy, quote);
    LookupKeepsFound(env, b1, sell, quote, buy, quote);
    LookupKeepsFound(env, b2, buy, base, buy, quote);
  }

  /** An applied trade takes the amount and the amount times the price, the one from the seller's base balance to the
      buyer's, the other from the buyer's quote balance to the seller's. */
  lemma FillMoves(env: Env, b: Books, trade: Trade)
    requires BooksOk(env.p.h, b) && TokensFit(trade) && Payable(Copies(env, b, trade), trade) && Oriented(trade)
    ensures var after := FilledBooks(env.p.h, Opened(env, b, trade), Copies(env, b, trade), trade.matchAmount,
                                     MatchQuote(trade));
            MovedBy(env, b, trade, after)
  {
    hide BooksOk, Looked, Copies, Opened, LeafIndex, TradeLeaves, BalanceFound, StoreAll, Filled, Extends, AllOpen;
    CopiesAreHeld(env, b, trade);
    CopiesAreFound(env, b, trade);
    Sides(env, b, trade);
    var s, b4 := Copies(env, b, trade), Opened(env, b, trade);
    var after := FilledBooks(env.p.h, b4, s, trade.matchAmount, MatchQuote(trade));
    FilledBalances(b4.balances, s, trade.matchAmount, MatchQuote(trade));
    FoundInBooks(env, after, SellKey(trade), s.sellerBase);
    FoundInBooks(env, after, SellKey(trade), s.sellerQuote);
    FoundInBooks(env, after, BuyKey(trade), s.buyerBase);
    FoundInBooks(env, after, BuyKey(trade), s.buyerQuote);
  }

  lemma FilledBalances(balances: BalanceMap, s: Legs4, amount: nat, quote: nat)
    requires TwoByTwo(s) && amount <= s.sellerBase.balance && quote <= s.buyerQuote.balance
    ensures var m := StoreAll(balances, Filled(s, amount, quote));
            && Key(s.sellerBase) in m && Key(s.sellerQuote) in m && Key(s.buyerBase) in m && Key(s.buyerQuote) in m
            && m[Key(s.buyerBase)].balance == s.buyerBase.balance + amount
            && m[Key(s.buyerQuote)].balance == s.buyerQuote.balance - quote
            && (s.sellerBase.accountID != s.buyerBase.accountID ==>
                  m[Key(s.sellerBase)].balance == s.sellerBase.balance - amount
                  && m[Key(s.sellerQuote)].balance == s.sellerQuote.balance + quote)
  {
  }

  lemma FoundInBooks(env: Env, b: Books, key: string, acc: BalanceState)
    requires TrimPrefix(key) in b.pubkeys && b.pubkeys[TrimPrefix(key)] == acc.accountID && Key(acc) in b.balances
    ensures BalanceFound(env, b, key, acc.tokenID) == b.balances[Key(acc)].balance
  {
  }

  ghost predicate MovedBy(env: Env, b: Books, trade: Trade, after: Books) {
    var maker, taker, amount := trade.makerOrder, trade.takerOrder, trade.matchAmount;
    var seller, buyer := if maker.isBuy then taker else maker, if maker.isBuy then maker else taker;
    var base, paid := seller.tokenID, trade.matchAmount * trade.matchPrice;
    var quote := if buyer.tokenID != base then buyer.tokenID else if base == 1 then 2 else 1;
    && BalanceFound(env, after, buyer.makerAddress, quote) == BalanceFound(env, b, buyer.makerAddress, quote) - paid
    && BalanceFound(env, after, buyer.makerAddress, base) == BalanceFound(env, b, buyer.makerAddress, base) + amount
    && (TrimPrefix(seller.makerAddress) != TrimPrefix(buyer.makerAddress) ==>
          && BalanceFound(env, after, seller.makerAddress, base)
              == BalanceFound(env, b, seller.makerAddress, base) - amount
          && BalanceFound(env, after, seller.makerAddress, quote)
              == BalanceFound(env, b, seller.makerAddress, quote) + paid)
  }

  // ------------------------------------------------------------------ keys

  predicate DecodesIfNew(env: Env, b: Books, key: string, token: nat) {
    (IdIn(b, key), token) in b.balances || env.decodeKey(TrimPrefix(key)).Some?
  }

  /** Every leaf that the trade opens is opened for a key that decodes. */
  predicate NewKeysDecode(env: Env, b: Books, trade: Trade) {
    var b1 := Looked(env, b, SellKey(trade), BaseOf(trade));
    var b2 := Looked(env, b1, SellKey(trade), QuoteOf(trade));
    var b3 := Looked(env, b2, BuyKey(trade), BaseOf(trade));
    && DecodesIfNew(env, b, SellKey(trade), BaseOf(trade)) && DecodesIfNew(env, b1, SellKey(trade), QuoteOf(trade))
    && DecodesIfNew(env, b2, BuyKey(trade), BaseOf(trade)) && DecodesIfNew(env, b3, BuyKey(trade), QuoteOf(trade))
  }

  ghost predicate Owned(env: Env, b: Books) {
    KeysMatch(env, b.balances, b.pubkeys)
  }

  lemma LookedOwned(env: Env, b: Books, key: string, token: nat)
    requires BooksOk(env.p.h, b) && token < 256
    ensures Owned(env, Looked(env, b, key, token)) <==> Owned(env, b) && DecodesIfNew(env, b, key, token)
  {
    hide LeavesMatch, StoreLeaf;
    var b' := Looked(env, b, key, token);
    LookedUp(env, b, key, token);
    if Owned(env, b') {
      forall k | k in b.balances
        ensures exists s | s in b.pubkeys :: b.pubkeys[s] == k.0 && OwnedBy(env, b.balances[k], s)
      {
        var s :| s in b'.pubkeys && b'.pubkeys[s] == k.0 && OwnedBy(env, b'.balances[k], s);
        assert s in b.pubkeys;
      }
      if (IdIn(b, key), token) !in b.balances {
        var s :| s in b'.pubkeys && b'.pubkeys[s] == IdIn(b, key) && OwnedBy(env, RecordFor(env, b, key, token), s);
        assert s == TrimPrefix(key);
      }
    }
    if Owned(env, b) && DecodesIfNew(env, b, key, token) {
      forall k | k in b'.balances
        ensures exists s | s in b'.pubkeys :: b'.pubkeys[s] == k.0 && OwnedBy(env, b'.balances[k], s)
      {
        if k in b.balances {
          var s :| s in b.pubkeys && b.pubkeys[s] == k.0 && OwnedBy(env, b.balances[k], s);
          assert s in b'.pubkeys;
        } else {
          var xy := env.decodeKey(TrimPrefix(key)).value;
          ReduceCanonical(xy.0);
          ReduceCanonical(xy.1);
          assert OwnedBy(env, b'.balances[k], TrimPrefix(key));
        }
      }
    }
  }

  lemma OpenedOwned(env: Env, b: Books, trade: Trade)
    requires BooksOk(env.p.h, b) && TokensFit(trade)
    ensures Owned(env, Opened(env, b, trade)) <==> Owned(env, b) && NewKeysDecode(env, b, trade)
  {
    hide BooksOk, Looked, RecordFor, Owned, DecodesIfNew;
    var b1 := Looked(env, b, SellKey(trade), BaseOf(trade));
    var b2 := Looked(env, b1, SellKey(trade), QuoteOf(trade));
    var b3 := Looked(env, b2, BuyKey(trade), BaseOf(trade));
    LookedUp(env, b, SellKey(trade), BaseOf(trade));
    LookedUp(env, b1, SellKey(trade), QuoteOf(trade));
    LookedUp(env, b2, BuyKey(trade), BaseOf(trade));
    LookedOwned(env, b, SellKey(trade), BaseOf(trade));
    LookedOwned(env, b1, SellKey(trade), QuoteOf(trade));
    LookedOwned(env, b2, BuyKey(trade), BaseOf(trade));
    LookedOwned(env, b3, BuyKey(trade), QuoteOf(trade));
  }

  /** Ownership depends on the coordinates only. */
  lemma SameCoordinates(env: Env, balances: BalanceMap, acc: BalanceState, pubkeys: map<string, nat>)
    requires Key(acc) in balances && balances[Key(acc)].pubX == acc.pubX && balances[Key(acc)].pubY == acc.pubY
    ensures KeysMatch(env, balances[Key(acc) := acc], pubkeys) <==> KeysMatch(env, balances, pubkeys)
  {
    var next := balances[Key(acc) := acc];
    if KeysMatch(env, balances, pubkeys) {
      forall k | k in next ensures exists s | s in pubkeys :: pubkeys[s] == k.0 && OwnedBy(env, next[k], s) {
        var s :| s in pubkeys && pubkeys[s] == k.0 && OwnedBy(env, balances[k], s);
      }
    }
    if KeysMatch(env, next, pubkeys) {
      forall k | k in balances ensures exists s | s in pubkeys :: pubkeys[s] == k.0 && OwnedBy(env, balances[k], s) {
        assert k in next;
        var s :| s in pubkeys && pubkeys[s] == k.0 && OwnedBy(env, next[k], s);
      }
    }
  }

  /** Filling keeps the owners. */
  lemma FilledOwned(env: Env, b: Books, s: Legs4, amount: nat, quote: nat)
    requires AmongRecords(b.balances, s) && amount <= s.sellerBase.balance && quote <= s.buyerQuote.balance
    ensures KeysMatch(env, StoreAll(b.balances, Filled(s, amount, quote)), b.pubkeys) <==> Owned(env, b)
  {
    hide KeysMatch;
    var f := Filled(s, amount, quote);
    var b1 := b.balances[Key(f.sellerBase) := f.sellerBase];
    var b2 := b1[Key(f.sellerQuote) := f.sellerQuote];
    var b3 := b2[Key(f.buyerBase) := f.buyerBase];
    SameCoordinates(env, b.balances, f.sellerBase, b.pubkeys);
    SameCoordinates(env, b1, f.sellerQuote, b.pubkeys);
    SameCoordinates(env, b2, f.buyerBase, b.pubkeys);
    SameCoordinates(env, b3, f.buyerQuote, b.pubkeys);
  }

  // ------------------------------------------------------------------ when a trade keeps the run in order

  /** Owners are in order, and the log is provable and ends at the books' root. */
  ghost predicate InOrder(env: Env, b: Books, log: seq<Added>) {
    Owned(env, b) && LogOk(env, log, Node(env.p.h, b.leaves, env.p.depth, 0))
  }

  /** An opened leaf's record hashes to 0, or the leaf folds to one root both unwritten and written. */
  predicate OpenBreaks(h: Hash, depth: nat, before: map<nat, Fe>, after: map<nat, Fe>, acc: BalanceState) {
    var i := IndexOf(acc);
    || RecordHash(h, acc) == 0
    || Clash(h, FoldInputs(h, 0, PathUp(h, before, 0, i, depth), Bits(i, depth)),
                FoldInputs(h, RecordHash(h, acc), PathUp(h, after, 0, i, depth), Bits(i, depth)))
  }

  /** Opening a leaf changes the root. */
  lemma OpeningMovesRoot(h: Hash, depth: nat, b: Books, b': Books, acc: BalanceState)
    requires BooksOk(h, b) && BooksOk(h, b') && acc.tokenID < 256 && IndexOf(acc) < Pow2(depth)
    requires Key(acc) !in b.balances && HeldIn(b'.balances, acc)
    ensures Node(h, b'.leaves, depth, 0) != Node(h, b.leaves, depth, 0)
            || OpenBreaks(h, depth, b.leaves, b'.leaves, acc)
  {
    hide Node, PathUp, Bits, Fold, FoldInputs, RecordHash, LeafIndex, Ancestor, Clash, LeavesMatch, Pow2;
    if Node(h, b'.leaves, depth, 0) == Node(h, b.leaves, depth, 0) {
      NoLeafWithoutRecord(h, b.balances, b.leaves, acc.accountID, acc.tokenID);
      NoLeafWithoutRecord(h, b'.balances, b'.leaves, acc.accountID, acc.tokenID);
      SmallIndexHasRoot(IndexOf(acc), depth);
      RootBindsLeaf(h, b.leaves, b'.leaves, IndexOf(acc), depth);
    }
  }

  ghost predicate SomeOpenBreaks(h: Hash, depth: nat, b: Books, b': Books, s: Legs4) {
    || OpenBreaks(h, depth, b.leaves, b'.leaves, s.sellerBase)
    || OpenBreaks(h, depth, b.leaves, b'.leaves, s.sellerQuote)
    || OpenBreaks(h, depth, b.leaves, b'.leaves, s.buyerBase) || OpenBreaks(h, depth, b.leaves, b'.leaves, s.buyerQuote)
  }

  /** The root is what it was exactly when all four leaves had been opened before, but for a break. */
  lemma RootAfterLookups(env: Env, b: Books, trade: Trade)
    requires BooksOk(env.p.h, b) && TokensFit(trade) && InTree(Copies(env, b, trade), env.p.depth)
    ensures var s, b4 := Copies(env, b, trade), Opened(env, b, trade);
            var same := Node(env.p.h, b4.leaves, env.p.depth, 0) == Node(env.p.h, b.leaves, env.p.depth, 0);
            (AllOpen(b, s) ==> same) && (same ==> AllOpen(b, s) || SomeOpenBreaks(env.p.h, env.p.depth, b, b4, s))
  {
    hide BooksOk, Looked, RecordFor, Node, OpenBreaks, Pow2, Copies, Opened;
    var s, b4 := Copies(env, b, trade), Opened(env, b, trade);
    CopiesAreHeld(env, b, trade);
    if Key(s.sellerBase) !in b.balances {
      OpeningMovesRoot(env.p.h, env.p.depth, b, b4, s.sellerBase);
    }
    if Key(s.sellerQuote) !in b.balances {
      OpeningMovesRoot(env.p.h, env.p.depth, b, b4, s.sellerQuote);
    }
    if Key(s.buyerBase) !in b.balances {
      OpeningMovesRoot(env.p.h, env.p.depth, b, b4, s.buyerBase);
    }
    if Key(s.buyerQuote) !in b.balances {
      OpeningMovesRoot(env.p.h, env.p.depth, b, b4, s.buyerQuote);
    }
  }

  /** Asked of a trade for the run to stay in order: leaves are opened only for keys that decode, and not once a
      transition has been logged; and if it is applied it meets the circuit's conditions, and moves nothing when a
      trader trades with itself. */
  ghost predicate TradeInOrder(env: Env, b: Books, log: seq<Added>, trade: Trade, applied: bool, t: StateTransition) {
    && NewKeysDecode(env, b, trade)
    && (log == [] || AllOpen(b, Copies(env, b, trade)))
    && (applied ==> TradeCondition(env, t) && (SameTrader(trade) ==> Reduce(trade.matchAmount) == 0))
  }

  predicate Payable(s: Legs4, trade: Trade) {
    trade.matchAmount <= s.sellerBase.balance && MatchQuote(trade) <= s.buyerQuote.balance
  }

  ghost predicate TradeBreaks(env: Env, b: Books, trade: Trade) {
    var s, b4 := Copies(env, b, trade), Opened(env, b, trade);
    || SomeOpenBreaks(env.p.h, env.p.depth, b, b4, s)
    || (SameTrader(trade) && Payable(s, trade)
        && SelfBreaks(env.p.h, env.p.depth, b4.leaves, s, trade.matchAmount, MatchQuote(trade)))
  }

  lemma LogAt(env: Env, log: seq<Added>, root: Fe, root': Fe)
    requires LogOk(env, log, root)
    ensures LogOk(env, log, root') <==> log == [] || root == root'
  {
    hide Proves;
  }

  lemma LogExtendedAt(env: Env, log: seq<Added>, root: Fe, a: Added)
    requires LogOk(env, log, root)
    ensures LogOk(env, log + [a], a.newRoot) <==> (log == [] || root == a.oldRoot) && Proves(env.p, env.decodeSig, a)
  {
    hide Proves;
    var log' := log + [a];
    assert log'[|log|] == a;
    assert forall i | 0 <= i < |log| :: log'[i] == log[i];
    if LogOk(env, log', a.newRoot) && log != [] {
      assert log'[|log| - 1].newRoot == log'[|log|].oldRoot;
    }
  }

  /** A trade that is not paid for. */
  lemma SkippedInOrder(env: Env, b: Books, log: seq<Added>, trade: Trade, t: StateTransition)
    requires BooksOk(env.p.h, b) && InOrder(env, b, log) && TokensFit(trade)
    requires InTree(Copies(env, b, trade), env.p.depth)
    ensures var kept := InOrder(env, Opened(env, b, trade), log);
            && (TradeInOrder(env, b, log, trade, false, t) ==> kept)
            && (kept ==> TradeInOrder(env, b, log, trade, false, t) || TradeBreaks(env, b, trade))
  {
    hide BooksOk, Owned, LogOk, Copies, Opened, NewKeysDecode, AllOpen, Node, SomeOpenBreaks, InTree, TokensFit,
         SelfBreaks;
    OpenedOwned(env, b, trade);
    RootAfterLookups(env, b, trade);
    LogAt(env, log, Node(env.p.h, b.leaves, env.p.depth, 0),
          Node(env.p.h, Opened(env, b, trade).leaves, env.p.depth, 0));
  }

  function FilledBooks(h: Hash, b: Books, s: Legs4, amount: nat, quote: nat): Books
    requires amount <= s.sellerBase.balance && quote <= s.buyerQuote.balance
  {
    b.(balances := StoreAll(b.balances, Filled(s, amount, quote)),
       leaves := TradeLeaves(h, b.leaves, Filled(s, amount, quote), 4))
  }

  lemma HeldIsStored(h: Hash, depth: nat, b: Books, acc: BalanceState)
    requires BooksOk(h, b) && HeldIn(b.balances, acc) && acc.tokenID < 256 && IndexOf(acc) < Pow2(depth)
    ensures Stored(h, depth, b.leaves, acc)
  {
    hide RecordHash, LeafIndex, LeavesMatch, Ancestor, Pow2;
    NoLeafWithoutRecord(h, b.balances, b.leaves, acc.accountID, acc.tokenID);
    SmallIndexHasRoot(IndexOf(acc), depth);
  }

  /** Each side's two copies carry one key. */
  lemma CopiesShareKey(env: Env, b: Books, trade: Trade)
    requires BooksOk(env.p.h, b) && TokensFit(trade) && Owned(env, Opened(env, b, trade))
    ensures OneKeyASide(Copies(env, b, trade))
  {
    hide LeavesMatch, Copies, Opened, KeysMatch, Reduce;
    var s, b4 := Copies(env, b, trade), Opened(env, b, trade);
    CopiesAreHeld(env, b, trade);
    OwnerIsKey(env, b4.balances, b4.pubkeys, TrimPrefix(SellKey(trade)), s.sellerBase.tokenID);
    OwnerIsKey(env, b4.balances, b4.pubkeys, TrimPrefix(SellKey(trade)), s.sellerQuote.tokenID);
    OwnerIsKey(env, b4.balances, b4.pubkeys, TrimPrefix(BuyKey(trade)), s.buyerBase.tokenID);
    OwnerIsKey(env, b4.balances, b4.pubkeys, TrimPrefix(BuyKey(trade)), s.buyerQuote.tokenID);
  }

  /** The same environment, with zeros for the keys that do not decode. */
  function Total(env: Env): Env {
    env.(decodeKey := (key: string) => if env.decodeKey(key).Some? then env.decodeKey(key) else Some((0, 0)))
  }

  lemma TotalLooksAlike(env: Env, b: Books, key: string, token: nat)
    ensures RecordFor(Total(env), b, key, token) == RecordFor(env, b, key, token)
    ensures Looked(Total(env), b, key, token) == Looked(env, b, key, token) && DecodesIfNew(Total(env), b, key, token)
  {
    hide StoreLeaf;
  }

  lemma TotalOpensAlike(env: Env, b: Books, trade: Trade)
    ensures Copies(Total(env), b, trade) == Copies(env, b, trade)
    ensures Opened(Total(env), b, trade) == Opened(env, b, trade) && NewKeysDecode(Total(env), b, trade)
  {
    hide Looked, RecordFor, DecodesIfNew, Total;
    var b1 := Looked(env, b, SellKey(trade), BaseOf(trade));
    var b2 := Looked(env, b1, SellKey(trade), QuoteOf(trade));
    TotalLooksAlike(env, b, SellKey(trade), BaseOf(trade));
    TotalLooksAlike(env, b1, SellKey(trade), QuoteOf(trade));
    TotalLooksAlike(env, b2, BuyKey(trade), BaseOf(trade));
    TotalLooksAlike(env, Looked(env, b2, BuyKey(trade), BaseOf(trade)), BuyKey(trade), QuoteOf(trade));
  }

  /** They do whether or not the keys decode. */
  lemma OneKeyAlways(env: Env, b: Books, trade: Trade)
    requires BooksOk(env.p.h, b) && TokensFit(trade) && Owned(env, b)
    ensures OneKeyASide(Copies(env, b, trade))
  {
    hide Copies, Opened, LeavesMatch, NewKeysDecode, OneKeyASide;
    TotalOpensAlike(env, b, trade);
    forall k | k in b.balances
      ensures exists s | s in b.pubkeys :: b.pubkeys[s] == k.0 && OwnedBy(Total(env), b.balances[k], s)
    {
      var s :| s in b.pubkeys && b.pubkeys[s] == k.0 && OwnedBy(env, b.balances[k], s);
      assert OwnedBy(Total(env), b.balances[k], s);
    }
    OpenedOwned(Total(env), b, trade);
    CopiesShareKey(Total(env), b, trade);
  }

  /** Records of the books are the tree's leaves. */
  lemma RecordsAreStored(h: Hash, depth: nat, b: Books, s: Legs4)
    requires BooksOk(h, b) && AmongRecords(b.balances, s) && TwoByTwo(s) && InTree(s, depth)
    ensures AllStored(h, depth, b.leaves, s)
  {
    hide BooksOk, Stored, LeafIndex, Pow2;
    HeldIsStored(h, depth, b, s.sellerBase);
    HeldIsStored(h, depth, b, s.sellerQuote);
    HeldIsStored(h, depth, b, s.buyerBase);
    HeldIsStored(h, depth, b, s.buyerQuote);
  }

  /** What the lookups add: at most the four copies, with their leaves. */
  predicate OnlyOpens(b: Books, b': Books, s: Legs4) {
    && (forall k | k in b'.balances :: k in b.balances || k in FourKeys(s))
    && (forall i | i in b'.leaves :: (i in b.leaves && b'.leaves[i] == b.leaves[i]) || i in FourIndices(s))
    && (forall i | i in b.leaves :: i in b'.leaves)
  }

  function FourKeys(s: Legs4): set<(nat, nat)> {
    {Key(s.sellerBase), Key(s.sellerQuote), Key(s.buyerBase), Key(s.buyerQuote)}
  }

  function FourIndices(s: Legs4): set<nat> {
    {IndexOf(s.sellerBase), IndexOf(s.sellerQuote), IndexOf(s.buyerBase), IndexOf(s.buyerQuote)}
  }

  predicate Adds(h: Hash, b: Books, b': Books, acc: BalanceState) {
    && (b'.balances == b.balances || b'.balances == b.balances[Key(acc) := acc])
    && (b'.leaves == b.leaves || b'.leaves == StoreLeaf(h, b.leaves, acc))
  }

  lemma LookedAdds(env: Env, b: Books, key: string, token: nat)
    ensures Adds(env.p.h, b, Looked(env, b, key, token), RecordFor(env, b, key, token))
  {
    hide StoreLeaf;
  }

  lemma OpenedAdds(env: Env, b: Books, trade: Trade)
    ensures OnlyOpens(b, Opened(env, b, trade), Copies(env, b, trade))
  {
    hide Looked, RecordFor, RecordHash, IndexOf, Key;
    var b1 := Looked(env, b, SellKey(trade), BaseOf(trade));
    var b2 := Looked(env, b1, SellKey(trade), QuoteOf(trade));
    var b3 := Looked(env, b2, BuyKey(trade), BaseOf(trade));
    LookedAdds(env, b, SellKey(trade), BaseOf(trade));
    LookedAdds(env, b1, SellKey(trade), QuoteOf(trade));
    LookedAdds(env, b2, BuyKey(trade), BaseOf(trade));
    LookedAdds(env, b3, BuyKey(trade), QuoteOf(trade));
  }

  /** Whether the transition of a trade proves, over whatever the lookups left. */
  lemma TransitionProves(env: Env, b: Books, trade: Trade, sellSig: string, buySig: string)
    requires BooksOk(env.p.h, b) && TokensFit(trade) && InTree(Copies(env, b, trade), env.p.depth)
    requires Owned(env, Opened(env, b, trade)) && Payable(Copies(env, b, trade), trade)
    ensures var s, b4, amount, quote := Copies(env, b, trade), Opened(env, b, trade), trade.matchAmount,
            MatchQuote(trade);
            var h, depth := env.p.h, env.p.depth;
            var t := TradeTransition(h, depth, b4.leaves, s, amount, quote, sellSig, buySig);
            var proves := Proves(env.p, env.decodeSig,
              Added(t, Node(h, b4.leaves, depth, 0), Node(h, FilledBooks(h, b4, s, amount, quote).leaves, depth, 0)));
            var allowed := TradeCondition(env, t) && (SameTrader(trade) ==> Reduce(amount) == 0);
            && (allowed ==> proves)
            && (proves ==> allowed || (SameTrader(trade) && SelfBreaks(h, depth, b4.leaves, s, amount, quote)))
  {
    hide BooksOk, Copies, Opened, Owned, InTree, Proves, TradeCondition, Stored, Node, Filled, TradeTransition,
         SelfBreaks, TradeLeaves, Reduce, StoreAll;
    var s, b4, amount, quote := Copies(env, b, trade), Opened(env, b, trade), trade.matchAmount, MatchQuote(trade);
    CopiesAreHeld(env, b, trade);
    RecordsAreStored(env.p.h, env.p.depth, b4, s);
    CopiesShareKey(env, b, trade);
    Sides(env, b, trade);
    if SameTrader(trade) {
      SelfTradeProvable(env, b4.leaves, s, amount, quote, sellSig, buySig);
      ZeroTimes(trade.matchAmount, trade.matchPrice);
    } else {
      TradeProvable(env, b4.leaves, s, amount, quote, sellSig, buySig);
    }
  }

  lemma ZeroTimes(x: nat, y: nat)
    ensures Reduce(x) == 0 ==> Reduce(x * y) == 0
  {
    if Reduce(x) == 0 {
      Modular.MulModLeft(x, y, Q);
    }
  }

  /** A trade that is applied. */
  lemma AppliedInOrder(env: Env, b: Books, log: seq<Added>, trade: Trade, t: StateTransition)
    requires BooksOk(env.p.h, b) && InOrder(env, b, log) && TokensFit(trade)
    requires InTree(Copies(env, b, trade), env.p.depth) && Payable(Copies(env, b, trade), trade)
    requires t == TradeTransition(env.p.h, env.p.depth, Opened(env, b, trade).leaves, Copies(env, b, trade),
                                  trade.matchAmount, MatchQuote(trade), SellOf(trade).circuitSignature,
                                  BuyOf(trade).circuitSignature)
    ensures var h, depth, b4 := env.p.h, env.p.depth, Opened(env, b, trade);
            var after := FilledBooks(h, b4, Copies(env, b, trade), trade.matchAmount, MatchQuote(trade));
            var kept := InOrder(env, after,
              log + [Added(t, Node(h, b4.leaves, depth, 0), Node(h, after.leaves, depth, 0))]);
            && (TradeInOrder(env, b, log, trade, true, t) ==> kept)
            && (kept ==> TradeInOrder(env, b, log, trade, true, t) || TradeBreaks(env, b, trade))
  {
    hide BooksOk, LogOk, Copies, Opened, NewKeysDecode, AllOpen, Node, SomeOpenBreaks, InTree, TokensFit, SelfBreaks,
         TradeTransition, Filled, StoreAll, TradeLeaves, TradeCondition, Reduce, KeysMatch, Proves, MatchQuote;
    var h, depth, s, b4 := env.p.h, env.p.depth, Copies(env, b, trade), Opened(env, b, trade);
    var after := FilledBooks(h, b4, s, trade.matchAmount, MatchQuote(trade));
    OpenedOwned(env, b, trade);
    RootAfterLookups(env, b, trade);
    CopiesAreHeld(env, b, trade);
    FilledOwned(env, b4, s, trade.matchAmount, MatchQuote(trade));
    LogExtendedAt(env, log, Node(h, b.leaves, depth, 0),
                  Added(t, Node(h, b4.leaves, depth, 0), Node(h, after.leaves, depth, 0)));
    if Owned(env, b4) {
      TransitionProves(env, b, trade, SellOf(trade).circuitSignature, BuyOf(trade).circuitSignature);
    }
  }

  // ------------------------------------------------------------------ applying a trade

  /** The orders oppose and both carry a circuit signature. */
  predicate Attempted(trade: Trade) {
    Oriented(trade) && SellOf(trade).circuitSignature != "" && BuyOf(trade).circuitSignature != ""
  }

  /** Applies one fill.  A trade that is not attempted changes nothing.  One that is looks its four leaves up, and
      writes those not yet opened outside any transition; it is applied exactly when both payers are covered. */
  method ApplyTrade(env: Env, trade: Trade, tree: LevelDBMerkleTree, batch: Batcher)
    returns (applied: bool, t: StateTransition)
    requires SystemValid(env, tree, batch)
    requires Attempted(trade) ==> TokensFit(trade) && InTree(Copies(env, BooksOf(tree), trade), tree.depth)
    modifies tree, batch
    ensures tree.Synced() && batch.Valid()
    ensures applied <==> Attempted(trade) && Payable(Copies(env, old(BooksOf(tree)), trade), trade)
    ensures applied <==>
      var maker, taker := trade.makerOrder, trade.takerOrder;
      var seller, buyer := if maker.isBuy then taker else maker, if maker.isBuy then maker else taker;
      var base := seller.tokenID;
      var quote := if buyer.tokenID != base then buyer.tokenID else if base == 1 then 2 else 1;
      && maker.isBuy != taker.isBuy && maker.circuitSignature != "" && taker.circuitSignature != ""
      && trade.matchAmount <= BalanceFound(env, old(BooksOf(tree)), seller.makerAddress, base)
      && trade.matchAmount * trade.matchPrice <= BalanceFound(env, old(BooksOf(tree)), buyer.makerAddress, quote)
    ensures applied ==> MovedBy(env, old(BooksOf(tree)), trade, BooksOf(tree))
    ensures !applied ==> batch.Log() == old(batch.Log())
    ensures !Attempted(trade) ==> BooksOf(tree) == old(BooksOf(tree)) && SystemValid(env, tree, batch)
    ensures Attempted(trade) && !applied ==> BooksOf(tree) == Opened(env, old(BooksOf(tree)), trade)
    ensures applied ==>
      var s, b4 := Copies(env, old(BooksOf(tree)), trade), Opened(env, old(BooksOf(tree)), trade);
      && BooksOf(tree) == FilledBooks(env.p.h, b4, s, trade.matchAmount, MatchQuote(trade))
      && t == TradeTransition(env.p.h, env.p.depth, b4.leaves, s, trade.matchAmount, MatchQuote(trade),
                              SellOf(trade).circuitSignature, BuyOf(trade).circuitSignature)
      && batch.Log() == old(batch.Log()) + [Added(t, Node(env.p.h, b4.leaves, env.p.depth, 0), tree.Root())]
    ensures Attempted(trade) ==>
      var inOrder := TradeInOrder(env, old(BooksOf(tree)), old(batch.Log()), trade, applied, t);
      && (inOrder ==> SystemValid(env, tree, batch))
      && (SystemValid(env, tree, batch) ==> inOrder || TradeBreaks(env, old(BooksOf(tree)), trade))
  {
    hide Node, Proves, LogOk, KeysMatch, NodesOf, LeavesMatch, Reduce, TradeTransition, StoreAll, Filled,
         TradeCondition,
         TradeLeaves, Looked, RecordFor, TradeInOrder, TradeBreaks, InTree, Copies, Opened, BooksOk,
         MovedBy, BalanceFound;
    var sellOrder, buyOrder;
    if !trade.makerOrder.isBuy && trade.takerOrder.isBuy {
      sellOrder, buyOrder := trade.makerOrder, trade.takerOrder;
    } else if trade.makerOrder.isBuy && !trade.takerOrder.isBuy {
      sellOrder, buyOrder := trade.takerOrder, trade.makerOrder;
    } else {
      return false, *;
    }
    if sellOrder.circuitSignature == "" || buyOrder.circuitSignature == "" {
      return false, *;
    }
    ghost var b, log := BooksOf(tree), batch.Log();
    TreeBooks(env, tree);
    var baseToken := sellOrder.tokenID;
    var quoteToken := QuoteTokenForBook(baseToken);
    if sellOrder.tokenID != buyOrder.tokenID {
      quoteToken := buyOrder.tokenID;
      baseToken := sellOrder.tokenID;
    }
    var matchAmount := trade.matchAmount;
    var matchQuote := trade.matchAmount * trade.matchPrice;
    var s := LookUpCopies(env, sellOrder.makerAddress, buyOrder.makerAddress, baseToken, quoteToken, tree, trade);
    CopiesAreHeld(env, b, trade);
    CopiesAreFound(env, b, trade);
    t := *;
    if s.sellerBase.balance < matchAmount || s.buyerQuote.balance < matchQuote {
      SkippedInOrder(env, b, log, trade, t);
      applied := false;
      return;
    }
    var oldRoot := tree.Root();
    t := FillLeaves(s, matchAmount, matchQuote, sellOrder.circuitSignature, buyOrder.circuitSignature, tree);
    var newRoot := tree.Root();
    batch.AddTransition(t, oldRoot, newRoot);
    AppliedInOrder(env, b, log, trade, t);
    FillMoves(env, b, trade);
    applied := true;
  }

  /** The four lookups, in the order the trade makes them. */
  method LookUpCopies(env: Env, sellKey: string, buyKey: string, baseToken: nat, quoteToken: nat,
                      tree: LevelDBMerkleTree, ghost trade: Trade) returns (s: Legs4)
    requires tree.Synced() && tree.h == env.p.h && TokensFit(trade)
    requires sellKey == SellKey(trade) && buyKey == BuyKey(trade)
    requires baseToken == BaseOf(trade) && quoteToken == QuoteOf(trade)
    modifies tree`pubkeys, tree`nextAccountID, tree`balances, tree`nodes, tree`leaves, tree`writes
    ensures tree.Synced() && s == Copies(env, old(BooksOf(tree)), trade)
    ensures BooksOf(tree) == Opened(env, old(BooksOf(tree)), trade)
  {
    hide NodesOf, LeavesMatch, Looked, RecordFor;
    var sellerBase := GetOrCreateBalance(env, tree, sellKey, baseToken);
    var sellerQuote := GetOrCreateBalance(env, tree, sellKey, quoteToken);
    var buyerBase := GetOrCreateBalance(env, tree, buyKey, baseToken);
    var buyerQuote := GetOrCreateBalance(env, tree, buyKey, quoteToken);
    s := Legs4(sellerBase, sellerQuote, buyerBase, buyerQuote);
  }

  /** Snapshot and write, leaf by leaf, in the order the circuit checks them. */
  method FillLeaves(s: Legs4, amount: nat, quote: nat, sellSig: string, buySig: string, tree: LevelDBMerkleTree)
    returns (t: StateTransition)
    requires tree.Synced() && amount <= s.sellerBase.balance && quote <= s.buyerQuote.balance
    requires s.sellerBase.tokenID < 256 && s.sellerQuote.tokenID < 256
    requires s.buyerBase.tokenID < 256 && s.buyerQuote.tokenID < 256
    modifies tree`balances, tree`nodes, tree`leaves, tree`writes
    ensures tree.Synced()
    ensures BooksOf(tree) == FilledBooks(tree.h, old(BooksOf(tree)), s, amount, quote)
    ensures t == TradeTransition(tree.h, tree.depth, old(tree.leaves), s, amount, quote, sellSig, buySig)
  {
    hide Node, NodesOf, LeavesMatch, Snapshot, RecordHash, Filled, TradeLeaves, StoreAll, TradeTransition;
    ghost var leaves, balances, f := tree.leaves, tree.balances, Filled(s, amount, quote);
    FilledFields(s, amount, quote);
    TradeUnfolds(tree.h, tree.depth, balances, leaves, s, amount, quote, sellSig, buySig);

    var makerBase := SnapshotUpdate(tree, s.sellerBase);
    tree.SetBalance(s.sellerBase.(balance := s.sellerBase.balance - amount));
    assert tree.leaves == TradeLeaves(tree.h, leaves, f, 1);
    var makerQuote := SnapshotUpdate(tree, s.sellerQuote);
    tree.SetBalance(s.sellerQuote.(balance := s.sellerQuote.balance + quote));
    assert tree.leaves == TradeLeaves(tree.h, leaves, f, 2);
    var takerBase := SnapshotUpdate(tree, s.buyerBase);
    tree.SetBalance(s.buyerBase.(balance := s.buyerBase.balance + amount));
    assert tree.leaves == TradeLeaves(tree.h, leaves, f, 3);
    var takerQuote := SnapshotUpdate(tree, s.buyerQuote);
    tree.SetBalance(s.buyerQuote.(balance := s.buyerQuote.balance - quote));
    assert tree.leaves == TradeLeaves(tree.h, leaves, f, 4);
    t := StateTransition(0, amount, quote,
      s.sellerBase.pubX, s.sellerBase.pubY, sellSig, makerBase, makerQuote,
      s.buyerBase.pubX, s.buyerBase.pubY, buySig, takerBase, takerQuote);
  }

  /** A fill of in-range amounts against canonical balances, with valid signatures, meets the circuit's remaining
      conditions. */
  lemma InRangeTradeProvable(env: Env, t: StateTransition)
    requires t.amount < AMOUNT_LIMIT && t.quoteAmount < AMOUNT_LIMIT
    requires t.amount <= t.makerBase.balance < Q && t.quoteAmount <= t.takerQuote.balance < Q
    ensures TradeCondition(env, t) <==> SignaturesOk(env.p, Witness(env.decodeSig, t))
  {
    ReduceCanonical(t.amount);
    ReduceCanonical(t.quoteAmount);
    ReduceCanonical(t.makerBase.balance);
    ReduceCanonical(t.takerQuote.balance);
  }
}
