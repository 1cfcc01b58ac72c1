/** The state-transition circuit, as a system of constraints over the scalar field. */
module Circuit {
  import opened Field
  import opened Merkle

  const OP_TRADE: Fe := 0
  const OP_TRANSFER: Fe := 1
  const OP_WITHDRAWAL: Fe := 2
  const OP_DEPOSIT: Fe := 3

  /** 2^252, the bound of the 252-bit range check. */
  const AMOUNT_LIMIT: nat := 0x1000_0000_0000_0000_0000_0000_0000_0000_0000_0000_0000_0000_0000_0000_0000_0000

  datatype StateUpdate = StateUpdate(index: Fe, balance: Fe, nonce: Fe, isGenesis: Fe, path: seq<Fe>, bits: seq<Fe>)

  datatype PublicKey = PublicKey(x: Fe, y: Fe)
  datatype Signature = Signature(rx: Fe, ry: Fe, s: Fe)

  datatype Operation = Operation(
    opType: Fe, amount: Fe, quoteAmount: Fe,
    maker: PublicKey, makerSig: Signature, makerBase: StateUpdate, makerQuote: StateUpdate,
    taker: PublicKey, takerSig: Signature, takerBase: StateUpdate, takerQuote: StateUpdate)

  /** The hash, the EdDSA verification relation with its always-valid fixture, and the tree depth. */
  datatype Params = Params(
    h: Hash, verify: (PublicKey, Signature, Fe) -> bool,
    dummyKey: PublicKey, dummySig: Signature, dummyMsg: Fe, depth: nat)
  {
    /** The hardcoded fixture is a valid signature. */
    predicate FixtureValid() {
      verify(dummyKey, dummySig, dummyMsg)
    }
  }

  // ------------------------------------------------------------------ gates

  predicate IsBoolean(x: Fe) {
    x == 0 || x == 1
  }

  function Add(x: Fe, y: Fe): Fe { (x + y) % Q }
  function Sub(x: Fe, y: Fe): Fe { (x - y) % Q }
  function Mul(x: Fe, y: Fe): Fe { (x * y) % Q }
  function IsZero(x: Fe): Fe { if x == 0 then 1 else 0 }
  function Or(x: Fe, y: Fe): Fe { if x == 1 || y == 1 then 1 else 0 }

  /** The gate's own arithmetic: it chooses only when b is boolean. */
  function Select(b: Fe, x: Fe, y: Fe): (r: Fe)
    ensures b == 1 ==> r == x
    ensures b == 0 ==> r == y
  {
    (y + b * (x - y)) % Q
  }

  // ------------------------------------------------------------------ what an operation means

  /** One debited or credited leaf of an operation. */
  datatype Leg = Leg(u: StateUpdate, key: PublicKey, debit: Fe, credit: Fe, bump: Fe)

  /** The legs that an operation of each type applies, in order. */
  function ActiveLegs(op: Operation): seq<Leg> {
    if op.opType == OP_TRADE then
      [Leg(op.makerBase, op.maker, op.amount, 0, 0), Leg(op.makerQuote, op.maker, 0, op.quoteAmount, 0),
       Leg(op.takerBase, op.taker, 0, op.amount, 0), Leg(op.takerQuote, op.taker, op.quoteAmount, 0, 0)]
    else if op.opType == OP_TRANSFER then
      [Leg(op.makerBase, op.maker, op.amount, 0, 1), Leg(op.takerBase, op.taker, 0, op.amount, 0)]
    else if op.opType == OP_WITHDRAWAL then
      [Leg(op.makerBase, op.maker, op.amount, 0, 1)]
    else
      [Leg(op.takerBase, op.taker, 0, op.amount, 0)]
  }

  function AccountLeaf(h: Hash, index: Fe, key: PublicKey, balance: Fe, nonce: Fe): Fe {
    h([index, key.x, key.y, balance, nonce])
  }

  function OldLeaf(h: Hash, u: StateUpdate, key: PublicKey): Fe {
    if u.isGenesis == 1 then 0 else AccountLeaf(h, u.index, key, u.balance, u.nonce)
  }

  function NewLeaf(h: Hash, leg: Leg): Fe {
    AccountLeaf(h, leg.u.index, leg.key, (leg.u.balance - leg.debit + leg.credit) % Q, (leg.u.nonce + leg.bump) % Q)
  }

  /** Fixed-size arrays of the circuit. */
  predicate Shaped(depth: nat, u: StateUpdate) {
    |u.path| == depth && |u.bits| == depth
  }

  /** Constraints laid down for every leg, active or not. */
  predicate UpdateOk(u: StateUpdate) {
    IsBoolean(u.isGenesis) && (u.isGenesis == 1 ==> u.balance == 0 && u.nonce == 0) && AllBoolean(u.bits)
  }

  predicate LegOk(h: Hash, leg: Leg, root: Fe)
    requires |leg.u.path| == |leg.u.bits|
  {
    Fold(h, OldLeaf(h, leg.u, leg.key), leg.u.path, leg.u.bits) == root && leg.debit <= leg.u.balance
  }

  function LegRoot(h: Hash, leg: Leg): Fe
    requires |leg.u.path| == |leg.u.bits|
  {
    Fold(h, NewLeaf(h, leg), leg.u.path, leg.u.bits)
  }

  predicate LegsShaped(legs: seq<Leg>) {
    forall i | 0 <= i < |legs| :: |legs[i].u.path| == |legs[i].u.bits|
  }

  /** Each leg is checked against the root that the previous leg produced. */
  predicate LegsOk(h: Hash, legs: seq<Leg>, root: Fe)
    requires LegsShaped(legs)
  {
    legs == [] || (LegOk(h, legs[0], root) && LegsOk(h, legs[1..], LegRoot(h, legs[0])))
  }

  function LegsRoot(h: Hash, legs: seq<Leg>, root: Fe): Fe
    requires LegsShaped(legs)
  {
    if legs == [] then root else LegsRoot(h, legs[1..], LegRoot(h, legs[0]))
  }

  function AuthMessage(h: Hash, op: Operation, key: PublicKey, base: StateUpdate, quote: StateUpdate): Fe {
    h([op.opType, key.x, key.y, base.index, quote.index])
  }

  predicate SignaturesOk(p: Params, op: Operation) {
    && (op.opType != OP_DEPOSIT ==>
          p.verify(op.maker, op.makerSig, AuthMessage(p.h, op, op.maker, op.makerBase, op.makerQuote)))
    && (op.opType == OP_TRADE ==>
          p.verify(op.taker, op.takerSig, AuthMessage(p.h, op, op.taker, op.takerBase, op.takerQuote)))
  }

  predicate OpShaped(p: Params, op: Operation) {
    Shaped(p.depth, op.makerBase) && Shaped(p.depth, op.makerQuote) && Shaped(p.depth, op.takerBase)
    && Shaped(p.depth, op.takerQuote)
  }

  lemma LegsAreShaped(p: Params, op: Operation)
    requires OpShaped(p, op)
    ensures LegsShaped(ActiveLegs(op))
    ensures forall i | 0 <= i < |ActiveLegs(op)| :: Shaped(p.depth, ActiveLegs(op)[i].u)
  {
  }

  /** The operation's constraints are satisfied starting from `root`. */
  predicate Satisfied(p: Params, op: Operation, root: Fe)
    requires OpShaped(p, op)
  {
    && op.amount < AMOUNT_LIMIT && op.quoteAmount < AMOUNT_LIMIT
    && op.opType in {OP_TRADE, OP_TRANSFER, OP_WITHDRAWAL, OP_DEPOSIT}
    && SignaturesOk(p, op)
    && UpdateOk(op.makerBase) && UpdateOk(op.makerQuote) && UpdateOk(op.takerBase) && UpdateOk(op.takerQuote)
    && LegsOk(p.h, ActiveLegs(op), root)
  }

  function OutRoot(p: Params, op: Operation, root: Fe): Fe
    requires OpShaped(p, op)
  {
    LegsRoot(p.h, ActiveLegs(op), root)
  }

  function NextWithdrawalHash(h: Hash, op: Operation, acc: Fe): Fe {
    if op.opType == OP_WITHDRAWAL then h([acc, op.makerBase.index, op.amount]) else acc
  }

  function NextDepositHash(h: Hash, op: Operation, acc: Fe): Fe {
    if op.opType == OP_DEPOSIT then h([acc, op.takerBase.index, op.amount]) else acc
  }

  // ------------------------------------------------------------------ the circuit's own steps

  method MerkleRoot(h: Hash, leaf: Fe, path: seq<Fe>, bits: seq<Fe>) returns (ok: bool, cur: Fe)
    requires |path| == |bits|
    ensures ok <==> AllBoolean(bits)
    ensures ok ==> cur == Fold(h, leaf, path, bits)
  {
    hide Select;
    ok, cur := true, leaf;
    for i := 0 to |path|
      invariant ok <==> AllBoolean(bits[..i])
      invariant ok ==> Fold(h, cur, path[i..], bits[i..]) == Fold(h, leaf, path, bits)
    {
      ok := ok && IsBoolean(bits[i]);
      var left := Select(bits[i], path[i], cur);
      var right := Select(bits[i], cur, path[i]);
      assert IsBoolean(bits[i]) ==> [left, right] == Pair(bits[i], path[i], cur);
      assert bits[..i + 1] == bits[..i] + [bits[i]];
      cur := h([left, right]);
    }
    assert bits[..|bits|] == bits;
  }

  method OldLeafHash(h: Hash, u: StateUpdate, key: PublicKey) returns (ok: bool, leaf: Fe)
    ensures ok <==> IsBoolean(u.isGenesis) && (u.isGenesis == 1 ==> u.balance == 0 && u.nonce == 0)
    ensures ok ==> leaf == OldLeaf(h, u, key)
  {
    hide Select;
    ok := IsBoolean(u.isGenesis) && Mul(u.isGenesis, u.balance) == 0 && Mul(u.isGenesis, u.nonce) == 0;
    var real' := AccountLeaf(h, u.index, key, u.balance, u.nonce);
    leaf := Select(u.isGenesis, 0, real');
  }

  /** Verifies the real inputs when active, the fixture otherwise. */
  method ConditionalVerify(p: Params, active: Fe, key: PublicKey, sig: Signature, msg: Fe) returns (ok: bool)
    requires IsBoolean(active) && p.FixtureValid()
    ensures ok <==> (active == 1 ==> p.verify(key, sig, msg))
  {
    hide Select;
    var effKey := PublicKey(Select(active, key.x, p.dummyKey.x), Select(active, key.y, p.dummyKey.y));
    var effSig := Signature(Select(active, sig.rx, p.dummySig.rx), Select(active, sig.ry, p.dummySig.ry),
                            Select(active, sig.s, p.dummySig.s));
    var effMsg := Select(active, msg, p.dummyMsg);
    ok := p.verify(effKey, effSig, effMsg);
  }

  /** The gates compute the leg's new leaf. */
  lemma WrittenLeaf(h: Hash, leg: Leg)
    ensures AccountLeaf(h, leg.u.index, leg.key, Add(Sub(leg.u.balance, leg.debit), leg.credit),
                        Add(leg.u.nonce, leg.bump))
         == NewLeaf(h, leg)
  {
    hide AccountLeaf;
    ModularSum(leg.u.balance, leg.debit, leg.credit);
  }

  lemma ModularSum(balance: Fe, debit: Fe, credit: Fe)
    ensures Add(Sub(balance, debit), credit) == (balance - debit + credit) % Q
  {
  }

  /** One leg as the circuit lays it out: inclusion check, balance check, new leaf, conditional root update. */
  method ProcessLeg(h: Hash, active: Fe, u: StateUpdate, key: PublicKey, debit: Fe, credit: Fe, bump: Fe, root: Fe)
    returns (ok: bool, root': Fe)
    requires |u.path| == |u.bits| && IsBoolean(active)
    ensures var leg := Leg(u, key, debit, credit, bump);
            && (ok <==> UpdateOk(u) && (active == 1 ==> LegOk(h, leg, root)))
            && (ok ==> root' == if active == 1 then LegRoot(h, leg) else root)
  {
    hide Select, Fold, OldLeaf, NewLeaf, AccountLeaf, Add, Sub, AllBoolean;
    WrittenLeaf(h, Leg(u, key, debit, credit, bump));
    var ok1, oldLeaf := OldLeafHash(h, u, key);
    var ok2, oldRoot := MerkleRoot(h, oldLeaf, u.path, u.bits);
    var ok3 := Select(active, oldRoot, root) == root;
    var ok4 := Select(active, debit, 0) <= u.balance;
    var balance := Add(Sub(u.balance, Select(active, debit, 0)), Select(active, credit, 0));
    var nonce := Add(u.nonce, bump);
    var newLeaf := AccountLeaf(h, u.index, key, balance, nonce);
    var ok5, newRoot := MerkleRoot(h, newLeaf, u.path, u.bits);
    root' := Select(active, newRoot, root);
    ok := ok1 && ok2 && ok3 && ok4 && ok5;
  }

  /** The activity flags derived from the operation type, and the maker's nonce increment. */
  method Flags(opType: Fe)
    returns (valid: bool, isTrade: Fe, isWithdrawal: Fe, isDeposit: Fe, makerBaseActive: Fe, bump: Fe,
             takerBaseActive: Fe)
    ensures valid <==> opType in {OP_TRADE, OP_TRANSFER, OP_WITHDRAWAL, OP_DEPOSIT}
    ensures isTrade == (if opType == OP_TRADE then 1 else 0)
    ensures isWithdrawal == (if opType == OP_WITHDRAWAL then 1 else 0)
    ensures isDeposit == (if opType == OP_DEPOSIT then 1 else 0)
    ensures makerBaseActive == (if opType == OP_DEPOSIT then 0 else 1)
    ensures takerBaseActive == (if opType == OP_WITHDRAWAL then 0 else 1)
    ensures bump == (if opType == OP_DEPOSIT || opType == OP_TRADE then 0 else 1)
  {
    isTrade := IsZero(Sub(opType, OP_TRADE));
    var isTransfer := IsZero(Sub(opType, OP_TRANSFER));
    isWithdrawal := IsZero(Sub(opType, OP_WITHDRAWAL));
    isDeposit := IsZero(Sub(opType, OP_DEPOSIT));
    valid := Or(Or(Or(isTrade, isTransfer), isWithdrawal), isDeposit) == 1;
    makerBaseActive := Sub(1, isDeposit);
    takerBaseActive := Sub(1, isWithdrawal);
    bump := Sub(makerBaseActive, Mul(makerBaseActive, isTrade));
  }

  method ProcessOperation(p: Params, op: Operation, root: Fe, withdrawalHash: Fe, depositHash: Fe)
    returns (ok: bool, root': Fe, withdrawalHash': Fe, depositHash': Fe)
    requires OpShaped(p, op) && p.FixtureValid()
    ensures ok <==> Satisfied(p, op, root)
    ensures ok ==> root' == OutRoot(p, op, root)
    ensures withdrawalHash' == NextWithdrawalHash(p.h, op, withdrawalHash)
    ensures depositHash' == NextDepositHash(p.h, op, depositHash)
  {
    hide Select;
    var valid, isTrade, isWithdrawal, isDeposit, makerBaseActive, bump, takerBaseActive := Flags(op.opType);
    ok := op.amount < AMOUNT_LIMIT && op.quoteAmount < AMOUNT_LIMIT && valid;

    var makerMsg := p.h([op.opType, op.maker.x, op.maker.y, op.makerBase.index, op.makerQuote.index]);
    var makerOk := ConditionalVerify(p, makerBaseActive, op.maker, op.makerSig, makerMsg);
    var takerMsg := p.h([op.opType, op.taker.x, op.taker.y, op.takerBase.index, op.takerQuote.index]);
    var takerOk := ConditionalVerify(p, isTrade, op.taker, op.takerSig, takerMsg);
    ok := ok && makerOk && takerOk;

    withdrawalHash' := Select(isWithdrawal, p.h([withdrawalHash, op.makerBase.index, op.amount]), withdrawalHash);
    depositHash' := Select(isDeposit, p.h([depositHash, op.takerBase.index, op.amount]), depositHash);

    var legsOk, root4 := ProcessLegs(p, op, root, isTrade, makerBaseActive, bump, takerBaseActive);
    ok := ok && legsOk;
    root' := root4;
  }

  method ProcessLegs(p: Params, op: Operation, root: Fe, isTrade: Fe, makerBaseActive: Fe, bump: Fe,
                     takerBaseActive: Fe)
    returns (ok: bool, root': Fe)
    requires OpShaped(p, op)
    requires isTrade == (if op.opType == OP_TRADE then 1 else 0)
    requires makerBaseActive == (if op.opType == OP_DEPOSIT then 0 else 1)
    requires takerBaseActive == (if op.opType == OP_WITHDRAWAL then 0 else 1)
    requires bump == (if op.opType == OP_DEPOSIT || op.opType == OP_TRADE then 0 else 1)
    ensures op.opType in {OP_TRADE, OP_TRANSFER, OP_WITHDRAWAL, OP_DEPOSIT} ==>
      && (ok <==> UpdateOk(op.makerBase) && UpdateOk(op.makerQuote) && UpdateOk(op.takerBase) && UpdateOk(op.takerQuote)
                  && LegsOk(p.h, ActiveLegs(op), root))
      && (ok ==> root' == OutRoot(p, op, root))
  {
    hide UpdateOk, LegOk, LegRoot;
    var ok1, root1 := ProcessLeg(p.h, makerBaseActive, op.makerBase, op.maker, op.amount, 0, bump, root);
    var ok2, root2 := ProcessLeg(p.h, isTrade, op.makerQuote, op.maker, 0, op.quoteAmount, 0, root1);
    var ok3, root3 := ProcessLeg(p.h, takerBaseActive, op.takerBase, op.taker, 0, op.amount, 0, root2);
    var ok4, root4 := ProcessLeg(p.h, isTrade, op.takerQuote, op.taker, op.quoteAmount, 0, 0, root3);
    ok := ok1 && ok2 && ok3 && ok4;
    root' := root4;
    ghost var legs := ActiveLegs(op);
    ChainUnrolled(p.h, legs, root);
    if op.opType == OP_TRADE {
      assert ok1 <==> UpdateOk(op.makerBase) && LegOk(p.h, legs[0], root);
      assert ok1 ==> (ok2 <==> UpdateOk(op.makerQuote) && LegOk(p.h, legs[1], LegRoot(p.h, legs[0])));
      assert ok1 && ok2 ==> (ok3 <==> UpdateOk(op.takerBase) && LegOk(p.h, legs[2], LegRoot(p.h, legs[1])));
      assert ok1 && ok2 && ok3 ==> (ok4 <==> UpdateOk(op.takerQuote) && LegOk(p.h, legs[3], LegRoot(p.h, legs[2])));
    } else if op.opType == OP_TRANSFER {
      assert ok1 <==> UpdateOk(op.makerBase) && LegOk(p.h, legs[0], root);
      assert ok2 <==> UpdateOk(op.makerQuote);
      assert ok1 && ok2 ==> (ok3 <==> UpdateOk(op.takerBase) && LegOk(p.h, legs[1], LegRoot(p.h, legs[0])));
    } else if op.opType == OP_WITHDRAWAL {
      assert ok1 <==> UpdateOk(op.makerBase) && LegOk(p.h, legs[0], root);
      assert ok3 <==> UpdateOk(op.takerBase);
    } else if op.opType == OP_DEPOSIT {
      assert ok1 <==> UpdateOk(op.makerBase);
      assert ok2 <==> UpdateOk(op.makerQuote);
      assert ok1 && ok2 ==> (ok3 <==> UpdateOk(op.takerBase) && LegOk(p.h, legs[0], root));
    }
  }

  /** The recursive chain over one, two or four legs, written out. */
  lemma ChainUnrolled(h: Hash, legs: seq<Leg>, root: Fe)
    requires LegsShaped(legs) && |legs| in {1, 2, 4}
    ensures LegsRoot(h, legs, root) == LegRoot(h, legs[|legs| - 1])
    ensures LegsOk(h, legs, root) <==>
      LegOk(h, legs[0], root) && forall i | 1 <= i < |legs| :: LegOk(h, legs[i], LegRoot(h, legs[i - 1]))
  {
    ChainUnrolledFrom(h, legs, root, 0);
  }

  lemma {:induction false} ChainUnrolledFrom(h: Hash, legs: seq<Leg>, root: Fe, k: nat)
    requires LegsShaped(legs) && k < |legs|
    ensures LegsShaped(legs[k..])
    ensures LegsRoot(h, legs[k..], root) == LegRoot(h, legs[|legs| - 1])
    ensures LegsOk(h, legs[k..], root) <==>
      LegOk(h, legs[k], root) && forall i | k + 1 <= i < |legs| :: LegOk(h, legs[i], LegRoot(h, legs[i - 1]))
    decreases |legs| - k
  {
    var rest := legs[k..];
    assert LegsShaped(rest);
    assert rest[1..] == legs[k + 1..];
    if k + 1 < |legs| {
      ChainUnrolledFrom(h, legs, LegRoot(h, legs[k]), k + 1);
    }
  }

  // ------------------------------------------------------------------ the whole batch

  /** Public inputs threaded through a batch. */
  datatype Running = Running(root: Fe, withdrawalHash: Fe, depositHash: Fe)

  predicate OpsShaped(p: Params, ops: seq<Operation>) {
    forall i | 0 <= i < |ops| :: OpShaped(p, ops[i])
  }

  /** The running values after the first n operations. */
  function RunBatch(p: Params, ops: seq<Operation>, n: nat, root: Fe): Running
    requires OpsShaped(p, ops) && n <= |ops|
  {
    if n == 0 then Running(root, 0, 0)
    else
      var r, op := RunBatch(p, ops, n - 1, root), ops[n - 1];
      Running(OutRoot(p, op, r.root), NextWithdrawalHash(p.h, op, r.withdrawalHash),
              NextDepositHash(p.h, op, r.depositHash))
  }

  /** The first n operations satisfy their constraints, each from the root the previous one produced. */
  predicate BatchOk(p: Params, ops: seq<Operation>, n: nat, root: Fe)
    requires OpsShaped(p, ops) && n <= |ops|
  {
    n == 0 || (BatchOk(p, ops, n - 1, root) && Satisfied(p, ops[n - 1], RunBatch(p, ops, n - 1, root).root))
  }

  /** The circuit accepts a batch with these public inputs. */
  predicate Accepts(p: Params, ops: seq<Operation>, oldRoot: Fe, newRoot: Fe, withdrawalHash: Fe, depositHash: Fe)
    requires OpsShaped(p, ops)
  {
    BatchOk(p, ops, |ops|, oldRoot) && RunBatch(p, ops, |ops|, oldRoot) == Running(newRoot, withdrawalHash, depositHash)
  }

  method Define(p: Params, ops: seq<Operation>, oldRoot: Fe, newRoot: Fe, withdrawalHash: Fe, depositHash: Fe)
    returns (ok: bool)
    requires OpsShaped(p, ops) && p.FixtureValid()
    ensures ok <==> Accepts(p, ops, oldRoot, newRoot, withdrawalHash, depositHash)
  {
    hide Satisfied, OutRoot, NextWithdrawalHash, NextDepositHash;
    ok := true;
    var root, currentWithdrawal, currentDeposit := oldRoot, 0 as Fe, 0 as Fe;
    for i := 0 to |ops|
      invariant ok <==> BatchOk(p, ops, i, oldRoot)
      invariant ok ==> RunBatch(p, ops, i, oldRoot) == Running(root, currentWithdrawal, currentDeposit)
    {
      var ok', root', w', d' := ProcessOperation(p, ops[i], root, currentWithdrawal, currentDeposit);
      ok := ok && ok';
      root, currentWithdrawal, currentDeposit := root', w', d';
    }
    ok := ok && root == newRoot && currentWithdrawal == withdrawalHash && currentDeposit == depositHash;
  }
}
