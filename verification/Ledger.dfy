/** What a batch proof means: ledgers, the effect of each operation on them, soundness and conservation. */
module Ledger {
  import opened Field
  import opened Merkle
  import opened Circuit

  datatype Account = Account(index: Fe, key: PublicKey, balance: Fe, nonce: Fe)

  /** Opened leaf positions and the accounts stored there. */
  type Accounts = map<nat, Account>

  datatype Outcome = Rejected | Done(ledger: Accounts)

  function Preimage(a: Account): seq<Fe> {
    [a.index, a.key.x, a.key.y, a.balance, a.nonce]
  }

  function Leaves(h: Hash, l: Accounts): map<nat, Fe> {
    map pos | pos in l :: h(Preimage(l[pos]))
  }

  function RootOf(h: Hash, depth: nat, l: Accounts): Fe {
    Node(h, Leaves(h, l), depth, 0)
  }

  // ------------------------------------------------------------------ reference semantics

  /** A leaf named by an operation: its position, the key and index it must carry, and whether it is opened by this
      leg. */
  datatype Party = Party(pos: nat, index: Fe, key: PublicKey, opens: bool)

  predicate Present(l: Accounts, who: Party) {
    if who.opens then who.pos !in l
    else who.pos in l && l[who.pos].index == who.index && l[who.pos].key == who.key
  }

  function Open(l: Accounts, who: Party): (l': Accounts)
    requires Present(l, who)
    ensures who.pos in l'
  {
    if who.opens then l[who.pos := Account(who.index, who.key, 0, 0)] else l
  }

  function Debit(l: Accounts, who: Party, amount: Fe, nonceBump: Fe): Outcome {
    if !Present(l, who) || Open(l, who)[who.pos].balance < amount then Rejected
    else
      var a := Open(l, who)[who.pos];
      Done(l[who.pos := a.(balance := a.balance - amount, nonce := (a.nonce + nonceBump) % Q)])
  }

  function Credit(l: Accounts, who: Party, amount: Fe): Outcome {
    if !Present(l, who) then Rejected
    else
      var a := Open(l, who)[who.pos];
      Done(l[who.pos := a.(balance := (a.balance + amount) % Q)])
  }

  predicate PartiesNamed(op: Operation) {
    AllBoolean(op.makerBase.bits) && AllBoolean(op.makerQuote.bits) && AllBoolean(op.takerBase.bits)
    && AllBoolean(op.takerQuote.bits)
  }

  function PartyOf(u: StateUpdate, key: PublicKey): Party
    requires AllBoolean(u.bits)
  {
    Party(PosOf(u.bits), u.index, key, u.isGenesis == 1)
  }

  /** The effect of an operation on a ledger, read off the ledger itself, not off the balances the witness claims. */
  function Transact(l: Accounts, op: Operation): Outcome
    requires PartiesNamed(op)
  {
    var makerBase, makerQuote := PartyOf(op.makerBase, op.maker), PartyOf(op.makerQuote, op.maker);
    var takerBase, takerQuote := PartyOf(op.takerBase, op.taker), PartyOf(op.takerQuote, op.taker);
    if op.opType == OP_TRADE then
      match Debit(l, makerBase, op.amount, 0)
      case Rejected => Rejected
      case Done(l1) =>
        match Credit(l1, makerQuote, op.quoteAmount)
        case Rejected => Rejected
        case Done(l2) =>
          match Credit(l2, takerBase, op.amount)
          case Rejected => Rejected
          case Done(l3) => Debit(l3, takerQuote, op.quoteAmount, 0)
    else if op.opType == OP_TRANSFER then
      match Debit(l, makerBase, op.amount, 1)
      case Rejected => Rejected
      case Done(l1) => Credit(l1, takerBase, op.amount)
    else if op.opType == OP_WITHDRAWAL then Debit(l, makerBase, op.amount, 1)
    else Credit(l, takerBase, op.amount)
  }

  // ------------------------------------------------------------------ legs as ledger steps

  predicate LegsNamed(legs: seq<Leg>) {
    forall i | 0 <= i < |legs| :: AllBoolean(legs[i].u.bits)
  }

  function ApplyLeg(l: Accounts, leg: Leg): Outcome
    requires AllBoolean(leg.u.bits)
  {
    var who := PartyOf(leg.u, leg.key);
    if !Present(l, who) || Open(l, who)[who.pos].balance < leg.debit then Rejected
    else
      var a := Open(l, who)[who.pos];
      Done(l[who.pos := a.(balance := (a.balance - leg.debit + leg.credit) % Q, nonce := (a.nonce + leg.bump) % Q)])
  }

  function ApplyLegs(l: Accounts, legs: seq<Leg>): Outcome
    requires LegsNamed(legs)
    decreases |legs|
  {
    if legs == [] then Done(l)
    else
      match ApplyLeg(l, legs[0])
      case Rejected => Rejected
      case Done(l') => ApplyLegs(l', legs[1..])
  }

  lemma ApplyOne(l: Accounts, leg: Leg)
    requires AllBoolean(leg.u.bits)
    ensures leg.credit == 0 ==> ApplyLeg(l, leg) == Debit(l, PartyOf(leg.u, leg.key), leg.debit, leg.bump)
    ensures leg.debit == 0 && leg.bump == 0 ==> ApplyLeg(l, leg) == Credit(l, PartyOf(leg.u, leg.key), leg.credit)
  {
  }

  /** Running an operation's legs in order is the operation's reference effect. */
  lemma LegsAreTransact(l: Accounts, op: Operation)
    requires PartiesNamed(op) && op.opType in {OP_TRADE, OP_TRANSFER, OP_WITHDRAWAL, OP_DEPOSIT}
    ensures LegsNamed(ActiveLegs(op)) && ApplyLegs(l, ActiveLegs(op)) == Transact(l, op)
  {
    var legs := ActiveLegs(op);
    ApplyOne(l, legs[0]);
    if |legs| == 1 {
      assert legs[1..] == [];
    } else {
      match ApplyLeg(l, legs[0]) {
        case Rejected =>
        case Done(l1) =>
          if |legs| == 2 {
            LastLeg(l1, legs[1]);
            assert legs[1..] == [legs[1]];
          } else {
            TradeTail(l1, op);
          }
      }
    }
  }

  lemma LastLeg(l: Accounts, leg: Leg)
    requires AllBoolean(leg.u.bits) && LegsNamed([leg])
    ensures leg.credit == 0 ==> ApplyLegs(l, [leg]) == Debit(l, PartyOf(leg.u, leg.key), leg.debit, leg.bump)
    ensures leg.debit == 0 && leg.bump == 0 ==> ApplyLegs(l, [leg]) == Credit(l, PartyOf(leg.u, leg.key), leg.credit)
  {
    ApplyOne(l, leg);
    assert [leg][1..] == [];
  }

  lemma TradeTail(l1: Accounts, op: Operation)
    requires PartiesNamed(op) && op.opType == OP_TRADE
    ensures var legs := ActiveLegs(op);
            LegsNamed(legs[1..]) &&
            ApplyLegs(l1, legs[1..]) ==
              match Credit(l1, PartyOf(op.makerQuote, op.maker), op.quoteAmount)
              case Rejected => Rejected
              case Done(l2) =>
                match Credit(l2, PartyOf(op.takerBase, op.taker), op.amount)
                case Rejected => Rejected
                case Done(l3) => Debit(l3, PartyOf(op.takerQuote, op.taker), op.quoteAmount, 0)
  {
    var legs := ActiveLegs(op);
    assert legs[1..][1..] == [legs[2], legs[3]] && [legs[2], legs[3]][1..] == [legs[3]];
    ApplyOne(l1, legs[1]);
    match ApplyLeg(l1, legs[1]) {
      case Rejected =>
      case Done(l2) =>
        ApplyOne(l2, legs[2]);
        match ApplyLeg(l2, legs[2]) {
          case Rejected =>
          case Done(l3) => LastLeg(l3, legs[3]);
        }
    }
  }

  // ------------------------------------------------------------------ explicit breaks of the hash

  /** What the witness of one leg would exhibit about the hash if it did not describe the ledger's own leaf. */
  predicate LegBreaks(h: Hash, l: Accounts, leg: Leg)
    requires |leg.u.path| == |leg.u.bits| && AllBoolean(leg.u.bits)
  {
    var pos := PosOf(leg.u.bits);
    var claimed := [leg.u.index, leg.key.x, leg.key.y, leg.u.balance, leg.u.nonce];
    || Clash(h, FoldInputs(h, OldLeaf(h, leg.u, leg.key), leg.u.path, leg.u.bits),
             HonestInputs(h, Leaves(h, l), leg.u.bits))
    || (leg.u.isGenesis != 1 && pos in l && claimed != Preimage(l[pos]) && h(claimed) == h(Preimage(l[pos])))
    || (leg.u.isGenesis != 1 && pos !in l && h(claimed) == 0)
    || (leg.u.isGenesis == 1 && pos in l && h(Preimage(l[pos])) == 0)
  }

  predicate LegsBreak(h: Hash, l: Accounts, legs: seq<Leg>)
    requires LegsShaped(legs) && LegsNamed(legs)
    decreases |legs|
  {
    legs != [] &&
    (LegBreaks(h, l, legs[0]) ||
     match ApplyLeg(l, legs[0])
     case Rejected => false
     case Done(l') => LegsBreak(h, l', legs[1..]))
  }

  lemma LeavesAfterPut(h: Hash, l: Accounts, pos: nat, a: Account)
    ensures Leaves(h, l[pos := a]) == Leaves(h, l)[pos := h(Preimage(a))]
  {
  }

  /** A leg accepted against a ledger's root describes that ledger's leaf and moves the root to the updated ledger's. */
  lemma LegSound(h: Hash, depth: nat, l: Accounts, leg: Leg)
    requires Shaped(depth, leg.u) && UpdateOk(leg.u) && LegOk(h, leg, RootOf(h, depth, l))
    ensures LegBreaks(h, l, leg) ||
            (ApplyLeg(l, leg).Done? && LegRoot(h, leg) == RootOf(h, depth, ApplyLeg(l, leg).ledger))
  {
    hide Node, PathUp, Bits, Fold, FoldInputs, Ancestor;
    if !LegBreaks(h, l, leg) {
      var pos, leaves := PosOf(leg.u.bits), Leaves(h, l);
      LeafBinds(h, leaves, OldLeaf(h, leg.u, leg.key), leg.u.path, leg.u.bits);
      LegDescribesLeaf(h, l, leg);
      var a := Account(leg.u.index, leg.key, (leg.u.balance - leg.debit + leg.credit) % Q,
                       (leg.u.nonce + leg.bump) % Q);
      BitsOfPos(leg.u.bits);
      UpdateByPath(h, leaves, pos, h(Preimage(a)), depth);
      LeavesAfterPut(h, l, pos, a);
    }
  }

  lemma LegDescribesLeaf(h: Hash, l: Accounts, leg: Leg)
    requires |leg.u.path| == |leg.u.bits| && UpdateOk(leg.u) && leg.debit <= leg.u.balance
    requires !LegBreaks(h, l, leg) && OldLeaf(h, leg.u, leg.key) == LeafAt(Leaves(h, l), PosOf(leg.u.bits))
    ensures var who := PartyOf(leg.u, leg.key);
            && Present(l, who)
            && Open(l, who)[who.pos] == Account(leg.u.index, leg.key, leg.u.balance, leg.u.nonce)
            && ApplyLeg(l, leg) == Done(l[who.pos := Account(leg.u.index, leg.key,
                 (leg.u.balance - leg.debit + leg.credit) % Q, (leg.u.nonce + leg.bump) % Q)])
  {
    var pos := PosOf(leg.u.bits);
    var claimed := [leg.u.index, leg.key.x, leg.key.y, leg.u.balance, leg.u.nonce];
    if leg.u.isGenesis != 1 && pos in l {
      assert claimed == Preimage(l[pos]);
      assert claimed[0] == Preimage(l[pos])[0] && claimed[1] == Preimage(l[pos])[1] && claimed[2] == Preimage(l[pos])[2]
          && claimed[3] == Preimage(l[pos])[3] && claimed[4] == Preimage(l[pos])[4];
    }
  }

  lemma {:induction false} LegsSound(h: Hash, depth: nat, l: Accounts, legs: seq<Leg>)
    requires LegsShaped(legs) && LegsNamed(legs)
    requires forall i | 0 <= i < |legs| :: Shaped(depth, legs[i].u) && UpdateOk(legs[i].u)
    requires LegsOk(h, legs, RootOf(h, depth, l))
    ensures LegsBreak(h, l, legs) ||
            (ApplyLegs(l, legs).Done?
             && LegsRoot(h, legs, RootOf(h, depth, l)) == RootOf(h, depth, ApplyLegs(l, legs).ledger))
    decreases |legs|
  {
    if legs == [] {
    } else {
      LegSound(h, depth, l, legs[0]);
      if !LegBreaks(h, l, legs[0]) {
        LegsSound(h, depth, ApplyLeg(l, legs[0]).ledger, legs[1..]);
      }
    }
  }

  // ------------------------------------------------------------------ soundness of operations and batches

  predicate OpBreaks(p: Params, l: Accounts, op: Operation)
    requires OpShaped(p, op) && PartiesNamed(op)
  {
    LegsShaped(ActiveLegs(op)) && LegsNamed(ActiveLegs(op)) && LegsBreak(p.h, l, ActiveLegs(op))
  }

  /** Every witness accepted from a ledger's root performs exactly the operation on that ledger, or breaks the hash. */
  lemma OperationSound(p: Params, l: Accounts, op: Operation)
    requires OpShaped(p, op) && Satisfied(p, op, RootOf(p.h, p.depth, l))
    ensures PartiesNamed(op)
    ensures OpBreaks(p, l, op) ||
            (Transact(l, op).Done?
             && OutRoot(p, op, RootOf(p.h, p.depth, l)) == RootOf(p.h, p.depth, Transact(l, op).ledger))
  {
    LegsAreShaped(p, op);
    LegsAreTransact(l, op);
    LegsSound(p.h, p.depth, l, ActiveLegs(op));
  }

  /** The account at pos holds this key and leaf index. */
  predicate HeldBy(l: Accounts, pos: nat, key: PublicKey, index: Fe) {
    pos in l && l[pos].key == key && l[pos].index == index
  }

  /** No account changes hands or moves. */
  predicate KeepsHolders(l: Accounts, l': Accounts) {
    forall pos | pos in l :: HeldBy(l', pos, l[pos].key, l[pos].index)
  }

  lemma LegHolder(h: Hash, depth: nat, l: Accounts, leg: Leg)
    requires Shaped(depth, leg.u) && UpdateOk(leg.u) && LegOk(h, leg, RootOf(h, depth, l)) && !LegBreaks(h, l, leg)
    ensures ApplyLeg(l, leg).Done? && KeepsHolders(l, ApplyLeg(l, leg).ledger)
    ensures HeldBy(ApplyLeg(l, leg).ledger, PosOf(leg.u.bits), leg.key, leg.u.index)
    ensures LegRoot(h, leg) == RootOf(h, depth, ApplyLeg(l, leg).ledger)
  {
    hide Node, PathUp, Bits, Fold, FoldInputs, Ancestor, LegBreaks, OldLeaf, PosOf;
    LegSound(h, depth, l, leg);
    LeafOfLeg(h, depth, l, leg);
    LegDescribesLeaf(h, l, leg);
  }

  lemma LeafOfLeg(h: Hash, depth: nat, l: Accounts, leg: Leg)
    requires Shaped(depth, leg.u) && UpdateOk(leg.u) && LegOk(h, leg, RootOf(h, depth, l)) && !LegBreaks(h, l, leg)
    ensures OldLeaf(h, leg.u, leg.key) == LeafAt(Leaves(h, l), PosOf(leg.u.bits))
  {
    hide Node, PathUp, Bits, Fold, FoldInputs, Ancestor, OldLeaf, PosOf;
    LeafBinds(h, Leaves(h, l), OldLeaf(h, leg.u, leg.key), leg.u.path, leg.u.bits);
  }

  /** After accepted legs, each leg's position is held by the leg's own key and index, and no holder has changed. */
  lemma {:induction false} LegsHolders(h: Hash, depth: nat, l: Accounts, legs: seq<Leg>)
    requires LegsShaped(legs) && LegsNamed(legs)
    requires forall i | 0 <= i < |legs| :: Shaped(depth, legs[i].u) && UpdateOk(legs[i].u)
    requires LegsOk(h, legs, RootOf(h, depth, l)) && !LegsBreak(h, l, legs)
    ensures ApplyLegs(l, legs).Done? && KeepsHolders(l, ApplyLegs(l, legs).ledger)
    ensures forall i | 0 <= i < |legs| ::
              HeldBy(ApplyLegs(l, legs).ledger, PosOf(legs[i].u.bits), legs[i].key, legs[i].u.index)
    decreases |legs|
  {
    hide RootOf, LegOk, LegBreaks, UpdateOk, LegRoot, PosOf, ApplyLeg;
    if legs == [] {
    } else {
      LegHolder(h, depth, l, legs[0]);
      LegsHolders(h, depth, ApplyLeg(l, legs[0]).ledger, legs[1..]);
      assert forall i | 1 <= i < |legs| :: legs[i] == legs[1..][i - 1];
    }
  }

  /** Whoever is debited signed for it: the account at each debited position is held by the key whose signature was
      checked, and the signed message names that account's own leaf index. */
  lemma DebitsAreSigned(p: Params, l: Accounts, op: Operation)
    requires OpShaped(p, op) && Satisfied(p, op, RootOf(p.h, p.depth, l)) && PartiesNamed(op) && !OpBreaks(p, l, op)
    ensures Transact(l, op).Done? && KeepsHolders(l, Transact(l, op).ledger)
    ensures op.opType != OP_DEPOSIT ==>
              var pos, after := PosOf(op.makerBase.bits), Transact(l, op).ledger;
              pos in after && p.verify(after[pos].key, op.makerSig,
                p.h([op.opType, after[pos].key.x, after[pos].key.y, after[pos].index, op.makerQuote.index]))
    ensures op.opType == OP_TRADE ==>
              var pos, after := PosOf(op.takerQuote.bits), Transact(l, op).ledger;
              pos in after && p.verify(after[pos].key, op.takerSig,
                p.h([op.opType, after[pos].key.x, after[pos].key.y, op.takerBase.index, after[pos].index]))
  {
    hide RootOf, LegOk, LegBreaks, UpdateOk, LegRoot, PosOf, ApplyLeg, LegsOk, LegsBreak, ApplyLegs, Transact,
         KeepsHolders;
    LegsAreShaped(p, op);
    LegsAreTransact(l, op);
    LegsHolders(p.h, p.depth, l, ActiveLegs(op));
    var legs, after := ActiveLegs(op), Transact(l, op).ledger;
    if op.opType != OP_DEPOSIT {
      assert HeldBy(after, PosOf(legs[0].u.bits), op.maker, op.makerBase.index);
    }
    if op.opType == OP_TRADE {
      assert HeldBy(after, PosOf(legs[3].u.bits), op.taker, op.takerQuote.index);
    }
  }

  predicate OpsNamed(ops: seq<Operation>, n: nat)
    requires n <= |ops|
  {
    n == 0 || (OpsNamed(ops, n - 1) && PartiesNamed(ops[n - 1]))
  }

  function RunLedger(l: Accounts, ops: seq<Operation>, n: nat): Outcome
    requires n <= |ops| && OpsNamed(ops, n)
  {
    if n == 0 then Done(l)
    else
      match RunLedger(l, ops, n - 1)
      case Rejected => Rejected
      case Done(l') => Transact(l', ops[n - 1])
  }

  predicate BatchBreaks(p: Params, l: Accounts, ops: seq<Operation>, n: nat)
    requires n <= |ops| && OpsShaped(p, ops) && OpsNamed(ops, n)
  {
    n > 0 &&
    (BatchBreaks(p, l, ops, n - 1) ||
     match RunLedger(l, ops, n - 1)
     case Rejected => false
     case Done(l') => OpBreaks(p, l', ops[n - 1]))
  }

  /** A batch accepted from a ledger's root performs its operations in order and ends at the resulting ledger's root. */
  lemma {:induction false} BatchSound(p: Params, l: Accounts, ops: seq<Operation>, n: nat)
    requires n <= |ops| && OpsShaped(p, ops) && BatchOk(p, ops, n, RootOf(p.h, p.depth, l))
    ensures OpsNamed(ops, n)
    ensures BatchBreaks(p, l, ops, n) ||
            (RunLedger(l, ops, n).Done?
             && RunBatch(p, ops, n, RootOf(p.h, p.depth, l)).root == RootOf(p.h, p.depth, RunLedger(l, ops, n).ledger))
  {
    hide Satisfied, OutRoot, OpBreaks, Transact, RootOf;
    if n == 0 {
    } else {
      BatchSound(p, l, ops, n - 1);
      SatisfiedNamesParties(p, ops[n - 1], RunBatch(p, ops, n - 1, RootOf(p.h, p.depth, l)).root);
      if !BatchBreaks(p, l, ops, n) {
        OperationSound(p, RunLedger(l, ops, n - 1).ledger, ops[n - 1]);
      }
    }
  }

  lemma SatisfiedNamesParties(p: Params, op: Operation, root: Fe)
    requires OpShaped(p, op) && Satisfied(p, op, root)
    ensures PartiesNamed(op)
  {
  }

  // ------------------------------------------------------------------ conservation

  function BalanceAt(l: Accounts, pos: nat): nat {
    if pos in l then l[pos].balance else 0
  }

  /** Sum of the balances at positions below n. */
  function Total(l: Accounts, n: nat): nat {
    if n == 0 then 0 else Total(l, n - 1) + BalanceAt(l, n - 1)
  }

  /** Everything the tree holds. */
  function Supply(depth: nat, l: Accounts): nat {
    Total(l, Pow2(depth))
  }

  lemma {:induction false} EmptyTotal(n: nat)
    ensures Total(map[], n) == 0
  {
    if n == 0 {
    } else {
      EmptyTotal(n - 1);
    }
  }

  lemma {:induction false} TotalAfterPut(l: Accounts, n: nat, pos: nat, a: Account)
    ensures Total(l[pos := a], n) == Total(l, n) + if pos < n then a.balance - BalanceAt(l, pos) else 0
  {
    if n == 0 {
    } else {
      TotalAfterPut(l, n - 1, pos, a);
    }
  }

  lemma {:induction false} BalanceWithinTotal(l: Accounts, n: nat, pos: nat)
    requires pos < n
    ensures BalanceAt(l, pos) <= Total(l, n)
  {
    if pos < n - 1 {
      BalanceWithinTotal(l, n - 1, pos);
    }
  }

  /** The leg's new balance is the integer before - debit + credit: no reduction takes place. */
  predicate LegExact(l: Accounts, leg: Leg)
    requires AllBoolean(leg.u.bits)
  {
    var pos := PosOf(leg.u.bits);
    ApplyLeg(l, leg).Done? && ApplyLeg(l, leg).ledger[pos].balance == BalanceAt(l, pos) - leg.debit + leg.credit
  }

  /** So it is at every leg, each on the ledger as the previous one left it. */
  predicate LegsExact(l: Accounts, legs: seq<Leg>)
    requires LegsNamed(legs)
    decreases |legs|
  {
    legs == [] || (LegExact(l, legs[0]) && LegsExact(ApplyLeg(l, legs[0]).ledger, legs[1..]))
  }

  /** And at every leg of the first n operations. */
  predicate OpsExact(l: Accounts, ops: seq<Operation>, n: nat)
    requires n <= |ops| && OpsNamed(ops, n)
  {
    n == 0 ||
    (var legs := ActiveLegs(ops[n - 1]);
     OpsExact(l, ops, n - 1) && RunLedger(l, ops, n - 1).Done? && LegsNamed(legs)
     && LegsExact(RunLedger(l, ops, n - 1).ledger, legs))
  }

  /** A leg changes the supply by its credit minus its debit: modulo Q always, exactly when nothing can wrap. */
  lemma LegConserves(depth: nat, l: Accounts, leg: Leg)
    requires Shaped(depth, leg.u) && AllBoolean(leg.u.bits) && ApplyLeg(l, leg).Done?
    ensures var s, s' := Supply(depth, l), Supply(depth, ApplyLeg(l, leg).ledger);
            && s' % Q == (s - leg.debit + leg.credit) % Q
            && (s + leg.credit < Q ==> s' == s - leg.debit + leg.credit && LegExact(l, leg))
  {
    hide Total, Pow2, ApplyLeg, PosOf, Bits, Ancestor;
    var pos := PosOf(leg.u.bits);
    BitsOfPos(leg.u.bits);
    var before := BalanceAt(l, pos);
    var a := LegEntry(l, leg);
    TotalAfterPut(l, Pow2(depth), pos, a);
    BalanceWithinTotal(l, Pow2(depth), pos);
    EntryChange(Supply(depth, l), before, leg.debit, leg.credit, a.balance);
  }

  lemma EntryChange(total: nat, before: nat, debit: nat, credit: nat, after: nat)
    requires debit <= before <= total && after == (before - debit + credit) % Q
    ensures (total + after - before) % Q == (total - debit + credit) % Q
    ensures total + credit < Q ==> after == before - debit + credit
  {
    ReplaceResidue(total, before, before - debit + credit);
  }

  lemma LegEntry(l: Accounts, leg: Leg) returns (a: Account)
    requires AllBoolean(leg.u.bits) && ApplyLeg(l, leg).Done?
    ensures var pos := PosOf(leg.u.bits); var before := BalanceAt(l, pos);
            ApplyLeg(l, leg).ledger == l[pos := a] && leg.debit <= before
            && a.balance == (before - leg.debit + leg.credit) % Q
  {
    a := ApplyLeg(l, leg).ledger[PosOf(leg.u.bits)];
  }

  lemma ReplaceResidue(total: int, before: int, after: int)
    ensures (total - before + after % Q) % Q == (total - before + after) % Q
  {
  }

  function Inflow(op: Operation): nat {
    if op.opType == OP_DEPOSIT then op.amount else 0
  }

  function Outflow(op: Operation): nat {
    if op.opType == OP_WITHDRAWAL then op.amount else 0
  }

  function NetOfLegs(legs: seq<Leg>): int {
    if legs == [] then 0 else legs[0].credit - legs[0].debit + NetOfLegs(legs[1..])
  }

  function CreditsOf(legs: seq<Leg>): nat {
    if legs == [] then 0 else legs[0].credit + CreditsOf(legs[1..])
  }

  lemma {:induction false} LegsConserve(depth: nat, l: Accounts, legs: seq<Leg>)
    requires LegsNamed(legs) && ApplyLegs(l, legs).Done?
    requires forall i | 0 <= i < |legs| :: Shaped(depth, legs[i].u)
    ensures var s, s' := Supply(depth, l), Supply(depth, ApplyLegs(l, legs).ledger);
            && s' % Q == (s + NetOfLegs(legs)) % Q
            && (s + CreditsOf(legs) < Q ==> s' == s + NetOfLegs(legs) && LegsExact(l, legs))
    decreases |legs|
  {
    hide Supply, PosOf, ApplyLeg, LegExact;
    if legs == [] {
    } else {
      var l1 := ApplyLeg(l, legs[0]).ledger;
      LegConserves(depth, l, legs[0]);
      LegsConserve(depth, l1, legs[1..]);
      SumOfResidues(Supply(depth, l1), Supply(depth, l) + legs[0].credit - legs[0].debit, NetOfLegs(legs[1..]));
    }
  }

  lemma SumOfResidues(x: int, y: int, d: int)
    requires x % Q == y % Q
    ensures (x + d) % Q == (y + d) % Q
  {
    ReplaceResidue(d, 0, x);
    ReplaceResidue(d, 0, y);
  }

  lemma NetOfOperation(op: Operation)
    requires op.opType in {OP_TRADE, OP_TRANSFER, OP_WITHDRAWAL, OP_DEPOSIT}
    ensures NetOfLegs(ActiveLegs(op)) == Inflow(op) - Outflow(op)
    ensures CreditsOf(ActiveLegs(op)) <= op.amount + op.quoteAmount
  {
    var legs := ActiveLegs(op);
    SumsUnfold(legs);
    if |legs| > 1 {
      SumsUnfold(legs[1..]);
    }
    if |legs| > 2 {
      assert legs[1..][1..] == legs[2..] && legs[2..][1..] == legs[3..];
      SumsUnfold(legs[2..]);
      SumsUnfold(legs[3..]);
    }
  }

  lemma SumsUnfold(legs: seq<Leg>)
    requires legs != []
    ensures NetOfLegs(legs) == legs[0].credit - legs[0].debit + NetOfLegs(legs[1..])
    ensures CreditsOf(legs) == legs[0].credit + CreditsOf(legs[1..])
    ensures |legs| == 1 ==> NetOfLegs(legs[1..]) == 0 && CreditsOf(legs[1..]) == 0
  {
  }

  /** An operation creates and destroys nothing but its deposit or withdrawal. */
  lemma OperationConserves(p: Params, l: Accounts, op: Operation)
    requires OpShaped(p, op) && PartiesNamed(op) && InRange(op) && Transact(l, op).Done?
    ensures var s := Supply(p.depth, l);
            Balanced(s, Supply(p.depth, Transact(l, op).ledger), Inflow(op), Outflow(op), s < AMOUNT_LIMIT)
            && (s < AMOUNT_LIMIT ==> LegsNamed(ActiveLegs(op)) && LegsExact(l, ActiveLegs(op)))
  {
    hide Supply, Transact, LegsExact, ApplyLegs;
    LegsAreShaped(p, op);
    LegsAreTransact(l, op);
    LegsConserve(p.depth, l, ActiveLegs(op));
    NetOfOperation(op);
    assert 3 * AMOUNT_LIMIT < Q;
  }

  function Deposits(ops: seq<Operation>, n: nat): nat
    requires n <= |ops|
  {
    if n == 0 then 0 else Deposits(ops, n - 1) + Inflow(ops[n - 1])
  }

  function Withdrawals(ops: seq<Operation>, n: nat): nat
    requires n <= |ops|
  {
    if n == 0 then 0 else Withdrawals(ops, n - 1) + Outflow(ops[n - 1])
  }

  predicate InRange(op: Operation) {
    && op.opType in {OP_TRADE, OP_TRANSFER, OP_WITHDRAWAL, OP_DEPOSIT}
    && op.amount < AMOUNT_LIMIT && op.quoteAmount < AMOUNT_LIMIT
  }

  predicate OpsInRange(ops: seq<Operation>, n: nat)
    requires n <= |ops|
  {
    n == 0 || (OpsInRange(ops, n - 1) && InRange(ops[n - 1]))
  }

  /** The supply grew by inflow minus outflow: modulo Q, and as integers if `bounded`. */
  predicate Balanced(before: nat, after: nat, inflow: nat, outflow: nat, bounded: bool) {
    after % Q == (before + inflow - outflow) % Q && (bounded ==> after == before + inflow - outflow)
  }

  lemma BalancedRefl(s: nat)
    ensures Balanced(s, s, 0, 0, s + 0 < AMOUNT_LIMIT)
  {
  }

  lemma BalancedBound(before: nat, after: nat, inflow: nat, outflow: nat)
    requires Balanced(before, after, inflow, outflow, before + inflow < AMOUNT_LIMIT)
    ensures before + inflow < AMOUNT_LIMIT ==> after <= before + inflow
  {
  }

  lemma BalancedTrans(s0: nat, s1: nat, s2: nat, in1: nat, out1: nat, in2: nat, out2: nat)
    requires Balanced(s0, s1, in1, out1, s0 + in1 < AMOUNT_LIMIT) && Balanced(s1, s2, in2, out2, s1 < AMOUNT_LIMIT)
    ensures Balanced(s0, s2, in1 + in2, out1 + out2, s0 + in1 + in2 < AMOUNT_LIMIT)
  {
    SumOfResidues(s1, s0 + in1 - out1, in2 - out2);
  }

  lemma {:induction false} RunConserves(p: Params, l: Accounts, ops: seq<Operation>, n: nat)
    requires n <= |ops| && OpsShaped(p, ops) && OpsNamed(ops, n) && OpsInRange(ops, n) && RunLedger(l, ops, n).Done?
    ensures var s := Supply(p.depth, l);
            Balanced(s, Supply(p.depth, RunLedger(l, ops, n).ledger), Deposits(ops, n), Withdrawals(ops, n),
                     s + Deposits(ops, n) < AMOUNT_LIMIT)
            && (s + Deposits(ops, n) < AMOUNT_LIMIT ==> OpsExact(l, ops, n))
  {
    hide Transact, Supply, LegsExact, LegsNamed, Balanced, InRange;
    BalancedRefl(Supply(p.depth, l));
    if n == 0 {
    } else {
      RunConserves(p, l, ops, n - 1);
      var l1, op := RunLedger(l, ops, n - 1).ledger, ops[n - 1];
      OperationConserves(p, l1, op);
      BalancedTrans(Supply(p.depth, l), Supply(p.depth, l1), Supply(p.depth, Transact(l1, op).ledger),
                    Deposits(ops, n - 1), Withdrawals(ops, n - 1), Inflow(op), Outflow(op));
      BalancedBound(Supply(p.depth, l), Supply(p.depth, l1), Deposits(ops, n - 1), Withdrawals(ops, n - 1));
    }
  }

  lemma OperationInRange(p: Params, op: Operation, root: Fe)
    requires OpShaped(p, op) && Satisfied(p, op, root)
    ensures InRange(op)
  {
  }

  lemma {:induction false} AcceptedInRange(p: Params, ops: seq<Operation>, n: nat, root: Fe)
    requires n <= |ops| && OpsShaped(p, ops) && BatchOk(p, ops, n, root)
    ensures OpsNamed(ops, n) && OpsInRange(ops, n)
  {
    if n == 0 {
    } else {
      hide OpShaped, OutRoot, RunBatch, LegsOk, SignaturesOk, UpdateOk;
      AcceptedInRange(p, ops, n - 1, root);
      OperationInRange(p, ops[n - 1], RunBatch(p, ops, n - 1, root).root);
      SatisfiedNamesParties(p, ops[n - 1], RunBatch(p, ops, n - 1, root).root);
    }
  }

  /** Over every accepted batch the supply changes by deposits minus withdrawals: modulo Q, and exactly
      while the supply and the batch's deposits stay below 2^252, so no balance wraps at any leg. */
  lemma BatchConserves(p: Params, l: Accounts, ops: seq<Operation>, newRoot: Fe, withdrawalHash: Fe, depositHash: Fe)
    requires OpsShaped(p, ops) && Accepts(p, ops, RootOf(p.h, p.depth, l), newRoot, withdrawalHash, depositHash)
    ensures OpsNamed(ops, |ops|)
    ensures BatchBreaks(p, l, ops, |ops|) ||
            (RunLedger(l, ops, |ops|).Done? && newRoot == RootOf(p.h, p.depth, RunLedger(l, ops, |ops|).ledger) &&
             var s, s', inflow, outflow :=
               Supply(p.depth, l), Supply(p.depth, RunLedger(l, ops, |ops|).ledger), Deposits(ops, |ops|),
               Withdrawals(ops, |ops|);
             && s' % Q == (s + inflow - outflow) % Q
             && (s + inflow < AMOUNT_LIMIT ==> s' == s + inflow - outflow && OpsExact(l, ops, |ops|)))
  {
    hide RunLedger, RunBatch, BatchOk, BatchBreaks, OpsNamed, OpsExact, Supply, OpsInRange, Deposits, Withdrawals,
         RootOf;
    BatchSound(p, l, ops, |ops|);
    AcceptedInRange(p, ops, |ops|, RootOf(p.h, p.depth, l));
    if !BatchBreaks(p, l, ops, |ops|) {
      RunConserves(p, l, ops, |ops|);
    }
  }
}
