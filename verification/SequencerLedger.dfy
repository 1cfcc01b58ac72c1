/** The sequencer's records as a ledger: every recorded change is the reference effect of its operation. */
module SequencerLedger {
  import opened Batcher
  import opened Circuit
  import opened Field
  import Honest
  import opened Ledger
  import opened Merkle
  import opened MerkleDB
  import opened Rollup
  import opened Sequencer
  import opened Trades

  function AccountOf(acc: BalanceState): Account {
    Account(Reduce(IndexOf(acc)), PublicKey(Reduce(acc.pubX), Reduce(acc.pubY)), Reduce(acc.balance), Reduce(acc.nonce))
  }

  predicate Holds(l: Accounts, acc: BalanceState, account: BalanceState -> Account) {
    IndexOf(acc) in l && l[IndexOf(acc)] == account(acc)
  }

  /** The ledger holds exactly the accounts that `account` makes of the records, each at its leaf's position. */
  ghost predicate Lists(l: Accounts, balances: BalanceMap, account: BalanceState -> Account) {
    && (forall k | k in balances :: k.1 < 256 && Key(balances[k]) == k)
    && (forall k {:trigger Holds(l, balances[k], account)} | k in balances :: Holds(l, balances[k], account))
    && (forall pos | pos in l :: exists k :: k in balances && LeafIndex(k.0, k.1) == pos)
  }

  /** The ledger that a set of records describes. */
  ghost predicate Describes(l: Accounts, balances: BalanceMap) {
    Lists(l, balances, AccountOf)
  }

  /** At most one ledger is the one described. */
  lemma DescribedOnce(l: Accounts, l': Accounts, balances: BalanceMap)
    requires Describes(l, balances) && Describes(l', balances)
    ensures l == l'
  {
    hide AccountOf, LeafIndex;
    forall pos | pos in l ensures pos in l' && l'[pos] == l[pos] {
      var k :| k in balances && LeafIndex(k.0, k.1) == pos;
      assert Holds(l, balances[k], AccountOf) && Holds(l', balances[k], AccountOf);
    }
    forall pos | pos in l' ensures pos in l {
      var k :| k in balances && LeafIndex(k.0, k.1) == pos;
      assert Holds(l, balances[k], AccountOf);
    }
  }

  lemma PreimageOfRecord(h: Hash, acc: BalanceState)
    ensures h(Preimage(AccountOf(acc))) == RecordHash(h, acc)
  {
    hide Reduce, LeafIndex;
  }

  function RecordAt(balances: BalanceMap, pos: nat): BalanceState {
    if (pos / 256, pos % 256) in balances then balances[(pos / 256, pos % 256)] else BalanceState(0, 0, 0, 0, 0, 0)
  }

  /** The database describes a ledger, and the ledger's leaves are the database's. */
  lemma LedgerOfDatabase(h: Hash, balances: BalanceMap, leaves: map<nat, Fe>) returns (l: Accounts)
    requires LeavesMatch(h, balances, leaves)
    ensures Describes(l, balances) && Leaves(h, l) == leaves
  {
    hide RecordHash, LeafIndex, AccountOf;
    l := map pos | pos in leaves :: AccountOf(RecordAt(balances, pos));
    forall k | k in balances ensures Holds(l, balances[k], AccountOf) {
      assert HoldsRecord(h, leaves, balances[k]);
      IndexDigits(k.0, k.1);
    }
    forall pos | pos in leaves ensures leaves[pos] == h(Preimage(l[pos])) {
      var k :| k in balances && LeafIndex(k.0, k.1) == pos;
      assert HoldsRecord(h, leaves, balances[k]) && Holds(l, balances[k], AccountOf);
      PreimageOfRecord(h, balances[k]);
    }
  }

  /** Each account stores its own position exactly when every leaf index is below Q. */
  lemma WellIndexedExactly(l: Accounts, balances: BalanceMap)
    requires Describes(l, balances)
    ensures WellIndexed(l) <==> forall k | k in balances :: LeafIndex(k.0, k.1) < Q
  {
    hide LeafIndex;
    forall k | k in balances
      ensures LeafIndex(k.0, k.1) in l && (l[LeafIndex(k.0, k.1)].index == LeafIndex(k.0, k.1) <==>
                                           LeafIndex(k.0, k.1) < Q)
    {
      assert Holds(l, balances[k], AccountOf);
    }
  }

  /** The root over the sequencer's leaves commits to a ledger as the payout theorems ask for. */
  lemma CommittedLedger(h: Hash, balances: BalanceMap, leaves: map<nat, Fe>) returns (l: Accounts)
    requires LeavesMatch(h, balances, leaves) && forall k | k in balances :: LeafIndex(k.0, k.1) < Pow2(DEPTH)
    ensures Describes(l, balances) && WellIndexed(l) && RootOf(h, DEPTH, l) == Node(h, leaves, DEPTH, 0)
  {
    hide LeafIndex, Node, Describes, WellIndexed, HoldsRecord;
    l := LedgerOfDatabase(h, balances, leaves);
    DepthFits();
    WellIndexedExactly(l, balances);
  }

  lemma DepthFits()
    ensures Pow2(DEPTH) < Q
  {
    assert Pow2(10) == 1024;
    assert Pow2(20) == 1024 * Pow2(10);
    assert Pow2(28) == 256 * Pow2(20);
  }

  lemma ListsPut(l: Accounts, balances: BalanceMap, acc: BalanceState, account: BalanceState -> Account)
    requires Lists(l, balances, account) && acc.tokenID < 256
    ensures Lists(l[IndexOf(acc) := account(acc)], balances[Key(acc) := acc], account)
  {
    hide LeafIndex;
    var key, next, l' := Key(acc), balances[Key(acc) := acc], l[IndexOf(acc) := account(acc)];
    forall k | k in next ensures Holds(l', next[k], account) {
      if k != key {
        assert Holds(l, balances[k], account);
        IndexInjective(k.0, k.1, key.0, key.1);
      }
    }
    forall pos | pos in l' ensures exists k :: k in next && LeafIndex(k.0, k.1) == pos {
      if pos == IndexOf(acc) {
        assert key in next;
      } else {
        var k :| k in balances && LeafIndex(k.0, k.1) == pos;
        assert k in next;
      }
    }
  }

  lemma DescribesHas(l: Accounts, balances: BalanceMap, acc: BalanceState)
    requires Describes(l, balances) && acc.tokenID < 256
    ensures IndexOf(acc) in l <==> Key(acc) in balances
    ensures Key(acc) in balances ==> l[IndexOf(acc)] == AccountOf(balances[Key(acc)])
  {
    hide LeafIndex, AccountOf;
    if Key(acc) in balances {
      assert Holds(l, balances[Key(acc)], AccountOf);
    }
    if IndexOf(acc) in l {
      var k :| k in balances && LeafIndex(k.0, k.1) == IndexOf(acc);
      IndexInjective(k.0, k.1, acc.accountID, acc.tokenID);
    }
  }

  // ------------------------------------------------------------------ recorded changes

  /** The record a change finds: the stored one, or for a leaf being opened an empty one. */
  predicate Found(balances: BalanceMap, acc: BalanceState, isGenesis: bool) {
    if isGenesis then Key(acc) !in balances && acc.balance == 0 && acc.nonce == 0
    else Key(acc) in balances && balances[Key(acc)] == acc
  }

  /** The step is taken exactly when it is covered, and then lands on the ledger that these records describe. */
  ghost predicate Lands(o: Outcome, covered: bool, balances: BalanceMap) {
    if covered then o.Done? && Describes(o.ledger, balances) else o == Rejected
  }

  /** A recorded leg does to the ledger what the sequencer did to the record; the ledger asks for the debit's residue
      only. */
  lemma LegOnLedger(l: Accounts, balances: BalanceMap, acc: BalanceState, leg: Leg, debit: nat, credit: nat)
    requires Describes(l, balances) && acc.tokenID < 256 && Found(balances, acc, leg.u.isGenesis == 1)
    requires AllBoolean(leg.u.bits) && PosOf(leg.u.bits) == IndexOf(acc)
    requires leg.u.index == AccountOf(acc).index && leg.key == AccountOf(acc).key
    requires leg.debit == Reduce(debit) && leg.credit == Reduce(credit) && leg.bump == 0
    requires debit <= acc.balance + credit
    ensures var changed := acc.(balance := acc.balance - debit + credit);
            Ledger.ApplyLeg(l, leg)
            == if Reduce(debit) <= Reduce(acc.balance) then Done(l[IndexOf(acc) := AccountOf(changed)]) else Rejected
  {
    hide Reduce, LeafIndex, Lists, PosOf, AllBoolean;
    DescribesHas(l, balances, acc);
    NewAccount(acc.balance, debit, credit, acc.nonce);
    assert IndexOf(acc.(balance := acc.balance - debit + credit)) == IndexOf(acc);
  }

  lemma NewAccount(balance: nat, debit: nat, credit: nat, nonce: nat)
    ensures (Reduce(balance) - Reduce(debit) + Reduce(credit)) % Q == Reduce(balance - debit + credit)
    ensures (Reduce(nonce) + 0) % Q == Reduce(nonce) && Reduce(0) == 0
  {
    hide Reduce;
    Honest.Residues(balance, debit, credit, nonce, 0);
    DepositType();
  }

  lemma SameKeyAccount(acc: BalanceState, x: nat, y: nat)
    requires SameKey(acc, x, y)
    ensures AccountOf(acc).key == PublicKey(Reduce(x), Reduce(y))
  {
    hide Reduce;
  }

  /** One leg as the ledger's debit or credit. */
  lemma LegAsStep(h: Hash, depth: nat, l: Accounts, balances: BalanceMap, leaves: map<nat, Fe>, acc: BalanceState,
                  isGenesis: bool, x: nat, y: nat, debit: nat, credit: nat)
    requires Describes(l, balances) && acc.tokenID < 256 && Found(balances, acc, isGenesis)
    requires IndexOf(acc) < Pow2(depth) && SameKey(acc, x, y) && debit <= acc.balance + credit
    requires debit == 0 || credit == 0
    ensures var u, key := WitnessLeg(Snapshot(h, depth, leaves, acc, isGenesis)), PublicKey(Reduce(x), Reduce(y));
            var after, covered := balances[Key(acc) := acc.(balance := acc.balance - debit + credit)],
                                  Reduce(debit) <= Reduce(acc.balance);
            && AllBoolean(u.bits)
            && (credit == 0 ==> Lands(Debit(l, PartyOf(u, key), Reduce(debit), 0), covered, after))
            && (debit == 0 ==> Lands(Credit(l, PartyOf(u, key), Reduce(credit)), true, after))
  {
    hide Reduce, Ancestor, Pow2, PathUp, Bits, LeafIndex, Lists, Ledger.ApplyLeg, Debit, Credit, AllBoolean, PosOf,
         SameKey;
    var leg := SnapshotLeg(h, depth, leaves, acc, isGenesis, x, y, debit, credit);
    SmallIndexHasRoot(IndexOf(acc), depth);
    PosOfBits(IndexOf(acc), depth);
    SameKeyAccount(acc, x, y);
    LegOnLedger(l, balances, acc, leg, debit, credit);
    ListsPut(l, balances, acc.(balance := acc.balance - debit + credit), AccountOf);
    assert IndexOf(acc.(balance := acc.balance - debit + credit)) == IndexOf(acc);
    ApplyOne(l, leg);
    NewAccount(acc.balance, debit, credit, acc.nonce);
  }

  /** A recorded deposit or opening credit is the deposit operation on the ledger. */
  lemma CreditOnLedger(decode: SigDecoder, h: Hash, depth: nat, l: Accounts, balances: BalanceMap,
                       leaves: map<nat, Fe>, balances': BalanceMap, leaves': map<nat, Fe>, t: StateTransition,
                       id: nat, token: nat, amount: nat)
    requires Describes(l, balances) && token < 256 && LeafIndex(id, token) < Pow2(depth)
    requires CreditRecorded(h, depth, balances, leaves, balances', leaves', t, id, token, amount)
    requires AllBoolean(t.makerBase.pathBits) && AllBoolean(t.makerQuote.pathBits) && AllBoolean(t.takerQuote.pathBits)
    ensures PartiesNamed(Witness(decode, t)) && Lands(Transact(l, Witness(decode, t)), true, balances')
  {
    hide Reduce, Ancestor, Pow2, PathUp, Bits, LeafIndex, Describes, Lands, Credit, SameKey, AllBoolean, PosOf,
         Snapshot, PartyOf, AccountOf;
    var acc := AccountBefore(balances, id, token, t.takerX, t.takerY);
    LegAsStep(h, depth, l, balances, leaves, acc, (id, token) !in balances, t.takerX, t.takerY, 0, amount);
    DepositType();
  }

  lemma DepositType()
    ensures Reduce(0) == OP_TRADE && Reduce(3) == OP_DEPOSIT
  {
  }

  /** A recorded trade is the trade operation on the ledger, which takes it exactly when both debits' residues are
      covered. */
  lemma TradeOnLedger(decode: SigDecoder, h: Hash, depth: nat, l: Accounts, balances: BalanceMap,
                      leaves: map<nat, Fe>, s: Legs4, amount: nat, quote: nat, sellSig: string, buySig: string)
    requires Describes(l, balances) && FourLeaves(s) && AmongRecords(balances, s)
    requires amount <= s.sellerBase.balance && quote <= s.buyerQuote.balance
    requires SameKey(s.sellerQuote, s.sellerBase.pubX, s.sellerBase.pubY)
             && SameKey(s.buyerQuote, s.buyerBase.pubX, s.buyerBase.pubY)
    requires InTree(s, depth)
    ensures var op := Witness(decode, TradeTransition(h, depth, leaves, s, amount, quote, sellSig, buySig));
            var covered := Reduce(amount) <= Reduce(s.sellerBase.balance)
                           && Reduce(quote) <= Reduce(s.buyerQuote.balance);
            PartiesNamed(op) && Lands(Transact(l, op), covered, StoreAll(balances, Filled(s, amount, quote)))
  {
    hide Reduce, Ancestor, Pow2, PathUp, Bits, LeafIndex, Describes, TradeLeaves, Debit, Credit, SameKey, AllBoolean,
         PosOf, Snapshot, PartyOf, AccountOf, Transact, Found, Key, FourLeaves, AmongRecords, StoreAll, Witness,
             WitnessLeg,
         TradeTransition, Filled;
    var f := Filled(s, amount, quote);
    var b1 := balances[Key(s.sellerBase) := f.sellerBase];
    var b2 := b1[Key(s.sellerQuote) := f.sellerQuote];
    var b3 := b2[Key(s.buyerBase) := f.buyerBase];
    FoundInTurn(balances, s, amount, quote);
    FilledRecords(s, amount, quote);
    OwnKey(s.sellerBase);
    OwnKey(s.buyerBase);
    var op := WitnessOfTrade(decode, h, depth, leaves, s, amount, quote, sellSig, buySig);
    var t0, t1, t2, t3 := TradeLeaves(h, leaves, f, 0), TradeLeaves(h, leaves, f, 1), TradeLeaves(h, leaves, f, 2),
                          TradeLeaves(h, leaves, f, 3);
    var sellX, sellY, buyX, buyY := s.sellerBase.pubX, s.sellerBase.pubY, s.buyerBase.pubX, s.buyerBase.pubY;
    SnapshotBits(h, depth, t1, s.sellerQuote);
    SnapshotBits(h, depth, t2, s.buyerBase);
    SnapshotBits(h, depth, t3, s.buyerQuote);
    LegAsStep(h, depth, l, balances, t0, s.sellerBase, false, sellX, sellY, amount, 0);
    TradeSteps(l, op);
    var o1 := Debit(l, PartyOf(op.makerBase, op.maker), op.amount, 0);
    if o1.Done? {
      LegAsStep(h, depth, o1.ledger, b1, t1, s.sellerQuote, false, sellX, sellY, 0, quote);
      var l2 := Credit(o1.ledger, PartyOf(op.makerQuote, op.maker), op.quoteAmount).ledger;
      LegAsStep(h, depth, l2, b2, t2, s.buyerBase, false, buyX, buyY, 0, amount);
      var l3 := Credit(l2, PartyOf(op.takerBase, op.taker), op.amount).ledger;
      LegAsStep(h, depth, l3, b3, t3, s.buyerQuote, false, buyX, buyY, quote, 0);
    }
  }

  lemma SnapshotBits(h: Hash, depth: nat, leaves: map<nat, Fe>, acc: BalanceState)
    requires IndexOf(acc) < Pow2(depth)
    ensures AllBoolean(WitnessLeg(Snapshot(h, depth, leaves, acc, false)).bits)
  {
    hide PathUp, Reduce, Pow2;
    SmallIndexHasRoot(IndexOf(acc), depth);
    PosOfBits(IndexOf(acc), depth);
  }

  lemma TradeSteps(l: Accounts, op: Operation)
    requires PartiesNamed(op) && op.opType == OP_TRADE
    ensures var o1 := Debit(l, PartyOf(op.makerBase, op.maker), op.amount, 0);
            if o1.Rejected? then Transact(l, op) == Rejected
            else
              var o2 := Credit(o1.ledger, PartyOf(op.makerQuote, op.maker), op.quoteAmount);
              o2.Done? ==>
                var o3 := Credit(o2.ledger, PartyOf(op.takerBase, op.taker), op.amount);
                o3.Done? ==>
                  Transact(l, op) == Debit(o3.ledger, PartyOf(op.takerQuote, op.taker), op.quoteAmount, 0)
  {
    hide Debit, Credit, PartyOf;
  }

  /** Each record is still as the trade found it when its turn comes. */
  lemma FoundInTurn(balances: BalanceMap, s: Legs4, amount: nat, quote: nat)
    requires FourLeaves(s) && AmongRecords(balances, s)
    requires amount <= s.sellerBase.balance && quote <= s.buyerQuote.balance
    ensures var f := Filled(s, amount, quote);
            var b1 := balances[Key(s.sellerBase) := f.sellerBase];
            var b2 := b1[Key(s.sellerQuote) := f.sellerQuote];
            var b3 := b2[Key(s.buyerBase) := f.buyerBase];
            && Found(balances, s.sellerBase, false) && Found(b1, s.sellerQuote, false)
            && Found(b2, s.buyerBase, false) && Found(b3, s.buyerQuote, false)
            && StoreAll(balances, f) == b3[Key(s.buyerQuote) := f.buyerQuote]
            && s.sellerBase.tokenID < 256 && s.sellerQuote.tokenID < 256
            && s.buyerBase.tokenID < 256 && s.buyerQuote.tokenID < 256
  {
  }

  lemma FilledRecords(s: Legs4, amount: nat, quote: nat)
    requires amount <= s.sellerBase.balance && quote <= s.buyerQuote.balance
    ensures var f := Filled(s, amount, quote);
            && f.sellerBase == s.sellerBase.(balance := s.sellerBase.balance - amount + 0)
            && f.sellerQuote == s.sellerQuote.(balance := s.sellerQuote.balance - 0 + quote)
            && f.buyerBase == s.buyerBase.(balance := s.buyerBase.balance - 0 + amount)
            && f.buyerQuote == s.buyerQuote.(balance := s.buyerQuote.balance - quote + 0)
  {
  }

  lemma WitnessOfTrade(decode: SigDecoder, h: Hash, depth: nat, leaves: map<nat, Fe>, s: Legs4, amount: nat, quote: nat,
                       sellSig: string, buySig: string) returns (op: Operation)
    requires amount <= s.sellerBase.balance && quote <= s.buyerQuote.balance
    ensures op == Witness(decode, TradeTransition(h, depth, leaves, s, amount, quote, sellSig, buySig))
    ensures op.opType == OP_TRADE && op.amount == Reduce(amount) && op.quoteAmount == Reduce(quote) && Reduce(0) == 0
    ensures op.maker == PublicKey(Reduce(s.sellerBase.pubX), Reduce(s.sellerBase.pubY))
    ensures op.taker == PublicKey(Reduce(s.buyerBase.pubX), Reduce(s.buyerBase.pubY))
    ensures var f := Filled(s, amount, quote);
            && op.makerBase == WitnessLeg(Snapshot(h, depth, TradeLeaves(h, leaves, f, 0), s.sellerBase, false))
            && op.makerQuote == WitnessLeg(Snapshot(h, depth, TradeLeaves(h, leaves, f, 1), s.sellerQuote, false))
            && op.takerBase == WitnessLeg(Snapshot(h, depth, TradeLeaves(h, leaves, f, 2), s.buyerBase, false))
            && op.takerQuote == WitnessLeg(Snapshot(h, depth, TradeLeaves(h, leaves, f, 3), s.buyerQuote, false))
  {
    hide WitnessLeg, Snapshot, Reduce, TradeLeaves, Filled;
    DepositType();
    op := Witness(decode, TradeTransition(h, depth, leaves, s, amount, quote, sellSig, buySig));
  }
}
