/** What a batch's public deposit and withdrawal hashes say about its operations. */
module PublicHashes {
  import opened Circuit
  import opened Field
  import opened Ledger
  import opened Merkle
  import opened Rollup

  /** A deposit or withdrawal as the outside world sees it. */
  datatype Item = Item(index: Fe, amount: Fe)

  // ------------------------------------------------------------------ a hash chain binds its items

  /** The chain that starts at 0 and takes in one item after the other. */
  function ChainHash(h: Hash, items: seq<Item>): Fe {
    if items == [] then 0
    else
      var last := items[|items| - 1];
      h([ChainHash(h, items[..|items| - 1]), last.index, last.amount])
  }

  /** The inputs the chain hashes, last one first. */
  function ChainInputs(h: Hash, items: seq<Item>): (xs: seq<seq<Fe>>)
    ensures |xs| == |items|
  {
    if items == [] then []
    else
      var init, last := items[..|items| - 1], items[|items| - 1];
      [[ChainHash(h, init), last.index, last.amount]] + ChainInputs(h, init)
  }

  predicate ZeroPreimage(h: Hash, xs: seq<seq<Fe>>) {
    exists k | 0 <= k < |xs| :: h(xs[k]) == 0
  }

  /** Two inputs of the two chains collide, or one of them hashes to 0. */
  predicate ChainBreaks(h: Hash, a: seq<Item>, b: seq<Item>) {
    Clash(h, ChainInputs(h, a), ChainInputs(h, b)) || ZeroPreimage(h, ChainInputs(h, a) + ChainInputs(h, b))
  }

  /** Chains that meet took in the same items in the same order, or exhibit a break. */
  lemma {:induction false} ChainBinds(h: Hash, a: seq<Item>, b: seq<Item>)
    requires ChainHash(h, a) == ChainHash(h, b)
    ensures a == b || ChainBreaks(h, a, b)
    decreases |a|
  {
    var xs, ys := ChainInputs(h, a), ChainInputs(h, b);
    if a == [] && b == [] {
    } else if a == [] || b == [] {
      assert h((xs + ys)[0]) == 0;
    } else {
      var a', b' := a[..|a| - 1], b[..|b| - 1];
      if xs[0] != ys[0] {
        assert h(xs[0]) == h(ys[0]);
      } else {
        assert xs[0][0] == ys[0][0] && xs[0][1] == ys[0][1] && xs[0][2] == ys[0][2];
        ChainBinds(h, a', b');
        if a' == b' {
          assert a == a' + [a[|a| - 1]] && b == b' + [b[|b| - 1]];
        } else {
          BreaksLater(h, a, b);
        }
      }
    }
  }

  lemma BreaksLater(h: Hash, a: seq<Item>, b: seq<Item>)
    requires a != [] && b != [] && ChainBreaks(h, a[..|a| - 1], b[..|b| - 1])
    ensures ChainBreaks(h, a, b)
  {
    var xs, ys := ChainInputs(h, a), ChainInputs(h, b);
    var us, vs := ChainInputs(h, a[..|a| - 1]), ChainInputs(h, b[..|b| - 1]);
    assert xs[1..] == us && ys[1..] == vs;
    if Clash(h, us, vs) {
      var k :| 0 <= k < |us| && k < |vs| && us[k] != vs[k] && h(us[k]) == h(vs[k]);
      assert xs[k + 1] == us[k] && ys[k + 1] == vs[k];
    } else {
      var k :| 0 <= k < |us + vs| && h((us + vs)[k]) == 0;
      var at := if k < |us| then k + 1 else k + 2;
      var all, fewer: seq<seq<Fe>> := xs + ys, us + vs;
      assert all[at] == fewer[k];
    }
  }

  // ------------------------------------------------------------------ the items of a batch

  /** The deposits among the first n operations: leaf index and amount, in order. */
  function DepositItems(ops: seq<Operation>, n: nat): seq<Item>
    requires n <= |ops|
  {
    if n == 0 then []
    else
      var op := ops[n - 1];
      DepositItems(ops, n - 1) + if op.opType == 3 then [Item(op.takerBase.index, op.amount)] else []
  }

  /** The withdrawals among them. */
  function WithdrawalItems(ops: seq<Operation>, n: nat): seq<Item>
    requires n <= |ops|
  {
    if n == 0 then []
    else
      var op := ops[n - 1];
      WithdrawalItems(ops, n - 1) + if op.opType == 2 then [Item(op.makerBase.index, op.amount)] else []
  }

  lemma ChainOneMore(h: Hash, items: seq<Item>, item: Item)
    ensures ChainHash(h, items + [item]) == h([ChainHash(h, items), item.index, item.amount])
  {
    assert (items + [item])[..|items|] == items;
  }

  /** The circuit's accumulators are the chains over the listed deposits and withdrawals. */
  lemma {:induction false} RunningHashes(p: Params, ops: seq<Operation>, n: nat, root: Fe)
    requires OpsShaped(p, ops) && n <= |ops|
    ensures RunBatch(p, ops, n, root).depositHash == ChainHash(p.h, DepositItems(ops, n))
    ensures RunBatch(p, ops, n, root).withdrawalHash == ChainHash(p.h, WithdrawalItems(ops, n))
  {
    hide OutRoot, ChainHash;
    if n == 0 {
      EmptyChain(p.h);
    } else {
      RunningHashes(p, ops, n - 1, root);
      var op := ops[n - 1];
      ChainOneMore(p.h, DepositItems(ops, n - 1), Item(op.takerBase.index, op.amount));
      ChainOneMore(p.h, WithdrawalItems(ops, n - 1), Item(op.makerBase.index, op.amount));
      assert DepositItems(ops, n - 1) + [] == DepositItems(ops, n - 1);
      assert WithdrawalItems(ops, n - 1) + [] == WithdrawalItems(ops, n - 1);
    }
  }

  lemma EmptyChain(h: Hash)
    ensures ChainHash(h, []) == 0
  {
  }

  /** In an accepted batch the public hashes are the chains over its deposits and withdrawals. */
  lemma AcceptedHashes(p: Params, ops: seq<Operation>, oldRoot: Fe, newRoot: Fe, withdrawalHash: Fe, depositHash: Fe)
    requires OpsShaped(p, ops) && Accepts(p, ops, oldRoot, newRoot, withdrawalHash, depositHash)
    ensures depositHash == ChainHash(p.h, DepositItems(ops, |ops|))
    ensures withdrawalHash == ChainHash(p.h, WithdrawalItems(ops, |ops|))
  {
    hide BatchOk, RunBatch, ChainHash;
    RunningHashes(p, ops, |ops|, oldRoot);
  }

  /** Batches accepted with one deposit hash list the same deposits in the same order, and with one withdrawal hash the
      same withdrawals; or a break is exhibited. */
  lemma AcceptedHashesBind(p: Params, a: seq<Operation>, ra: Fe, ra': Fe, wa: Fe, da: Fe,
                           b: seq<Operation>, rb: Fe, rb': Fe, wb: Fe, db: Fe)
    requires OpsShaped(p, a) && Accepts(p, a, ra, ra', wa, da)
    requires OpsShaped(p, b) && Accepts(p, b, rb, rb', wb, db)
    ensures da == db ==> DepositItems(a, |a|) == DepositItems(b, |b|)
                         || ChainBreaks(p.h, DepositItems(a, |a|), DepositItems(b, |b|))
    ensures wa == wb ==> WithdrawalItems(a, |a|) == WithdrawalItems(b, |b|)
                         || ChainBreaks(p.h, WithdrawalItems(a, |a|), WithdrawalItems(b, |b|))
  {
    hide Accepts, ChainHash, ChainBreaks;
    AcceptedHashes(p, a, ra, ra', wa, da);
    AcceptedHashes(p, b, rb, rb', wb, db);
    if da == db {
      ChainBinds(p.h, DepositItems(a, |a|), DepositItems(b, |b|));
    }
    if wa == wb {
      ChainBinds(p.h, WithdrawalItems(a, |a|), WithdrawalItems(b, |b|));
    }
  }

  // ------------------------------------------------------------------ the items are what moved the supply

  function AmountSum(items: seq<Item>): nat {
    if items == [] then 0 else AmountSum(items[..|items| - 1]) + items[|items| - 1].amount
  }

  lemma SumOneMore(items: seq<Item>, item: Item)
    ensures AmountSum(items + [item]) == AmountSum(items) + item.amount
  {
    assert (items + [item])[..|items|] == items;
  }

  /** The listed amounts add up to what the batch put in and took out. */
  lemma {:induction false} ItemsAddUp(ops: seq<Operation>, n: nat)
    requires n <= |ops|
    ensures AmountSum(DepositItems(ops, n)) == Deposits(ops, n)
    ensures AmountSum(WithdrawalItems(ops, n)) == Withdrawals(ops, n)
  {
    hide AmountSum;
    if n == 0 {
      assert AmountSum([]) == 0 by { EmptySum(); }
    } else {
      ItemsAddUp(ops, n - 1);
      var op := ops[n - 1];
      SumOneMore(DepositItems(ops, n - 1), Item(op.takerBase.index, op.amount));
      SumOneMore(WithdrawalItems(ops, n - 1), Item(op.makerBase.index, op.amount));
      assert DepositItems(ops, n - 1) + [] == DepositItems(ops, n - 1);
      assert WithdrawalItems(ops, n - 1) + [] == WithdrawalItems(ops, n - 1);
    }
  }

  lemma EmptySum()
    ensures AmountSum([]) == 0
  {
  }

  /** An accepted deposit credits its listed amount to an account of its listed index, and an accepted withdrawal debits
      it; or the hash breaks. */
  lemma ItemsMoveBalances(p: Params, l: Accounts, op: Operation)
    requires OpShaped(p, op) && Satisfied(p, op, RootOf(p.h, p.depth, l)) && PartiesNamed(op) && !OpBreaks(p, l, op)
    ensures Transact(l, op).Done?
    ensures op.opType == 3 ==>
              var pos, after := PosOf(op.takerBase.bits), Transact(l, op).ledger;
              && pos in after && after[pos].index == op.takerBase.index
              && after[pos].balance == ((if pos in l then l[pos].balance else 0) + op.amount) % Q
              && forall other | other != pos ::
                   (other in after <==> other in l) && (other in l ==> after[other] == l[other])
    ensures op.opType == 2 ==>
              var pos, after := PosOf(op.makerBase.bits), Transact(l, op).ledger;
              && pos in after && after[pos].index == op.makerBase.index
              && op.amount <= (if pos in l then l[pos].balance else 0)
              && after[pos].balance == (if pos in l then l[pos].balance else 0) - op.amount
              && forall other | other != pos ::
                   (other in after <==> other in l) && (other in l ==> after[other] == l[other])
  {
    hide RootOf, OpBreaks, Satisfied, OutRoot;
    OperationSound(p, l, op);
  }

  // ------------------------------------------------------------------ over the settled chain

  predicate AllProven(p: Params, batches: seq<seq<Operation>>, s: seq<Settled>) {
    |batches| == |s| && forall i | 0 <= i < |s| :: Proven(p, batches[i], s[i])
  }

  /** Whatever witnesses prove a settled chain, batch by batch they list the same deposits and withdrawals, or a
      break is exhibited: the hashes on chain determine who was credited and debited from outside, and with how much. */
  lemma SettledItemsBind(p: Params, s: seq<Settled>, a: seq<seq<Operation>>, b: seq<seq<Operation>>, i: nat)
    requires AllProven(p, a, s) && AllProven(p, b, s) && i < |s|
    ensures var da, db := DepositItems(a[i], |a[i]|), DepositItems(b[i], |b[i]|);
            da == db || ChainBreaks(p.h, da, db)
    ensures var wa, wb := WithdrawalItems(a[i], |a[i]|), WithdrawalItems(b[i], |b[i]|);
            wa == wb || ChainBreaks(p.h, wa, wb)
    ensures s[i].depositHash == ChainHash(p.h, DepositItems(a[i], |a[i]|))
    ensures s[i].withdrawalHash == ChainHash(p.h, WithdrawalItems(a[i], |a[i]|))
  {
    hide Accepts, ChainHash, ChainBreaks;
    assert Proven(p, a[i], s[i]) && Proven(p, b[i], s[i]);
    AcceptedHashes(p, a[i], s[i].oldRoot, s[i].newRoot, s[i].withdrawalHash, s[i].depositHash);
    AcceptedHashesBind(p, a[i], s[i].oldRoot, s[i].newRoot, s[i].withdrawalHash, s[i].depositHash,
                       b[i], s[i].oldRoot, s[i].newRoot, s[i].withdrawalHash, s[i].depositHash);
  }

  /** All deposits and withdrawals of the first n settled batches, in order. */
  function SettledDeposits(batches: seq<seq<Operation>>, n: nat): nat
    requires n <= |batches|
  {
    if n == 0 then 0
    else SettledDeposits(batches, n - 1) + AmountSum(DepositItems(batches[n - 1], |batches[n - 1]|))
  }

  function SettledWithdrawals(batches: seq<seq<Operation>>, n: nat): nat
    requires n <= |batches|
  {
    if n == 0 then 0
    else SettledWithdrawals(batches, n - 1) + AmountSum(WithdrawalItems(batches[n - 1], |batches[n - 1]|))
  }

  /** From an initial ledger to the one the chain's last root commits to, the supply changes by the listed deposits
      minus the listed withdrawals modulo Q, and exactly while it and the deposits stay below 2^252; or a witness
      breaks. */
  lemma {:induction false} SettledChainConserves(p: Params, l: Accounts, s: seq<Settled>, batches: seq<seq<Operation>>,
                                                 n: nat)
    requires 0 < n <= |s| && RootsChain(s) && AllProven(p, batches, s) && s[0].oldRoot == RootOf(p.h, p.depth, l)
    ensures AllNamed(batches, n) && (forall i | 0 <= i < |batches| :: OpsShaped(p, batches[i]))
    ensures SomeBatchBreaks(p, l, batches, n) ||
            (LedgerAfter(l, batches, n).Done?
             && s[n - 1].newRoot == RootOf(p.h, p.depth, LedgerAfter(l, batches, n).ledger)
             && var before, after := Supply(p.depth, l), Supply(p.depth, LedgerAfter(l, batches, n).ledger);
                var inflow, outflow := SettledDeposits(batches, n), SettledWithdrawals(batches, n);
                && after % Q == (before + inflow - outflow) % Q
                && (before + inflow < AMOUNT_LIMIT ==> after == before + inflow - outflow))
  {
    hide RunLedger, BatchBreaks, RunBatch, BatchOk, OpsNamed, Supply, RootOf, Accepts, DepositItems,
         WithdrawalItems, OpsInRange;
    SettledChainSound(p, l, s, batches, n);
    if !SomeBatchBreaks(p, l, batches, n) {
      var ops, supply := batches[n - 1], Supply(p.depth, l);
      assert Proven(p, ops, s[n - 1]);
      var l1 := if n == 1 then l else LedgerAfter(l, batches, n - 1).ledger;
      if n == 1 {
        BalancedRefl(supply);
      } else {
        SettledChainConserves(p, l, s, batches, n - 1);
      }
      BatchBalanced(p, l1, ops, s[n - 1]);
      BalancedChain(supply, Supply(p.depth, l1), Supply(p.depth, RunLedger(l1, ops, |ops|).ledger),
                    SettledDeposits(batches, n - 1), SettledWithdrawals(batches, n - 1),
                    AmountSum(DepositItems(ops, |ops|)), AmountSum(WithdrawalItems(ops, |ops|)));
    }
  }

  lemma BalancedChain(s0: nat, s1: nat, s2: nat, in1: nat, out1: nat, in2: nat, out2: nat)
    requires Balanced(s0, s1, in1, out1, s0 + in1 < AMOUNT_LIMIT)
    requires Balanced(s1, s2, in2, out2, s1 + in2 < AMOUNT_LIMIT)
    ensures Balanced(s0, s2, in1 + in2, out1 + out2, s0 + in1 + in2 < AMOUNT_LIMIT)
  {
    SumOfResidues(s1, s0 + in1 - out1, in2 - out2);
  }

  lemma BatchBalanced(p: Params, l: Accounts, ops: seq<Operation>, s: Settled)
    requires Proven(p, ops, s) && OpsNamed(ops, |ops|) && RunLedger(l, ops, |ops|).Done?
    ensures Balanced(Supply(p.depth, l), Supply(p.depth, RunLedger(l, ops, |ops|).ledger),
                     AmountSum(DepositItems(ops, |ops|)), AmountSum(WithdrawalItems(ops, |ops|)),
                     Supply(p.depth, l) + AmountSum(DepositItems(ops, |ops|)) < AMOUNT_LIMIT)
  {
    hide RunBatch, BatchOk, OpsNamed, Supply, RunLedger, Balanced, OpsInRange, AmountSum;
    AcceptedInRange(p, ops, |ops|, s.oldRoot);
    RunConserves(p, l, ops, |ops|);
    ItemsAddUp(ops, |ops|);
  }
}
