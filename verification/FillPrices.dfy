/** From the matching engine to the ledger: what the fills of an order cost and bring, against its own limit. */
module FillPrices {
  import Batcher
  import opened MerkleDB
  import opened PriceTime
  import opened Sequencer
  import opened Trades

  /** The orders submitted to the book of one token, as the sequencer knows them. */
  predicate OrdersOf(token: nat, submitted: seq<Submission>, orders: seq<Sequencer.Order>) {
    |orders| == |submitted|
    && forall k | 0 <= k < |orders| :: orders[k].isBuy == submitted[k].buying && orders[k].tokenID == token
  }

  /** The trade that the engine sends for a fill. */
  predicate Sends(t: PriceTime.Trade, orders: seq<Sequencer.Order>, trade: Sequencer.Trade) {
    t.maker < |orders| && t.taker < |orders|
    && trade.makerOrder == orders[t.maker] && trade.takerOrder == orders[t.taker]
    && trade.matchPrice == t.price && trade.matchAmount == t.amount
  }

  /** One trade taken off the queue, with the books before and after it. */
  datatype Step = Step(before: Books, trade: Sequencer.Trade, applied: bool, after: Books)

  /** What applying it does, as ApplyTrade leaves it. */
  ghost predicate StepOk(env: Env, st: Step) {
    st.applied ==> MovedBy(env, st.before, st.trade, st.after)
  }

  /** The sequencer takes one trade off its queue. */
  method TakeTrade(env: Env, trade: Sequencer.Trade, tree: LevelDBMerkleTree, batch: Batcher.Batcher)
    returns (applied: bool, ghost st: Step)
    requires SystemValid(env, tree, batch)
    requires Attempted(trade) ==> TokensFit(trade) && InTree(Copies(env, BooksOf(tree), trade), tree.depth)
    modifies tree, batch
    ensures st == Step(old(BooksOf(tree)), trade, applied, BooksOf(tree)) && StepOk(env, st)
  {
    hide MovedBy, Copies, InTree, TokensFit;
    ghost var before := BooksOf(tree);
    var t;
    applied, t := ApplyTrade(env, trade, tree, batch);
    st := Step(before, trade, applied, BooksOf(tree));
  }

  /** The n-th fill's trade is the n-th step's. */
  ghost predicate Queue(env: Env, token: nat, b: Book, orders: seq<Sequencer.Order>, steps: seq<Step>) {
    && OrdersOf(token, b.submitted, orders) && |steps| <= |b.trades|
    && (forall i | 0 <= i < |steps| :: StepOk(env, steps[i]) && Sends(b.trades[i], orders, steps[i].trade))
  }

  function QuoteToken(token: nat): nat {
    if token == 1 then 2 else 1
  }

  predicate Fills(t: PriceTime.Trade, order: nat) {
    t.maker == order || t.taker == order
  }

  /** How much of an order the first n steps have filled. */
  ghost function AppliedAmount(b: Book, steps: seq<Step>, order: nat, n: nat): int
    requires n <= |steps| <= |b.trades|
  {
    if n == 0 then 0
    else AppliedAmount(b, steps, order, n - 1)
         + if steps[n - 1].applied && Fills(b.trades[n - 1], order) then b.trades[n - 1].amount else 0
  }

  /** By how much those fills have changed the quote balance of the key that placed the order. */
  ghost function QuoteChange(env: Env, token: nat, b: Book, orders: seq<Sequencer.Order>, steps: seq<Step>, order: nat,
                             n: nat): int
    requires n <= |steps| <= |b.trades| && order < |orders|
  {
    if n == 0 then 0
    else
      var st, key := steps[n - 1], orders[order].makerAddress;
      var change := BalanceFound(env, st.after, key, QuoteToken(token)) - BalanceFound(env, st.before, key,
          QuoteToken(token));
      QuoteChange(env, token, b, orders, steps, order, n - 1)
      + if st.applied && Fills(b.trades[n - 1], order) then change else 0
  }

  /** No trader trades with itself. */
  ghost predicate TwoTraders(steps: seq<Step>) {
    forall i | 0 <= i < |steps| :: steps[i].applied ==>
      TrimPrefix(steps[i].trade.makerOrder.makerAddress) != TrimPrefix(steps[i].trade.takerOrder.makerAddress)
  }

  lemma TradeIsFair(b: Book, i: nat)
    requires WellFormed(b) && i < |b.trades|
    ensures FairTrade(b.trades[i], b.submitted)
  {
    hide Ordered, Uncrossed, Accounted, FairTrade;
  }

  /** One fill: the buyer pays at most its limit a unit, and the seller gets at least its own. */
  lemma FillWithinLimit(env: Env, token: nat, b: Book, orders: seq<Sequencer.Order>, steps: seq<Step>, order: nat,
                        i: nat)
    requires WellFormed(b) && Queue(env, token, b, orders, steps) && order < |orders|
    requires i < |steps| && steps[i].applied && Fills(b.trades[i], order)
    ensures var t, st, limit, key := b.trades[i], steps[i], b.submitted[order].limit, orders[order].makerAddress;
            var change := BalanceFound(env, st.after, key, QuoteToken(token)) - BalanceFound(env, st.before, key,
                QuoteToken(token));
            && t.amount > 0
            && (b.submitted[order].buying ==> change >= -(limit * t.amount))
            && (!b.submitted[order].buying && TwoTraders(steps) ==> change >= limit * t.amount)
  {
    hide BalanceFound, WellFormed, Ordered;
    TradeIsFair(b, i);
    var t, st, limit := b.trades[i], steps[i], b.submitted[order].limit;
    assert StepOk(env, st) && Sends(t, orders, st.trade);
    if b.submitted[order].buying {
      Scaled(t.amount, t.price, limit);
    } else {
      Scaled(t.amount, limit, t.price);
    }
  }

  lemma Scaled(n: int, x: int, y: int)
    requires n >= 0 && x <= y
    ensures x * n <= y * n && n * x == x * n
  {
    assert (y - x) * n >= 0;
  }

  /** Over all fills of an order that the sequencer applies, a buyer pays at most its limit for all it bought, and a
      seller gets at least its limit for all it sold. */
  lemma {:induction false} LimitHoldsOverFills(env: Env, token: nat, b: Book, orders: seq<Sequencer.Order>,
                                               steps: seq<Step>, order: nat, n: nat)
    requires WellFormed(b) && Queue(env, token, b, orders, steps) && order < |orders| && n <= |steps|
    ensures var limit, filled := b.submitted[order].limit, AppliedAmount(b, steps, order, n);
            var change := QuoteChange(env, token, b, orders, steps, order, n);
            && (b.submitted[order].buying ==> change >= -(limit * filled))
            && (!b.submitted[order].buying && TwoTraders(steps) ==> change >= limit * filled)
  {
    hide WellFormed, Queue, BalanceFound, TwoTraders;
    if n == 0 {
    } else {
      LimitHoldsOverFills(env, token, b, orders, steps, order, n - 1);
      QueueParts(env, token, b, orders, steps);
      if steps[n - 1].applied && Fills(b.trades[n - 1], order) {
        FillWithinLimit(env, token, b, orders, steps, order, n - 1);
        var limit, before, amount := b.submitted[order].limit, AppliedAmount(b, steps, order, n - 1),
            b.trades[n - 1].amount;
        assert limit * (before + amount) == limit * before + limit * amount;
      }
    }
  }

  lemma QueueParts(env: Env, token: nat, b: Book, orders: seq<Sequencer.Order>, steps: seq<Step>)
    requires Queue(env, token, b, orders, steps)
    ensures OrdersOf(token, b.submitted, orders) && |orders| == |b.submitted| && |steps| <= |b.trades|
  {
  }

  /** What has been applied of an order is never more than it submitted. */
  lemma AppliedWithinAmount(env: Env, token: nat, b: Book, orders: seq<Sequencer.Order>, steps: seq<Step>, order: nat)
    requires WellFormed(b) && Queue(env, token, b, orders, steps) && order < |orders|
    ensures 0 <= AppliedAmount(b, steps, order, |steps|) <= b.submitted[order].amount
  {
    hide WellFormed, PriceTime.Filled, Resting, Ordered, FairTrades;
    AppliedIsFilled(b, steps, order, |steps|);
    FilledConcat(b.trades[..|steps|], b.trades[|steps|..], order);
    assert b.trades == b.trades[..|steps|] + b.trades[|steps|..];
    forall i | |steps| <= i < |b.trades| ensures b.trades[i].amount > 0 {
      TradeIsFair(b, i);
    }
    FilledNonNegative(b.trades[|steps|..], order);
    StillAccounted(b, order);
  }

  lemma {:induction false} AppliedIsFilled(b: Book, steps: seq<Step>, order: nat, n: nat)
    requires WellFormed(b) && n <= |steps| <= |b.trades|
    ensures 0 <= AppliedAmount(b, steps, order, n) <= PriceTime.Filled(b.trades[..n], order)
  {
    hide WellFormed;
    if n == 0 {
    } else {
      AppliedIsFilled(b, steps, order, n - 1);
      TradeIsFair(b, n - 1);
      var last := [b.trades[n - 1]];
      FilledConcat(b.trades[..n - 1], last, order);
      assert b.trades[..n] == b.trades[..n - 1] + last;
      assert last[1..] == [];
    }
  }

  lemma {:induction false} FilledNonNegative(trades: seq<PriceTime.Trade>, order: nat)
    requires forall i | 0 <= i < |trades| :: trades[i].amount > 0
    ensures PriceTime.Filled(trades, order) >= 0
  {
    if trades == [] {
    } else {
      FilledNonNegative(trades[1..], order);
    }
  }

  lemma StillAccounted(b: Book, order: nat)
    requires WellFormed(b) && order < |b.submitted|
    ensures PriceTime.Filled(b.trades, order) <= b.submitted[order].amount
  {
    RestingNonNegative(b.bids, order);
    RestingNonNegative(b.asks, order);
  }

  lemma {:induction false} RestingNonNegative(s: seq<Entry>, order: nat)
    requires Positive(s)
    ensures Resting(s, order) >= 0
  {
    if s == [] {
    } else {
      assert forall i | 0 <= i < |s| - 1 :: s[1..][i] == s[i + 1];
      RestingNonNegative(s[1..], order);
    }
  }
}
