/** The history of fills of an orderbook contract, and what it must satisfy. */
module FillLog {
  import opened Settlement

  type OrderHash = nat

  /** One update of an order's filled quantity at a time, in a trade made by one side; total is the quantity recorded
      after it. */
  datatype Fill = Fill(
    order: Order, hash: OrderHash, base: nat, quote: nat, buySeat: bool, total: nat, finished: bool, makerSide: Side,
    at: nat)

  function Added(f: Fill): nat {
    if f.order.isAmountInQuote then f.quote else f.base
  }

  /** Quantity filled under h by the first n fills. */
  function Total(log: seq<Fill>, n: nat, h: OrderHash): nat
    requires n <= |log|
  {
    if n == 0 then 0 else Total(log, n - 1, h) + if log[n - 1].hash == h then Added(log[n - 1]) else 0
  }

  lemma {:induction false} TotalExtends(log: seq<Fill>, f: Fill, n: nat, h: OrderHash)
    requires n <= |log|
    ensures Total(log + [f], n, h) == Total(log, n, h)
  {
    if n == 0 {
    } else {
      TotalExtends(log, f, n - 1, h);
      assert (log + [f])[n - 1] == log[n - 1];
    }
  }

  /** The i-th fill stays within its order, and finishes an immediate-or-cancel order whatever it filled,
      a fill-or-kill order only when it is filled exactly. */
  ghost predicate GoodFill(log: seq<Fill>, i: nat)
    requires i < |log|
  {
    var f := log[i];
    && f.total == Total(log, i + 1, f.hash) <= f.order.amount
    && (f.total == f.order.amount ==> f.finished)
    && (f.order.timeInForce == Ioc ==> f.finished)
    && (f.order.timeInForce == Fok && f.finished ==> f.total == f.order.amount)
    && (f.finished && f.total < f.order.amount ==> f.order.timeInForce == Ioc || IsMarketOrderType(f.order.orderType))
    && f.base > 0 && f.quote > 0
    && (f.order.timeInForce == Gtt ==> f.at <= f.order.cancelAfter)
    && (f.order.orderType == LimitMaker ==> f.order.side == f.makerSide)
    && (f.order.isAmountInQuote ==> f.order.orderType in {Market, StopLoss, TakeProfit})
    && (IsLimitOrderType(f.order.orderType) ==>
          if f.buySeat then f.quote <= ImpliedQuote(f.base, f.order.limitPrice)
          else f.quote >= ImpliedQuote(f.base, f.order.limitPrice))
  }

  /** Nothing is filled under a hash after a fill that finished it. */
  ghost predicate FinishedOnce(log: seq<Fill>) {
    forall i, j :: 0 <= i < j < |log| && log[i].hash == log[j].hash ==> !log[i].finished
  }

  ghost predicate GoodLog(log: seq<Fill>) {
    FinishedOnce(log) && forall i :: 0 <= i < |log| ==> GoodFill(log, i)
  }

  /** Index of the last fill under h, or -1. */
  function LastFill(log: seq<Fill>, n: nat, h: OrderHash): (i: int)
    requires n <= |log|
    ensures -1 <= i < n && (i >= 0 ==> log[i].hash == h) && forall j :: i < j < n ==> log[j].hash != h
  {
    if n == 0 then -1 else if log[n - 1].hash == h then n - 1 else LastFill(log, n - 1, h)
  }

  lemma {:induction false} TotalSince(log: seq<Fill>, m: nat, n: nat, h: OrderHash)
    requires m <= n <= |log| && forall j :: m <= j < n ==> log[j].hash != h
    ensures Total(log, n, h) == Total(log, m, h)
  {
    if m < n {
      TotalSince(log, m, n - 1, h);
    }
  }

  /** What the contract's storage says about h agrees with the log. */
  ghost predicate Tracked(done: bool, partial: nat, log: seq<Fill>, h: OrderHash) {
    && partial == (if done then 0 else Total(log, |log|, h))
    && (forall i :: 0 <= i < |log| && log[i].hash == h && log[i].finished ==> done)
  }

  /** Distinct orders that share a hash, both filled. */
  ghost predicate SharedHash(log: seq<Fill>) {
    exists i, j :: 0 <= i < |log| && 0 <= j < |log| && log[i].hash == log[j].hash && log[i].order != log[j].order
  }

  /** The fills of an order never exceed its amount, or two different filled orders have the same hash. */
  lemma NeverOverfilled(log: seq<Fill>, order: Order, h: OrderHash)
    requires GoodLog(log) && exists i :: 0 <= i < |log| && log[i].hash == h && log[i].order == order
    ensures Total(log, |log|, h) <= order.amount || SharedHash(log)
  {
    var last := LastFill(log, |log|, h);
    assert GoodFill(log, last);
    TotalSince(log, last + 1, |log|, h);
    var i :| 0 <= i < |log| && log[i].hash == h && log[i].order == order;
    if log[last].order != order {
      assert log[i].hash == log[last].hash;
    }
  }

  /** An order still open has been filled for less than its amount, and what is recorded is what was filled. */
  lemma OpenOrderPartial(log: seq<Fill>, order: Order, h: OrderHash, partial: nat)
    requires GoodLog(log) && Tracked(false, partial, log, h)
    requires exists i :: 0 <= i < |log| && log[i].hash == h && log[i].order == order
    ensures partial == Total(log, |log|, h) && (partial < order.amount || SharedHash(log))
  {
    var last := LastFill(log, |log|, h);
    assert GoodFill(log, last);
    TotalSince(log, last + 1, |log|, h);
    var i :| 0 <= i < |log| && log[i].hash == h && log[i].order == order;
    if log[last].order != order {
      assert log[i].hash == log[last].hash;
    }
  }

  /** An immediate-or-cancel order is filled at most once. */
  lemma ImmediateFilledOnce(log: seq<Fill>, i: nat, j: nat)
    requires GoodLog(log) && i < j < |log| && log[i].order == log[j].order && log[i].hash == log[j].hash
    ensures log[i].order.timeInForce != Ioc
  {
    assert GoodFill(log, i);
  }

  /** Once a fill has finished a fill-or-kill order, all its fills over the run add up to exactly its amount, for
      good. */
  lemma FillOrKillExact(log: seq<Fill>, i: nat)
    requires GoodLog(log) && i < |log| && log[i].order.timeInForce == Fok && log[i].finished
    ensures Total(log, |log|, log[i].hash) == log[i].order.amount
  {
    assert GoodFill(log, i);
    TotalSince(log, i + 1, |log|, log[i].hash);
  }

  /** An order good till a time is never filled after it. */
  lemma NeverFilledLate(log: seq<Fill>, i: nat)
    requires GoodLog(log) && i < |log| && log[i].order.timeInForce == Gtt
    ensures log[i].at <= log[i].order.cancelAfter
  {
    assert GoodFill(log, i);
  }

  /** A post-only order is filled only in trades that its own side made. */
  lemma PostOnlyMakes(log: seq<Fill>, i: nat)
    requires GoodLog(log) && i < |log| && log[i].order.orderType == LimitMaker
    ensures log[i].order.side == log[i].makerSide
  {
    assert GoodFill(log, i);
  }

  /** Only orders without a limit are filled by quote amount. */
  lemma QuantityInBase(log: seq<Fill>, i: nat)
    requires GoodLog(log) && i < |log| && log[i].order.orderType in {Limit, LimitMaker, StopLossLimit, TakeProfitLimit}
    ensures log[i].total == Total(log, i, log[i].hash) + log[i].base
  {
    assert GoodFill(log, i);
  }

  /** The base and quote amounts of an order's fills in one seat. */
  function Legs(log: seq<Fill>, n: nat, order: Order, buySeat: bool): seq<Leg>
    requires n <= |log|
  {
    if n == 0 then []
    else Legs(log, n - 1, order, buySeat) +
         if log[n - 1].order == order && log[n - 1].buySeat == buySeat then [Leg(log[n - 1].base, log[n - 1].quote)]
         else []
  }

  lemma {:induction false} LegsWithinLimit(log: seq<Fill>, n: nat, order: Order, buySeat: bool)
    requires GoodLog(log) && n <= |log| && IsLimitOrderType(order.orderType)
    ensures forall k :: 0 <= k < |Legs(log, n, order, buySeat)| ==>
              var leg := Legs(log, n, order, buySeat)[k];
              if buySeat then leg.quote <= ImpliedQuote(leg.base, order.limitPrice)
              else leg.quote >= ImpliedQuote(leg.base, order.limitPrice)
  {
    hide ImpliedQuote;
    if n == 0 {
    } else {
      LegsWithinLimit(log, n - 1, order, buySeat);
      assert GoodFill(log, n - 1);
    }
  }

  /** Over a whole run a limit order in the buy seat pays at most its limit price for all it bought, with 8 decimals
      to the price; in the sell seat it gets at least its limit price for all it sold, less one pip a fill and one
      more. */
  lemma LimitHoldsOverRun(log: seq<Fill>, order: Order)
    requires GoodLog(log) && order.orderType in {Limit, LimitMaker, StopLossLimit, TakeProfitLimit}
    ensures var bought := Legs(log, |log|, order, true);
            QuoteSum(bought) * 100000000 <= BaseSum(bought) * order.limitPrice
    ensures var sold := Legs(log, |log|, order, false);
            (QuoteSum(sold) + |sold| + 1) * 100000000 > BaseSum(sold) * order.limitPrice
  {
    hide ImpliedQuote, Legs, QuoteSum, BaseSum;
    FloorAndRest(BaseSum(Legs(log, |log|, order, true)), order.limitPrice);
    FloorAndRest(BaseSum(Legs(log, |log|, order, false)), order.limitPrice);
    LegsWithinLimit(log, |log|, order, true);
    BuyLimitHoldsInTotal(Legs(log, |log|, order, true), order.limitPrice);
    LegsWithinLimit(log, |log|, order, false);
    SellLimitHoldsInTotal(Legs(log, |log|, order, false), order.limitPrice);
  }

  /** Appending a fill that is good for the storage it met keeps the whole log good. */
  lemma LogExtends(log: seq<Fill>, f: Fill, partial: nat)
    requires GoodLog(log) && Tracked(false, partial, log, f.hash) && f.total == partial + Added(f)
    requires f.total <= f.order.amount && (f.total == f.order.amount ==> f.finished)
    requires f.order.timeInForce == Ioc ==> f.finished
    requires f.order.timeInForce == Fok && f.finished ==> f.total == f.order.amount
    requires f.finished && f.total < f.order.amount ==>
               f.order.timeInForce == Ioc || IsMarketOrderType(f.order.orderType)
    requires f.base > 0 && f.quote > 0
    requires f.order.timeInForce == Gtt ==> f.at <= f.order.cancelAfter
    requires f.order.orderType == LimitMaker ==> f.order.side == f.makerSide
    requires f.order.isAmountInQuote ==> f.order.orderType in {Market, StopLoss, TakeProfit}
    requires IsLimitOrderType(f.order.orderType) ==>
               if f.buySeat then f.quote <= ImpliedQuote(f.base, f.order.limitPrice)
               else f.quote >= ImpliedQuote(f.base, f.order.limitPrice)
    ensures GoodLog(log + [f])
  {
    hide ImpliedQuote;
    var next := log + [f];
    TotalExtends(log, f, |log|, f.hash);
    forall i | 0 <= i < |next| ensures GoodFill(next, i) {
      if i < |log| {
        assert GoodFill(log, i);
        TotalExtends(log, f, i + 1, log[i].hash);
      }
    }
  }

  /** Storage that tracked the log tracks it after the fill is recorded and its order finished or not. */
  lemma TrackedExtends(done: bool, partial: nat, log: seq<Fill>, f: Fill, h: OrderHash)
    requires Tracked(done, partial, log, h) && (h == f.hash ==> !done && f.total == partial + Added(f))
    ensures Tracked(done || (h == f.hash && f.finished),
                    if h != f.hash then partial else if f.finished then 0 else f.total, log + [f], h)
  {
    TotalExtends(log, f, |log|, h);
  }
}
