/** Orderbook contract: trade validation arithmetic and the token transfers of one trade. */
module Settlement {
  import opened Modular
  import opened WideArith

  type Address = nat
  type Uint64 = x: int | 0 <= x < 0x1_0000_0000_0000_0000

  datatype OrderType = Market | Limit | LimitMaker | StopLoss | StopLossLimit | TakeProfit | TakeProfitLimit

  datatype Side = Buy | Sell

  datatype TimeInForce = Gtc | Gtt | Ioc | Fok

  /** A signed order; its signature is not part of its identity. */
  datatype Order = Order(
    userAddress: Address, baseToken: Address, quoteToken: Address, amount: Uint64, isAmountInQuote: bool, nonce: nat,
    orderType: OrderType, side: Side, limitPrice: Uint64, stopPrice: Uint64, timeInForce: TimeInForce,
    cancelAfter: Uint64, balanceSnapshot: Uint64, allowanceSnapshot: Uint64)

  datatype Trade = Trade(
    baseToken: Address, quoteToken: Address, grossBaseAmount: Uint64, grossQuoteAmount: Uint64,
    netBaseAmount: Uint64, netQuoteAmount: Uint64, makerFeeToken: Address, takerFeeToken: Address,
    makerFeeAmount: Uint64, takerFeeAmount: Uint64, makerSide: Side)

  const PIP_PRICE_MULTIPLIER := 100000000
  const MAX_FEE_BASIS_POINTS := 2000
  const BASIS_POINTS_IN_TOTAL := 10000

  predicate IsMarketOrderType(t: OrderType) {
    t == Market || t == StopLoss || t == TakeProfit
  }

  predicate IsLimitOrderType(t: OrderType) {
    t == Limit || t == LimitMaker || t == StopLossLimit || t == TakeProfitLimit
  }

  /** Every order type either has a limit or trades at the market. */
  lemma LimitOrMarket(t: OrderType)
    ensures IsLimitOrderType(t) <==> !IsMarketOrderType(t)
    ensures IsMarketOrderType(t) <==> t in {Market, StopLoss, TakeProfit}
  {
  }

  // ------------------------------------------------------------------ validation

  /** floor(base * price / 10^8); a quotient that is no uint64 reverts. */
  function ImpliedQuote(base: nat, price: nat): nat {
    base * price / PIP_PRICE_MULTIPLIER
  }

  predicate LimitPricesValid(buy: Order, sell: Order, trade: Trade) {
    && trade.grossBaseAmount != 0 && trade.grossQuoteAmount != 0
    && (IsLimitOrderType(buy.orderType) ==>
          var implied := ImpliedQuote(trade.grossBaseAmount, buy.limitPrice);
          implied < 0x1_0000_0000_0000_0000 && implied >= trade.grossQuoteAmount)
    && (IsLimitOrderType(sell.orderType) ==>
          var implied := ImpliedQuote(trade.grossBaseAmount, sell.limitPrice);
          implied < 0x1_0000_0000_0000_0000 && implied <= trade.grossQuoteAmount)
  }

  predicate AssetPairValid(trade: Trade) {
    && trade.baseToken != trade.quoteToken
    && ((trade.makerFeeToken == trade.baseToken && trade.takerFeeToken == trade.quoteToken)
        || (trade.makerFeeToken == trade.quoteToken && trade.takerFeeToken == trade.baseToken))
  }

  /** fee * 10000 is a checked uint64 product and total is a divisor. */
  predicate FeeQuantityValid(fee: Uint64, total: Uint64) {
    total > 0 && fee * BASIS_POINTS_IN_TOTAL < 0x1_0000_0000_0000_0000
    && fee * BASIS_POINTS_IN_TOTAL / total <= MAX_FEE_BASIS_POINTS
  }

  function BaseFee(trade: Trade): Uint64 {
    if trade.makerFeeToken == trade.baseToken then trade.makerFeeAmount else trade.takerFeeAmount
  }

  function QuoteFee(trade: Trade): Uint64 {
    if trade.makerFeeToken == trade.quoteToken then trade.makerFeeAmount else trade.takerFeeAmount
  }

  predicate FeesValid(trade: Trade) {
    && FeeQuantityValid(trade.makerFeeAmount,
                        if trade.makerFeeToken == trade.baseToken then trade.grossBaseAmount
                        else trade.grossQuoteAmount)
    && FeeQuantityValid(trade.takerFeeAmount,
                        if trade.takerFeeToken == trade.baseToken then trade.grossBaseAmount
                        else trade.grossQuoteAmount)
    && trade.netBaseAmount + BaseFee(trade) == trade.grossBaseAmount
    && trade.netQuoteAmount + QuoteFee(trade) == trade.grossQuoteAmount
  }

  predicate PostOnlyValid(order: Order, makerSide: Side) {
    order.orderType == LimitMaker ==> order.side == makerSide
  }

  predicate AmountInQuoteValid(order: Order) {
    order.isAmountInQuote ==> IsMarketOrderType(order.orderType)
  }

  /** The checks of a trade that read no storage. */
  predicate TradeValid(buy: Order, sell: Order, trade: Trade) {
    && AssetPairValid(trade) && LimitPricesValid(buy, sell, trade) && FeesValid(trade)
    && PostOnlyValid(buy, trade.makerSide) && PostOnlyValid(sell, trade.makerSide)
    && AmountInQuoteValid(buy) && AmountInQuoteValid(sell)
  }

  /** In both tokens the fee is below 20.01 percent and the taker of the rest gets exactly gross minus fee. */
  lemma FeesBounded(trade: Trade)
    requires AssetPairValid(trade) && FeesValid(trade)
    ensures BaseFee(trade) * 10000 < 2001 * trade.grossBaseAmount
    ensures QuoteFee(trade) * 10000 < 2001 * trade.grossQuoteAmount
  {
    FeeBounded(BaseFee(trade), trade.grossBaseAmount);
    FeeBounded(QuoteFee(trade), trade.grossQuoteAmount);
  }

  /** A fee is accepted exactly when it is below 20.01 percent of a positive total, up to the overflow of the
      product. */
  lemma FeeExactly(fee: Uint64, total: Uint64)
    ensures FeeQuantityValid(fee, total) <==> fee * 10000 < 0x1_0000_0000_0000_0000 && fee * 10000 < 2001 * total
  {
    if total > 0 {
      QuotientAtMost(fee * 10000, total, 2000);
    }
  }

  lemma QuotientAtMost(n: nat, d: nat, k: nat)
    requires d > 0
    ensures n / d <= k <==> n < (k + 1) * d
  {
    assert n == n / d * d + n % d;
    if n / d <= k {
      MulMonotone(n / d, k, d);
      assert (k + 1) * d == k * d + d;
    } else {
      MulMonotone(k + 1, n / d, d);
    }
  }

  lemma QuotientAtLeast(n: nat, d: nat, k: nat)
    requires d > 0
    ensures n / d >= k <==> n >= k * d
  {
    if k > 0 {
      QuotientAtMost(n, d, k - 1);
    }
  }

  /** What an order's limit asks of one fill, without a quotient: 10^8 pips of price make one. */
  predicate LimitMet(order: Order, base: nat, quote: nat, buying: bool) {
    order.orderType in {Limit, LimitMaker, StopLossLimit, TakeProfitLimit} ==>
      && base * order.limitPrice < 0x1_0000_0000_0000_0000 * 100000000
      && if buying then quote * 100000000 <= base * order.limitPrice
         else base * order.limitPrice < (quote + 1) * 100000000
  }

  /** The validation of a trade, written out: two tokens, one fee in each, both below 20.01 percent and taken from
      gross; a positive quantity of both within both limits; post-only orders on the making side, and quote amounts
      for market orders only. */
  lemma TradeValidExactly(buy: Order, sell: Order, trade: Trade)
    ensures TradeValid(buy, sell, trade) <==>
              && trade.baseToken != trade.quoteToken
              && {trade.makerFeeToken, trade.takerFeeToken} == {trade.baseToken, trade.quoteToken}
              && trade.grossBaseAmount > 0 && trade.grossQuoteAmount > 0
              && LimitMet(buy, trade.grossBaseAmount, trade.grossQuoteAmount, true)
              && LimitMet(sell, trade.grossBaseAmount, trade.grossQuoteAmount, false)
              && (var makerInBase := trade.makerFeeToken == trade.baseToken;
                  var baseFee := if makerInBase then trade.makerFeeAmount else trade.takerFeeAmount;
                  var quoteFee := if makerInBase then trade.takerFeeAmount else trade.makerFeeAmount;
                  && baseFee * 10000 < 0x1_0000_0000_0000_0000 && quoteFee * 10000 < 0x1_0000_0000_0000_0000
                  && baseFee * 10000 < 2001 * trade.grossBaseAmount && quoteFee * 10000 < 2001 * trade.grossQuoteAmount
                  && trade.netBaseAmount + baseFee == trade.grossBaseAmount
                  && trade.netQuoteAmount + quoteFee == trade.grossQuoteAmount)
              && (buy.orderType == LimitMaker ==> buy.side == trade.makerSide)
              && (sell.orderType == LimitMaker ==> sell.side == trade.makerSide)
              && (buy.isAmountInQuote ==> buy.orderType in {Market, StopLoss, TakeProfit})
              && (sell.isAmountInQuote ==> sell.orderType in {Market, StopLoss, TakeProfit})
  {
    hide ImpliedQuote, FeeQuantityValid;
    FeeExactly(trade.makerFeeAmount, trade.grossBaseAmount);
    FeeExactly(trade.makerFeeAmount, trade.grossQuoteAmount);
    FeeExactly(trade.takerFeeAmount, trade.grossBaseAmount);
    FeeExactly(trade.takerFeeAmount, trade.grossQuoteAmount);
    LimitsExactly(buy, sell, trade);
    if trade.baseToken != trade.quoteToken {
      FeeTokens(trade);
    }
  }

  lemma FeeTokens(trade: Trade)
    requires trade.baseToken != trade.quoteToken
    ensures AssetPairValid(trade) <==> {trade.makerFeeToken, trade.takerFeeToken} == {trade.baseToken, trade.quoteToken}
  {
    var fees := {trade.makerFeeToken, trade.takerFeeToken};
    if fees == {trade.baseToken, trade.quoteToken} {
      assert trade.makerFeeToken in fees && trade.takerFeeToken in fees;
      assert trade.baseToken in fees && trade.quoteToken in fees;
    }
  }

  lemma LimitsExactly(buy: Order, sell: Order, trade: Trade)
    ensures LimitPricesValid(buy, sell, trade) <==>
              && trade.grossBaseAmount > 0 && trade.grossQuoteAmount > 0
              && LimitMet(buy, trade.grossBaseAmount, trade.grossQuoteAmount, true)
              && LimitMet(sell, trade.grossBaseAmount, trade.grossQuoteAmount, false)
  {
    var base, quote := trade.grossBaseAmount, trade.grossQuoteAmount;
    QuotientAtMost(base * buy.limitPrice, 100000000, 0xFFFF_FFFF_FFFF_FFFF);
    QuotientAtMost(base * sell.limitPrice, 100000000, 0xFFFF_FFFF_FFFF_FFFF);
    QuotientAtLeast(base * buy.limitPrice, 100000000, quote);
    QuotientAtMost(base * sell.limitPrice, 100000000, quote);
  }

  lemma FeeBounded(fee: Uint64, total: Uint64)
    requires FeeQuantityValid(fee, total)
    ensures fee * 10000 < 2001 * total
  {
    var n := fee * 10000;
    assert n == n / total * total + n % total;
    MulMonotone(n / total, 2000, total);
  }

  // ------------------------------------------------------------------ limit prices over many fills

  datatype Leg = Leg(base: nat, quote: nat)

  function BaseSum(legs: seq<Leg>): nat {
    if legs == [] then 0 else BaseSum(legs[..|legs| - 1]) + legs[|legs| - 1].base
  }

  function QuoteSum(legs: seq<Leg>): nat {
    if legs == [] then 0 else QuoteSum(legs[..|legs| - 1]) + legs[|legs| - 1].quote
  }

  lemma FloorSuperadditive(a: nat, b: nat, price: nat)
    ensures ImpliedQuote(a, price) + ImpliedQuote(b, price) <= ImpliedQuote(a + b, price)
    ensures ImpliedQuote(a + b, price) <= ImpliedQuote(a, price) + ImpliedQuote(b, price) + 1
  {
    assert (a + b) * price == a * price + b * price;
  }

  /** However the fills are cut, a buyer's limit holds for the total as well. */
  lemma {:induction false} BuyLimitHoldsInTotal(legs: seq<Leg>, price: nat)
    requires forall i :: 0 <= i < |legs| ==> legs[i].quote <= ImpliedQuote(legs[i].base, price)
    ensures QuoteSum(legs) <= ImpliedQuote(BaseSum(legs), price)
  {
    if legs == [] {
    } else {
      var n := |legs| - 1;
      BuyLimitHoldsInTotal(legs[..n], price);
      FloorSuperadditive(BaseSum(legs[..n]), legs[n].base, price);
    }
  }

  /** A seller can lose less than one pip a fill to rounding: n fills bring at least the total's floor minus n. */
  lemma {:induction false} SellLimitHoldsInTotal(legs: seq<Leg>, price: nat)
    requires forall i :: 0 <= i < |legs| ==> legs[i].quote >= ImpliedQuote(legs[i].base, price)
    ensures QuoteSum(legs) + |legs| >= ImpliedQuote(BaseSum(legs), price)
  {
    if legs == [] {
      assert 0 * price == 0;
    } else {
      var n := |legs| - 1;
      SellLimitHoldsInTotal(legs[..n], price);
      FloorSuperadditive(BaseSum(legs[..n]), legs[n].base, price);
    }
  }

  /** What rounding down leaves over, fill by fill. */
  function Remainders(bases: seq<nat>, price: nat): nat {
    if bases == [] then 0
    else Remainders(bases[..|bases| - 1], price) + bases[|bases| - 1] * price % PIP_PRICE_MULTIPLIER
  }

  /** Fills so small that their floor is 0; they still have to pay one pip. */
  function ZeroFloors(bases: seq<nat>, price: nat): nat {
    if bases == [] then 0
    else ZeroFloors(bases[..|bases| - 1], price) + if ImpliedQuote(bases[|bases| - 1], price) == 0 then 1 else 0
  }

  /** The least that each fill can pay a seller. */
  function LeastLegs(bases: seq<nat>, price: nat): (legs: seq<Leg>)
    ensures |legs| == |bases|
  {
    seq(|bases|, i requires 0 <= i < |bases| =>
      Leg(bases[i], if ImpliedQuote(bases[i], price) == 0 then 1 else ImpliedQuote(bases[i], price)))
  }

  /** Quotes that the contract accepts for these bases from a seller with this limit. */
  ghost predicate SellAccepted(legs: seq<Leg>, bases: seq<nat>, price: nat) {
    |legs| == |bases| && forall i :: 0 <= i < |legs| ==>
      legs[i].base == bases[i] && legs[i].quote > 0 && legs[i].quote >= ImpliedQuote(bases[i], price)
  }

  lemma {:induction false} LeastIsLeast(legs: seq<Leg>, bases: seq<nat>, price: nat)
    requires SellAccepted(legs, bases, price)
    ensures SellAccepted(LeastLegs(bases, price), bases, price)
    ensures BaseSum(legs) == BaseSum(LeastLegs(bases, price)) && QuoteSum(legs) >= QuoteSum(LeastLegs(bases, price))
  {
    hide ImpliedQuote;
    if legs == [] {
    } else {
      var n := |legs| - 1;
      LeastIsLeast(legs[..n], bases[..n], price);
      assert LeastLegs(bases, price)[..n] == LeastLegs(bases[..n], price);
    }
  }

  /** Exactly what the least fills lose against the floor of the total. */
  lemma {:induction false} LeastTotal(bases: seq<nat>, price: nat)
    ensures var least := LeastLegs(bases, price);
            && BaseSum(least) * price == (QuoteSum(least) - ZeroFloors(bases, price)) * PIP_PRICE_MULTIPLIER
                + Remainders(bases, price)
            && ImpliedQuote(BaseSum(least), price)
                == QuoteSum(least) - ZeroFloors(bases, price) + Remainders(bases, price) / PIP_PRICE_MULTIPLIER
  {
    hide ImpliedQuote;
    if bases == [] {
      assert 0 * price == 0;
      FloorOfSum(0, 0, 0);
      ImpliedIs(0, price);
    } else {
      var n := |bases| - 1;
      var least, b := LeastLegs(bases, price), bases[n];
      LeastTotal(bases[..n], price);
      assert least[..n] == LeastLegs(bases[..n], price);
      Distribute(BaseSum(least[..n]), b, price);
      FloorAndRest(b, price);
      ImpliedIs(BaseSum(least), price);
      FloorOfSum(BaseSum(least) * price, QuoteSum(least) - ZeroFloors(bases, price), Remainders(bases, price));
    }
  }

  lemma Distribute(a: nat, b: nat, price: nat)
    ensures (a + b) * price == a * price + b * price
  {
  }

  lemma ImpliedIs(base: nat, price: nat)
    ensures ImpliedQuote(base, price) == base * price / PIP_PRICE_MULTIPLIER
  {
  }

  lemma FloorAndRest(base: nat, price: nat)
    ensures base * price == ImpliedQuote(base, price) * PIP_PRICE_MULTIPLIER + base * price % PIP_PRICE_MULTIPLIER
  {
  }

  lemma FloorOfSum(n: nat, q: int, r: nat)
    requires n == q * PIP_PRICE_MULTIPLIER + r
    ensures n / PIP_PRICE_MULTIPLIER == q + r / PIP_PRICE_MULTIPLIER
  {
  }

  /** A seller's limit holds for the total whatever accepted quotes the fills pay exactly when the remainders that
      rounding drops add up to no more whole pips than the fills of floor 0 are forced to pay. */
  lemma SellerTotalExactly(bases: seq<nat>, price: nat)
    ensures (forall legs: seq<Leg> | SellAccepted(legs, bases, price) ::
               QuoteSum(legs) >= ImpliedQuote(BaseSum(legs), price))
            <==> Remainders(bases, price) / PIP_PRICE_MULTIPLIER <= ZeroFloors(bases, price)
  {
    hide ImpliedQuote, SellAccepted, QuoteSum, BaseSum, Remainders, ZeroFloors;
    var least := LeastLegs(bases, price);
    assert SellAccepted(least, bases, price) by { LeastAccepted(bases, price); }
    LeastTotal(bases, price);
    forall legs: seq<Leg> | SellAccepted(legs, bases, price)
      ensures BaseSum(legs) == BaseSum(least) && QuoteSum(legs) >= QuoteSum(least)
    {
      LeastIsLeast(legs, bases, price);
    }
  }

  lemma LeastAccepted(bases: seq<nat>, price: nat)
    ensures SellAccepted(LeastLegs(bases, price), bases, price)
  {
    hide ImpliedQuote;
  }

  /** A trade without fees. */
  function PlainTrade(base: Uint64, quote: Uint64): Trade {
    Trade(1, 2, base, quote, base, quote, 1, 2, 0, 0, Buy)
  }

  /** An order of this type, side and limit. */
  function PlainOrder(user: Address, amount: Uint64, orderType: OrderType, side: Side, limit: Uint64,
                      tif: TimeInForce): Order {
    Order(user, 1, 2, amount, false, 1, orderType, side, limit, 0, tif, 0, 0, 0)
  }

  /** Gross 50 on both sides, and a fee of 10 in base. */
  function FeeTrade(): Trade {
    Trade(1, 2, 50, 50, 40, 50, 1, 2, 10, 0, Buy)
  }

  lemma FeeTradeValid()
    ensures TradeValid(PlainOrder(3, 50, Market, Buy, 0, Gtc), PlainOrder(4, 50, Market, Sell, 0, Gtc), FeeTrade())
  {
    hide ImpliedQuote, FeesValid, LimitPricesValid;
    assert FeesValid(FeeTrade()) by { FeeTradeFees(); }
    MarketTrade(PlainOrder(3, 50, Market, Buy, 0, Gtc), PlainOrder(4, 50, Market, Sell, 0, Gtc), FeeTrade());
  }

  lemma FeeTradeFees()
    ensures FeesValid(FeeTrade())
  {
  }

  lemma MarketTrade(buy: Order, sell: Order, trade: Trade)
    requires buy.orderType == Market && sell.orderType == Market && trade.grossBaseAmount != 0
             && trade.grossQuoteAmount != 0
    ensures LimitPricesValid(buy, sell, trade)
  {
    hide ImpliedQuote;
  }

  lemma FeeTradeLoses()
    ensures LosesUnit(40, 10, 6)
  {
    assert Pow10(1) == 10 && Pow10(2) == 100;
  }

  /** The bound for sellers is met to within one pip: n fills of 199999999 pips at limit 1 may pay one pip each,
      where the total's floor is 2 * n - 1. */
  lemma SellerCanLoseToRounding(n: nat)
    requires 1 <= n <= PIP_PRICE_MULTIPLIER
    ensures var legs := seq(n, _ => Leg(199999999, 1));
            && SellAccepted(legs, seq(n, _ => 199999999), 1)
            && QuoteSum(legs) == n && ImpliedQuote(BaseSum(legs), 1) == 2 * n - 1
  {
    hide QuoteSum, BaseSum;
    var base := 199999999;
    EqualFills(base, 1, n);
    FloorOfEqualFills(n, n * base);
  }

  lemma FloorOfEqualFills(n: nat, total: nat)
    requires 1 <= n <= PIP_PRICE_MULTIPLIER && total == n * 199999999
    ensures ImpliedQuote(total, 1) == 2 * n - 1
  {
  }

  /** And each such fill passes validation, against a market buyer. */
  lemma SmallFillIsValid(buy: Order, sell: Order)
    requires buy.orderType == Market && sell.orderType == Limit && sell.limitPrice == 1
    requires !buy.isAmountInQuote && !sell.isAmountInQuote
    ensures TradeValid(buy, sell, PlainTrade(199999999, 1))
  {
    hide FeesValid;
    assert FeesValid(PlainTrade(199999999, 1)) by { PlainFees(199999999, 1); }
  }

  lemma PlainFees(base: Uint64, quote: Uint64)
    requires base > 0 && quote > 0
    ensures FeesValid(PlainTrade(base, quote))
  {
  }

  lemma {:induction false} EqualFills(base: nat, quote: nat, n: nat)
    ensures var legs := seq(n, _ => Leg(base, quote)); QuoteSum(legs) == n * quote && BaseSum(legs) == n * base
  {
    if n == 0 {
    } else {
      EqualFills(base, quote, n - 1);
      assert seq(n, _ => Leg(base, quote))[..n - 1] == seq(n - 1, _ => Leg(base, quote));
      assert n * base == (n - 1) * base + base && n * quote == (n - 1) * quote + quote;
    }
  }

  // ------------------------------------------------------------------ pips and token units

  function Pow10(n: nat): (r: nat)
    ensures r > 0
  {
    if n == 0 then 1 else 10 * Pow10(n - 1)
  }

  function Ceiling(a: nat, d: nat): nat
    requires d > 0
  {
    (a + d - 1) / d
  }

  /** Token units for an amount of 8-decimal pips: exact for 8 decimals or more, rounded up below. */
  function PipsToAssetUnits(amount: nat, decimals: nat): nat {
    if decimals > 8 then amount * Pow10(decimals - 8)
    else Ceiling(amount, Pow10(8 - decimals))
  }

  lemma {:induction false} Pow10Add(m: nat, n: nat)
    ensures Pow10(m + n) == Pow10(m) * Pow10(n)
  {
    if m == 0 {
    } else {
      Pow10Add(m - 1, n);
      assert Pow10(m + n) == 10 * Pow10(m - 1 + n);
      assert 10 * (Pow10(m - 1) * Pow10(n)) == (10 * Pow10(m - 1)) * Pow10(n);
    }
  }

  lemma EightDecimals()
    ensures Pow10(8) == 100000000
  {
    assert Pow10(4) == 10000;
    Pow10Add(4, 4);
  }

  /** The units are the least that are worth the pips, at 10^8 pips and 10^decimals units to the whole token. */
  lemma UnitsAreLeast(amount: nat, decimals: nat)
    ensures var units := PipsToAssetUnits(amount, decimals);
            && amount * Pow10(decimals) <= units * 100000000 < amount * Pow10(decimals) + 100000000
            && (decimals >= 8 ==> units * 100000000 == amount * Pow10(decimals))
  {
    hide Pow10, Ceiling;
    EightDecimals();
    if decimals > 8 {
      Pow10Add(decimals - 8, 8);
      Regroup(amount, Pow10(decimals - 8), 100000000);
    } else {
      Pow10Add(8 - decimals, decimals);
      CeilingBounds(amount, Pow10(8 - decimals));
      ScaleBounds(amount, Ceiling(amount, Pow10(8 - decimals)), Pow10(8 - decimals), Pow10(decimals));
      if decimals == 8 {
        OneIsPow10();
        CeilingOfOne(amount);
      }
    }
  }

  lemma Regroup(a: nat, b: nat, c: nat)
    ensures a * (b * c) == (a * b) * c
  {
  }

  lemma CeilingOfOne(amount: nat)
    ensures Ceiling(amount, 1) == amount
  {
  }

  lemma OneIsPow10()
    ensures Pow10(0) == 1
  {
  }

  lemma ScaleBounds(amount: nat, units: nat, d: nat, p: nat)
    requires p > 0 && d * p == 100000000 && amount <= units * d < amount + d
    ensures amount * p <= units * 100000000 < amount * p + 100000000
  {
    Regroup(units, d, p);
    MulMonotone(amount, units * d, p);
    MulMonotone(units * d + 1, amount + d, p);
    Distribute(units * d, 1, p);
    Distribute(amount, d, p);
  }

  /** So k whole tokens are k * 10^decimals units. */
  lemma WholeTokens(k: nat, decimals: nat)
    ensures PipsToAssetUnits(k * 100000000, decimals) == k * Pow10(decimals)
  {
    hide PipsToAssetUnits, Pow10;
    UnitsAreLeast(k * 100000000, decimals);
    var units, whole := PipsToAssetUnits(k * 100000000, decimals), k * Pow10(decimals);
    assert (k * 100000000) * Pow10(decimals) == whole * 100000000;
  }

  lemma UnitsGrow(a: nat, b: nat, decimals: nat)
    requires a <= b
    ensures PipsToAssetUnits(a, decimals) <= PipsToAssetUnits(b, decimals)
  {
    hide Pow10;
    if decimals > 8 {
      MulMonotone(a, b, Pow10(decimals - 8));
    } else {
      var d := Pow10(8 - decimals);
      CeilingBounds(a, d);
      CeilingBounds(b, d);
      CeilingGrows(a, b, d, Ceiling(a, d), Ceiling(b, d));
    }
  }

  lemma CeilingGrows(a: nat, b: nat, d: nat, x: nat, y: nat)
    requires a <= b && d > 0 && x * d < a + d && b <= y * d
    ensures x <= y
  {
    assert (y + 1) * d == y * d + d;
    if x > y {
      MulMonotone(y + 1, x, d);
    }
  }

  lemma CeilingBounds(a: nat, d: nat)
    requires d > 0
    ensures a <= Ceiling(a, d) * d < a + d
  {
    var n := a + d - 1;
    assert n == n / d * d + n % d;
  }

  /** Splitting gross into net and fee pays out what came in, or one unit more for a token below 8 decimals. */
  lemma SplitCost(net: nat, fee: nat, decimals: nat)
    ensures var cost := PipsToAssetUnits(net, decimals) + PipsToAssetUnits(fee, decimals)
                        - PipsToAssetUnits(net + fee, decimals);
            if decimals >= 8 then cost == 0 else 0 <= cost <= 1
  {
    if decimals > 8 {
      var p := Pow10(decimals - 8);
      assert (net + fee) * p == net * p + fee * p;
    } else if decimals == 8 {
      assert Pow10(0) == 1;
    } else {
      CeilingSplit(net, fee, Pow10(8 - decimals));
    }
  }

  /** Neither part is a whole number of units, and their remainders fit in one. */
  predicate LosesUnit(net: nat, fee: nat, decimals: nat) {
    decimals < 8 &&
    var d := Pow10(8 - decimals);
    net % d > 0 && fee % d > 0 && net % d + fee % d <= d
  }

  /** Exactly then paying net and fee separately costs one unit more than came in; otherwise it costs the same. */
  lemma UnitLostExactly(net: nat, fee: nat, decimals: nat)
    ensures PipsToAssetUnits(net, decimals) + PipsToAssetUnits(fee, decimals)
         == PipsToAssetUnits(net + fee, decimals) + if LosesUnit(net, fee, decimals) then 1 else 0
  {
    hide Pow10, Ceiling;
    SplitCost(net, fee, decimals);
    if decimals < 8 {
      var d := Pow10(8 - decimals);
      LostExactly(net, fee, d, net / d, net % d, fee / d, fee % d);
    }
  }

  lemma LostExactly(a: nat, b: nat, d: nat, p: nat, r: nat, q: nat, t: nat)
    requires d > 0 && a == p * d + r && b == q * d + t && r < d && t < d
    ensures Ceiling(a, d) + Ceiling(b, d) == Ceiling(a + b, d) + 1 <==> r > 0 && t > 0 && r + t <= d
  {
    hide Ceiling;
    CeilingOf(a, d, p, r);
    CeilingOf(b, d, q, t);
    assert (p + q) * d == p * d + q * d && (p + q + 1) * d == (p + q) * d + d;
    if r + t < d {
      CeilingOf(a + b, d, p + q, r + t);
    } else {
      CeilingOf(a + b, d, p + q + 1, r + t - d);
    }
  }

  lemma CeilingOf(a: nat, d: nat, q: nat, r: nat)
    requires d > 0 && a == q * d + r && r < d
    ensures Ceiling(a, d) == if r == 0 then q else q + 1
  {
    assert (q + 1) * d == q * d + d;
    if r == 0 {
      QuotientUnique(a + d - 1, d, q, d - 1);
    } else {
      QuotientUnique(a + d - 1, d, q + 1, r - 1);
    }
  }

  lemma CeilingSplit(a: nat, b: nat, d: nat)
    requires d > 0
    ensures 0 <= Ceiling(a, d) + Ceiling(b, d) - Ceiling(a + b, d) <= 1
  {
    hide Ceiling;
    var x, y, z := Ceiling(a, d), Ceiling(b, d), Ceiling(a + b, d);
    CeilingBounds(a, d);
    CeilingBounds(b, d);
    CeilingBounds(a + b, d);
    assert (x + y - z) * d == x * d + y * d - z * d;
    StrictlyBetween(x + y - z, d);
  }

  lemma StrictlyBetween(k: int, d: nat)
    requires d > 0 && k * d + d > 0 && k * d < 2 * d
    ensures 0 <= k <= 1
  {
    if k < 0 {
      MulMonotone(k, -1, d);
    } else if k > 1 {
      MulMonotone(2, k, d);
    }
  }

  // ------------------------------------------------------------------ the transfers

  /** Balances of plain ERC-20 tokens, and this contract's address among their holders. */
  class TokenLedger {
    const self: Address
    const feeTo: Address
    const decimals: Address -> nat
    var balances: map<(Address, Address), nat>
    /** Custody before the first trade, and how many trades have settled since. */
    ghost const initial: Address -> nat
    ghost var settled: nat

    function BalanceOf(token: Address, holder: Address): nat
      reads this`balances
    {
      if (token, holder) in balances then balances[(token, holder)] else 0
    }

    function Units(token: Address, amount: nat): nat {
      PipsToAssetUnits(amount, decimals(token))
    }

    ghost function GrossChange(buyer: Address, seller: Address, trade: Trade, token: Address, holder: Address): int {
      Change(trade.baseToken, seller, self, Units(trade.baseToken, trade.grossBaseAmount), token, holder)
      + Change(trade.quoteToken, buyer, self, Units(trade.quoteToken, trade.grossQuoteAmount), token, holder)
    }

    ghost function OutChange(buyer: Address, seller: Address, trade: Trade, token: Address, holder: Address): int {
      Change(trade.baseToken, self, buyer, Units(trade.baseToken, trade.netBaseAmount), token, holder)
      + Change(trade.makerFeeToken, self, feeTo, Units(trade.makerFeeToken, trade.makerFeeAmount), token, holder)
      + Change(trade.quoteToken, self, seller, Units(trade.quoteToken, trade.netQuoteAmount), token, holder)
      + Change(trade.takerFeeToken, self, feeTo, Units(trade.takerFeeToken, trade.takerFeeAmount), token, holder)
    }

    /** What holder's balance of token gains from all transfers of one trade. */
    ghost function TradeChange(buyer: Address, seller: Address, trade: Trade, token: Address, holder: Address): int {
      GrossChange(buyer, seller, trade, token, holder) + OutChange(buyer, seller, trade, token, holder)
    }

    /** The unit of token that the trade costs the contract, if any. */
    function Loss(trade: Trade, token: Address): nat {
      if token == trade.baseToken && LosesUnit(trade.netBaseAmount, BaseFee(trade), decimals(token)) then 1
      else if token == trade.quoteToken && LosesUnit(trade.netQuoteAmount, QuoteFee(trade), decimals(token)) then 1
      else 0
    }

    /** The contract keeps nothing of a trade, and gives away one unit of a token exactly when splitting off the fee
        loses it. */
    lemma CustodyChange(buyer: Address, seller: Address, trade: Trade, token: Address)
      requires AssetPairValid(trade) && FeesValid(trade) && buyer != self && seller != self && feeTo != self
      ensures TradeChange(buyer, seller, trade, token, self) == 0 - Loss(trade, token)
      ensures Loss(trade, token) <= if decimals(token) >= 8 then 0 else 1
    {
      hide PipsToAssetUnits, LosesUnit;
      if token == trade.baseToken {
        UnitLostExactly(trade.netBaseAmount, BaseFee(trade), decimals(token));
      } else if token == trade.quoteToken {
        UnitLostExactly(trade.netQuoteAmount, QuoteFee(trade), decimals(token));
      }
      ExactTokens(trade, token);
    }

    lemma ExactTokens(trade: Trade, token: Address)
      ensures decimals(token) >= 8 ==> Loss(trade, token) == 0
    {
    }

    /** A trade of 50 pips with a fee of 10 passes validation and costs the contract a unit of a token with 6
        decimals. */
    lemma UnitIsLost(buyer: Address, seller: Address)
      requires decimals(1) == 6 && buyer != self && seller != self && feeTo != self
      ensures TradeValid(PlainOrder(3, 50, Market, Buy, 0, Gtc), PlainOrder(4, 50, Market, Sell, 0, Gtc), FeeTrade())
      ensures TradeChange(buyer, seller, FeeTrade(), 1, self) == -1
    {
      hide TradeChange, LosesUnit, FeesValid, LimitPricesValid;
      FeeTradeValid();
      FeeTradeLoses();
      CustodyChange(buyer, seller, FeeTrade(), 1);
    }

    /** Outside the contract the buyer gives gross quote for net base, the seller gross base for net quote, the fee
        receiver gets both fees, whoever has several roles gets their sum, and nobody else is touched. */
    lemma TradeMoves(buyer: Address, seller: Address, trade: Trade, token: Address, holder: Address)
      requires AssetPairValid(trade) && holder != self
      ensures token == trade.baseToken ==>
                TradeChange(buyer, seller, trade, token, holder) ==
                (if holder == buyer then Units(token, trade.netBaseAmount) else 0)
                - (if holder == seller then Units(token, trade.grossBaseAmount) else 0)
                + (if holder == feeTo then Units(token, BaseFee(trade)) else 0)
      ensures token == trade.quoteToken ==>
                TradeChange(buyer, seller, trade, token, holder) ==
                (if holder == seller then Units(token, trade.netQuoteAmount) else 0)
                - (if holder == buyer then Units(token, trade.grossQuoteAmount) else 0)
                + (if holder == feeTo then Units(token, QuoteFee(trade)) else 0)
      ensures token != trade.baseToken && token != trade.quoteToken ==>
                TradeChange(buyer, seller, trade, token, holder) == 0
    {
      hide Units;
    }

    /** What the six transfers need: the payers hold the gross amounts, and the contract holds the units it is about
        to lose. */
    predicate Settleable(buyer: Address, seller: Address, trade: Trade)
      reads this`balances
    {
      && BalanceOf(trade.baseToken, seller) >= Units(trade.baseToken, trade.grossBaseAmount)
      && BalanceOf(trade.quoteToken, buyer) >= Units(trade.quoteToken, trade.grossQuoteAmount)
      && BalanceOf(trade.baseToken, self) >= Loss(trade, trade.baseToken)
      && BalanceOf(trade.quoteToken, self) >= Loss(trade, trade.quoteToken)
    }

    /** In whole tokens: the payers hold what the gross pips are worth, and the contract a unit wherever one is lost. */
    lemma SettleableExactly(buyer: Address, seller: Address, trade: Trade)
      requires trade.baseToken != trade.quoteToken
      ensures var b, q := trade.baseToken, trade.quoteToken;
              Settleable(buyer, seller, trade) <==>
                && BalanceOf(b, seller) * 100000000 >= trade.grossBaseAmount * Pow10(decimals(b))
                && BalanceOf(q, buyer) * 100000000 >= trade.grossQuoteAmount * Pow10(decimals(q))
                && (LosesUnit(trade.netBaseAmount, BaseFee(trade), decimals(b)) ==> BalanceOf(b, self) > 0)
                && (LosesUnit(trade.netQuoteAmount, QuoteFee(trade), decimals(q)) ==> BalanceOf(q, self) > 0)
    {
      hide PipsToAssetUnits, LosesUnit, Pow10;
      UnitsAreLeast(trade.grossBaseAmount, decimals(trade.baseToken));
      UnitsAreLeast(trade.grossQuoteAmount, decimals(trade.quoteToken));
    }

    /** Net and fee are each within gross, and exceed it together by the loss. */
    lemma PartsFit(trade: Trade)
      requires AssetPairValid(trade) && FeesValid(trade)
      ensures var b, q := trade.baseToken, trade.quoteToken;
              && Units(b, trade.netBaseAmount) <= Units(b, trade.grossBaseAmount)
              && Units(b, BaseFee(trade)) <= Units(b, trade.grossBaseAmount)
              && Units(b, trade.netBaseAmount) + Units(b, BaseFee(trade))
                  == Units(b, trade.grossBaseAmount) + Loss(trade, b)
              && Units(q, trade.netQuoteAmount) <= Units(q, trade.grossQuoteAmount)
              && Units(q, QuoteFee(trade)) <= Units(q, trade.grossQuoteAmount)
              && Units(q, trade.netQuoteAmount) + Units(q, QuoteFee(trade))
                  == Units(q, trade.grossQuoteAmount) + Loss(trade, q)
    {
      hide PipsToAssetUnits, LosesUnit;
      UnitLostExactly(trade.netBaseAmount, BaseFee(trade), decimals(trade.baseToken));
      UnitLostExactly(trade.netQuoteAmount, QuoteFee(trade), decimals(trade.quoteToken));
      UnitsGrow(trade.netBaseAmount, trade.grossBaseAmount, decimals(trade.baseToken));
      UnitsGrow(BaseFee(trade), trade.grossBaseAmount, decimals(trade.baseToken));
      UnitsGrow(trade.netQuoteAmount, trade.grossQuoteAmount, decimals(trade.quoteToken));
      UnitsGrow(QuoteFee(trade), trade.grossQuoteAmount, decimals(trade.quoteToken));
    }

    /** Custody never grows by trading, is exact for tokens of 8 decimals or more, and loses at most a unit a trade
        otherwise. */
    ghost predicate Valid()
      reads this
    {
      && feeTo != self
      && forall token :: CustodyWithin(initial(token), BalanceOf(token, self), decimals(token), settled)
    }

    constructor (self: Address, feeTo: Address, decimals: Address -> nat, balances: map<(Address, Address), nat>)
      requires feeTo != self
      ensures Valid() && this.self == self && this.feeTo == feeTo && this.decimals == decimals
              && this.balances == balances
      ensures settled == 0 && forall token :: initial(token) == BalanceOf(token, self)
      ensures forall token: Address, holder: Address ::
                BalanceOf(token, holder) == if (token, holder) in balances then balances[(token, holder)] else 0
    {
      this.self, this.feeTo, this.decimals, this.balances := self, feeTo, decimals, balances;
      this.settled := 0;
      this.initial := token => if (token, self) in balances then balances[(token, self)] else 0;
    }

    /** Moves amount; fails, changing nothing, when the balance is short. */
    method Transfer(token: Address, from: Address, to: Address, amount: nat) returns (ok: bool)
      modifies this`balances
      ensures ok <==> amount <= old(BalanceOf(token, from))
      ensures !ok ==> balances == old(balances)
      ensures ok ==> forall t, h :: BalanceOf(t, h) == old(BalanceOf(t, h)) + Change(token, from, to, amount, t, h)
    {
      if BalanceOf(token, from) < amount {
        return false;
      }
      balances := balances[(token, from) := BalanceOf(token, from) - amount];
      balances := balances[(token, to) := BalanceOf(token, to) + amount];
      return true;
    }

    /** The six transfers in the contract's order, all or nothing. */
    method TransferAll(buyer: Address, seller: Address, trade: Trade) returns (ok: bool)
      requires AssetPairValid(trade) && FeesValid(trade) && buyer != self && seller != self && feeTo != self
      modifies this`balances
      ensures ok <==> old(Settleable(buyer, seller, trade))
      ensures !ok ==> balances == old(balances)
      ensures ok ==> forall t, h :: BalanceOf(t, h) == old(BalanceOf(t, h)) + TradeChange(buyer, seller, trade, t, h)
    {
      hide Units, Loss, FeesValid;
      var before := balances;
      PartsFit(trade);
      ok := PullGross(buyer, seller, trade);
      if ok {
        ok := PayOut(buyer, seller, trade);
      }
      if !ok {
        balances := before;
      }
    }

    /** The gross amounts come in. */
    method PullGross(buyer: Address, seller: Address, trade: Trade) returns (ok: bool)
      requires trade.baseToken != trade.quoteToken
      modifies this`balances
      ensures ok <==> old(BalanceOf(trade.baseToken, seller)) >= Units(trade.baseToken, trade.grossBaseAmount)
                      && old(BalanceOf(trade.quoteToken, buyer)) >= Units(trade.quoteToken, trade.grossQuoteAmount)
      ensures ok ==> forall t, h :: BalanceOf(t, h) == old(BalanceOf(t, h)) + GrossChange(buyer, seller, trade, t, h)
    {
      hide Units;
      ok := Transfer(trade.baseToken, seller, self, Units(trade.baseToken, trade.grossBaseAmount));
      if ok {
        ok := Transfer(trade.quoteToken, buyer, self, Units(trade.quoteToken, trade.grossQuoteAmount));
      }
    }

    /** Net amounts and fees go out. */
    method PayOut(buyer: Address, seller: Address, trade: Trade) returns (ok: bool)
      requires AssetPairValid(trade) && buyer != self && seller != self && feeTo != self
      requires BalanceOf(trade.baseToken, self) >= Units(trade.baseToken, trade.netBaseAmount)
      requires BalanceOf(trade.baseToken, self) >= Units(trade.baseToken, BaseFee(trade))
      requires BalanceOf(trade.quoteToken, self) >= Units(trade.quoteToken, trade.netQuoteAmount)
      requires BalanceOf(trade.quoteToken, self) >= Units(trade.quoteToken, QuoteFee(trade))
      modifies this`balances
      ensures ok <==>
        && old(BalanceOf(trade.baseToken, self))
            >= Units(trade.baseToken, trade.netBaseAmount) + Units(trade.baseToken, BaseFee(trade))
        && old(BalanceOf(trade.quoteToken, self))
            >= Units(trade.quoteToken, trade.netQuoteAmount) + Units(trade.quoteToken, QuoteFee(trade))
      ensures ok ==> forall t, h :: BalanceOf(t, h) == old(BalanceOf(t, h)) + OutChange(buyer, seller, trade, t, h)
    {
      hide Units;
      ok := Transfer(trade.baseToken, self, buyer, Units(trade.baseToken, trade.netBaseAmount));
      if ok {
        ok := Transfer(trade.makerFeeToken, self, feeTo, Units(trade.makerFeeToken, trade.makerFeeAmount));
      }
      if ok {
        ok := Transfer(trade.quoteToken, self, seller, Units(trade.quoteToken, trade.netQuoteAmount));
      }
      if ok {
        ok := Transfer(trade.takerFeeToken, self, feeTo, Units(trade.takerFeeToken, trade.takerFeeAmount));
      }
    }

    /** Settles one trade, or fails changing nothing. */
    method UpdateForOrderBookTrade(buyer: Address, seller: Address, trade: Trade, pullsApproved: bool)
      returns (ok: bool)
      requires Valid() && AssetPairValid(trade) && FeesValid(trade) && buyer != self && seller != self
      modifies this`balances, this`settled
      ensures Valid()
      ensures ok <==> pullsApproved && decimals(trade.baseToken) <= 32 && decimals(trade.quoteToken) <= 32
                      && old(Settleable(buyer, seller, trade))
      ensures !ok ==> balances == old(balances) && settled == old(settled)
      ensures ok ==> settled == old(settled) + 1
      ensures ok ==> forall t, h :: BalanceOf(t, h) == old(BalanceOf(t, h)) + TradeChange(buyer, seller, trade, t, h)
    {
      hide TradeChange, CustodyWithin, Settleable, Loss;
      if !pullsApproved || decimals(trade.baseToken) > 32 || decimals(trade.quoteToken) > 32 {
        return false;
      }
      ok := TransferAll(buyer, seller, trade);
      if ok {
        forall token ensures CustodyWithin(initial(token), BalanceOf(token, self), decimals(token), settled + 1) {
          CustodyChange(buyer, seller, trade, token);
          CustodyKept(initial(token), old(BalanceOf(token, self)), BalanceOf(token, self), decimals(token), settled);
        }
        settled := settled + 1;
      }
    }
  }

  /** What holder's balance of token gains when amount of moved goes from one address to another. */
  ghost function Change(moved: Address, from: Address, to: Address, amount: nat, token: Address, holder: Address): int {
    (if token == moved && holder == to then amount else 0) - (if token == moved && holder == from then amount else 0)
  }

  lemma CustodyKept(initial: nat, custody: nat, next: nat, decimals: nat, trades: nat)
    requires CustodyWithin(initial, custody, decimals, trades)
    requires if decimals >= 8 then next == custody else custody - 1 <= next <= custody
    ensures CustodyWithin(initial, next, decimals, trades + 1)
  {
  }

  ghost predicate CustodyWithin(initial: nat, custody: nat, decimals: nat, trades: nat) {
    if decimals >= 8 then custody == initial else custody <= initial <= custody + trades
  }
}
