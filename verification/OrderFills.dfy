/** The orderbook contract's order storage: fills by trades, and the cancels. */
module OrderFills {
  import opened FillLog
  import opened Settlement

  const MAX_BATCH_SIZE := 50
  const NO_ADDRESS: Address := 0

  /** IOC orders finish with any fill, market orders when the relayer says so. */
  predicate ShouldCancelRemaining(order: Order, isFinalFill: bool) {
    order.timeInForce == Ioc || (IsMarketOrderType(order.orderType) && isFinalFill)
  }

  /** The whole condition under which a fill taking the recorded quantity to total is accepted. */
  predicate Fillable(order: Order, completed: bool, total: nat, isFinalFill: bool, now: nat) {
    && !completed
    && AmountInQuoteValid(order)
    && total < 0x1_0000_0000_0000_0000 && total <= order.amount
    && !(order.timeInForce == Gtt && now > order.cancelAfter)
    && (order.timeInForce == Fok && ShouldCancelRemaining(order, isFinalFill) ==> total == order.amount)
  }

  /** The fill a seat of the trade records. */
  function FillOf(order: Order, hash: OrderHash, partial: nat, trade: Trade, buySeat: bool, isFinalFill: bool,
                  now: nat): Fill {
    var total := partial + if order.isAmountInQuote then trade.grossQuoteAmount else trade.grossBaseAmount;
    Fill(order, hash, trade.grossBaseAmount, trade.grossQuoteAmount, buySeat, total,
         total == order.amount || ShouldCancelRemaining(order, isFinalFill), trade.makerSide, now)
  }

  /** The conditions of a fill, written out. */
  lemma FillableExactly(order: Order, completed: bool, total: nat, isFinalFill: bool, now: nat)
    ensures Fillable(order, completed, total, isFinalFill, now) <==>
              && !completed && total <= order.amount
              && (order.isAmountInQuote ==> order.orderType in {Market, StopLoss, TakeProfit})
              && (order.timeInForce == Gtt ==> now <= order.cancelAfter)
              && (order.timeInForce == Fok && order.orderType in {Market, StopLoss, TakeProfit} && isFinalFill ==>
                    total == order.amount)
  {
  }

  /** What a fill records: the base amount on top of what was filled before (the quote amount for orders by quote),
      and the order finished when it is full, immediate-or-cancel, or a market order's final fill. */
  lemma FillRecords(order: Order, hash: OrderHash, partial: nat, trade: Trade, buySeat: bool, isFinalFill: bool,
                    now: nat)
    ensures var f := FillOf(order, hash, partial, trade, buySeat, isFinalFill, now);
            && f.order == order && f.hash == hash && f.buySeat == buySeat && f.at == now
            && f.base == trade.grossBaseAmount && f.quote == trade.grossQuoteAmount && f.makerSide == trade.makerSide
            && f.total == partial + (if order.isAmountInQuote then trade.grossQuoteAmount else trade.grossBaseAmount)
            && (f.finished <==>
                  || f.total == order.amount || order.timeInForce == Ioc
                  || (order.orderType in {Market, StopLoss, TakeProfit} && isFinalFill))
            && Left(f) == if f.finished then 0 else f.total
  {
  }

  /** What stays recorded after a fill. */
  function Left(f: Fill): nat {
    if f.finished then 0 else f.total
  }

  lemma FillNamesHash()
    ensures forall order, hash, partial, trade, buySeat, isFinalFill, now ::
              FillOf(order, hash, partial, trade, buySeat, isFinalFill, now).hash == hash
  {
  }

  /** The limit check of one seat. */
  predicate SeatValid(order: Order, trade: Trade, buySeat: bool) {
    && trade.grossBaseAmount > 0 && trade.grossQuoteAmount > 0 && PostOnlyValid(order, trade.makerSide)
    && (IsLimitOrderType(order.orderType) ==>
          var implied := ImpliedQuote(trade.grossBaseAmount, order.limitPrice);
          if buySeat then trade.grossQuoteAmount <= implied else trade.grossQuoteAmount >= implied)
  }

  lemma SeatsValid(buy: Order, sell: Order, trade: Trade)
    requires TradeValid(buy, sell, trade)
    ensures SeatValid(buy, trade, true) && SeatValid(sell, trade, false)
  {
    hide ImpliedQuote;
  }

  class NowaOrderbook {
    const ledger: TokenLedger
    const orderHash: Order -> OrderHash
    var completedOrderHashes: set<OrderHash>
    var partiallyFilled: map<OrderHash, nat>
    var orderOwners: map<OrderHash, Address>
    var minValidNonce: map<Address, nat>
    /** Every fill any trade has made. */
    ghost var fills: seq<Fill>

    function PartialOf(h: OrderHash): nat
      reads this`partiallyFilled
    {
      if h in partiallyFilled then partiallyFilled[h] else 0
    }

    function OwnerOf(h: OrderHash): Address
      reads this`orderOwners
    {
      if h in orderOwners then orderOwners[h] else NO_ADDRESS
    }

    function MinNonceOf(user: Address): nat
      reads this`minValidNonce
    {
      if user in minValidNonce then minValidNonce[user] else 0
    }

    ghost predicate IsOwner(h: OrderHash, user: Address) {
      exists order :: orderHash(order) == h && order.userAddress == user
    }

    ghost predicate Tracks()
      reads this`completedOrderHashes, this`partiallyFilled, this`fills
    {
      forall h :: Tracked(h in completedOrderHashes, PartialOf(h), fills, h)
    }

    ghost predicate OwnersReal()
      reads this`orderOwners
    {
      forall h :: OwnerOf(h) != NO_ADDRESS ==> IsOwner(h, OwnerOf(h))
    }

    ghost predicate Valid()
      reads this, ledger
    {
      ledger.Valid() && GoodLog(fills) && Tracks() && OwnersReal()
    }

    constructor (ledger: TokenLedger, orderHash: Order -> OrderHash)
      requires ledger.Valid()
      ensures Valid() && this.ledger == ledger && this.orderHash == orderHash && fills == []
      ensures completedOrderHashes == {} && partiallyFilled == map[]
      ensures forall h :: PartialOf(h) == 0 && OwnerOf(h) == 0
      ensures forall user :: MinNonceOf(user) == 0
    {
      this.ledger, this.orderHash := ledger, orderHash;
      completedOrderHashes, partiallyFilled, orderOwners, minValidNonce, fills := {}, map[], map[], map[], [];
    }

    // ---------------------------------------------------------------- fills

    /** Adds one seat's amount; accepted exactly when Fillable. */
    method UpdateOrderFilledQuantity(order: Order, hash: OrderHash, trade: Trade, isFinalFill: bool, now: nat,
                                     ghost buySeat: bool)
      returns (ok: bool)
      requires GoodLog(fills) && Tracks() && SeatValid(order, trade, buySeat)
      modifies this`completedOrderHashes, this`partiallyFilled, this`fills
      ensures GoodLog(fills) && Tracks()
      ensures var f := FillOf(order, hash, old(PartialOf(hash)), trade, buySeat, isFinalFill, now);
              && (ok <==> Fillable(order, hash in old(completedOrderHashes), f.total, isFinalFill, now))
              && fills == old(fills) + (if ok then [f] else [])
              && completedOrderHashes == old(completedOrderHashes) + (if ok && f.finished then {hash} else {})
              && (ok ==> PartialOf(hash) == if f.finished then 0 else f.total)
      ensures !ok ==> partiallyFilled == old(partiallyFilled)
      ensures forall h :: h != hash ==> PartialOf(h) == old(PartialOf(h))
    {
      hide GoodLog, Tracked, ImpliedQuote;
      if hash in completedOrderHashes {
        return false;
      }
      var newFilledAmount;
      if order.isAmountInQuote {
        if !IsMarketOrderType(order.orderType) {
          return false;
        }
        newFilledAmount := trade.grossQuoteAmount + PartialOf(hash);
      } else {
        newFilledAmount := trade.grossBaseAmount + PartialOf(hash);
      }
      if newFilledAmount >= 0x1_0000_0000_0000_0000 || newFilledAmount > order.amount {
        return false;
      }
      if order.timeInForce == Gtt && now > order.cancelAfter {
        return false;
      }
      var isFullyFilled := newFilledAmount == order.amount;
      var shouldFinalize := ShouldCancelRemaining(order, isFinalFill);
      if !isFullyFilled && shouldFinalize && order.timeInForce == Fok && newFilledAmount != order.amount {
        return false;
      }
      ghost var f := FillOf(order, hash, PartialOf(hash), trade, buySeat, isFinalFill, now);
      ghost var log := fills;
      assert Tracked(false, PartialOf(hash), log, hash);
      LogExtends(log, f, PartialOf(hash));
      if isFullyFilled || shouldFinalize {
        partiallyFilled := partiallyFilled - {hash};
        completedOrderHashes := completedOrderHashes + {hash};
      } else {
        partiallyFilled := partiallyFilled[hash := newFilledAmount];
      }
      fills := fills + [f];
      forall h ensures Tracked(h in completedOrderHashes, PartialOf(h), fills, h) {
        TrackedExtends(h in old(completedOrderHashes), old(PartialOf(h)), log, f, h);
      }
      return true;
    }

    /** The buy seat's fill, from the stored state. */
    ghost function BuyFill(buy: Order, trade: Trade, isFinalFill: bool, now: nat): Fill
      reads this`partiallyFilled
    {
      FillOf(buy, orderHash(buy), PartialOf(orderHash(buy)), trade, true, isFinalFill, now)
    }

    /** The sell seat's fill, which follows the buy seat's; the two orders may share a hash. */
    ghost function SellFill(buy: Order, sell: Order, trade: Trade, isFinalFill: bool, now: nat): Fill
      reads this`partiallyFilled
    {
      var b := BuyFill(buy, trade, isFinalFill, now);
      var partial :=
        if orderHash(sell) != orderHash(buy) then PartialOf(orderHash(sell)) else if b.finished then 0 else b.total;
      FillOf(sell, orderHash(sell), partial, trade, false, isFinalFill, now)
    }

    /** Both seats accept the trade, one after the other. */
    ghost predicate BothFillable(buy: Order, sell: Order, trade: Trade, isFinalFill: bool, now: nat)
      reads this`partiallyFilled, this`completedOrderHashes
    {
      var b, s := BuyFill(buy, trade, isFinalFill, now), SellFill(buy, sell, trade, isFinalFill, now);
      && Fillable(buy, b.hash in completedOrderHashes, b.total, isFinalFill, now)
      && Fillable(sell, s.hash in completedOrderHashes || (s.hash == b.hash && b.finished), s.total, isFinalFill, now)
    }

    /** Both seats of a trade, the buy order first; a failure may leave the first recorded. */
    method UpdateOrderFilledQuantities(buy: Order, sell: Order, trade: Trade, isFinalFill: bool, now: nat)
      returns (ok: bool)
      requires GoodLog(fills) && Tracks() && SeatValid(buy, trade, true) && SeatValid(sell, trade, false)
      modifies this`completedOrderHashes, this`partiallyFilled, this`fills
      ensures ok <==> old(BothFillable(buy, sell, trade, isFinalFill, now))
      ensures ok ==> GoodLog(fills) && Tracks()
      ensures ok ==>
                fills == old(fills) + [old(BuyFill(buy, trade, isFinalFill, now)),
                                       old(SellFill(buy, sell, trade, isFinalFill, now))]
      ensures ok ==> completedOrderHashes == old(completedOrderHashes)
                     + (if old(BuyFill(buy, trade, isFinalFill, now)).finished then {orderHash(buy)} else {})
                     + (if old(SellFill(buy, sell, trade, isFinalFill, now)).finished then {orderHash(sell)} else {})
      ensures ok ==> PartialOf(orderHash(sell)) == Left(old(SellFill(buy, sell, trade, isFinalFill, now)))
      ensures ok && orderHash(buy) != orderHash(sell) ==>
                PartialOf(orderHash(buy)) == Left(old(BuyFill(buy, trade, isFinalFill, now)))
      ensures ok ==> forall h :: h != orderHash(buy) && h != orderHash(sell) ==> PartialOf(h) == old(PartialOf(h))
    {
      hide GoodLog, SeatValid, Fillable, FillOf;
      FillNamesHash();
      ok := UpdateOrderFilledQuantity(buy, orderHash(buy), trade, isFinalFill, now, true);
      if ok {
        ok := UpdateOrderFilledQuantity(sell, orderHash(sell), trade, isFinalFill, now, false);
      }
    }

    /** A trade fills both orders and moves the tokens, or reverts as a whole; this is the whole condition for it. */
    method ExecuteTrade(buy: Order, sell: Order, trade: Trade, isFinalFill: bool, now: nat,
                        signaturesValid: bool, fundsLocked: bool, pullsApproved: bool)
      returns (ok: bool)
      requires Valid() && buy.userAddress != ledger.self && sell.userAddress != ledger.self
      modifies this`completedOrderHashes, this`partiallyFilled, this`fills, ledger`balances, ledger`settled
      ensures Valid()
      ensures ok <==>
        && buy.nonce > MinNonceOf(buy.userAddress) && sell.nonce > MinNonceOf(sell.userAddress)
        && TradeValid(buy, sell, trade) && signaturesValid && fundsLocked && pullsApproved
        && old(BothFillable(buy, sell, trade, isFinalFill, now))
        && ledger.decimals(trade.baseToken) <= 32 && ledger.decimals(trade.quoteToken) <= 32
        && old(ledger.Settleable(buy.userAddress, sell.userAddress, trade))
      ensures !ok ==> completedOrderHashes == old(completedOrderHashes) && partiallyFilled == old(partiallyFilled)
                      && fills == old(fills) && ledger.balances == old(ledger.balances)
      ensures ok ==>
                fills == old(fills) + [old(BuyFill(buy, trade, isFinalFill, now)),
                                       old(SellFill(buy, sell, trade, isFinalFill, now))]
      ensures ok ==> completedOrderHashes == old(completedOrderHashes)
                     + (if old(BuyFill(buy, trade, isFinalFill, now)).finished then {orderHash(buy)} else {})
                     + (if old(SellFill(buy, sell, trade, isFinalFill, now)).finished then {orderHash(sell)} else {})
      ensures ok ==> PartialOf(orderHash(sell)) == Left(old(SellFill(buy, sell, trade, isFinalFill, now)))
      ensures ok && orderHash(buy) != orderHash(sell) ==>
                PartialOf(orderHash(buy)) == Left(old(BuyFill(buy, trade, isFinalFill, now)))
      ensures ok ==> ledger.settled == old(ledger.settled) + 1
    {
      hide GoodLog, Tracked, SeatValid, LimitPricesValid, FeesValid, AssetPairValid, PostOnlyValid, AmountInQuoteValid,
           Fillable, FillOf;
      ok := false;
      if buy.nonce <= MinNonceOf(buy.userAddress) || sell.nonce <= MinNonceOf(sell.userAddress) {
        return;
      }
      if !TradeValid(buy, sell, trade) || !signaturesValid {
        return;
      }
      var completed, partials := completedOrderHashes, partiallyFilled;
      ghost var log := fills;
      SeatsValid(buy, sell, trade);
      ok := UpdateOrderFilledQuantities(buy, sell, trade, isFinalFill, now);
      if ok && fundsLocked {
        ok := ledger.UpdateForOrderBookTrade(buy.userAddress, sell.userAddress, trade, pullsApproved);
      } else {
        ok := false;
      }
      if !ok {
        completedOrderHashes, partiallyFilled, fills := completed, partials, log;
      }
    }

    // ---------------------------------------------------------------- cancels

    /** Marks the order completed and forgets its partial fill. */
    method Complete(h: OrderHash)
      requires Tracks()
      modifies this`completedOrderHashes, this`partiallyFilled
      ensures Tracks() && completedOrderHashes == old(completedOrderHashes) + {h} && PartialOf(h) == 0
      ensures forall g :: g != h ==> PartialOf(g) == old(PartialOf(g))
    {
      completedOrderHashes := completedOrderHashes + {h};
      partiallyFilled := partiallyFilled - {h};
    }

    method EmergencyCancel(sender: Address, order: Order, signatureValid: bool) returns (ok: bool)
      requires Valid()
      modifies this`completedOrderHashes, this`partiallyFilled
      ensures Valid()
      ensures ok <==> sender == order.userAddress && signatureValid && orderHash(order) !in old(completedOrderHashes)
      ensures !ok ==> completedOrderHashes == old(completedOrderHashes) && partiallyFilled == old(partiallyFilled)
      ensures ok ==> completedOrderHashes == old(completedOrderHashes) + {orderHash(order)}
      ensures forall h :: PartialOf(h) == if ok && h == orderHash(order) then 0 else old(PartialOf(h))
    {
      var h := orderHash(order);
      ok := sender == order.userAddress && signatureValid && h !in completedOrderHashes;
      if ok {
        Complete(h);
      }
    }

    /** Cancels every order of the list not completed yet, or reverts as a whole. */
    method EmergencyCancelBatch(sender: Address, orders: seq<Order>, signatureValid: Order -> bool) returns (ok: bool)
      requires Valid()
      modifies this`completedOrderHashes, this`partiallyFilled
      ensures Valid()
      ensures ok <==> |orders| <= MAX_BATCH_SIZE
                      && forall i :: 0 <= i < |orders| ==> orders[i].userAddress == sender && signatureValid(orders[i])
      ensures !ok ==> completedOrderHashes == old(completedOrderHashes) && partiallyFilled == old(partiallyFilled)
      ensures ok ==>
                completedOrderHashes == old(completedOrderHashes) + set i | 0 <= i < |orders| :: orderHash(orders[i])
      ensures forall h :: PartialOf(h) == if h in completedOrderHashes then 0 else old(PartialOf(h))
    {
      hide GoodLog;
      if |orders| > MAX_BATCH_SIZE {
        return false;
      }
      var completed, partials := completedOrderHashes, partiallyFilled;
      for i := 0 to |orders|
        invariant Tracks()
        invariant forall j :: 0 <= j < i ==> orders[j].userAddress == sender && signatureValid(orders[j])
        invariant completedOrderHashes == completed + set j | 0 <= j < i :: orderHash(orders[j])
        invariant forall h :: PartialOf(h) == if h in completedOrderHashes then 0 else old(PartialOf(h))
      {
        if sender != orders[i].userAddress || !signatureValid(orders[i]) {
          completedOrderHashes, partiallyFilled := completed, partials;
          return false;
        }
        var h := orderHash(orders[i]);
        if h !in completedOrderHashes {
          Complete(h);
        }
      }
      return true;
    }

    method RegisterOrderForCancel(sender: Address, order: Order, signatureValid: bool) returns (ok: bool)
      requires Valid() && sender != NO_ADDRESS
      modifies this`orderOwners
      ensures Valid()
      ensures ok <==> sender == order.userAddress && signatureValid && old(OwnerOf(orderHash(order))) == NO_ADDRESS
                      && orderHash(order) !in completedOrderHashes
      ensures forall h :: OwnerOf(h) == if ok && h == orderHash(order) then sender else old(OwnerOf(h))
    {
      hide GoodLog, Tracked;
      var h := orderHash(order);
      ok := sender == order.userAddress && signatureValid && OwnerOf(h) == NO_ADDRESS && h !in completedOrderHashes;
      if ok {
        assert IsOwner(h, sender);
        orderOwners := orderOwners[h := sender];
        forall g | g != h ensures OwnerOf(g) == old(OwnerOf(g)) {
        }
      }
    }

    /** Only the user of an order with this hash ever succeeds. */
    method EmergencyCancelByHash(sender: Address, h: OrderHash) returns (ok: bool)
      requires Valid() && sender != NO_ADDRESS
      modifies this`completedOrderHashes, this`partiallyFilled, this`orderOwners
      ensures Valid()
      ensures ok <==> old(OwnerOf(h)) == sender && h !in old(completedOrderHashes)
      ensures ok ==> IsOwner(h, sender) && OwnerOf(h) == NO_ADDRESS
      ensures completedOrderHashes == old(completedOrderHashes) + if ok then {h} else {}
      ensures forall g :: PartialOf(g) == if ok && g == h then 0 else old(PartialOf(g))
      ensures forall g :: !ok || g != h ==> OwnerOf(g) == old(OwnerOf(g))
    {
      hide GoodLog;
      ok := OwnerOf(h) == sender && h !in completedOrderHashes;
      if ok {
        assert IsOwner(h, sender);
        Complete(h);
        orderOwners := orderOwners - {h};
        forall g | g != h ensures OwnerOf(g) == old(OwnerOf(g)) {
        }
      }
    }

    /** The threshold only rises. */
    method CancelUpTo(sender: Address, nonce: nat) returns (ok: bool)
      requires Valid()
      modifies this`minValidNonce
      ensures Valid()
      ensures ok <==> nonce > old(MinNonceOf(sender))
      ensures forall user :: MinNonceOf(user) == if ok && user == sender then nonce else old(MinNonceOf(user))
    {
      hide GoodLog, Tracked;
      ok := nonce > MinNonceOf(sender);
      if ok {
        minValidNonce := minValidNonce[sender := nonce];
      }
    }
  }

  /** A fill-or-kill buy order for 10 at price 1, a market sell order for 4, and their trade without fees. */
  function PartBuy(): Order {
    PlainOrder(3, 10, Limit, Buy, 100000000, Fok)
  }

  function PartSell(): Order {
    PlainOrder(4, 4, Market, Sell, 0, Gtc)
  }

  lemma PartTradeValid()
    ensures TradeValid(PartBuy(), PartSell(), PlainTrade(4, 4))
  {
    hide FeesValid;
    assert FeesValid(PlainTrade(4, 4)) by { PlainFees(4, 4); }
  }

  /** A fill-or-kill limit order may be filled in part and stay open: a valid trade for 4 of 10 is executed and
      leaves it open. */
  method FillOrKillStaysOpen(c: NowaOrderbook) returns (ok: bool)
    requires c.Valid() && c.ledger.self != 3 && c.ledger.self != 4
    requires c.MinNonceOf(3) == 0 && c.MinNonceOf(4) == 0 && c.orderHash(PartBuy()) != c.orderHash(PartSell())
    requires c.orderHash(PartBuy()) !in c.completedOrderHashes && c.PartialOf(c.orderHash(PartBuy())) == 0
    requires c.orderHash(PartSell()) !in c.completedOrderHashes && c.PartialOf(c.orderHash(PartSell())) == 0
    requires c.ledger.decimals(1) <= 32 && c.ledger.decimals(2) <= 32 && c.ledger.Settleable(3, 4, PlainTrade(4, 4))
    modifies c`completedOrderHashes, c`partiallyFilled, c`fills, c.ledger`balances, c.ledger`settled
    ensures ok && c.orderHash(PartBuy()) !in c.completedOrderHashes && c.PartialOf(c.orderHash(PartBuy())) == 4
    ensures |c.fills| == |old(c.fills)| + 2 && c.fills[|old(c.fills)|].order == PartBuy()
            && c.fills[|old(c.fills)|].total == 4
  {
    hide GoodLog, Tracked, TradeValid, TokenLedger.Settleable, TokenLedger.Valid;
    PartTradeValid();
    ok := c.ExecuteTrade(PartBuy(), PartSell(), PlainTrade(4, 4), true, 0, true, true, true);
  }

  /** Exactly when an accepted partial fill leaves a fill-or-kill order open: when the fill does not finish orders of
      its type. */
  lemma FillOrKillOpenExactly(order: Order, total: nat, isFinalFill: bool, now: nat)
    requires order.timeInForce == Fok && total < order.amount
    requires AmountInQuoteValid(order)
    ensures Fillable(order, false, total, isFinalFill, now) <==> !(IsMarketOrderType(order.orderType) && isFinalFill)
  {
  }
}
