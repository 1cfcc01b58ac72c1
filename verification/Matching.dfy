/** The matching engine: one book of mutable orders per token. */
module Matching {
  import opened PriceTime

  class Order {
    const tokenID: nat
    const price: int
    const isBuy: bool
    var amount: int
    /** Position among the orders submitted to its book. */
    ghost var arrival: nat

    constructor (tokenID: nat, price: int, isBuy: bool, amount: int)
      ensures this.tokenID == tokenID && this.price == price && this.isBuy == isBuy && this.amount == amount
    {
      this.tokenID, this.price, this.isBuy, this.amount := tokenID, price, isBuy, amount;
    }

    ghost function Entry(): Entry
      reads this
    {
      PriceTime.Entry(arrival, price, amount)
    }
  }

  /** The orders' entries, in order. */
  ghost function View(orders: seq<Order>): seq<Entry>
    reads orders
  {
    seq(|orders|, i requires 0 <= i < |orders| reads orders => orders[i].Entry())
  }

  /** Sorted entries have distinct arrivals, so sorted orders are distinct objects. */
  lemma SortedDistinct(bids: bool, orders: seq<Order>)
    requires Sorted(bids, View(orders))
    ensures forall i, j :: 0 <= i < j < |orders| ==> orders[i] != orders[j]
  {
    var v := View(orders);
    forall i, j | 0 <= i < j < |orders| ensures orders[i] != orders[j] {
      assert v[i] == orders[i].Entry() && v[j] == orders[j].Entry();
      assert Ahead(bids, v[i], v[j]);
    }
  }

  /** The trades already sent, in front of the outcome for what is left. */
  ghost function After(sent: seq<Trade>, o: Outcome): Outcome {
    o.(trades := sent + o.trades)
  }

  function Fill(remaining: int, resting: int): int {
    if remaining >= resting then resting else remaining
  }

  /** The side once its head has given up m. */
  ghost function Reduced(s: seq<Entry>, m: int): seq<Entry>
    requires s != []
  {
    if s[0].amount == m then s[1..] else [s[0].(amount := s[0].amount - m)] + s[1..]
  }

  /** The outcome for the whole side is what was sent, then the outcome for what is left. */
  ghost predicate Reached(buying: bool, taker: nat, limit: int, whole: Outcome, sent: seq<Trade>, remaining: int,
                          s: seq<Entry>) {
    whole == After(sent, Match(buying, taker, limit, remaining, s))
  }

  /** One turn of the loop is one unfolding of the specification. */
  lemma MatchStep(buying: bool, taker: nat, limit: int, whole: Outcome, sent: seq<Trade>, remaining: int, s: seq<Entry>)
    requires Reached(buying, taker, limit, whole, sent, remaining, s)
    requires s != [] && remaining > 0 && Accepts(buying, limit, s[0].price)
    ensures var m := Fill(remaining, s[0].amount);
            Reached(buying, taker, limit, whole, sent + [Trade(s[0].arrival, taker, s[0].price, m)], remaining - m,
                    Reduced(s, m))
  {
    var m := Fill(remaining, s[0].amount);
    var t := Trade(s[0].arrival, taker, s[0].price, m);
    var rest := Match(buying, taker, limit, remaining - m, Reduced(s, m));
    assert sent + ([t] + rest.trades) == (sent + [t]) + rest.trades;
  }

  lemma ReducedSorted(bids: bool, s: seq<Entry>, m: int)
    requires s != [] && Sorted(bids, s)
    ensures Sorted(bids, Reduced(s, m))
  {
    var r := Reduced(s, m);
    var k := |s| - |r|;
    assert forall i :: 0 <= i < |r| ==> r[i].arrival == s[k + i].arrival && r[i].price == s[k + i].price;
    forall i, j | 0 <= i < j < |r| ensures Ahead(bids, r[i], r[j]) {
      assert Ahead(bids, s[k + i], s[k + j]);
    }
  }

  /** Lowering the head in place, and dropping it when empty, is Reduced. */
  lemma ReducedInPlace(s: seq<Entry>, after: seq<Entry>, m: int)
    requires s != [] && |after| == |s| && after[0] == s[0].(amount := s[0].amount - m)
    requires forall i :: 0 < i < |s| ==> after[i] == s[i]
    ensures (if after[0].amount == 0 then after[1..] else after) == Reduced(s, m)
  {
    assert after == [after[0]] + s[1..];
  }

  lemma NothingSent(buying: bool, taker: nat, limit: int, amount: int, s: seq<Entry>)
    ensures Reached(buying, taker, limit, Match(buying, taker, limit, amount, s), [], amount, s)
  {
    assert [] + Match(buying, taker, limit, amount, s).trades == Match(buying, taker, limit, amount, s).trades;
  }

  lemma MatchDone(buying: bool, taker: nat, limit: int, whole: Outcome, sent: seq<Trade>, remaining: int, s: seq<Entry>)
    requires Reached(buying, taker, limit, whole, sent, remaining, s)
    requires s == [] || remaining <= 0 || !Accepts(buying, limit, s[0].price)
    ensures whole == Outcome(sent, remaining, s)
  {
    assert sent + [] == sent;
  }

  lemma NextTail<T>(s: seq<T>, k: nat)
    requires k < |s|
    ensures s[k..][1..] == s[k + 1..]
  {
  }

  lemma InsertStep(bids: bool, e: Entry, s: seq<Entry>, i: nat)
    requires i < |s|
    ensures if Beats(bids, e.price, s[i].price) then Insert(bids, e, s[i..]) == [e] + s[i..]
            else s[..i] + Insert(bids, e, s[i..]) == s[..i + 1] + Insert(bids, e, s[i + 1..])
  {
    assert s[i..][1..] == s[i + 1..] && s[..i + 1] == s[..i] + [s[i]];
    assert s[..i] + ([s[i]] + Insert(bids, e, s[i + 1..])) == s[..i + 1] + Insert(bids, e, s[i + 1..]);
  }

  lemma InsertEnd(bids: bool, e: Entry, s: seq<Entry>, i: nat)
    requires i <= |s| && (i < |s| ==> Beats(bids, e.price, s[i].price))
    ensures s[..i] + Insert(bids, e, s[i..]) == s[..i] + [e] + s[i..]
  {
  }

  lemma ViewSplice(orders: seq<Order>, order: Order, i: nat)
    requires i <= |orders|
    ensures View(orders[..i] + [order] + orders[i..]) == View(orders)[..i] + [order.Entry()] + View(orders)[i..]
  {
  }

  lemma SidesSorted(b: Book)
    requires WellFormed(b)
    ensures Sorted(true, b.bids) && Sorted(false, b.asks)
  {
  }

  lemma SidesDisjoint(ob: Orderbook)
    requires ob.Valid()
    ensures forall o :: o in ob.bids ==> o !in ob.asks
  {
  }

  /** A book whose sides, trades and submissions are the outcome's is the processed book. */
  lemma Processed(b: Book, order: Submission, p: Book)
    requires var o := Match(order.buying, |b.submitted|, order.limit, order.amount, Opposite(b, order.buying));
             && Opposite(p, order.buying) == o.left
             && p.trades == b.trades + o.trades && p.submitted == b.submitted + [order]
             && Own(p, order.buying) == if o.remaining > 0 then
               Insert(order.buying, Entry(|b.submitted|, order.limit, o.remaining), Own(b, order.buying))
             else Own(b, order.buying)
    ensures p == Process(b, order)
  {
    hide Match, Insert;
  }

  class Orderbook {
    const tokenID: nat
    /** Sorted descending by price. */
    var bids: seq<Order>
    /** Sorted ascending by price. */
    var asks: seq<Order>
    /** Trades sent to the queue so far, and every order submitted. */
    ghost var trades: seq<Trade>
    ghost var submitted: seq<Submission>

    ghost function Book(): Book
      reads this, bids, asks
    {
      PriceTime.Book(View(bids), View(asks), trades, submitted)
    }

    /** Every resting order is in s. */
    ghost predicate Within(s: set<Order>)
      reads this
    {
      (forall o :: o in bids ==> o in s) && (forall o :: o in asks ==> o in s)
    }

    ghost predicate Apart(other: Orderbook)
      reads this, other
    {
      && (forall o :: o in bids ==> o !in other.bids && o !in other.asks)
      && (forall o :: o in asks ==> o !in other.bids && o !in other.asks)
    }

    ghost predicate Valid()
      reads this, bids, asks
    {
      && WellFormed(Book())
      && (forall o :: o in bids ==> o.isBuy && o.tokenID == tokenID)
      && (forall o :: o in asks ==> !o.isBuy && o.tokenID == tokenID)
    }

    constructor (tokenID: nat)
      ensures Valid() && Book() == EMPTY && this.tokenID == tokenID && bids == [] && asks == []
    {
      this.tokenID := tokenID;
      bids, asks, trades, submitted := [], [], [], [];
    }

    /** Takes m off the best order and drops it when nothing is left. */
    method ReduceAsk(m: int)
      requires asks != [] && Sorted(false, View(asks))
      modifies this`asks, asks[0]
      ensures View(asks) == Reduced(old(View(asks)), m)
      ensures asks == if old(asks[0].amount) == m then old(asks)[1..] else old(asks)
    {
      hide Sorted, Reduced;
      ghost var before := View(asks);
      SortedDistinct(false, asks);
      asks[0].amount := asks[0].amount - m;
      ReducedInPlace(before, View(asks), m);
      if asks[0].amount == 0 {
        assert View(asks[1..]) == View(asks)[1..];
        asks := asks[1..];
      }
    }

    /** Matches an incoming buy order against the resting asks. */
    method MatchBids(incoming: Order, amount: int) returns (remaining: int)
      requires Sorted(false, View(asks)) && incoming !in asks
      modifies this`asks, this`trades, asks
      ensures var o := Match(true, |submitted|, incoming.price, amount, old(View(asks)));
              View(asks) == o.left && trades == old(trades) + o.trades && remaining == o.remaining
      ensures forall o :: o in asks ==> o in old(asks)
    {
      hide Match, Sorted, Reached, Reduced, Ahead;
      remaining := amount;
      ghost var sent: seq<Trade> := [];
      ghost var all, taken := asks, 0;
      ghost var whole := Match(true, |submitted|, incoming.price, amount, View(asks));
      NothingSent(true, |submitted|, incoming.price, amount, View(asks));
      while |asks| > 0 && remaining > 0
        invariant Sorted(false, View(asks))
        invariant 0 <= taken <= |all| && asks == all[taken..]
        invariant trades == old(trades) + sent
        invariant Reached(true, |submitted|, incoming.price, whole, sent, remaining, View(asks))
        decreases |asks|, remaining
      {
        var bestAsk := asks[0];
        assert bestAsk in asks;
        if incoming.price < bestAsk.price {
          break;
        }
        var matchAmount := if remaining >= bestAsk.amount then bestAsk.amount else remaining;
        ghost var before := View(asks);
        MatchStep(true, |submitted|, incoming.price, whole, sent, remaining, before);
        ReducedSorted(false, before, matchAmount);
        ghost var trade := Trade(bestAsk.arrival, |submitted|, bestAsk.price, matchAmount);
        trades, sent := trades + [trade], sent + [trade];
        remaining := remaining - matchAmount;
        ghost var left := asks;
        ReduceAsk(matchAmount);
        if asks != left {
          NextTail(all, taken);
          taken := taken + 1;
        }
      }
      MatchDone(true, |submitted|, incoming.price, whole, sent, remaining, View(asks));
    }

    /** Takes m off the best order and drops it when nothing is left. */
    method ReduceBid(m: int)
      requires bids != [] && Sorted(true, View(bids))
      modifies this`bids, bids[0]
      ensures View(bids) == Reduced(old(View(bids)), m)
      ensures bids == if old(bids[0].amount) == m then old(bids)[1..] else old(bids)
    {
      hide Sorted, Reduced;
      ghost var before := View(bids);
      SortedDistinct(true, bids);
      bids[0].amount := bids[0].amount - m;
      ReducedInPlace(before, View(bids), m);
      if bids[0].amount == 0 {
        assert View(bids[1..]) == View(bids)[1..];
        bids := bids[1..];
      }
    }

    /** Matches an incoming sell order against the resting bids. */
    method MatchAsks(incoming: Order, amount: int) returns (remaining: int)
      requires Sorted(true, View(bids)) && incoming !in bids
      modifies this`bids, this`trades, bids
      ensures var o := Match(false, |submitted|, incoming.price, amount, old(View(bids)));
              View(bids) == o.left && trades == old(trades) + o.trades && remaining == o.remaining
      ensures forall o :: o in bids ==> o in old(bids)
    {
      hide Match, Sorted, Reached, Reduced, Ahead;
      remaining := amount;
      ghost var sent: seq<Trade> := [];
      ghost var all, taken := bids, 0;
      ghost var whole := Match(false, |submitted|, incoming.price, amount, View(bids));
      NothingSent(false, |submitted|, incoming.price, amount, View(bids));
      while |bids| > 0 && remaining > 0
        invariant Sorted(true, View(bids))
        invariant 0 <= taken <= |all| && bids == all[taken..]
        invariant trades == old(trades) + sent
        invariant Reached(false, |submitted|, incoming.price, whole, sent, remaining, View(bids))
        decreases |bids|, remaining
      {
        var bestBid := bids[0];
        assert bestBid in bids;
        if incoming.price > bestBid.price {
          break;
        }
        var matchAmount := if remaining >= bestBid.amount then bestBid.amount else remaining;
        ghost var before := View(bids);
        MatchStep(false, |submitted|, incoming.price, whole, sent, remaining, before);
        ReducedSorted(true, before, matchAmount);
        ghost var trade := Trade(bestBid.arrival, |submitted|, bestBid.price, matchAmount);
        trades, sent := trades + [trade], sent + [trade];
        remaining := remaining - matchAmount;
        ghost var left := bids;
        ReduceBid(matchAmount);
        if bids != left {
          NextTail(all, taken);
          taken := taken + 1;
        }
      }
      MatchDone(false, |submitted|, incoming.price, whole, sent, remaining, View(bids));
    }

    /** Inserts keeping descending prices, behind orders of the same price. */
    method InsertBid(order: Order)
      modifies this`bids
      ensures View(bids) == Insert(true, order.Entry(), old(View(bids)))
      ensures forall o :: o in bids ==> o in old(bids) || o == order
    {
      hide Insert;
      ghost var s := View(bids);
      var insertIdx, i := 0, 0;
      while i < |bids|
        invariant 0 <= i <= |bids| && insertIdx == i && bids == old(bids) && View(bids) == s
        invariant Insert(true, order.Entry(), s) == s[..i] + Insert(true, order.Entry(), s[i..])
      {
        InsertStep(true, order.Entry(), s, i);
        if order.price > bids[i].price {
          break;
        }
        insertIdx := i + 1;
        i := i + 1;
      }
      assert Insert(true, order.Entry(), s) == s[..insertIdx] + [order.Entry()] + s[insertIdx..] by {
        InsertEnd(true, order.Entry(), s, insertIdx);
      }
      ViewSplice(bids, order, insertIdx);
      if insertIdx == |bids| {
        assert bids[..insertIdx] + [order] + bids[insertIdx..] == bids + [order];
        bids := bids + [order];
      } else {
        bids := bids[..insertIdx] + [order] + bids[insertIdx..];
      }
    }

    /** Inserts keeping ascending prices, behind orders of the same price. */
    method InsertAsk(order: Order)
      modifies this`asks
      ensures View(asks) == Insert(false, order.Entry(), old(View(asks)))
      ensures forall o :: o in asks ==> o in old(asks) || o == order
    {
      hide Insert;
      ghost var s := View(asks);
      var insertIdx, i := 0, 0;
      while i < |asks|
        invariant 0 <= i <= |asks| && insertIdx == i && asks == old(asks) && View(asks) == s
        invariant Insert(false, order.Entry(), s) == s[..i] + Insert(false, order.Entry(), s[i..])
      {
        InsertStep(false, order.Entry(), s, i);
        if order.price < asks[i].price {
          break;
        }
        insertIdx := i + 1;
        i := i + 1;
      }
      assert Insert(false, order.Entry(), s) == s[..insertIdx] + [order.Entry()] + s[insertIdx..] by {
        InsertEnd(false, order.Entry(), s, insertIdx);
      }
      ViewSplice(asks, order, insertIdx);
      if insertIdx == |asks| {
        assert asks[..insertIdx] + [order] + asks[insertIdx..] == asks + [order];
        asks := asks + [order];
      } else {
        asks := asks[..insertIdx] + [order] + asks[insertIdx..];
      }
    }

    /** Matches the order and rests what is left of it, under the next arrival number. */
    method Submit(order: Order)
      requires Valid() && order !in bids && order !in asks && order.amount > 0 && order.tokenID == tokenID
      modifies this, bids, asks, order
      ensures Valid() && Book() == Process(old(Book()), Submission(order.isBuy, order.price, old(order.amount)))
      ensures forall o :: o in bids || o in asks ==> o == order || o in old(bids) || o in old(asks)
    {
      hide Match, Insert, WellFormed, Process;
      ghost var book, submission := Book(), Submission(order.isBuy, order.price, order.amount);
      ProcessKeepsWellFormed(book, submission);
      SidesSorted(book);
      SidesDisjoint(this);
      if order.isBuy {
        var remainingAmount := MatchBids(order, order.amount);
        ghost var left := View(asks);
        assert View(bids) == book.bids by {
          assert forall i :: 0 <= i < |bids| ==> bids[i] in bids;
        }
        order.arrival := |submitted|;
        if remainingAmount > 0 {
          order.amount := remainingAmount;
          assert View(bids) == book.bids;
          InsertBid(order);
        }
        submitted := submitted + [submission];
        assert View(asks) == left;
      } else {
        var remainingAmount := MatchAsks(order, order.amount);
        ghost var left := View(bids);
        assert View(asks) == book.asks by {
          assert forall i :: 0 <= i < |asks| ==> asks[i] in asks;
        }
        order.arrival := |submitted|;
        if remainingAmount > 0 {
          order.amount := remainingAmount;
          assert View(asks) == book.asks;
          InsertAsk(order);
        }
        submitted := submitted + [submission];
        assert View(bids) == left;
      }
      Processed(book, submission, Book());
    }
  }

  lemma BooksApart(a: Orderbook, b: Orderbook)
    requires a.Valid() && b.Valid() && a.tokenID != b.tokenID
    ensures a.Apart(b)
  {
  }

  class Engine {
    var orderbooks: map<nat, Orderbook>
    /** Every order accepted so far. */
    ghost var accepted: set<Order>

    ghost predicate Valid()
      reads this, orderbooks.Values, accepted
    {
      forall t :: t in orderbooks ==>
        orderbooks[t].tokenID == t && orderbooks[t].Within(accepted) && orderbooks[t].Valid()
    }

    ghost function BookOf(token: nat): Book
      requires Valid()
      reads this, orderbooks.Values, accepted
    {
      if token in orderbooks then orderbooks[token].Book() else EMPTY
    }

    constructor ()
      ensures Valid() && forall t :: BookOf(t) == EMPTY
    {
      orderbooks, accepted := map[], {};
    }

    method GetOrCreateOrderbook(token: nat) returns (ob: Orderbook)
      requires Valid()
      modifies this`orderbooks
      ensures Valid() && token in orderbooks && ob == orderbooks[token]
      ensures token in old(orderbooks) ==> orderbooks == old(orderbooks)
      ensures token !in old(orderbooks) ==> orderbooks == old(orderbooks)[token := ob] && fresh(ob)
      ensures forall t :: BookOf(t) == old(BookOf(t))
    {
      hide WellFormed;
      if token in orderbooks {
        return orderbooks[token];
      }
      ob := new Orderbook(token);
      orderbooks := orderbooks[token := ob];
    }

    /** A valid order is matched and rested in its own token's book; any other order changes nothing. */
    method ProcessOrder(order: Order, validSignature: bool) returns (ok: bool)
      requires Valid() && order !in accepted
      modifies this, orderbooks.Values, accepted, order
      ensures Valid()
      ensures ok <==> old(order.amount) > 0 && order.price > 0 && validSignature
      ensures BookOf(order.tokenID) == if !ok then old(BookOf(order.tokenID))
              else Process(old(BookOf(order.tokenID)), Submission(order.isBuy, order.price, old(order.amount)))
      ensures forall t :: t != order.tokenID ==> BookOf(t) == old(BookOf(t))
    {
      hide WellFormed, Process, Orderbook.Valid, Orderbook.Book;
      ok := false;
      if order.amount <= 0 || order.price <= 0 || !validSignature {
        return;
      }
      var ob := GetOrCreateOrderbook(order.tokenID);
      assert ob in old(orderbooks.Values) || fresh(ob);
      Place(order, ob);
      ok := true;
    }

    method Place(order: Order, ob: Orderbook)
      requires Valid() && order !in accepted && order.amount > 0
      requires order.tokenID in orderbooks && ob == orderbooks[order.tokenID]
      modifies ob, ob.bids, ob.asks, order, this`accepted
      ensures Valid() && orderbooks == old(orderbooks)
      ensures BookOf(order.tokenID)
           == Process(old(BookOf(order.tokenID)), Submission(order.isBuy, order.price, old(order.amount)))
      ensures forall t :: t != order.tokenID ==> BookOf(t) == old(BookOf(t))
    {
      hide WellFormed, Process, Orderbook.Valid, Orderbook.Book;
      forall t | t in orderbooks && t != order.tokenID ensures orderbooks[t].Apart(ob) {
        BooksApart(orderbooks[t], ob);
      }
      ob.Submit(order);
      accepted := accepted + {order};
      forall t | t in orderbooks && t != order.tokenID
        ensures orderbooks[t].Valid() && orderbooks[t].Book() == old(orderbooks[t].Book())
      {
        var other := orderbooks[t];
        assert old(other.Apart(ob)) && old(other.Within(accepted)) && other != ob;
        assert forall i :: 0 <= i < |other.bids| ==> other.bids[i] in other.bids;
        assert forall i :: 0 <= i < |other.asks| ==> other.asks[i] in other.asks;
      }
    }
  }
}
