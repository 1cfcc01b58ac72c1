/** Price-time matching on values: what one submitted order does to a book, and what every run keeps. */
module PriceTime {

  /** A resting order: its arrival number stands for the order. */
  datatype Entry = Entry(arrival: nat, price: int, amount: int)

  datatype Trade = Trade(maker: nat, taker: nat, price: int, amount: int)

  datatype Submission = Submission(buying: bool, limit: int, amount: int)

  /** A taker with this limit trades at this resting price. */
  predicate Accepts(buying: bool, limit: int, price: int) {
    if buying then limit >= price else limit <= price
  }

  /** A strictly better price on this side of the book. */
  predicate Beats(bids: bool, price: int, other: int) {
    if bids then price > other else price < other
  }

  /** Price priority, then arrival: higher bids and lower asks come first. */
  predicate Ahead(bids: bool, e: Entry, f: Entry) {
    (if bids then e.price > f.price else e.price < f.price) || (e.price == f.price && e.arrival < f.arrival)
  }

  ghost predicate Sorted(bids: bool, s: seq<Entry>) {
    forall i, j :: 0 <= i < j < |s| ==> Ahead(bids, s[i], s[j])
  }

  ghost predicate Positive(s: seq<Entry>) {
    forall i :: 0 <= i < |s| ==> s[i].amount > 0
  }

  // ------------------------------------------------------------------ matching one order

  datatype Outcome = Outcome(trades: seq<Trade>, remaining: int, left: seq<Entry>)

  function Match(buying: bool, taker: nat, limit: int, remaining: int, s: seq<Entry>): Outcome
    decreases |s|
  {
    if s == [] || remaining <= 0 || !Accepts(buying, limit, s[0].price) then
      Outcome([], remaining, s)
    else if remaining >= s[0].amount then
      var rest := Match(buying, taker, limit, remaining - s[0].amount, s[1..]);
      Outcome([Trade(s[0].arrival, taker, s[0].price, s[0].amount)] + rest.trades, rest.remaining, rest.left)
    else
      Outcome([Trade(s[0].arrival, taker, s[0].price, remaining)], 0,
              [s[0].(amount := s[0].amount - remaining)] + s[1..])
  }

  function Quantity(trades: seq<Trade>): int {
    if trades == [] then 0 else trades[0].amount + Quantity(trades[1..])
  }

  /** Everything resting at prices up to the limit for a buyer, and from the limit up for a seller. */
  function Available(buying: bool, limit: int, s: seq<Entry>): int {
    if s == [] then 0
    else
      var within := if buying then s[0].price <= limit else limit <= s[0].price;
      (if within then s[0].amount else 0) + Available(buying, limit, s[1..])
  }

  lemma {:induction false} NoneAvailable(buying: bool, limit: int, s: seq<Entry>)
    requires forall i :: 0 <= i < |s| ==> !Accepts(buying, limit, s[i].price)
    ensures Available(buying, limit, s) == 0
  {
    if s == [] {
    } else {
      NoneAvailable(buying, limit, s[1..]);
    }
  }

  lemma {:induction false} AvailableNonNegative(buying: bool, limit: int, s: seq<Entry>)
    requires Positive(s)
    ensures Available(buying, limit, s) >= 0
  {
    if s == [] {
    } else {
      assert forall i :: 0 <= i < |s[1..]| ==> s[1..][i] == s[i + 1];
      AvailableNonNegative(buying, limit, s[1..]);
    }
  }

  /** The fills are exactly the smaller of the order's amount and everything acceptable. */
  lemma {:induction false} MatchIsMaximal(buying: bool, taker: nat, limit: int, amount: int, s: seq<Entry>)
    requires amount >= 0 && Sorted(!buying, s) && Positive(s)
    ensures var o := Match(buying, taker, limit, amount, s); var all := Available(buying, limit, s);
            Quantity(o.trades) == (if amount <= all then amount else all) && o.remaining == amount - Quantity(o.trades)
    decreases |s|
  {
    AvailableNonNegative(buying, limit, s);
    if s == [] {
    } else {
      assert forall i :: 0 <= i < |s[1..]| ==> s[1..][i] == s[i + 1];
      AvailableNonNegative(buying, limit, s[1..]);
      if !Accepts(buying, limit, s[0].price) {
        NoneAccepted(buying, limit, s);
        NoneAvailable(buying, limit, s);
      } else if amount >= s[0].amount {
        var rest := Match(buying, taker, limit, amount - s[0].amount, s[1..]);
        MatchIsMaximal(buying, taker, limit, amount - s[0].amount, s[1..]);
        var first := Trade(s[0].arrival, taker, s[0].price, s[0].amount);
        assert ([first] + rest.trades)[1..] == rest.trades;
      } else if amount > 0 {
        var only := [Trade(s[0].arrival, taker, s[0].price, amount)];
        assert only[1..] == [];
      }
    }
  }

  /** The n trades hit the first n resting orders in turn, each but perhaps the last for its whole amount. */
  ghost predicate TakesInOrder(buying: bool, taker: nat, limit: int, s: seq<Entry>, trades: seq<Trade>) {
    && |trades| <= |s|
    && (forall i :: 0 <= i < |trades| ==>
          trades[i].maker == s[i].arrival && trades[i].taker == taker && trades[i].price == s[i].price
          && (if buying then s[i].price <= limit else limit <= s[i].price) && 0 < trades[i].amount <= s[i].amount)
    && (forall i :: 0 <= i < |trades| - 1 ==> trades[i].amount == s[i].amount)
  }

  /** What is left of the book: the orders after the n-th, led by the n-th itself when it was not used up. */
  ghost predicate LeavesRest(s: seq<Entry>, trades: seq<Trade>, left: seq<Entry>)
    requires |trades| <= |s|
  {
    var n := |trades|;
    if n == 0 || trades[n - 1].amount == s[n - 1].amount then
      left == s[n..]
    else
      left == [s[n - 1].(amount := s[n - 1].amount - trades[n - 1].amount)] + s[n..]
  }

  lemma {:induction false} MatchTakesInOrder(buying: bool, taker: nat, limit: int, amount: int, s: seq<Entry>)
    requires Positive(s)
    ensures var o := Match(buying, taker, limit, amount, s);
            TakesInOrder(buying, taker, limit, s, o.trades) && LeavesRest(s, o.trades, o.left)
    decreases |s|
  {
    if s != [] && amount > 0 && Accepts(buying, limit, s[0].price) && amount >= s[0].amount {
      assert Positive(s[1..]) by { assert forall i :: 0 <= i < |s| - 1 ==> s[1..][i] == s[i + 1]; }
      MatchTakesInOrder(buying, taker, limit, amount - s[0].amount, s[1..]);
      var rest := Match(buying, taker, limit, amount - s[0].amount, s[1..]);
      TakesFirst(buying, taker, limit, s, rest.trades, rest.left);
    }
  }

  lemma TakesFirst(buying: bool, taker: nat, limit: int, s: seq<Entry>, rest: seq<Trade>, left: seq<Entry>)
    requires s != [] && Accepts(buying, limit, s[0].price) && s[0].amount > 0
    requires TakesInOrder(buying, taker, limit, s[1..], rest) && LeavesRest(s[1..], rest, left)
    ensures var trades := [Trade(s[0].arrival, taker, s[0].price, s[0].amount)] + rest;
            TakesInOrder(buying, taker, limit, s, trades) && LeavesRest(s, trades, left)
  {
    var t := s[1..];
    var trades := [Trade(s[0].arrival, taker, s[0].price, s[0].amount)] + rest;
    assert forall i :: 1 <= i < |trades| ==> trades[i] == rest[i - 1] && s[i] == t[i - 1];
    assert t[|rest|..] == s[|trades|..];
  }

  /** An order with something left over has taken every acceptable order off the book. */
  lemma {:induction false} MatchUncrosses(buying: bool, taker: nat, limit: int, amount: int, s: seq<Entry>)
    requires Sorted(!buying, s)
    ensures var o := Match(buying, taker, limit, amount, s);
            o.remaining > 0 ==>
              forall i :: 0 <= i < |o.left| ==> if buying then o.left[i].price > limit else o.left[i].price < limit
    decreases |s|
  {
    if s == [] || amount <= 0 {
    } else if !Accepts(buying, limit, s[0].price) {
      NoneAccepted(buying, limit, s);
    } else if amount >= s[0].amount {
      assert Sorted(!buying, s[1..]) by {
        assert forall i :: 0 <= i < |s| - 1 ==> s[1..][i] == s[i + 1];
      }
      MatchUncrosses(buying, taker, limit, amount - s[0].amount, s[1..]);
      var rest := Match(buying, taker, limit, amount - s[0].amount, s[1..]);
      var o := Match(buying, taker, limit, amount, s);
      assert o.left == rest.left && o.remaining == rest.remaining;
    }
  }

  lemma NoneAccepted(buying: bool, limit: int, s: seq<Entry>)
    requires Sorted(!buying, s) && s != [] && !Accepts(buying, limit, s[0].price)
    ensures forall i :: 0 <= i < |s| ==> !Accepts(buying, limit, s[i].price)
  {
    forall i | 0 <= i < |s| ensures !Accepts(buying, limit, s[i].price) {
      assert i > 0 ==> Ahead(!buying, s[0], s[i]);
    }
  }

  /** What is left is a tail of the book, in the same order, no amount raised. */
  lemma MatchKeepsOrder(buying: bool, taker: nat, limit: int, amount: int, s: seq<Entry>)
    requires Sorted(!buying, s) && Positive(s)
    ensures var left := Match(buying, taker, limit, amount, s).left;
            Sorted(!buying, left) && Positive(left) && Among(left, s)
  {
    hide Match, TakesInOrder, LeavesRest;
    MatchTakesInOrder(buying, taker, limit, amount, s);
    var o := Match(buying, taker, limit, amount, s);
    RestIsTail(buying, taker, limit, s, o.trades, o.left);
    TailKeepsOrder(!buying, s, o.left, |s| - |o.left|);
  }

  /** left is s from position k on, up to amounts. */
  ghost predicate IsTail(s: seq<Entry>, left: seq<Entry>, k: nat) {
    |left| + k == |s|
    && forall i :: 0 <= i < |left| ==>
         left[i].arrival == s[k + i].arrival && left[i].price == s[k + i].price && left[i].amount > 0
  }

  lemma RestIsTail(buying: bool, taker: nat, limit: int, s: seq<Entry>, trades: seq<Trade>, left: seq<Entry>)
    requires Positive(s) && TakesInOrder(buying, taker, limit, s, trades) && LeavesRest(s, trades, left)
    ensures |left| <= |s| && IsTail(s, left, |s| - |left|)
  {
    hide Accepts;
    var n := |trades|;
    assert forall i :: 0 <= i < |s| - n ==> s[n..][i] == s[n + i];
  }

  lemma TailKeepsOrder(bids: bool, s: seq<Entry>, left: seq<Entry>, k: nat)
    requires Sorted(bids, s) && IsTail(s, left, k)
    ensures Sorted(bids, left) && Positive(left) && Among(left, s)
  {
    forall i, j | 0 <= i < j < |left| ensures Ahead(bids, left[i], left[j]) {
      assert Ahead(bids, s[k + i], s[k + j]);
    }
    forall i | 0 <= i < |left| ensures StandsIn(left[i], s) {
      assert s[k + i].arrival == left[i].arrival;
    }
  }

  ghost predicate StandsIn(e: Entry, s: seq<Entry>) {
    exists j :: 0 <= j < |s| && s[j].arrival == e.arrival && s[j].price == e.price
  }

  /** Every entry of left comes from an entry of s with the same price and arrival. */
  ghost predicate Among(left: seq<Entry>, s: seq<Entry>) {
    forall i :: 0 <= i < |left| ==> StandsIn(left[i], s)
  }

  // ------------------------------------------------------------------ inserting what is left

  /** Behind every order of at least the same priority, in front of the first strictly worse price. */
  function Insert(bids: bool, e: Entry, s: seq<Entry>): (r: seq<Entry>)
    ensures |r| == |s| + 1
  {
    if s == [] then [e]
    else if Beats(bids, e.price, s[0].price) then [e] + s
    else [s[0]] + Insert(bids, e, s[1..])
  }

  /** e stands at position k of r, behind everything at least as good as it, with s around it. */
  ghost predicate PlacedAt(bids: bool, e: Entry, s: seq<Entry>, r: seq<Entry>, k: nat) {
    && k <= |s| && r == s[..k] + [e] + s[k..]
    && (forall i :: 0 <= i < k ==> !Beats(bids, e.price, s[i].price))
    && (k < |s| ==> Beats(bids, e.price, s[k].price))
  }

  lemma {:induction false} InsertPlaces(bids: bool, e: Entry, s: seq<Entry>) returns (k: nat)
    ensures PlacedAt(bids, e, s, Insert(bids, e, s), k)
  {
    if s == [] || Beats(bids, e.price, s[0].price) {
      k := 0;
    } else {
      var m := InsertPlaces(bids, e, s[1..]);
      k := m + 1;
      PlacedLater(bids, e, s, Insert(bids, e, s[1..]), m);
    }
  }

  lemma PlacedLater(bids: bool, e: Entry, s: seq<Entry>, r: seq<Entry>, m: nat)
    requires s != [] && PlacedAt(bids, e, s[1..], r, m) && !Beats(bids, e.price, s[0].price)
    ensures PlacedAt(bids, e, s, [s[0]] + r, m + 1)
  {
    var t := s[1..];
    assert s[..m + 1] == [s[0]] + t[..m] && s[m + 1..] == t[m..];
    assert forall i :: 1 <= i < |s| ==> s[i] == t[i - 1];
  }

  lemma InsertKeepsOrder(bids: bool, e: Entry, s: seq<Entry>)
    requires Sorted(bids, s) && forall i :: 0 <= i < |s| ==> s[i].arrival < e.arrival
    ensures Sorted(bids, Insert(bids, e, s))
  {
    var k := InsertPlaces(bids, e, s);
    var r := Insert(bids, e, s);
    forall i, j | 0 <= i < j < |r| ensures Ahead(bids, r[i], r[j]) {
      if i == k && j > k + 1 {
        assert Ahead(bids, s[k], s[j - 1]);
      }
    }
  }

  // ------------------------------------------------------------------ accounting per order

  /** What an order has traded, as maker or as taker. */
  function Filled(trades: seq<Trade>, order: nat): int {
    if trades == [] then 0
    else
      var first := if trades[0].maker == order || trades[0].taker == order then trades[0].amount else 0;
      first + Filled(trades[1..], order)
  }

  function Resting(s: seq<Entry>, order: nat): int {
    if s == [] then 0 else (if s[0].arrival == order then s[0].amount else 0) + Resting(s[1..], order)
  }

  lemma {:induction false} FilledConcat(a: seq<Trade>, b: seq<Trade>, order: nat)
    ensures Filled(a + b, order) == Filled(a, order) + Filled(b, order)
  {
    if a == [] {
      assert a + b == b;
    } else {
      FilledConcat(a[1..], b, order);
      assert (a + b)[1..] == a[1..] + b;
    }
  }

  lemma {:induction false} RestingConcat(a: seq<Entry>, b: seq<Entry>, order: nat)
    ensures Resting(a + b, order) == Resting(a, order) + Resting(b, order)
  {
    if a == [] {
      assert a + b == b;
    } else {
      RestingConcat(a[1..], b, order);
      assert (a + b)[1..] == a[1..] + b;
    }
  }

  lemma {:induction false} RestingNone(s: seq<Entry>, order: nat)
    requires forall i :: 0 <= i < |s| ==> s[i].arrival != order
    ensures Resting(s, order) == 0
  {
    if s == [] {
    } else {
      RestingNone(s[1..], order);
    }
  }

  lemma {:induction false} FilledNone(trades: seq<Trade>, order: nat)
    requires forall i :: 0 <= i < |trades| ==> trades[i].maker != order && trades[i].taker != order
    ensures Filled(trades, order) == 0
  {
    if trades == [] {
    } else {
      FilledNone(trades[1..], order);
    }
  }

  /** Matching moves quantity from the book to the trades, order by order; the taker's own share is what it lost. */
  lemma {:induction false} MatchConserves(buying: bool, taker: nat, limit: int, amount: int, s: seq<Entry>, order: nat)
    requires forall i :: 0 <= i < |s| ==> s[i].arrival != taker
    ensures var o := Match(buying, taker, limit, amount, s);
            if order == taker then Filled(o.trades, order) == amount - o.remaining
            else Filled(o.trades, order) + Resting(o.left, order) == Resting(s, order)
    decreases |s|
  {
    if s != [] && amount > 0 && Accepts(buying, limit, s[0].price) {
      if amount >= s[0].amount {
        var rest := Match(buying, taker, limit, amount - s[0].amount, s[1..]);
        MatchConserves(buying, taker, limit, amount - s[0].amount, s[1..], order);
        var first := Trade(s[0].arrival, taker, s[0].price, s[0].amount);
        assert ([first] + rest.trades)[1..] == rest.trades;
      } else {
        var only := [Trade(s[0].arrival, taker, s[0].price, amount)];
        var head := s[0].(amount := s[0].amount - amount);
        assert only[1..] == [] && ([head] + s[1..])[1..] == s[1..];
      }
    }
  }

  lemma InsertConserves(bids: bool, e: Entry, s: seq<Entry>, order: nat)
    ensures Resting(Insert(bids, e, s), order) == Resting(s, order) + if e.arrival == order then e.amount else 0
  {
    var k := InsertPlaces(bids, e, s);
    RestingConcat(s[..k] + [e], s[k..], order);
    RestingConcat(s[..k], [e], order);
    RestingConcat(s[..k], s[k..], order);
    assert s[..k] + s[k..] == s && [e][1..] == [];
  }

  // ------------------------------------------------------------------ the book over a run

  /** One token's book with the trades it has emitted and the orders submitted to it, in arrival order. */
  datatype Book = Book(bids: seq<Entry>, asks: seq<Entry>, trades: seq<Trade>, submitted: seq<Submission>)

  const EMPTY := Book([], [], [], [])

  function Opposite(b: Book, buying: bool): seq<Entry> {
    if buying then b.asks else b.bids
  }

  function Own(b: Book, buying: bool): seq<Entry> {
    if buying then b.bids else b.asks
  }

  function Process(b: Book, order: Submission): Book {
    var stamp := |b.submitted|;
    var o := Match(order.buying, stamp, order.limit, order.amount, Opposite(b, order.buying));
    var own := Own(b, order.buying);
    var rested := if o.remaining > 0 then Insert(order.buying, Entry(stamp, order.limit, o.remaining), own) else own;
    Book(if order.buying then rested else o.left, if order.buying then o.left else rested,
         b.trades + o.trades, b.submitted + [order])
  }

  /** Every resting entry is an earlier submission of its side at its own limit. */
  ghost predicate FromSubmissions(bids: bool, s: seq<Entry>, submitted: seq<Submission>) {
    forall i :: 0 <= i < |s| ==>
      s[i].arrival < |submitted| && submitted[s[i].arrival].buying == bids
      && submitted[s[i].arrival].limit == s[i].price
  }

  /** The maker came first, the two are on opposite sides, and the price is the maker's and within both limits. */
  ghost predicate FairTrade(t: Trade, submitted: seq<Submission>) {
    && t.maker < t.taker < |submitted| && t.amount > 0
    && submitted[BuyerOf(t, submitted)].buying && !submitted[SellerOf(t, submitted)].buying
    && t.price == submitted[t.maker].limit
    && submitted[SellerOf(t, submitted)].limit <= t.price <= submitted[BuyerOf(t, submitted)].limit
  }

  ghost function BuyerOf(t: Trade, submitted: seq<Submission>): nat
    requires t.taker < |submitted|
  {
    if submitted[t.taker].buying then t.taker else t.maker
  }

  ghost function SellerOf(t: Trade, submitted: seq<Submission>): nat
    requires t.taker < |submitted|
  {
    if submitted[t.taker].buying then t.maker else t.taker
  }

  ghost predicate FairTrades(trades: seq<Trade>, submitted: seq<Submission>) {
    forall i :: 0 <= i < |trades| ==> FairTrade(trades[i], submitted)
  }

  ghost predicate Uncrossed(bids: seq<Entry>, asks: seq<Entry>) {
    forall i, j :: 0 <= i < |bids| && 0 <= j < |asks| ==> bids[i].price < asks[j].price
  }

  /** What each order submitted is what it has traded plus what still rests. */
  ghost predicate Accounted(b: Book) {
    forall k :: 0 <= k < |b.submitted| ==>
      Filled(b.trades, k) + Resting(b.bids, k) + Resting(b.asks, k) == b.submitted[k].amount
  }

  ghost predicate Ordered(b: Book) {
    && Sorted(true, b.bids) && Positive(b.bids) && FromSubmissions(true, b.bids, b.submitted)
    && Sorted(false, b.asks) && Positive(b.asks) && FromSubmissions(false, b.asks, b.submitted)
  }

  ghost predicate WellFormed(b: Book) {
    Ordered(b) && Uncrossed(b.bids, b.asks) && FairTrades(b.trades, b.submitted) && Accounted(b)
  }

  lemma ProcessKeepsOrder(b: Book, order: Submission)
    requires Ordered(b) && order.amount > 0
    ensures Ordered(Process(b, order))
  {
    hide Match, Insert, Sorted, Positive, FromSubmissions, Among;
    var stamp, opposite, own := |b.submitted|, Opposite(b, order.buying), Own(b, order.buying);
    var o := Match(order.buying, stamp, order.limit, order.amount, opposite);
    MatchKeepsOrder(order.buying, stamp, order.limit, order.amount, opposite);
    AmongSubmissions(!order.buying, o.left, opposite, b.submitted, order);
    if o.remaining > 0 {
      RestedKeepsOrder(b.submitted, order, o.remaining, own);
    } else {
      AmongSubmissions(order.buying, own, own, b.submitted, order);
    }
  }

  lemma AmongSubmissions(bids: bool, left: seq<Entry>, s: seq<Entry>, submitted: seq<Submission>, order: Submission)
    requires FromSubmissions(bids, s, submitted) && (left == s || Among(left, s))
    ensures FromSubmissions(bids, left, submitted + [order])
  {
  }

  lemma RestedKeepsOrder(submitted: seq<Submission>, order: Submission, remaining: int, own: seq<Entry>)
    requires Sorted(order.buying, own) && Positive(own) && FromSubmissions(order.buying, own, submitted)
             && remaining > 0
    ensures var r := Insert(order.buying, Entry(|submitted|, order.limit, remaining), own);
            Sorted(order.buying, r) && Positive(r) && FromSubmissions(order.buying, r, submitted + [order])
  {
    hide Insert, Ahead;
    var e := Entry(|submitted|, order.limit, remaining);
    InsertKeepsOrder(order.buying, e, own);
    var k := InsertPlaces(order.buying, e, own);
  }

  lemma ProcessUncrossed(b: Book, order: Submission)
    requires Ordered(b) && Uncrossed(b.bids, b.asks)
    ensures var p := Process(b, order); Uncrossed(p.bids, p.asks)
  {
    hide Match, Insert;
    var stamp, opposite, own := |b.submitted|, Opposite(b, order.buying), Own(b, order.buying);
    var o := Match(order.buying, stamp, order.limit, order.amount, opposite);
    MatchKeepsOrder(order.buying, stamp, order.limit, order.amount, opposite);
    MatchUncrosses(order.buying, stamp, order.limit, order.amount, opposite);
    var k := InsertPlaces(order.buying, Entry(stamp, order.limit, o.remaining), own);
  }

  lemma ProcessFair(b: Book, order: Submission)
    requires Ordered(b) && FairTrades(b.trades, b.submitted)
    ensures var p := Process(b, order); FairTrades(p.trades, p.submitted)
  {
    hide Match, Insert;
    MatchTakesInOrder(order.buying, |b.submitted|, order.limit, order.amount, Opposite(b, order.buying));
  }

  lemma ProcessAccounts(b: Book, order: Submission)
    requires WellFormed(b) && order.amount > 0
    ensures Accounted(Process(b, order))
  {
    hide Match, Insert, Filled, Resting, Ahead;
    var p := Process(b, order);
    forall k | 0 <= k < |p.submitted|
      ensures Filled(p.trades, k) + Resting(p.bids, k) + Resting(p.asks, k) == p.submitted[k].amount
    {
      OrderAccounted(b, order, k);
    }
  }

  lemma OrderAccounted(b: Book, order: Submission, k: nat)
    requires Ordered(b) && FairTrades(b.trades, b.submitted) && k <= |b.submitted| && order.amount > 0
    requires k < |b.submitted| ==>
      Filled(b.trades, k) + Resting(b.bids, k) + Resting(b.asks, k) == b.submitted[k].amount
    ensures var p := Process(b, order);
            Filled(p.trades, k) + Resting(p.bids, k) + Resting(p.asks, k) == p.submitted[k].amount
  {
    hide Match, Insert, Filled, Resting, Ahead;
    var stamp, opposite, own := |b.submitted|, Opposite(b, order.buying), Own(b, order.buying);
    var o := Match(order.buying, stamp, order.limit, order.amount, opposite);
    MatchConserves(order.buying, stamp, order.limit, order.amount, opposite, k);
    MatchLeaves(order.buying, stamp, order.limit, order.amount, opposite);
    InsertConserves(order.buying, Entry(stamp, order.limit, o.remaining), own, k);
    FilledConcat(b.trades, o.trades, k);
    if k == stamp {
      FilledNone(b.trades, k);
      RestingNone(own, k);
      RestingNone(o.left, k);
    }
  }

  lemma MatchLeaves(buying: bool, taker: nat, limit: int, amount: int, s: seq<Entry>)
    requires Sorted(!buying, s) && Positive(s) && forall i :: 0 <= i < |s| ==> s[i].arrival != taker
    ensures var o := Match(buying, taker, limit, amount, s);
            (forall i :: 0 <= i < |o.left| ==> o.left[i].arrival != taker) && (amount >= 0 ==> o.remaining >= 0)
  {
    MatchKeepsOrder(buying, taker, limit, amount, s);
    if amount >= 0 {
      MatchIsMaximal(buying, taker, limit, amount, s);
      AvailableNonNegative(buying, limit, s);
    }
  }

  /** One order keeps the book sorted, positive, uncrossed, fair and accounted. */
  lemma ProcessKeepsWellFormed(b: Book, order: Submission)
    requires WellFormed(b) && order.amount > 0
    ensures WellFormed(Process(b, order))
  {
    hide Process, Accounted;
    ProcessKeepsOrder(b, order);
    ProcessUncrossed(b, order);
    ProcessFair(b, order);
    ProcessAccounts(b, order);
  }

  lemma ProcessRecords(b: Book, order: Submission)
    ensures Process(b, order).submitted == b.submitted + [order]
  {
  }

  function AfterAll(orders: seq<Submission>): Book {
    if orders == [] then EMPTY else Process(AfterAll(orders[..|orders| - 1]), orders[|orders| - 1])
  }

  /** Every run of valid orders ends in a well-formed book that has recorded exactly those orders. */
  lemma {:induction false} EveryRunWellFormed(orders: seq<Submission>)
    requires forall i :: 0 <= i < |orders| ==> orders[i].amount > 0
    ensures WellFormed(AfterAll(orders)) && AfterAll(orders).submitted == orders
  {
    if orders == [] {
    } else {
      hide Process, WellFormed;
      assert EMPTY.submitted == [];
      var n := |orders| - 1;
      EveryRunWellFormed(orders[..n]);
      ProcessKeepsWellFormed(AfterAll(orders[..n]), orders[n]);
      assert orders == orders[..n] + [orders[n]];
      ProcessRecords(AfterAll(orders[..n]), orders[n]);
    }
  }
}
