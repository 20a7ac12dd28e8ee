/** The limit of an order in plain prices, what stays untraded and why, and when an order or a
    deposit is taken at all. */
module ClobLimits {
  import opened Basics
  import opened Clob
  import opened ClobBook
  import opened ClobRuns
  import opened ClobGreedy

  /** Every trade of a limit order is at its limit or better for the owner. */
  lemma {:induction false} TradesWithinLimit(b: Book, r: Request, i: nat)
    requires BookInv(b) && PlaceOrder(b, r).Ok? && r.orderType == Limit && i < |PlaceOrder(b, r).value.trades|
    ensures r.side == Buy ==> PlaceOrder(b, r).value.trades[i].price <= r.price
    ensures r.side == Sell ==> PlaceOrder(b, r).value.trades[i].price >= r.price
  {
    var line := Ladder(Opposite(r.side), Levels(b, Opposite(r.side)));
    LadderIsPriorityLine(b, Opposite(r.side));
    PlaceOrderIsGreedy(b, r, line);
    GreedyTrade(OrdersOf(b.orders, line), NewOrder(b, r), i);
  }

  /** The first order a taker on side `s` would meet belongs to `u`. */
  ghost predicate FrontIs(b: Book, s: Side, u: AccountId) {
    var levels := Levels(b, Opposite(s));
    && levels != map[]
    && var q := levels[Best(Opposite(s), levels.Keys)];
      q != [] && q[0] in b.orders && b.orders[q[0]].owner == u
  }

  /** Nothing on the other side is within the limit; a market order has none. */
  ghost predicate NothingWithin(b: Book, s: Side, orderType: OrderType, limit: nat) {
    forall p :: p in Levels(b, Opposite(s)) ==>
      orderType == Limit && if s == Buy then p > limit else p < limit
  }

  /** A walk that leaves a remainder stopped before the taker's own order, or took all it may. */
  lemma {:induction false} WalkEnds(b: Book, taker: Order, line: seq<nat>, trades: seq<Trade>)
    requires BookInv(b) && Newest(b, taker)
    requires taker.remaining > 0 ==> line == Ladder(Opposite(taker.side), Levels(b, Opposite(taker.side)))
    requires Walk(b, taker, line, trades).Ok?
    ensures var m := Walk(b, taker, line, trades).value;
      && (m.blocked ==> FrontIs(m.book, taker.side, taker.owner))
      && (m.taker.remaining > 0 && !m.blocked ==> NothingWithin(m.book, taker.side, taker.orderType, taker.price))
    decreases |line|
  {
    var s := Opposite(taker.side);
    LadderFront(b.orders, s, Levels(b, s));
    if taker.remaining > 0 && line != [] {
      var maker := b.orders[line[0]];
      assert OrderOk(b, line[0], maker);
      if !(taker.orderType == Limit && !Crosses(taker, maker.price)) && maker.owner != taker.owner {
        FillKeeps(b, taker, maker);
        if TakerAfter(taker, maker).remaining > 0 { FillAdvances(b, taker, maker); }
        FillFrame(b, taker, maker);
        WalkEnds(Fill(b, taker, maker).value, TakerAfter(taker, maker), line[1..],
                 trades + [TradeOf(taker, maker, MinNat(taker.remaining, maker.remaining))]);
      }
    }
  }

  /** Finishing an order leaves the other side alone. */
  lemma {:induction false} FinishOtherSide(m: Matched, tif: TimeInForce)
    requires Finish(m, tif).Ok? && m.taker.id !in m.book.orders
    ensures var p := Finish(m, tif).value;
      && Levels(p.book, Opposite(m.taker.side)) == Levels(m.book, Opposite(m.taker.side))
      && forall id :: id in m.book.orders ==> id in p.book.orders && p.book.orders[id] == m.book.orders[id]
  {
  }

  /** An order that is not traded in full has nothing within its limit left to trade with, unless
      the next order in line is its owner's own. */
  lemma {:induction false} UntradedIsBeyondLimit(b: Book, r: Request)
    requires BookInv(b) && PlaceOrder(b, r).Ok? && Quantity(PlaceOrder(b, r).value.trades) < r.quantity
    ensures var c := PlaceOrder(b, r).value.book;
      FrontIs(c, r.side, r.owner) || NothingWithin(c, r.side, r.orderType, r.price)
  {
    var line := Ladder(Opposite(r.side), Levels(b, Opposite(r.side)));
    PlaceSteps(b, r);
    NumberedKeeps(b, r);
    MatchingKeeps(b, r);
    WalkRemainder(Numbered(b), NewOrder(b, r), line, []);
    WalkEnds(Numbered(b), NewOrder(b, r), line, []);
    FinishOtherSide(Matching(b, r).value, r.tif);
    FinishRests(Matching(b, r).value, r.tif);
  }

  // ----- which orders are taken -----

  /** A market that is open, and an order of whole lots at a positive price on the grid. */
  predicate WellPlaced(b: Book, r: Request) {
    && b.market.Some? && b.market.value.active
    && b.market.value.tickSize > 0 && b.market.value.lotSize > 0
    && r.quantity > 0 && r.quantity % b.market.value.lotSize == 0
    && (r.orderType == Limit ==> r.price > 0 && r.price % b.market.value.tickSize == 0)
    && b.nextOrderId < U64_MAX && b.nextSequence < U64_MAX
  }

  lemma {:induction false} OnlyWellPlaced(b: Book, r: Request)
    requires PlaceOrder(b, r).Ok?
    ensures WellPlaced(b, r)
  {
  }

  /** What an order must lock to rest: its price times its quantity in quote for a buy, its
      quantity in base for a sell. */
  predicate CanLock(b: Book, r: Request) {
    if r.side == Buy then r.quantity * r.price <= U64_MAX && Get(b.free, Quote, r.owner) >= r.quantity * r.price
    else Get(b.free, Base, r.owner) >= r.quantity
  }

  lemma {:induction false} NothingToTrade(b: Book, r: Request)
    requires BookInv(b) && NothingWithin(b, r.side, r.orderType, r.price)
    ensures Matching(b, r) == Ok(Matched(Numbered(b), NewOrder(b, r), [], false))
  {
    var s := Opposite(r.side);
    var line := Ladder(s, Levels(b, s));
    LadderFront(b.orders, s, Levels(b, s));
  }

  /** A good-til-cancelled limit order that nothing is within the limit of is taken exactly when it
      is well placed and its owner can lock its funds; it then rests whole. */
  lemma {:induction false} RestsExactly(b: Book, r: Request)
    requires BookInv(b) && r.orderType == Limit && r.tif == GoodTilCancelled
    requires NothingWithin(b, r.side, Limit, r.price)
    ensures PlaceOrder(b, r).Ok? <==> WellPlaced(b, r) && CanLock(b, r)
    ensures PlaceOrder(b, r).Ok? ==>
      var p := PlaceOrder(b, r).value;
      && p.trades == [] && p.id in p.book.orders && p.book.orders[p.id].remaining == r.quantity
      && p.book.orders[p.id].status == Open
  {
    NothingToTrade(b, r);
    NothingTraded(b, r);
  }

  lemma {:induction false} NothingTraded(b: Book, r: Request)
    requires r.orderType == Limit && r.tif == GoodTilCancelled
    requires Matching(b, r) == Ok(Matched(Numbered(b), NewOrder(b, r), [], false))
    ensures PlaceOrder(b, r).Ok? <==> WellPlaced(b, r) && CanLock(b, r)
    ensures PlaceOrder(b, r).Ok? ==>
      var p := PlaceOrder(b, r).value;
      && p.trades == [] && p.id in p.book.orders && p.book.orders[p.id].remaining == r.quantity
      && p.book.orders[p.id].status == Open
  {
    assert WellPlaced(b, r) ==> PlaceOrder(b, r) == Finish(Matched(Numbered(b), NewOrder(b, r), [], false), r.tif);
  }

  /** A market order that finds nothing, and an order that meets its owner's own order first, is
      refused. */
  lemma {:induction false} RefusedOutright(b: Book, r: Request)
    requires BookInv(b) && WellPlaced(b, r)
    ensures r.orderType == MarketOrder && NothingWithin(b, r.side, MarketOrder, 0) ==>
      PlaceOrder(b, r) == Err(NoLiquidity)
    ensures FrontIs(b, r.side, r.owner) && !NothingWithin(b, r.side, r.orderType, r.price) ==>
      PlaceOrder(b, r) == Err(SelfTrade)
  {
    var s := Opposite(r.side);
    LadderFront(b.orders, s, Levels(b, s));
    if r.orderType == MarketOrder && NothingWithin(b, r.side, MarketOrder, 0) { NothingToTrade(b, r); }
    if FrontIs(b, r.side, r.owner) && !NothingWithin(b, r.side, r.orderType, r.price) { OwnFirst(b, r); }
  }

  lemma {:induction false} OwnFirst(b: Book, r: Request)
    requires BookInv(b) && r.quantity > 0
    requires FrontIs(b, r.side, r.owner) && !NothingWithin(b, r.side, r.orderType, r.price)
    ensures Matching(b, r) == Ok(Matched(Numbered(b), NewOrder(b, r), [], true))
  {
    var s := Opposite(r.side);
    LadderFront(b.orders, s, Levels(b, s));
  }

  /** What an order's record says afterwards: filled, partly filled, resting or cancelled. */
  lemma {:induction false} StatusTells(b: Book, r: Request)
    requires BookInv(b) && PlaceOrder(b, r).Ok?
    ensures var p := PlaceOrder(b, r).value;
      && p.id in p.book.orders
      && p.book.orders[p.id].status ==
         if Quantity(p.trades) == r.quantity then Filled
         else if p.trades != [] then PartiallyFilled
         else if p.book.orders[p.id].remaining > 0 then Open
         else Cancelled
  {
    var line := Ladder(Opposite(r.side), Levels(b, Opposite(r.side)));
    PlaceSteps(b, r);
    MatchingKeeps(b, r);
    LadderIsPriorityLine(b, Opposite(r.side));
    MatchingIsGreedy(b, r, line);
    GreedyTakesSome(OrdersOf(b.orders, line), NewOrder(b, r));
    WalkRemainder(Numbered(b), NewOrder(b, r), line, []);
    FinishStatus(Matching(b, r).value, r.tif, r.quantity);
  }

  /** A trade is never of nothing. */
  lemma {:induction false} GreedyTakesSome(makers: seq<Order>, taker: Order)
    requires forall i :: 0 <= i < |makers| ==> makers[i].remaining > 0
    ensures Quantity(Greedy(makers, taker)) > 0 <==> Greedy(makers, taker) != []
  {
  }

  lemma {:induction false} FinishStatus(m: Matched, tif: TimeInForce, quantity: nat)
    requires Finish(m, tif).Ok? && m.taker.quantity == quantity && m.taker.remaining + Quantity(m.trades) == quantity
    requires Quantity(m.trades) > 0 <==> m.trades != []
    ensures var p := Finish(m, tif).value;
      && p.id in p.book.orders
      && p.book.orders[p.id].status ==
         if Quantity(p.trades) == quantity then Filled
         else if p.trades != [] then PartiallyFilled
         else if p.book.orders[p.id].remaining > 0 then Open
         else Cancelled
  {
  }

  // ----- the makers -----

  /** What the trades take from one maker. */
  function Taken(trades: seq<Trade>, id: nat): nat {
    if trades == [] then 0
    else
      var t := trades[|trades| - 1];
      Taken(trades[..|trades| - 1], id) + if t.makerId == id then t.quantity else 0
  }

  /** An order of which `n` was taken. */
  function After(o: Order, n: nat): Order {
    if n == 0 then o
    else if n < o.remaining then o.(remaining := o.remaining - n, status := PartiallyFilled)
    else o.(remaining := 0, status := Filled)
  }

  lemma {:induction false} TakenNext(trades: seq<Trade>, t: Trade, id: nat)
    ensures Taken(trades + [t], id) == Taken(trades, id) + if t.makerId == id then t.quantity else 0
  {
    assert (trades + [t])[..|trades|] == trades;
  }

  /** The walk goes on with the next maker once the first is filled. */
  lemma {:induction false} WalkTurn(b: Book, taker: Order, line: seq<nat>, trades: seq<Trade>)
    returns (c: Book, next: Order, t: Trade)
    requires Walk(b, taker, line, trades).Ok? && taker.remaining > 0 && line != [] && line[0] in b.orders
    requires !Stops(taker, b.orders[line[0]])
    ensures var maker := b.orders[line[0]];
      && Fill(b, taker, maker) == Ok(c) && t.makerId == maker.id
      && t.quantity == MinNat(taker.remaining, maker.remaining)
    ensures Walk(b, taker, line, trades) == Walk(c, next, line[1..], trades + [t])
  {
    var maker := b.orders[line[0]];
    c, next := Fill(b, taker, maker).value, TakerAfter(taker, maker);
    t := TradeOf(taker, maker, MinNat(taker.remaining, maker.remaining));
  }

  lemma {:induction false} WalkStops(b: Book, taker: Order, line: seq<nat>, trades: seq<Trade>, m: Matched)
    requires Walk(b, taker, line, trades) == Ok(m)
    requires taker.remaining == 0 || line == [] || (line[0] in b.orders && Stops(taker, b.orders[line[0]]))
    ensures m.book == b && m.trades == trades
  {
  }

  /** What a walk from `b` and `trades` to `m` took from one order. */
  ghost predicate Takes(b: Book, trades: seq<Trade>, m: Matched, id: nat) {
    && id in b.orders && id in m.book.orders && Taken(trades, id) <= Taken(m.trades, id)
    && m.book.orders[id] == After(b.orders[id], Taken(m.trades, id) - Taken(trades, id))
  }

  lemma {:induction false} WalkTakes(b: Book, taker: Order, line: seq<nat>, trades: seq<Trade>, id: nat, m: Matched)
    requires Known(b.orders, line) && Walk(b, taker, line, trades) == Ok(m) && id in b.orders
    requires forall i :: 0 <= i < |line| ==> b.orders[line[i]].remaining > 0
    ensures Takes(b, trades, m, id) && (id !in line ==> Taken(m.trades, id) == Taken(trades, id))
    decreases |line|
  {
    if taker.remaining == 0 || line == [] || Stops(taker, b.orders[line[0]]) {
      WalkStops(b, taker, line, trades, m);
    } else {
      var c, next, t := WalkTurn(b, taker, line, trades);
      FillTakes(b, taker, line, id, c);
      WalkTakes(c, next, line[1..], trades + [t], id, m);
      TakenNext(trades, t, id);
      assert line[0] !in line[1..];
    }
  }

  lemma {:induction false} FillTakes(b: Book, taker: Order, line: seq<nat>, id: nat, c: Book)
    requires line != [] && Known(b.orders, line) && Fill(b, taker, b.orders[line[0]]) == Ok(c)
    requires taker.remaining > 0 && id in b.orders
    requires forall i :: 0 <= i < |line| ==> b.orders[line[i]].remaining > 0
    ensures Known(c.orders, line[1..])
    ensures forall i :: 0 <= i < |line[1..]| ==> c.orders[line[1..][i]].remaining > 0
    ensures var maker := b.orders[line[0]];
      id in c.orders && c.orders[id] ==
        After(b.orders[id], if id == line[0] then MinNat(taker.remaining, maker.remaining) else 0)
  {
    FillRewrites(b, taker, b.orders[line[0]]);
  }

  /** Every order that was there has given what the trades took from it, and says so. */
  lemma {:induction false} MakersAfter(b: Book, r: Request, id: nat)
    requires BookInv(b) && PlaceOrder(b, r).Ok? && id in b.orders
    ensures var p := PlaceOrder(b, r).value;
      id in p.book.orders && p.book.orders[id] == After(b.orders[id], Taken(p.trades, id))
  {
    PlaceSteps(b, r);
    MatchingTakes(b, r, id, Matching(b, r).value);
    FinishMakers(Matching(b, r).value, r.tif, id);
  }

  lemma {:induction false} MatchingTakes(b: Book, r: Request, id: nat, m: Matched)
    requires BookInv(b) && Matching(b, r) == Ok(m) && id in b.orders
    ensures id in m.book.orders && m.book.orders[id] == After(b.orders[id], Taken(m.trades, id)) && id != m.taker.id
  {
    var line := Ladder(Opposite(r.side), Levels(b, Opposite(r.side)));
    LineGives(b, Opposite(r.side), line);
    WalkTakes(Numbered(b), NewOrder(b, r), line, [], id, m);
    MatchingKeeps(b, r);
  }

  lemma {:induction false} LineGives(b: Book, s: Side, line: seq<nat>)
    requires BookInv(b) && line == Ladder(s, Levels(b, s))
    ensures Known(b.orders, line) && forall i :: 0 <= i < |line| ==> b.orders[line[i]].remaining > 0
  {
    LadderIsPriorityLine(b, s);
    PriorityLineKnown(b, s, line);
  }

  lemma {:induction false} FinishMakers(m: Matched, tif: TimeInForce, id: nat)
    requires Finish(m, tif).Ok? && id in m.book.orders && id != m.taker.id
    ensures Finish(m, tif).value.book.orders[id] == m.book.orders[id]
    ensures Finish(m, tif).value.trades == m.trades
  {
  }

  /** The new order takes the next number and place in time, counted from one. */
  lemma {:induction false} NumbersFollow(b: Book, r: Request)
    requires PlaceOrder(b, r).Ok?
    ensures var p := PlaceOrder(b, r).value;
      && p.id == (if b.nextOrderId == 0 then 1 else b.nextOrderId) && p.book.nextOrderId == p.id + 1
      && p.id in p.book.orders && p.book.orders[p.id].id == p.id && p.book.orders[p.id].owner == r.owner
      && p.book.orders[p.id].sequence == (if b.nextSequence == 0 then 1 else b.nextSequence)
      && p.book.nextSequence == p.book.orders[p.id].sequence + 1
  {
    PlaceSteps(b, r);
    var line := Ladder(Opposite(r.side), Levels(b, Opposite(r.side)));
    WalkCounters(Numbered(b), NewOrder(b, r), line, [], Matching(b, r).value);
    FinishNumbers(Matching(b, r).value, r.tif);
  }

  lemma {:induction false} FinishNumbers(m: Matched, tif: TimeInForce)
    requires Finish(m, tif).Ok?
    ensures var p := Finish(m, tif).value;
      && p.id == m.taker.id && p.id in p.book.orders && p.book.orders[p.id].id == p.id
      && p.book.orders[p.id].owner == m.taker.owner && p.book.orders[p.id].sequence == m.taker.sequence
      && p.book.nextOrderId == m.book.nextOrderId && p.book.nextSequence == m.book.nextSequence
  {
  }

  lemma {:induction false} WalkCounters(b: Book, taker: Order, line: seq<nat>, trades: seq<Trade>, m: Matched)
    requires Walk(b, taker, line, trades) == Ok(m)
    ensures m.book.nextOrderId == b.nextOrderId && m.book.nextSequence == b.nextSequence && SameTaker(taker, m.taker)
    decreases |line|
  {
    if !(taker.remaining == 0 || line == [] || Stops(taker, b.orders[line[0]])) {
      var maker := b.orders[line[0]];
      FillRewrites(b, taker, maker);
      WalkCounters(Fill(b, taker, maker).value, TakerAfter(taker, maker), line[1..],
                   trades + [TradeOf(taker, maker, MinNat(taker.remaining, maker.remaining))], m);
    }
  }

  // ----- deposits -----

  /** A deposit is taken exactly when the market is open, the asset is one of its two, and the
      tokens are there and fit. */
  lemma {:induction false} DepositExactly(b: Book, user: AccountId, asset: nat, amount: nat)
    ensures Deposit(b, user, asset, amount).Ok? <==>
      && amount > 0 && b.market.Some? && b.market.value.active && asset <= 1
      && var a := if asset == 0 then Base else Quote;
        && Get(b.ledger, a, user) >= amount && Get(b.free, a, user) + amount <= U64_MAX
        && (user != b.market.value.custodian ==> Get(b.ledger, a, b.market.value.custodian) + amount <= U64_MAX)
  {
  }
}
