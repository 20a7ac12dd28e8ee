/** What a placed order trades and pays: a greedy walk over the resting orders of the other
    side in price then arrival order. */
module ClobGreedy {
  import opened Basics
  import opened Clob
  import opened ClobBook
  import opened ClobRuns
  import opened ClobMoney

  /** The trades alone, with no book and no balances. */
  function Greedy(makers: seq<Order>, taker: Order): seq<Trade>
    decreases |makers|
  {
    if makers == [] || Stops(taker, makers[0]) then []
    else
      [TradeOf(taker, makers[0], MinNat(taker.remaining, makers[0].remaining))]
      + Greedy(makers[1..], TakerAfter(taker, makers[0]))
  }

  /** The walk ends at one of the taker's own orders. */
  predicate MeetsOwn(makers: seq<Order>, taker: Order)
    decreases |makers|
  {
    && makers != [] && taker.remaining > 0 && (taker.orderType == Limit ==> Crosses(taker, makers[0].price))
    && (makers[0].owner == taker.owner || MeetsOwn(makers[1..], TakerAfter(taker, makers[0])))
  }

  function OrdersOf(orders: map<nat, Order>, line: seq<nat>): seq<Order>
    requires forall i :: 0 <= i < |line| ==> line[i] in orders
  {
    seq(|line|, i requires 0 <= i < |line| => orders[line[i]])
  }

  // ----- the walk is greedy -----

  ghost predicate Known(orders: map<nat, Order>, line: seq<nat>) {
    && (forall i :: 0 <= i < |line| ==> line[i] in orders && orders[line[i]].id == line[i])
    && (forall i, j :: 0 <= i < j < |line| ==> line[i] != line[j])
  }

  /** Filling the first maker leaves the later ones as they were. */
  lemma {:induction false} FillLeavesRest(b: Book, taker: Order, line: seq<nat>)
    requires line != [] && Known(b.orders, line) && Fill(b, taker, b.orders[line[0]]).Ok?
    ensures var c := Fill(b, taker, b.orders[line[0]]).value;
      Known(c.orders, line[1..]) && OrdersOf(c.orders, line[1..]) == OrdersOf(b.orders, line)[1..]
  {
    FillRewrites(b, taker, b.orders[line[0]]);
  }

  lemma {:induction false} WalkIsGreedy(b: Book, taker: Order, line: seq<nat>, trades: seq<Trade>)
    requires Known(b.orders, line) && Walk(b, taker, line, trades).Ok?
    ensures Walk(b, taker, line, trades).value.trades == trades + Greedy(OrdersOf(b.orders, line), taker)
    ensures Walk(b, taker, line, trades).value.blocked == MeetsOwn(OrdersOf(b.orders, line), taker)
    decreases |line|
  {
    if taker.remaining == 0 || line == [] || Stops(taker, b.orders[line[0]]) {
      assert trades + [] == trades;
    } else {
      var maker := b.orders[line[0]];
      var t := TradeOf(taker, maker, MinNat(taker.remaining, maker.remaining));
      var next := TakerAfter(taker, maker);
      FillLeavesRest(b, taker, line);
      WalkIsGreedy(Fill(b, taker, maker).value, next, line[1..], trades + [t]);
      Associates(trades, t, Greedy(OrdersOf(b.orders, line)[1..], next));
    }
  }

  lemma {:induction false} Associates(x: seq<Trade>, t: Trade, y: seq<Trade>)
    ensures x + [t] + y == x + ([t] + y)
  {
  }

  lemma {:induction false} PriorityLineKnown(b: Book, s: Side, line: seq<nat>)
    requires BookInv(b) && PriorityLine(b, s, line)
    ensures Known(b.orders, line)
  {
    LineDistinct(b, s, line);
    forall i | 0 <= i < |line|
      ensures line[i] in b.orders && b.orders[line[i]].id == line[i]
    {
      assert OrderOk(b, line[i], b.orders[line[i]]);
    }
  }

  lemma {:induction false} MatchingIsGreedy(b: Book, r: Request, line: seq<nat>)
    requires BookInv(b) && Matching(b, r).Ok? && PriorityLine(b, Opposite(r.side), line)
    ensures Matching(b, r).value.trades == Greedy(OrdersOf(b.orders, line), NewOrder(b, r))
    ensures Matching(b, r).value.blocked == MeetsOwn(OrdersOf(b.orders, line), NewOrder(b, r))
  {
    LineIsLadder(b, Opposite(r.side), line);
    PriorityLineKnown(b, Opposite(r.side), line);
    WalkFromScratch(Numbered(b), NewOrder(b, r), line, Matching(b, r).value);
  }

  lemma {:induction false} WalkFromScratch(b: Book, taker: Order, line: seq<nat>, m: Matched)
    requires Known(b.orders, line) && Walk(b, taker, line, []) == Ok(m)
    ensures m.trades == Greedy(OrdersOf(b.orders, line), taker)
    ensures m.blocked == MeetsOwn(OrdersOf(b.orders, line), taker)
  {
    WalkIsGreedy(b, taker, line, []);
    assert [] + Greedy(OrdersOf(b.orders, line), taker) == Greedy(OrdersOf(b.orders, line), taker);
  }

  /** The trades of a placed order are those of the greedy walk over the resting orders of the
      other side, listed by price and then arrival. */
  lemma {:induction false} PlaceOrderIsGreedy(b: Book, r: Request, line: seq<nat>)
    requires BookInv(b) && PlaceOrder(b, r).Ok? && PriorityLine(b, Opposite(r.side), line)
    ensures PlaceOrder(b, r).value.trades == Greedy(OrdersOf(b.orders, line), NewOrder(b, r))
  {
    PlaceSteps(b, r);
    MatchingIsGreedy(b, r, line);
  }

  lemma {:induction false} LineIsLadder(b: Book, s: Side, line: seq<nat>)
    requires BookInv(b) && PriorityLine(b, s, line)
    ensures line == Ladder(s, Levels(b, s))
  {
    LadderIsPriorityLine(b, s);
    PriorityLineUnique(b, s, line, Ladder(s, Levels(b, s)), 0);
  }

  // ----- what the greedy walk takes -----

  function Quantity(trades: seq<Trade>): nat {
    if trades == [] then 0 else trades[0].quantity + Quantity(trades[1..])
  }

  /** Quantity on offer before the first order the taker will not or may not meet. */
  function Reachable(makers: seq<Order>, taker: Order): nat {
    if makers == [] || (taker.orderType == Limit && !Crosses(taker, makers[0].price)) || makers[0].owner == taker.owner
    then 0
    else makers[0].remaining + Reachable(makers[1..], taker)
  }

  lemma {:induction false} ReachableSame(makers: seq<Order>, t: Order, u: Order)
    requires SameTaker(t, u)
    ensures Reachable(makers, t) == Reachable(makers, u)
  {
    if makers != [] { ReachableSame(makers[1..], t, u); }
  }

  /** It fills the smaller of what is asked and what is reachable. */
  lemma {:induction false} GreedyFills(makers: seq<Order>, taker: Order)
    ensures Quantity(Greedy(makers, taker)) == MinNat(taker.remaining, Reachable(makers, taker))
    decreases |makers|
  {
    if makers != [] && !Stops(taker, makers[0]) {
      var next := TakerAfter(taker, makers[0]);
      GreedyFills(makers[1..], next);
      ReachableSame(makers[1..], taker, next);
      var t := TradeOf(taker, makers[0], MinNat(taker.remaining, makers[0].remaining));
      assert ([t] + Greedy(makers[1..], next))[1..] == Greedy(makers[1..], next);
    }
  }

  /** Trade `i` is with maker `i`, at that maker's price, for all of it unless it is the last. */
  lemma {:induction false} GreedyTrade(makers: seq<Order>, taker: Order, i: nat)
    requires i < |Greedy(makers, taker)|
    ensures i < |makers|
    ensures var t := Greedy(makers, taker)[i];
      && t.makerId == makers[i].id && t.maker == makers[i].owner && t.price == makers[i].price
      && t.takerId == taker.id && t.taker == taker.owner && t.side == taker.side
      && t.quote == t.quantity * t.price && t.quantity <= makers[i].remaining
      && (i + 1 < |Greedy(makers, taker)| ==> t.quantity == makers[i].remaining)
      && (taker.orderType == Limit ==> if taker.side == Buy then t.price <= taker.price else t.price >= taker.price)
      && t.maker != t.taker
    decreases i
  {
    if i > 0 {
      GreedyTrade(makers[1..], TakerAfter(taker, makers[0]), i - 1);
    } else if |Greedy(makers, taker)| > 1 {
      assert TakerAfter(taker, makers[0]).remaining > 0;
    }
  }

  // ----- who pays -----

  /** What a trade does to the free balance of `u`: the maker's side comes out of its lock. */
  function Effect(t: Trade, a: Asset, u: AccountId): int {
    var paid: Asset := if t.side == Buy then Quote else Base;
    var amount: int := if a == Quote then t.quote else t.quantity;
    (if u == t.taker then (if a == paid then -amount else amount) else 0)
    + (if u == t.maker && a == paid then amount else 0)
  }

  function Effects(trades: seq<Trade>, a: Asset, u: AccountId): int
    decreases |trades|
  {
    if trades == [] then 0
    else Effects(trades[..|trades| - 1], a, u) + Effect(trades[|trades| - 1], a, u)
  }

  lemma {:induction false} SettleEffect(free: Balances, taker: Order, maker: Order, q: nat, quote: nat, a: Asset,
                                        u: AccountId)
    requires SettleFill(free, taker, maker, q, quote).Ok? && quote == q * maker.price
    ensures Get(SettleFill(free, taker, maker, q, quote).value, a, u)
         == Get(free, a, u) + Effect(TradeOf(taker, maker, q), a, u)
  {
  }

  lemma {:induction false} WalkPays(b: Book, taker: Order, line: seq<nat>, trades: seq<Trade>, a: Asset, u: AccountId)
    requires Walk(b, taker, line, trades).Ok?
    ensures var m := Walk(b, taker, line, trades).value;
      Get(m.book.free, a, u) - Effects(m.trades, a, u) == Get(b.free, a, u) - Effects(trades, a, u)
    decreases |line|
  {
    if taker.remaining != 0 && line != [] && !Stops(taker, b.orders[line[0]]) {
      var maker := b.orders[line[0]];
      var q := MinNat(taker.remaining, maker.remaining);
      var t := TradeOf(taker, maker, q);
      FillFree(b, taker, maker, q, q * maker.price, Fill(b, taker, maker).value);
      SettleEffect(b.free, taker, maker, q, q * maker.price, a, u);
      assert (trades + [t])[..|trades|] == trades;
      WalkPays(Fill(b, taker, maker).value, TakerAfter(taker, maker), line[1..], trades + [t], a, u);
    }
  }

  /** After a placed order every free balance has moved by the trades, and the owner's also by
      what the resting remainder locks: nothing else is paid by or to anyone. */
  lemma {:induction false} PlaceOrderPays(b: Book, r: Request, a: Asset, u: AccountId)
    requires BookInv(b) && PlaceOrder(b, r).Ok?
    ensures var p := PlaceOrder(b, r).value;
      && p.id in p.book.orders
      && Get(p.book.free, a, u) == Get(b.free, a, u) + Effects(p.trades, a, u)
                                   - (if u == r.owner then Locked(p.book.orders[p.id], a) else 0)
  {
    PlaceSteps(b, r);
    MatchingKeeps(b, r);
    WalkPays(Numbered(b), NewOrder(b, r), Ladder(Opposite(r.side), Levels(b, Opposite(r.side))), [], a, u);
    FinishPays(Matching(b, r).value, r.tif, a, u);
  }

  lemma {:induction false} FinishPays(m: Matched, tif: TimeInForce, a: Asset, u: AccountId)
    requires Finish(m, tif).Ok?
    ensures var p := Finish(m, tif).value;
      && p.trades == m.trades && p.id == m.taker.id && p.id in p.book.orders
      && Get(p.book.free, a, u) == Get(m.book.free, a, u)
         - (if u == m.taker.owner then Locked(p.book.orders[p.id], a) else 0)
  {
  }

  lemma {:induction false} QuantityAppend(trades: seq<Trade>, t: Trade)
    ensures Quantity(trades + [t]) == Quantity(trades) + t.quantity
  {
    if trades != [] {
      assert (trades + [t])[1..] == trades[1..] + [t];
      QuantityAppend(trades[1..], t);
    }
  }

  lemma {:induction false} WalkRemainder(b: Book, taker: Order, line: seq<nat>, trades: seq<Trade>)
    requires Walk(b, taker, line, trades).Ok?
    ensures var m := Walk(b, taker, line, trades).value;
      m.taker.remaining + Quantity(m.trades) == taker.remaining + Quantity(trades)
    decreases |line|
  {
    if taker.remaining != 0 && line != [] && !Stops(taker, b.orders[line[0]]) {
      var maker := b.orders[line[0]];
      var t := TradeOf(taker, maker, MinNat(taker.remaining, maker.remaining));
      QuantityAppend(trades, t);
      WalkRemainder(Fill(b, taker, maker).value, TakerAfter(taker, maker), line[1..], trades + [t]);
    }
  }

  /** The order itself: a good-til-cancelled limit order that did not meet its owner's own
      order keeps what was not traded; any other keeps nothing. */
  lemma {:induction false} PlaceOrderRests(b: Book, r: Request, line: seq<nat>)
    requires BookInv(b) && PlaceOrder(b, r).Ok? && PriorityLine(b, Opposite(r.side), line)
    ensures var p := PlaceOrder(b, r).value;
      && p.id !in b.orders && p.id in p.book.orders && Quantity(p.trades) <= r.quantity
      && var o := p.book.orders[p.id];
        && o.owner == r.owner && o.side == r.side && o.price == r.price && o.quantity == r.quantity
        && o.remaining == if r.orderType == Limit && r.tif == GoodTilCancelled
                             && !MeetsOwn(OrdersOf(b.orders, line), NewOrder(b, r))
                          then r.quantity - Quantity(p.trades) else 0
  {
    PlaceSteps(b, r);
    MatchingKeeps(b, r);
    MatchingIsGreedy(b, r, line);
    WalkRemainder(Numbered(b), NewOrder(b, r), Ladder(Opposite(r.side), Levels(b, Opposite(r.side))), []);
    FinishRests(Matching(b, r).value, r.tif);
    NumberedKeeps(b, r);
  }

  lemma {:induction false} FinishRests(m: Matched, tif: TimeInForce)
    requires Finish(m, tif).Ok?
    ensures var p := Finish(m, tif).value;
      && p.trades == m.trades && p.id == m.taker.id && p.id in p.book.orders
      && var o := p.book.orders[p.id];
        && o == m.taker.(remaining := o.remaining, status := o.status)
        && o.remaining ==
           if m.taker.orderType == Limit && tif == GoodTilCancelled && !m.blocked then m.taker.remaining else 0
  {
  }
}
