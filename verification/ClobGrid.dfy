/** Prices stay on the tick grid and quantities on the lot grid. */
module ClobGrid {
  import opened Basics
  import opened Arithmetic
  import opened Clob
  import opened ClobBook
  import opened ClobRuns
  import opened ClobCustody

  lemma {:induction false} DiffMultiple(a: nat, b: nat, n: nat)
    requires n > 0 && b <= a && a % n == 0 && b % n == 0
    ensures (a - b) % n == 0
  {
    var p, q := a / n, b / n;
    assert a == p * n && b == q * n;
    MulCancel(q, p, n);
    assert n * (p - q) == p * n - q * n;
    ModIs(a - b, n, p - q, 0);
  }

  predicate LotOk(m: Market, quantity: nat) {
    m.lotSize > 0 && quantity % m.lotSize == 0
  }

  /** A remainder is whole lots, and what has one stands at a positive price on the grid. */
  predicate OnGrid(m: Market, o: Order) {
    && LotOk(m, o.remaining)
    && (o.remaining > 0 ==> m.tickSize > 0 && o.price > 0 && o.price % m.tickSize == 0)
  }

  ghost predicate AllOnGrid(m: Market, orders: map<nat, Order>) {
    forall id :: id in orders ==> OnGrid(m, orders[id])
  }

  /** Whole lots on both sides make whole lots traded and left. */
  lemma {:induction false} FillOnGrid(m: Market, taker: Order, maker: Order)
    requires LotOk(m, taker.remaining) && LotOk(m, maker.remaining)
    ensures var q := MinNat(taker.remaining, maker.remaining);
      LotOk(m, q) && LotOk(m, taker.remaining - q) && LotOk(m, maker.remaining - q)
  {
    var q := MinNat(taker.remaining, maker.remaining);
    DiffMultiple(taker.remaining, q, m.lotSize);
    DiffMultiple(maker.remaining, q, m.lotSize);
  }

  /** Every trade is of whole lots at a price on the grid. */
  ghost predicate TradesOnGrid(m: Market, trades: seq<Trade>) {
    forall i :: 0 <= i < |trades| ==>
      LotOk(m, trades[i].quantity) && m.tickSize > 0 && trades[i].price > 0 && trades[i].price % m.tickSize == 0
  }

  lemma {:induction false} WalkOnGrid(m: Market, b: Book, taker: Order, line: seq<nat>, trades: seq<Trade>)
    requires AllOnGrid(m, b.orders) && LotOk(m, taker.remaining) && TradesOnGrid(m, trades)
    requires Walk(b, taker, line, trades).Ok?
    requires forall i :: 0 <= i < |line| ==>
      line[i] in b.orders && b.orders[line[i]].id == line[i] && b.orders[line[i]].remaining > 0
    requires forall i, j :: 0 <= i < j < |line| ==> line[i] != line[j]
    ensures var r := Walk(b, taker, line, trades).value;
      AllOnGrid(m, r.book.orders) && LotOk(m, r.taker.remaining) && TradesOnGrid(m, r.trades)
    decreases |line|
  {
    if taker.remaining != 0 && line != [] && !Stops(taker, b.orders[line[0]]) {
      var maker := b.orders[line[0]];
      assert OnGrid(m, maker);
      FillOnGrid(m, taker, maker);
      FillRewrites(b, taker, maker);
      WalkOnGrid(m, Fill(b, taker, maker).value, TakerAfter(taker, maker), line[1..],
                 trades + [TradeOf(taker, maker, MinNat(taker.remaining, maker.remaining))]);
    }
  }

  lemma {:induction false} MatchingOnGrid(m: Market, b: Book, r: Request)
    requires BookInv(b) && b.market == Some(m) && AllOnGrid(m, b.orders) && LotOk(m, r.quantity) && Matching(b, r).Ok?
    ensures AllOnGrid(m, Matching(b, r).value.book.orders) && LotOk(m, Matching(b, r).value.taker.remaining)
    ensures TradesOnGrid(m, Matching(b, r).value.trades)
  {
    var s := Opposite(r.side);
    var line := Ladder(s, Levels(b, s));
    LadderIsPriorityLine(b, s);
    LineDistinct(b, s, line);
    forall i | 0 <= i < |line|
      ensures b.orders[line[i]].id == line[i]
    {
      assert OrderOk(b, line[i], b.orders[line[i]]);
    }
    WalkOnGrid(m, Numbered(b), NewOrder(b, r), line, []);
  }

  /** Placing an order keeps every remainder on the grid, and trades only on it. */
  lemma {:induction false} PlaceOrderOnGrid(m: Market, b: Book, r: Request)
    requires BookInv(b) && b.market == Some(m) && AllOnGrid(m, b.orders) && PlaceOrder(b, r).Ok?
    ensures AllOnGrid(m, PlaceOrder(b, r).value.book.orders) && TradesOnGrid(m, PlaceOrder(b, r).value.trades)
  {
    PlaceSteps(b, r);
    ValidRequest(m, b, r);
    MatchingOnGrid(m, b, r);
    MatchingKeeps(b, r);
    FinishOnGrid(m, Matching(b, r).value, r.tif);
  }

  lemma {:induction false} ValidRequest(m: Market, b: Book, r: Request)
    requires b.market == Some(m) && PlaceOrder(b, r).Ok?
    ensures LotOk(m, r.quantity) && r.quantity > 0 && m.tickSize > 0
    ensures r.orderType == Limit ==> r.price > 0 && r.price % m.tickSize == 0
  {
  }

  lemma {:induction false} FinishOnGrid(m: Market, d: Matched, tif: TimeInForce)
    requires AllOnGrid(m, d.book.orders) && LotOk(m, d.taker.remaining) && m.tickSize > 0 && Finish(d, tif).Ok?
    requires d.taker.orderType == Limit ==> d.taker.price > 0 && d.taker.price % m.tickSize == 0
    ensures AllOnGrid(m, Finish(d, tif).value.book.orders) && Finish(d, tif).value.trades == d.trades
  {
    assert 0 % m.lotSize == 0;
  }

  lemma {:induction false} ApplyOnGrid(m: Market, b: Book, op: Op)
    requires BookInv(b) && b.market == Some(m) && AllOnGrid(m, b.orders)
    ensures AllOnGrid(m, Apply(b, op).orders) && Apply(b, op).market == Some(m)
  {
    ApplyMoney(b, op, Base);
    match op
    case PlaceOp(r) => if PlaceOrder(b, r).Ok? { PlaceOrderOnGrid(m, b, r); }
    case CancelOp(u, id) =>
      if CancelOrder(b, u, id).Ok? {
        assert OnGrid(m, b.orders[id]);
        assert 0 % m.lotSize == 0;
      }
    case _ =>
  }

  /** After every run each resting order has whole lots at a positive price on the tick grid. */
  lemma {:induction false} RunOnGrid(m: Market, b: Book, ops: seq<Op>)
    requires BookInv(b) && b.market == Some(m) && AllOnGrid(m, b.orders)
    ensures AllOnGrid(m, Run(b, ops).orders)
    decreases |ops|
  {
    if ops != [] {
      ApplyKeeps(b, ops[0]);
      ApplyOnGrid(m, b, ops[0]);
      RunOnGrid(m, Apply(b, ops[0]), ops[1..]);
    }
  }
}
