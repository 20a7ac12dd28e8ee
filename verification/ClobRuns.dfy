/** Every operation keeps the order book well formed and uncrossed. */
module ClobRuns {
  import opened Basics
  import opened Clob
  import opened ClobBook

  /** Everything but the collateral and the outer ledger is the same. */
  predicate SameOrders(b: Book, c: Book) {
    b.orders == c.orders && b.bids == c.bids && b.asks == c.asks
    && b.nextOrderId == c.nextOrderId && b.nextSequence == c.nextSequence
  }

  lemma {:induction false} SameOrdersKeeps(b: Book, c: Book)
    requires SameOrders(b, c) && BookInv(b)
    ensures BookInv(c)
  {
    forall id | id in c.orders
      ensures OrderOk(c, id, c.orders[id])
    {
      assert OrderOk(b, id, b.orders[id]);
    }
  }

  // ----- the front of the line -----

  lemma {:induction false} LadderFront(orders: map<nat, Order>, s: Side, levels: map<nat, seq<nat>>)
    requires LevelsOk(orders, s, levels)
    ensures Ladder(s, levels) == [] <==> levels == map[]
    ensures levels != map[] ==>
      var p := Best(s, levels.Keys);
      levels[p] != [] && Ladder(s, levels)[0] == levels[p][0] && AtLevel(orders, s, p, levels[p][0])
  {
    if levels != map[] {
      assert QueueOk(orders, s, Best(s, levels.Keys), levels[Best(s, levels.Keys)]);
    }
  }

  /** Taking the front order out of its queue leaves the rest of the line as it was. */
  lemma {:induction false} LadderAdvance(orders: map<nat, Order>, s: Side, levels: map<nat, seq<nat>>)
    requires LevelsOk(orders, s, levels) && levels != map[]
    ensures var p := Best(s, levels.Keys);
      levels[p] != [] && Ladder(s, levels) != []
      && Ladder(s, Dequeued(levels, p, levels[p][0])) == Ladder(s, levels)[1..]
  {
    var p := Best(s, levels.Keys);
    var q := levels[p];
    assert QueueOk(orders, s, p, q);
    WithoutHead(q, q[0]);
    var rest := Ladder(s, levels - {p});
    assert (q + rest)[1..] == q[1..] + rest;
    if |q| > 1 {
      var next := levels[p := q[1..]];
      assert next.Keys == levels.Keys;
      assert next - {p} == levels - {p};
    } else {
      assert q[1..] + rest == rest;
    }
  }

  // ----- one fill -----

  /** The maker is the front of the line against the taker. */
  ghost predicate AtFront(b: Book, taker: Order, maker: Order) {
    var s := Opposite(taker.side);
    var levels := Levels(b, s);
    && levels != map[] && maker.price == Best(s, levels.Keys)
    && levels[maker.price] != [] && levels[maker.price][0] == maker.id
    && AtLevel(b.orders, s, maker.price, maker.id) && b.orders[maker.id] == maker
  }

  /** A maker that keeps a remainder keeps its place. */
  lemma {:induction false} PartialFillKeeps(b: Book, maker: Order, quantity: nat)
    requires BookInv(b) && maker.id in b.orders && b.orders[maker.id] == maker
    requires 0 < quantity < maker.remaining
    ensures BookInv(MakerFilled(b, maker, quantity))
  {
    var o := Reduced(maker, quantity);
    var c := MakerFilled(b, maker, quantity);
    assert OrderOk(b, maker.id, maker);
    LevelsOkReduced(b.orders, Buy, b.bids, maker.id, o);
    LevelsOkReduced(b.orders, Sell, b.asks, maker.id, o);
    forall id | id in c.orders
      ensures OrderOk(c, id, c.orders[id])
    {
      if id != maker.id { assert OrderOk(b, id, b.orders[id]); }
    }
  }

  /** An order with no remainder left leaves its queue and nothing else moves. */
  lemma {:induction false} LeavingKeeps(b: Book, o: Order, closed: Order)
    requires BookInv(b) && o.id in b.orders && b.orders[o.id] == o && o.remaining > 0
    requires closed.id == o.id && closed.remaining == 0 && closed.sequence == o.sequence
    ensures BookInv(Left(b, o, closed))
  {
    var levels := Dequeued(Levels(b, o.side), o.price, o.id);
    var c := Left(b, o, closed);
    assert OrderOk(b, o.id, o);
    DequeuedOk(b.orders, o.side, Levels(b, o.side), o.price, o.id);
    LevelsOkFrame(b.orders, o.side, levels, o.id, closed);
    OtherSideLacks(b, o);
    LevelsOkFrame(b.orders, Opposite(o.side), Levels(b, Opposite(o.side)), o.id, closed);
    forall id | id in c.orders
      ensures OrderOk(c, id, c.orders[id])
    {
      if id != o.id { assert OrderOk(b, id, b.orders[id]); }
    }
  }

  lemma {:induction false} OtherSideLacks(b: Book, o: Order)
    requires BookInv(b) && o.id in b.orders && b.orders[o.id] == o
    ensures forall p :: p in Levels(b, Opposite(o.side)) ==> o.id !in Levels(b, Opposite(o.side))[p]
  {
    forall p | p in Levels(b, Opposite(o.side))
      ensures o.id !in Levels(b, Opposite(o.side))[p]
    {
      assert QueueOk(b.orders, Opposite(o.side), p, Levels(b, Opposite(o.side))[p]);
    }
  }

  lemma {:induction false} MakerFilledKeeps(b: Book, maker: Order, quantity: nat)
    requires BookInv(b) && maker.id in b.orders && b.orders[maker.id] == maker && 0 < quantity <= maker.remaining
    ensures BookInv(MakerFilled(b, maker, quantity))
  {
    if quantity < maker.remaining {
      PartialFillKeeps(b, maker, quantity);
    } else {
      LeavingKeeps(b, maker, Reduced(maker, quantity));
    }
  }

  /** A fill moves collateral and fills the maker. */
  lemma {:induction false} FillParts(b: Book, taker: Order, maker: Order)
    requires Fill(b, taker, maker).Ok?
    ensures var c := Fill(b, taker, maker).value;
      c == MakerFilled(b.(free := c.free), maker, MinNat(taker.remaining, maker.remaining))
  {
  }

  lemma {:induction false} FillKeeps(b: Book, taker: Order, maker: Order)
    requires BookInv(b) && maker.id in b.orders && b.orders[maker.id] == maker
    requires taker.remaining > 0 && maker.remaining > 0 && Fill(b, taker, maker).Ok?
    ensures BookInv(Fill(b, taker, maker).value)
  {
    FillParts(b, taker, maker);
    var b1 := b.(free := Fill(b, taker, maker).value.free);
    SameOrdersKeeps(b, b1);
    MakerFilledKeeps(b1, maker, MinNat(taker.remaining, maker.remaining));
  }

  /** A taker with a remainder faces the rest of the line. */
  lemma {:induction false} FillAdvances(b: Book, taker: Order, maker: Order)
    requires LevelsOk(b.orders, Opposite(taker.side), Levels(b, Opposite(taker.side)))
    requires AtFront(b, taker, maker) && Fill(b, taker, maker).Ok? && TakerAfter(taker, maker).remaining > 0
    ensures var s := Opposite(taker.side);
      Ladder(s, Levels(b, s)) != [] && Ladder(s, Levels(Fill(b, taker, maker).value, s)) == Ladder(s, Levels(b, s))[1..]
  {
    LadderAdvance(b.orders, Opposite(taker.side), Levels(b, Opposite(taker.side)));
  }

  // ----- the walk -----

  /** The taker's number and arrival are later than those of every stored order. */
  ghost predicate Newest(b: Book, taker: Order) {
    && (forall id :: id in b.orders ==> id < taker.id && b.orders[id].sequence < taker.sequence)
    && taker.id < b.nextOrderId && taker.sequence < b.nextSequence
  }

  /** Nobody on the other side would trade with the taker. */
  ghost predicate Uncrossable(b: Book, taker: Order) {
    forall p :: p in Levels(b, Opposite(taker.side)) ==> !Crosses(taker, p)
  }

  predicate SameTaker(t: Order, u: Order) {
    u == t.(remaining := u.remaining) && u.remaining <= t.remaining
  }

  /** What the walk keeps and where it stops. */
  lemma {:induction false} WalkKeeps(b: Book, taker: Order, line: seq<nat>, trades: seq<Trade>)
    requires BookInv(b) && Newest(b, taker)
    requires taker.remaining > 0 ==> line == Ladder(Opposite(taker.side), Levels(b, Opposite(taker.side)))
    requires Walk(b, taker, line, trades).Ok?
    ensures var m := Walk(b, taker, line, trades).value;
      && BookInv(m.book) && Newest(m.book, m.taker) && SameTaker(taker, m.taker)
      && (m.taker.remaining > 0 && !m.blocked && taker.orderType == Limit ==> Uncrossable(m.book, m.taker))
    decreases |line|
  {
    var s := Opposite(taker.side);
    LadderFront(b.orders, s, Levels(b, s));
    if taker.remaining > 0 && line != [] {
      var maker := b.orders[line[0]];
      assert OrderOk(b, line[0], maker);
      if taker.orderType == Limit && !Crosses(taker, maker.price) {
        assert Uncrossable(b, taker);
      } else if maker.owner != taker.owner {
        FillKeeps(b, taker, maker);
        if TakerAfter(taker, maker).remaining > 0 { FillAdvances(b, taker, maker); }
        FillFrame(b, taker, maker);
        WalkKeeps(Fill(b, taker, maker).value, TakerAfter(taker, maker), line[1..],
                  trades + [TradeOf(taker, maker, MinNat(taker.remaining, maker.remaining))]);
      }
    }
  }

  /** A fill rewrites one stored order and numbers nothing anew. */
  lemma {:induction false} FillRewrites(b: Book, taker: Order, maker: Order)
    requires Fill(b, taker, maker).Ok?
    ensures var c := Fill(b, taker, maker).value;
      && c.orders == b.orders[maker.id := Reduced(maker, MinNat(taker.remaining, maker.remaining))]
      && c.nextOrderId == b.nextOrderId && c.nextSequence == b.nextSequence
      && c.market == b.market && c.ledger == b.ledger
  {
  }

  lemma {:induction false} FillFrame(b: Book, taker: Order, maker: Order)
    requires maker.id in b.orders && b.orders[maker.id] == maker && Newest(b, taker) && Fill(b, taker, maker).Ok?
    ensures Newest(Fill(b, taker, maker).value, TakerAfter(taker, maker))
  {
    FillRewrites(b, taker, maker);
  }

  // ----- coming to rest -----

  lemma {:induction false} EnqueuedOk(orders: map<nat, Order>, s: Side, levels: map<nat, seq<nat>>, o: Order)
    requires LevelsOk(orders, s, levels) && o.side == s && o.remaining > 0
    requires forall id :: id in orders ==> id < o.id && orders[id].sequence < o.sequence
    ensures LevelsOk(orders[o.id := o], s, Enqueued(levels, o.price, o.id))
  {
    var next := orders[o.id := o];
    forall p | p in Enqueued(levels, o.price, o.id)
      ensures QueueOk(next, s, p, Enqueued(levels, o.price, o.id)[p])
    {
      if p in levels { assert QueueOk(orders, s, p, levels[p]); }
    }
  }

  lemma {:induction false} UnknownNowhere(orders: map<nat, Order>, s: Side, levels: map<nat, seq<nat>>, id: nat)
    requires LevelsOk(orders, s, levels) && id !in orders
    ensures forall p :: p in levels ==> id !in levels[p]
  {
    forall p | p in levels
      ensures id !in levels[p]
    {
      assert QueueOk(orders, s, p, levels[p]);
    }
  }

  lemma {:induction false} JoinedOrdersOk(b: Book, o: Order)
    requires OrdersOk(b) && Newest(b, o)
    requires o.orderType == Limit && (o.status == Open || o.status == PartiallyFilled)
    ensures OrdersOk(Joined(b, o))
  {
    var c := Joined(b, o);
    forall id | id in c.orders
      ensures OrderOk(c, id, c.orders[id])
    {
      if id != o.id { assert OrderOk(b, id, b.orders[id]); }
    }
  }

  lemma {:induction false} JoinedLevelsOk(b: Book, o: Order)
    requires LevelsOk(b.orders, Buy, b.bids) && LevelsOk(b.orders, Sell, b.asks) && Newest(b, o) && o.remaining > 0
    ensures LevelsOk(Joined(b, o).orders, Buy, Joined(b, o).bids)
    ensures LevelsOk(Joined(b, o).orders, Sell, Joined(b, o).asks)
  {
    var s := o.side;
    EnqueuedOk(b.orders, s, Levels(b, s), o);
    UnknownNowhere(b.orders, Opposite(s), Levels(b, Opposite(s)), o.id);
    LevelsOkFrame(b.orders, Opposite(s), Levels(b, Opposite(s)), o.id, o);
  }

  lemma {:induction false} JoinedUncrossed(b: Book, o: Order)
    requires Uncrossed(b) && Uncrossable(b, o)
    ensures Uncrossed(Joined(b, o))
  {
    var c := Joined(b, o);
    forall p, q | p in c.bids && q in c.asks
      ensures p < q
    {
      if o.side == Buy && p == o.price { assert !Crosses(o, q); }
      if o.side == Sell && q == o.price { assert !Crosses(o, p); }
    }
  }

  lemma {:induction false} RestedKeeps(b: Book, taker: Order)
    requires BookInv(b) && Newest(b, taker) && Uncrossable(b, taker)
    requires taker.remaining > 0 && taker.orderType == Limit && Rested(b, taker).Ok?
    ensures BookInv(Rested(b, taker).value)
  {
    var o := Resting(taker);
    var b1 := b.(free := LockFunds(b.free, o).value);
    SameOrdersKeeps(b, b1);
    JoinedLevelsOk(b1, o);
    JoinedOrdersOk(b1, o);
    assert Uncrossable(b1, o) by {
      assert forall p :: Crosses(o, p) == Crosses(taker, p);
    }
    JoinedUncrossed(b1, o);
  }

  lemma {:induction false} StoredClosedKeeps(b: Book, o: Order)
    requires BookInv(b) && Newest(b, o) && o.remaining == 0
    ensures BookInv(b.(orders := b.orders[o.id := o]))
  {
    var c := b.(orders := b.orders[o.id := o]);
    UnknownNowhere(b.orders, Buy, b.bids, o.id);
    UnknownNowhere(b.orders, Sell, b.asks, o.id);
    LevelsOkFrame(b.orders, Buy, b.bids, o.id, o);
    LevelsOkFrame(b.orders, Sell, b.asks, o.id, o);
    forall id | id in c.orders
      ensures OrderOk(c, id, c.orders[id])
    {
      if id != o.id { assert OrderOk(b, id, b.orders[id]); }
    }
  }

  lemma {:induction false} FinishKeeps(m: Matched, tif: TimeInForce)
    requires BookInv(m.book) && Newest(m.book, m.taker)
    requires m.taker.remaining > 0 && !m.blocked && m.taker.orderType == Limit ==> Uncrossable(m.book, m.taker)
    requires Finish(m, tif).Ok?
    ensures BookInv(Finish(m, tif).value.book)
  {
    if ShouldRest(m.taker, m.blocked, tif) {
      RestedKeeps(m.book, m.taker);
    } else {
      StoredClosedKeeps(m.book, Closed(m.taker, m.trades != []));
    }
  }

  // ----- the operations -----

  lemma {:induction false} NumberedKeeps(b: Book, r: Request)
    requires BookInv(b)
    ensures BookInv(Numbered(b)) && Newest(Numbered(b), NewOrder(b, r))
  {
    var c := Numbered(b);
    forall id | id in c.orders
      ensures OrderOk(c, id, c.orders[id]) && id < NewOrder(b, r).id && c.orders[id].sequence < NewOrder(b, r).sequence
    {
      assert OrderOk(b, id, b.orders[id]);
    }
  }

  lemma {:induction false} MatchingKeeps(b: Book, r: Request)
    requires BookInv(b) && Matching(b, r).Ok?
    ensures var m := Matching(b, r).value;
      && BookInv(m.book) && Newest(m.book, m.taker) && SameTaker(NewOrder(b, r), m.taker)
      && (m.taker.remaining > 0 && !m.blocked && r.orderType == Limit ==> Uncrossable(m.book, m.taker))
  {
    NumberedKeeps(b, r);
    WalkKeeps(Numbered(b), NewOrder(b, r), Ladder(Opposite(r.side), Levels(b, Opposite(r.side))), []);
  }

  /** A placed order was matched and then finished. */
  lemma {:induction false} PlaceSteps(b: Book, r: Request)
    requires PlaceOrder(b, r).Ok?
    ensures Matching(b, r).Ok? && Finish(Matching(b, r).value, r.tif) == PlaceOrder(b, r)
  {
  }

  lemma {:induction false} PlaceOrderKeeps(b: Book, r: Request)
    requires BookInv(b) && PlaceOrder(b, r).Ok?
    ensures BookInv(PlaceOrder(b, r).value.book)
  {
    PlaceSteps(b, r);
    MatchingKeeps(b, r);
    FinishKeeps(Matching(b, r).value, r.tif);
  }

  lemma {:induction false} CancelOrderKeeps(b: Book, owner: AccountId, id: nat)
    requires BookInv(b) && CancelOrder(b, owner, id).Ok?
    ensures BookInv(CancelOrder(b, owner, id).value.0)
  {
    var o := b.orders[id];
    assert OrderOk(b, id, o);
    var b1 := b.(free := RefundFunds(b.free, o).value);
    SameOrdersKeeps(b, b1);
    LeavingKeeps(b1, o, o.(status := Cancelled, remaining := 0));
  }

  lemma {:induction false} DepositKeeps(b: Book, user: AccountId, asset: nat, amount: nat)
    requires BookInv(b) && Deposit(b, user, asset, amount).Ok?
    ensures BookInv(Deposit(b, user, asset, amount).value)
  {
    SameOrdersKeeps(b, Deposit(b, user, asset, amount).value);
  }

  lemma {:induction false} WithdrawKeeps(b: Book, user: AccountId, asset: nat, amount: nat)
    requires BookInv(b) && Withdraw(b, user, asset, amount).Ok?
    ensures BookInv(Withdraw(b, user, asset, amount).value)
  {
    SameOrdersKeeps(b, Withdraw(b, user, asset, amount).value);
  }
}
