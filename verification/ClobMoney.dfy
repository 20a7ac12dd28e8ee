/** Where a market's collateral is: free balances and the remainders of resting orders. */
module ClobMoney {
  import opened Basics
  import opened MapSums
  import opened Clob
  import opened ClobBook
  import opened ClobRuns

  function LockedBy(orders: map<nat, Order>, a: Asset): map<nat, nat> {
    map id | id in orders :: Locked(orders[id], a)
  }

  ghost function FreeTotal(bs: Balances, a: Asset): nat {
    MapSum(Of(bs, a))
  }

  ghost function LockedTotal(orders: map<nat, Order>, a: Asset): nat {
    MapSum(LockedBy(orders, a))
  }

  /** All collateral the market owes in asset `a`. */
  ghost function Claims(b: Book, a: Asset): nat {
    FreeTotal(b.free, a) + LockedTotal(b.orders, a)
  }

  // ----- one balance, one order -----

  lemma {:induction false} PutTotal(bs: Balances, a: Asset, u: AccountId, v: nat, x: Asset)
    ensures FreeTotal(Put(bs, a, u, v), x) + (if x == a then Get(bs, a, u) else 0)
         == FreeTotal(bs, x) + (if x == a then v else 0)
  {
    MapSumUpdate(Of(bs, a), u, v);
  }

  lemma {:induction false} CreditTotal(bs: Balances, u: AccountId, a: Asset, n: nat, x: Asset)
    requires Credit(bs, u, a, n).Ok?
    ensures FreeTotal(Credit(bs, u, a, n).value, x) == FreeTotal(bs, x) + (if x == a then n else 0)
  {
    if n > 0 { PutTotal(bs, a, u, Get(bs, a, u) + n, x); }
  }

  lemma {:induction false} DebitTotal(bs: Balances, u: AccountId, a: Asset, n: nat, x: Asset)
    requires Debit(bs, u, a, n).Ok?
    ensures FreeTotal(Debit(bs, u, a, n).value, x) + (if x == a then n else 0) == FreeTotal(bs, x)
  {
    if n > 0 { PutTotal(bs, a, u, Get(bs, a, u) - n, x); }
  }

  lemma {:induction false} StoredTotal(orders: map<nat, Order>, o: Order, a: Asset)
    ensures LockedTotal(orders[o.id := o], a) + (if o.id in orders then Locked(orders[o.id], a) else 0)
         == LockedTotal(orders, a) + Locked(o, a)
  {
    assert LockedBy(orders[o.id := o], a) == LockedBy(orders, a)[o.id := Locked(o, a)];
    MapSumUpdate(LockedBy(orders, a), o.id, Locked(o, a));
  }

  // ----- a fill -----

  /** What a fill adds to the free balances comes out of the maker's lock. */
  function Released(taker: Order, quantity: nat, quote: nat, a: Asset): nat {
    if taker.side == Buy then (if a == Base then quantity else 0) else (if a == Quote then quote else 0)
  }

  lemma {:induction false} SettleTotal(free: Balances, taker: Order, maker: Order, quantity: nat, quote: nat, a: Asset)
    requires SettleFill(free, taker, maker, quantity, quote).Ok?
    ensures FreeTotal(SettleFill(free, taker, maker, quantity, quote).value, a)
         == FreeTotal(free, a) + Released(taker, quantity, quote, a)
  {
    var pay, get := if taker.side == Buy then Quote else Base, if taker.side == Buy then Base else Quote;
    var pays, gets := if taker.side == Buy then quote else quantity, if taker.side == Buy then quantity else quote;
    var f1 := Debit(free, taker.owner, pay, pays).value;
    var f2 := Credit(f1, taker.owner, get, gets).value;
    DebitTotal(free, taker.owner, pay, pays, a);
    CreditTotal(f1, taker.owner, get, gets, a);
    CreditTotal(f2, maker.owner, pay, pays, a);
  }

  lemma {:induction false} ReducedLock(taker: Order, maker: Order, quantity: nat, a: Asset)
    requires quantity <= maker.remaining && maker.side == Opposite(taker.side)
    ensures Locked(Reduced(maker, quantity), a) + Released(taker, quantity, quantity * maker.price, a)
         == Locked(maker, a)
  {
    assert (maker.remaining - quantity) * maker.price == maker.remaining * maker.price - quantity * maker.price;
  }

  lemma {:induction false} FillMoney(b: Book, taker: Order, maker: Order, a: Asset)
    requires maker.id in b.orders && b.orders[maker.id] == maker && maker.side == Opposite(taker.side)
    requires Fill(b, taker, maker).Ok?
    ensures Claims(Fill(b, taker, maker).value, a) == Claims(b, a)
  {
    var q := MinNat(taker.remaining, maker.remaining);
    FillRewrites(b, taker, maker);
    FillFree(b, taker, maker, q, q * maker.price, Fill(b, taker, maker).value);
    SettleTotal(b.free, taker, maker, q, q * maker.price, a);
    StoredTotal(b.orders, Reduced(maker, q), a);
    ReducedLock(taker, maker, q, a);
  }

  lemma {:induction false} FillFree(b: Book, taker: Order, maker: Order, q: nat, quote: nat, c: Book)
    requires q == MinNat(taker.remaining, maker.remaining) && quote == q * maker.price && Fill(b, taker, maker) == Ok(c)
    ensures SettleFill(b.free, taker, maker, q, quote) == Ok(c.free)
  {
  }

  /** Matching moves collateral around and neither makes nor loses any. */
  lemma {:induction false} WalkMoney(b: Book, taker: Order, line: seq<nat>, trades: seq<Trade>, a: Asset)
    requires BookInv(b) && Newest(b, taker) && Walk(b, taker, line, trades).Ok?
    requires taker.remaining > 0 ==> line == Ladder(Opposite(taker.side), Levels(b, Opposite(taker.side)))
    ensures Claims(Walk(b, taker, line, trades).value.book, a) == Claims(b, a)
    ensures Walk(b, taker, line, trades).value.book.ledger == b.ledger
    ensures Walk(b, taker, line, trades).value.book.market == b.market
    decreases |line|
  {
    var s := Opposite(taker.side);
    LadderFront(b.orders, s, Levels(b, s));
    if taker.remaining > 0 && line != [] {
      var maker := b.orders[line[0]];
      assert OrderOk(b, line[0], maker);
      if (taker.orderType == Limit ==> Crosses(taker, maker.price)) && maker.owner != taker.owner {
        FillKeeps(b, taker, maker);
        if TakerAfter(taker, maker).remaining > 0 { FillAdvances(b, taker, maker); }
        FillFrame(b, taker, maker);
        FillRewrites(b, taker, maker);
        FillMoney(b, taker, maker, a);
        WalkMoney(Fill(b, taker, maker).value, TakerAfter(taker, maker), line[1..],
                  trades + [TradeOf(taker, maker, MinNat(taker.remaining, maker.remaining))], a);
      }
    }
  }

  // ----- the operations -----

  lemma {:induction false} RestedMoney(b: Book, taker: Order, a: Asset)
    requires Newest(b, taker) && Rested(b, taker).Ok?
    ensures Claims(Rested(b, taker).value, a) == Claims(b, a)
  {
    var o := Resting(taker);
    assert o.id !in b.orders;
    DebitTotal(b.free, o.owner, LockAsset(o), Locked(o, LockAsset(o)), a);
    StoredTotal(b.orders, o, a);
  }

  lemma {:induction false} FinishMoney(m: Matched, tif: TimeInForce, a: Asset)
    requires Newest(m.book, m.taker) && Finish(m, tif).Ok?
    ensures Claims(Finish(m, tif).value.book, a) == Claims(m.book, a)
    ensures Finish(m, tif).value.book.ledger == m.book.ledger
    ensures Finish(m, tif).value.book.market == m.book.market
  {
    if ShouldRest(m.taker, m.blocked, tif) {
      RestedMoney(m.book, m.taker, a);
    } else {
      var o := Closed(m.taker, m.trades != []);
      assert o.id !in m.book.orders;
      StoredTotal(m.book.orders, o, a);
    }
  }

  /** Placing an order conserves every asset of the market. */
  lemma {:induction false} PlaceOrderMoney(b: Book, r: Request, a: Asset)
    requires BookInv(b) && PlaceOrder(b, r).Ok?
    ensures Claims(PlaceOrder(b, r).value.book, a) == Claims(b, a)
    ensures PlaceOrder(b, r).value.book.ledger == b.ledger && PlaceOrder(b, r).value.book.market == b.market
  {
    PlaceSteps(b, r);
    MatchingKeeps(b, r);
    NumberedKeeps(b, r);
    WalkMoney(Numbered(b), NewOrder(b, r), Ladder(Opposite(r.side), Levels(b, Opposite(r.side))), [], a);
    FinishMoney(Matching(b, r).value, r.tif, a);
  }

  /** Cancelling gives the owner back exactly what the order still locked, and nobody else anything. */
  lemma {:induction false} CancelRefunds(b: Book, owner: AccountId, id: nat)
    requires BookInv(b) && CancelOrder(b, owner, id).Ok?
    ensures var c := CancelOrder(b, owner, id).value.0;
      && (forall a, u :: Get(c.free, a, u) == Get(b.free, a, u) + (if u == owner then Locked(b.orders[id], a) else 0))
      && (forall a :: Claims(c, a) == Claims(b, a))
      && c.orders[id].remaining == 0 && c.ledger == b.ledger && c.market == b.market
  {
    var o := b.orders[id];
    assert OrderOk(b, id, o);
    forall a
      ensures Claims(CancelOrder(b, owner, id).value.0, a) == Claims(b, a)
    {
      CreditTotal(b.free, owner, LockAsset(o), Locked(o, LockAsset(o)), a);
      StoredTotal(b.orders, o.(status := Cancelled, remaining := 0), a);
    }
  }

  /** A deposit or withdrawal changes the claims on its asset by its amount. */
  lemma {:induction false} DepositMoney(b: Book, user: AccountId, asset: nat, amount: nat, x: Asset)
    requires Deposit(b, user, asset, amount).Ok?
    ensures Claims(Deposit(b, user, asset, amount).value, x)
         == Claims(b, x) + (if AssetOf(asset) == Ok(x) then amount else 0)
  {
    CreditTotal(b.free, user, AssetOf(asset).value, amount, x);
  }

  lemma {:induction false} WithdrawMoney(b: Book, user: AccountId, asset: nat, amount: nat, x: Asset)
    requires Withdraw(b, user, asset, amount).Ok?
    ensures Claims(Withdraw(b, user, asset, amount).value, x) + (if AssetOf(asset) == Ok(x) then amount else 0)
         == Claims(b, x)
  {
    DebitTotal(b.free, user, AssetOf(asset).value, amount, x);
  }
}
