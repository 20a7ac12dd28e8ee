/** One spot market: resting orders in price levels, first in first out, with collateral
    held inside the market. */
module Clob {
  import opened Basics

  datatype Asset = Base | Quote
  datatype Side = Buy | Sell
  datatype OrderType = Limit | MarketOrder
  datatype TimeInForce = GoodTilCancelled | ImmediateOrCancel
  datatype Status = Open | PartiallyFilled | Filled | Cancelled

  datatype Error =
    | MarketNotFound | MarketInactive | InvalidMarketConfig | InvalidAsset
    | ZeroAmount | ZeroPrice | InsufficientBalance(have: nat, need: nat) | ArithmeticOverflow
    | SelfTrade | NoLiquidity | OrderNotFound | NotOrderOwner | OrderNotOpen | Settlement

  /** `custodian` is the market's own account in the token ledger. */
  datatype Market = Market(custodian: AccountId, tickSize: nat, lotSize: nat, active: bool)

  datatype Order = Order(
    id: nat, owner: AccountId, side: Side, orderType: OrderType, price: nat,
    quantity: nat, remaining: nat, status: Status, sequence: nat)

  datatype Request = Request(
    owner: AccountId, side: Side, orderType: OrderType, price: nat, quantity: nat, tif: TimeInForce)

  datatype Trade = Trade(
    makerId: nat, takerId: nat, maker: AccountId, taker: AccountId, side: Side, price: nat, quantity: nat, quote: nat)

  /** Balances of both assets by account; an absent account holds nothing. */
  datatype Balances = Balances(base: map<AccountId, nat>, quote: map<AccountId, nat>)

  /** `free` is the collateral inside the market, `ledger` the token ledger outside it. */
  datatype Book = Book(
    market: Option<Market>,
    free: Balances,
    ledger: Balances,
    orders: map<nat, Order>,
    bids: map<nat, seq<nat>>,
    asks: map<nat, seq<nat>>,
    nextOrderId: nat,
    nextSequence: nat)

  // ----- balances -----

  function Of(bs: Balances, a: Asset): map<AccountId, nat> {
    if a == Base then bs.base else bs.quote
  }

  function Get(bs: Balances, a: Asset, u: AccountId): nat {
    if u in Of(bs, a) then Of(bs, a)[u] else 0
  }

  function Put(bs: Balances, a: Asset, u: AccountId, v: nat): Balances {
    if a == Base then bs.(base := bs.base[u := v]) else bs.(quote := bs.quote[u := v])
  }

  function Credit(bs: Balances, u: AccountId, a: Asset, amount: nat): Result<Balances, Error> {
    if amount == 0 then Ok(bs)
    else if Get(bs, a, u) + amount > U64_MAX then Err(ArithmeticOverflow)
    else Ok(Put(bs, a, u, Get(bs, a, u) + amount))
  }

  function Debit(bs: Balances, u: AccountId, a: Asset, amount: nat): Result<Balances, Error> {
    if amount == 0 then Ok(bs)
    else if Get(bs, a, u) < amount then Err(InsufficientBalance(Get(bs, a, u), amount))
    else Ok(Put(bs, a, u, Get(bs, a, u) - amount))
  }

  /** A token transfer in the outer ledger; one to oneself only checks the balance. */
  function Transfer(ledger: Balances, a: Asset, from: AccountId, to: AccountId, amount: nat): Result<Balances, Error> {
    if amount == 0 then Ok(ledger)
    else if Get(ledger, a, from) < amount then Err(Settlement)
    else if from == to then Ok(ledger)
    else if Get(ledger, a, to) + amount > U64_MAX then Err(Settlement)
    else Ok(Put(Put(ledger, a, from, Get(ledger, a, from) - amount), a, to, Get(ledger, a, to) + amount))
  }

  function AssetOf(index: nat): Result<Asset, Error> {
    if index == 0 then Ok(Base) else if index == 1 then Ok(Quote) else Err(InvalidAsset)
  }

  function Deposit(b: Book, user: AccountId, asset: nat, amount: nat): Result<Book, Error> {
    if amount == 0 then Err(ZeroAmount)
    else if b.market.None? then Err(MarketNotFound)
    else if !b.market.value.active then Err(MarketInactive)
    else
      var a :- AssetOf(asset);
      var ledger :- Transfer(b.ledger, a, user, b.market.value.custodian, amount);
      var free :- Credit(b.free, user, a, amount);
      Ok(b.(ledger := ledger, free := free))
  }

  function Withdraw(b: Book, user: AccountId, asset: nat, amount: nat): Result<Book, Error> {
    if amount == 0 then Err(ZeroAmount)
    else if b.market.None? then Err(MarketNotFound)
    else
      var a :- AssetOf(asset);
      var free :- Debit(b.free, user, a, amount);
      var ledger :- Transfer(b.ledger, a, b.market.value.custodian, user, amount);
      Ok(b.(ledger := ledger, free := free))
  }

  // ----- price levels -----

  function Opposite(s: Side): Side {
    if s == Buy then Sell else Buy
  }

  function Levels(b: Book, s: Side): map<nat, seq<nat>> {
    if s == Buy then b.bids else b.asks
  }

  function SetLevels(b: Book, s: Side, levels: map<nat, seq<nat>>): Book {
    if s == Buy then b.(bids := levels) else b.(asks := levels)
  }

  /** `p` is at least as good as `q` for whoever trades against side `s`. */
  predicate NoWorse(s: Side, p: nat, q: nat) {
    if s == Buy then p >= q else p <= q
  }

  ghost predicate IsBest(s: Side, prices: set<nat>, p: nat) {
    p in prices && forall q :: q in prices ==> NoWorse(s, p, q)
  }

  lemma {:induction false} BestExists(s: Side, prices: set<nat>) returns (p: nat)
    requires prices != {}
    ensures IsBest(s, prices, p)
  {
    p :| p in prices;
    if prices != {p} {
      var rest := prices - {p};
      var q := BestExists(s, rest);
      assert forall x :: x in prices ==> x == p || x in rest;
      if NoWorse(s, q, p) { p := q; }
    }
  }

  /** Highest bid or lowest ask. */
  function Best(s: Side, prices: set<nat>): (p: nat)
    requires prices != {}
    ensures IsBest(s, prices, p)
  {
    assert exists p :: IsBest(s, prices, p) by { var q := BestExists(s, prices); }
    var p :| p in prices && forall q :: q in prices ==> NoWorse(s, p, q);
    p
  }

  /** The resting orders of a side in the order the matcher meets them: level by level from
      the best price, each level first come first served. */
  function Ladder(s: Side, levels: map<nat, seq<nat>>): seq<nat>
    decreases levels.Keys
  {
    if levels == map[] then []
    else
      var p := Best(s, levels.Keys);
      levels[p] + Ladder(s, levels - {p})
  }

  function Without(q: seq<nat>, id: nat): seq<nat> {
    if q == [] then []
    else if q[0] == id then q[1..]
    else [q[0]] + Without(q[1..], id)
  }

  function Enqueued(levels: map<nat, seq<nat>>, price: nat, id: nat): map<nat, seq<nat>> {
    levels[price := (if price in levels then levels[price] else []) + [id]]
  }

  /** Take `id` out of its level; an empty level disappears. */
  function Dequeued(levels: map<nat, seq<nat>>, price: nat, id: nat): map<nat, seq<nat>> {
    if price !in levels then levels
    else
      var q := Without(levels[price], id);
      if q == [] then levels - {price} else levels[price := q]
  }

  /** The book with `o` at the end of its queue. */
  function Joined(b: Book, o: Order): Book {
    SetLevels(b, o.side, Enqueued(Levels(b, o.side), o.price, o.id)).(orders := b.orders[o.id := o])
  }

  /** The book after `o` left its queue as `closed`. */
  function Left(b: Book, o: Order, closed: Order): Book {
    SetLevels(b, o.side, Dequeued(Levels(b, o.side), o.price, o.id)).(orders := b.orders[o.id := closed])
  }

  // ----- matching -----

  predicate Crosses(taker: Order, makerPrice: nat) {
    if taker.side == Buy then makerPrice <= taker.price else makerPrice >= taker.price
  }

  /** The maker's side was debited when it came to rest; the taker pays from its free balance. */
  function SettleFill(free: Balances, taker: Order, maker: Order, quantity: nat, quote: nat): Result<Balances, Error> {
    if taker.side == Buy then
      var f1 :- Debit(free, taker.owner, Quote, quote);
      var f2 :- Credit(f1, taker.owner, Base, quantity);
      Credit(f2, maker.owner, Quote, quote)
    else
      var f1 :- Debit(free, taker.owner, Base, quantity);
      var f2 :- Credit(f1, taker.owner, Quote, quote);
      Credit(f2, maker.owner, Base, quantity)
  }

  function TradeOf(taker: Order, maker: Order, quantity: nat): Trade {
    Trade(maker.id, taker.id, maker.owner, taker.owner, taker.side, maker.price, quantity, quantity * maker.price)
  }

  function Reduced(o: Order, quantity: nat): Order
    requires quantity <= o.remaining
  {
    o.(remaining := o.remaining - quantity,
       status := if o.remaining == quantity then Filled else PartiallyFilled)
  }

  /** The book after the maker gave `quantity`. */
  function MakerFilled(b: Book, maker: Order, quantity: nat): Book
    requires quantity <= maker.remaining
  {
    if maker.remaining == quantity then Left(b, maker, Reduced(maker, quantity))
    else b.(orders := b.orders[maker.id := Reduced(maker, quantity)])
  }

  datatype Matched = Matched(book: Book, taker: Order, trades: seq<Trade>, blocked: bool)

  /** Why the taker does not trade with the next order in line. */
  predicate Stops(taker: Order, maker: Order) {
    taker.remaining == 0 || (taker.orderType == Limit && !Crosses(taker, maker.price)) || maker.owner == taker.owner
  }

  /** One fill. */
  function Fill(b: Book, taker: Order, maker: Order): Result<Book, Error> {
    var q := MinNat(taker.remaining, maker.remaining);
    if q * maker.price > U64_MAX then Err(ArithmeticOverflow)
    else
      var free :- SettleFill(b.free, taker, maker, q, q * maker.price);
      Ok(MakerFilled(b.(free := free), maker, q))
  }

  function TakerAfter(taker: Order, maker: Order): Order {
    taker.(remaining := taker.remaining - MinNat(taker.remaining, maker.remaining))
  }

  /** Walk the line of makers. */
  function Walk(b: Book, taker: Order, line: seq<nat>, trades: seq<Trade>): Result<Matched, Error>
    decreases |line|
  {
    if taker.remaining == 0 || line == [] then Ok(Matched(b, taker, trades, false))
    else if line[0] !in b.orders then Err(OrderNotFound)
    else
      var maker := b.orders[line[0]];
      if taker.orderType == Limit && !Crosses(taker, maker.price) then Ok(Matched(b, taker, trades, false))
      else if maker.owner == taker.owner then Ok(Matched(b, taker, trades, true))
      else
        var b1 :- Fill(b, taker, maker);
        Walk(b1, TakerAfter(taker, maker), line[1..],
             trades + [TradeOf(taker, maker, MinNat(taker.remaining, maker.remaining))])
  }

  // ----- placing and cancelling -----

  function Validate(m: Market, r: Request): Option<Error> {
    if m.tickSize == 0 || m.lotSize == 0 then Some(InvalidMarketConfig)
    else if r.quantity == 0 then Some(ZeroAmount)
    else if r.orderType == Limit && r.price == 0 then Some(ZeroPrice)
    else if r.quantity % m.lotSize != 0 then Some(ZeroAmount)
    else if r.orderType == Limit && r.price % m.tickSize != 0 then Some(ZeroPrice)
    else None
  }

  function AtLeastOne(n: nat): nat {
    if n == 0 then 1 else n
  }

  function NewOrder(b: Book, r: Request): Order {
    Order(AtLeastOne(b.nextOrderId), r.owner, r.side, r.orderType, r.price, r.quantity, r.quantity, Open,
          AtLeastOne(b.nextSequence))
  }

  function Numbered(b: Book): Book {
    b.(nextOrderId := AtLeastOne(b.nextOrderId) + 1, nextSequence := AtLeastOne(b.nextSequence) + 1)
  }

  /** Collateral a resting order holds. */
  function Locked(o: Order, a: Asset): nat {
    if o.side == Buy then (if a == Quote then o.remaining * o.price else 0)
    else (if a == Base then o.remaining else 0)
  }

  function LockAsset(o: Order): Asset {
    if o.side == Buy then Quote else Base
  }

  function LockAmount(o: Order): Result<nat, Error> {
    if o.side == Buy && o.remaining * o.price > U64_MAX then Err(ArithmeticOverflow)
    else Ok(Locked(o, LockAsset(o)))
  }

  function LockFunds(free: Balances, o: Order): Result<Balances, Error> {
    var n :- LockAmount(o);
    Debit(free, o.owner, LockAsset(o), n)
  }

  function RefundFunds(free: Balances, o: Order): Result<Balances, Error> {
    var n :- LockAmount(o);
    Credit(free, o.owner, LockAsset(o), n)
  }

  predicate ShouldRest(taker: Order, blocked: bool, tif: TimeInForce) {
    taker.remaining > 0 && taker.orderType == Limit && !blocked && tif == GoodTilCancelled
  }

  function Resting(taker: Order): Order {
    taker.(status := if taker.remaining < taker.quantity then PartiallyFilled else Open)
  }

  function Rested(b: Book, taker: Order): Result<Book, Error> {
    var free :- LockFunds(b.free, Resting(taker));
    Ok(Joined(b.(free := free), Resting(taker)))
  }

  /** A taker that does not rest keeps no remainder. */
  function Closed(taker: Order, traded: bool): Order {
    if taker.remaining == 0 then taker.(status := Filled)
    else taker.(remaining := 0, status := if traded then PartiallyFilled else Cancelled)
  }

  datatype Placed = Placed(book: Book, id: nat, trades: seq<Trade>)

  function Finish(m: Matched, tif: TimeInForce): Result<Placed, Error> {
    if m.blocked && m.trades == [] then Err(SelfTrade)
    else if ShouldRest(m.taker, m.blocked, tif) then
      var b :- Rested(m.book, m.taker);
      Ok(Placed(b, m.taker.id, m.trades))
    else if m.taker.remaining > 0 && m.taker.orderType == MarketOrder && m.trades == [] then Err(NoLiquidity)
    else
      var o := Closed(m.taker, m.trades != []);
      Ok(Placed(m.book.(orders := m.book.orders[o.id := o]), o.id, m.trades))
  }

  /** Number the new order and match it. */
  function Matching(b: Book, r: Request): Result<Matched, Error> {
    Walk(Numbered(b), NewOrder(b, r), Ladder(Opposite(r.side), Levels(b, Opposite(r.side))), [])
  }

  function PlaceOrder(b: Book, r: Request): Result<Placed, Error> {
    if b.market.None? then Err(MarketNotFound)
    else if !b.market.value.active then Err(MarketInactive)
    else
      match Validate(b.market.value, r)
      case Some(e) => Err(e)
      case None =>
        if AtLeastOne(b.nextOrderId) >= U64_MAX || AtLeastOne(b.nextSequence) >= U64_MAX then Err(ArithmeticOverflow)
        else
          var m :- Matching(b, r);
          Finish(m, r.tif)
  }

  function CancelOrder(b: Book, owner: AccountId, id: nat): Result<(Book, Order), Error> {
    if b.market.None? then Err(MarketNotFound)
    else if id !in b.orders then Err(OrderNotFound)
    else
      var o := b.orders[id];
      if o.owner != owner then Err(NotOrderOwner)
      else if !(o.status == Open || o.status == PartiallyFilled) || o.remaining == 0 then Err(OrderNotOpen)
      else
        var free :- RefundFunds(b.free, o);
        var closed := o.(status := Cancelled, remaining := 0);
        Ok((Left(b.(free := free), o, closed), closed))
  }
}
