/** The market as the program runs it: balances, orders and numbers in one state, queues and
    price ladders in the linked store, changed step by step and put back from a snapshot when a
    step fails. */
module SpotMarkets {
  import opened Basics
  import opened Clob
  import opened ClobBook
  import opened ClobRuns
  import Store = BookStores

  /** What the market keeps beside its queues. */
  datatype Core = Core(
    market: Option<Market>, free: Balances, ledger: Balances, orders: map<nat, Order>,
    nextOrderId: nat, nextSequence: nat)

  function BookOf(c: Core, qs: Store.Queues): Book {
    Book(c.market, c.free, c.ledger, c.orders, qs.bids, qs.asks, c.nextOrderId, c.nextSequence)
  }

  /** How one turn of the matching loop ends. */
  datatype Turn = Stop(blocked: bool) | Failed(error: Error) | Traded(trade: Trade, next: Order)

  class SpotClob {
    var core: Core
    const store: Store.BookStore

    /** The book that the stored links and ladders stand for. */
    ghost function State(): Book
      reads this, store
    {
      BookOf(core, store.queues)
    }

    ghost predicate Valid()
      reads this, store, store.ladder
    {
      store.Valid() && BookInv(State())
    }

    constructor (market: Market, ledger: Balances)
      ensures Valid() && fresh(store) && fresh(store.ladder)
      ensures State() == Book(Some(market), Balances(map[], map[]), ledger, map[], map[], map[], 0, 0)
    {
      core := Core(Some(market), Balances(map[], map[]), ledger, map[], 0, 0);
      store := new Store.BookStore();
    }

    method CreditBalance(u: AccountId, a: Asset, amount: nat) returns (failure: Option<Error>)
      modifies `core
      ensures match Credit(old(core.free), u, a, amount)
              case Ok(free) => failure == None && core == old(core).(free := free)
              case Err(e) => failure == Some(e) && core == old(core)
    {
      if amount == 0 { return None; }
      if Get(core.free, a, u) + amount > U64_MAX { return Some(ArithmeticOverflow); }
      core := core.(free := Put(core.free, a, u, Get(core.free, a, u) + amount));
      return None;
    }

    method DebitBalance(u: AccountId, a: Asset, amount: nat) returns (failure: Option<Error>)
      modifies `core
      ensures match Debit(old(core.free), u, a, amount)
              case Ok(free) => failure == None && core == old(core).(free := free)
              case Err(e) => failure == Some(e) && core == old(core)
    {
      if amount == 0 { return None; }
      var have := Get(core.free, a, u);
      if have < amount { return Some(InsufficientBalance(have, amount)); }
      core := core.(free := Put(core.free, a, u, have - amount));
      return None;
    }

    method MoveTokens(a: Asset, from: AccountId, to: AccountId, amount: nat) returns (failure: Option<Error>)
      modifies `core
      ensures match Transfer(old(core.ledger), a, from, to, amount)
              case Ok(ledger) => failure == None && core == old(core).(ledger := ledger)
              case Err(e) => failure == Some(e) && core == old(core)
    {
      if amount == 0 { return None; }
      if Get(core.ledger, a, from) < amount { return Some(Settlement); }
      if from == to { return None; }
      if Get(core.ledger, a, to) + amount > U64_MAX { return Some(Settlement); }
      var l := Put(core.ledger, a, from, Get(core.ledger, a, from) - amount);
      core := core.(ledger := Put(l, a, to, Get(core.ledger, a, to) + amount));
      return None;
    }

    method Deposit(user: AccountId, asset: nat, amount: nat) returns (failure: Option<Error>)
      requires Valid()
      modifies `core
      ensures Valid()
      ensures match Clob.Deposit(old(State()), user, asset, amount)
              case Ok(b) => failure == None && State() == b
              case Err(e) => failure == Some(e) && State() == old(State())
    {
      if amount == 0 { return Some(ZeroAmount); }
      if core.market.None? { return Some(MarketNotFound); }
      var market := core.market.value;
      if !market.active { return Some(MarketInactive); }
      var a := AssetOf(asset);
      if a.Err? { return Some(a.error); }
      var snapshot := core;
      failure := MoveTokens(a.value, user, market.custodian, amount);
      if failure == None {
        failure := CreditBalance(user, a.value, amount);
      }
      if failure != None {
        core := snapshot;
      }
      SameOrdersKeeps(BookOf(snapshot, store.queues), State());
    }

    method Withdraw(user: AccountId, asset: nat, amount: nat) returns (failure: Option<Error>)
      requires Valid()
      modifies `core
      ensures Valid()
      ensures match Clob.Withdraw(old(State()), user, asset, amount)
              case Ok(b) => failure == None && State() == b
              case Err(e) => failure == Some(e) && State() == old(State())
    {
      if amount == 0 { return Some(ZeroAmount); }
      if core.market.None? { return Some(MarketNotFound); }
      var a := AssetOf(asset);
      if a.Err? { return Some(a.error); }
      var snapshot := core;
      failure := DebitBalance(user, a.value, amount);
      if failure == None {
        failure := MoveTokens(a.value, snapshot.market.value.custodian, user, amount);
      }
      if failure != None {
        core := snapshot;
      }
      SameOrdersKeeps(BookOf(snapshot, store.queues), State());
    }

    /** On failure the balances are left half moved; the caller puts the snapshot back. */
    method SettleFill(taker: Order, maker: Order, quantity: nat, quote: nat) returns (failure: Option<Error>)
      modifies `core
      ensures match Clob.SettleFill(old(core.free), taker, maker, quantity, quote)
              case Ok(free) => failure == None && core == old(core).(free := free)
              case Err(e) => failure == Some(e)
    {
      if taker.side == Buy {
        failure := DebitBalance(taker.owner, Quote, quote);
        if failure != None { return; }
        failure := CreditBalance(taker.owner, Base, quantity);
        if failure != None { return; }
        failure := CreditBalance(maker.owner, Quote, quote);
      } else {
        failure := DebitBalance(taker.owner, Base, quantity);
        if failure != None { return; }
        failure := CreditBalance(taker.owner, Quote, quote);
        if failure != None { return; }
        failure := CreditBalance(maker.owner, Base, quantity);
      }
    }

    /** Settle one fill and write the maker back. */
    method FillMaker(taker: Order, maker: Order) returns (failure: Option<Error>)
      requires store.Valid() && maker.price in Levels(State(), maker.side)
      requires maker.id in Levels(State(), maker.side)[maker.price]
      modifies `core, store, store.ladder
      ensures store.Valid()
      ensures match Fill(old(State()), taker, maker)
              case Ok(b) => failure == None && State() == b
              case Err(e) => failure == Some(e)
    {
      var quantity := MinNat(taker.remaining, maker.remaining);
      var quote := quantity * maker.price;
      if quote > U64_MAX { return Some(ArithmeticOverflow); }
      failure := SettleFill(taker, maker, quantity, quote);
      if failure != None { return; }
      var reduced := Reduced(maker, quantity);
      if reduced.remaining == 0 {
        store.RemoveOrder(maker.side, maker.price, maker.id);
      }
      core := core.(orders := core.orders[maker.id := reduced]);
    }

    /** One turn of the matching loop: trade with the front of the best opposite level, unless
        there is none, it does not cross, or it is the taker's own. */
    method MatchFront(ghost taker: Order, t: Order, ghost line: seq<nat>, ghost trades: seq<Trade>) returns (r: Turn)
      requires store.Valid() && OnTheWay(State(), taker, t, line) && t.remaining > 0
      modifies `core, store, store.ladder
      ensures store.Valid()
      ensures match r
              case Stop(blocked) =>
                State() == old(State())
                && Walk(old(State()), t, line, trades) == Ok(Matched(State(), t, trades, blocked))
              case Failed(e) => Walk(old(State()), t, line, trades) == Err(e)
              case Traded(trade, next) =>
                && line != [] && next.remaining < t.remaining && OnTheWay(State(), taker, next, line[1..])
                && Walk(old(State()), t, line, trades) == Walk(State(), next, line[1..], trades + [trade])
    {
      ghost var before := State();
      FrontOfLine(before, taker, t, line);
      var side := Opposite(t.side);
      var price := store.BestPrice(side);
      if price == None { return Stop(false); }
      if t.orderType == Limit && !Crosses(t, price.value) { return Stop(false); }
      var front := store.FrontOrderAt(side, price.value);
      var maker := core.orders[front.value];
      WalkTurn(before, t, maker, line, trades);
      if maker.owner == t.owner { return Stop(true); }
      var failure := FillMaker(t, maker);
      if failure != None { return Failed(failure.value); }
      TurnKeeps(before, taker, t, maker, line, State());
      return Traded(TradeOf(t, maker, MinNat(t.remaining, maker.remaining)), TakerAfter(t, maker));
    }

    /** Turn after turn until the taker is filled or stops. */
    method MatchTaker(taker: Order) returns (r: Result<(Order, seq<Trade>, bool), Error>)
      requires Valid() && Newest(State(), taker)
      modifies `core, store, store.ladder
      ensures store.Valid()
      ensures var line := Ladder(Opposite(taker.side), Levels(old(State()), Opposite(taker.side)));
              match Walk(old(State()), taker, line, [])
              case Ok(m) => r == Ok((m.taker, m.trades, m.blocked)) && State() == m.book
              case Err(e) => r == Err(e)
    {
      var t, trades := taker, [];
      ghost var line := Ladder(Opposite(taker.side), Levels(State(), Opposite(taker.side)));
      ghost var goal := Walk(State(), taker, line, []);
      while t.remaining > 0
        invariant store.Valid() && OnTheWay(State(), taker, t, line)
        invariant Walk(State(), t, line, trades) == goal
        decreases t.remaining
      {
        var turn := MatchFront(taker, t, line, trades);
        match turn {
          case Stop(blocked) => return Ok((t, trades, blocked));
          case Failed(e) => return Err(e);
          case Traded(trade, next) =>
            trades, t, line := trades + [trade], next, line[1..];
        }
      }
      return Ok((t, trades, false));
    }

    /** Take the next order number and arrival number. */
    method TakeNumbers() returns (r: Result<(nat, nat), Error>)
      modifies `core
      ensures
        var id, seqNo := AtLeastOne(old(core.nextOrderId)), AtLeastOne(old(core.nextSequence));
        if id >= U64_MAX || seqNo >= U64_MAX then r == Err(ArithmeticOverflow)
        else r == Ok((id, seqNo)) && core == NumberedCore(old(core))
    {
      var id := AtLeastOne(core.nextOrderId);
      if id >= U64_MAX { return Err(ArithmeticOverflow); }
      core := core.(nextOrderId := id + 1);
      var seqNo := AtLeastOne(core.nextSequence);
      if seqNo >= U64_MAX { return Err(ArithmeticOverflow); }
      core := core.(nextSequence := seqNo + 1);
      return Ok((id, seqNo));
    }

    method LockRestingFunds(o: Order) returns (failure: Option<Error>)
      modifies `core
      ensures match LockFunds(old(core.free), o)
              case Ok(free) => failure == None && core == old(core).(free := free)
              case Err(e) => failure == Some(e)
    {
      if o.side == Buy {
        var lock := o.remaining * o.price;
        if lock > U64_MAX { return Some(ArithmeticOverflow); }
        failure := DebitBalance(o.owner, Quote, lock);
      } else {
        failure := DebitBalance(o.owner, Base, o.remaining);
      }
    }

    method RefundRestingFunds(o: Order) returns (failure: Option<Error>)
      modifies `core
      ensures match RefundFunds(old(core.free), o)
              case Ok(free) => failure == None && core == old(core).(free := free)
              case Err(e) => failure == Some(e)
    {
      if o.side == Buy {
        var refund := o.remaining * o.price;
        if refund > U64_MAX { return Some(ArithmeticOverflow); }
        failure := CreditBalance(o.owner, Quote, refund);
      } else {
        failure := CreditBalance(o.owner, Base, o.remaining);
      }
    }

    /** Rest, reject or close what is left of the taker. */
    method FinishTaker(taker: Order, trades: seq<Trade>, blocked: bool, tif: TimeInForce)
      returns (r: Result<(nat, seq<Trade>), Error>)
      requires Valid() && Newest(State(), taker) && 0 < taker.id && taker.price <= U64_MAX
      modifies `core, store, store.ladder
      ensures store.Valid()
      ensures match Finish(Matched(old(State()), taker, trades, blocked), tif)
              case Ok(p) => r == Ok((p.id, p.trades)) && State() == p.book
              case Err(e) => r == Err(e)
    {
      if blocked && trades == [] { return Err(SelfTrade); }
      var o := taker;
      if o.remaining == 0 {
        o := o.(status := Filled);
      } else if o.remaining < o.quantity {
        o := o.(status := PartiallyFilled);
      }
      if o.remaining > 0 && o.orderType == Limit && !blocked && tif == GoodTilCancelled {
        o := Resting(o);
        InNoQueue(State(), store.queues, o.id);
        var failure := LockRestingFunds(o);
        if failure != None { return Err(failure.value); }
        store.Enqueue(o.side, o.price, o.id);
      } else if o.remaining > 0 && o.orderType == MarketOrder && trades == [] {
        return Err(NoLiquidity);
      } else if o.remaining > 0 {
        o := o.(remaining := 0, status := if trades == [] then Cancelled else PartiallyFilled);
      }
      core := core.(orders := core.orders[o.id := o]);
      return Ok((o.id, trades));
    }

    method MatchAndFinish(ghost before: Book, request: Request, taker: Order)
      returns (r: Result<(nat, seq<Trade>), Error>)
      requires store.Valid() && BookInv(before) && State() == Numbered(before) && taker == NewOrder(before, request)
      requires request.price <= U64_MAX
      modifies `core, store, store.ladder
      ensures store.Valid()
      ensures match Matching(before, request)
              case Err(e) => r == Err(e)
              case Ok(m) =>
                match Finish(m, request.tif)
                case Ok(p) => r == Ok((p.id, p.trades)) && State() == p.book
                case Err(e) => r == Err(e)
    {
      NumberedKeeps(before, request);
      var matched := MatchTaker(taker);
      if matched.Err? { return Err(matched.error); }
      MatchingKeeps(before, request);
      r := FinishTaker(matched.value.0, matched.value.1, matched.value.2, request.tif);
    }

    method PlaceOrderInner(request: Request) returns (r: Result<(nat, seq<Trade>), Error>)
      requires Valid() && request.price <= U64_MAX
      modifies `core, store, store.ladder
      ensures store.Valid()
      ensures match Clob.PlaceOrder(old(State()), request)
              case Ok(p) => r == Ok((p.id, p.trades)) && State() == p.book
              case Err(e) => r == Err(e)
    {
      if core.market.None? { return Err(MarketNotFound); }
      if !core.market.value.active { return Err(MarketInactive); }
      var bad := Validate(core.market.value, request);
      if bad != None { return Err(bad.value); }
      ghost var before := State();
      var numbers := TakeNumbers();
      if numbers.Err? { return Err(numbers.error); }
      var taker := Order(numbers.value.0, request.owner, request.side, request.orderType, request.price,
                         request.quantity, request.quantity, Open, numbers.value.1);
      r := MatchAndFinish(before, request, taker);
    }

    /** All or nothing: a failed order leaves the market exactly as it was. */
    method PlaceOrder(request: Request) returns (r: Result<(nat, seq<Trade>), Error>)
      requires Valid() && request.price <= U64_MAX
      modifies `core, store, store.ladder
      ensures Valid()
      ensures match Clob.PlaceOrder(old(State()), request)
              case Ok(p) => r == Ok((p.id, p.trades)) && State() == p.book
              case Err(e) => r == Err(e) && State() == old(State())
    {
      var snapshot, links, arena := core, store.links, store.ladder.arena;
      ghost var queues, trees, free := store.queues, store.ladder.trees, store.ladder.free;
      r := PlaceOrderInner(request);
      if r.Err? {
        core := snapshot;
        store.Restore(links, arena, queues, trees, free);
      } else {
        PlaceOrderKeeps(BookOf(snapshot, queues), request);
      }
    }

    method CancelOrderInner(owner: AccountId, id: nat) returns (r: Result<Order, Error>)
      requires Valid()
      modifies `core, store, store.ladder
      ensures store.Valid()
      ensures match Clob.CancelOrder(old(State()), owner, id)
              case Ok(p) => r == Ok(p.1) && State() == p.0
              case Err(e) => r == Err(e)
    {
      if core.market.None? { return Err(MarketNotFound); }
      if id !in core.orders { return Err(OrderNotFound); }
      var o := core.orders[id];
      assert OrderOk(State(), id, o);
      if o.owner != owner { return Err(NotOrderOwner); }
      if !(o.status == Open || o.status == PartiallyFilled) || o.remaining == 0 { return Err(OrderNotOpen); }
      var failure := RefundRestingFunds(o);
      if failure != None { return Err(failure.value); }
      store.RemoveOrder(o.side, o.price, id);
      o := o.(status := Cancelled, remaining := 0);
      core := core.(orders := core.orders[o.id := o]);
      return Ok(o);
    }

    method CancelOrder(owner: AccountId, id: nat) returns (r: Result<Order, Error>)
      requires Valid()
      modifies `core, store, store.ladder
      ensures Valid()
      ensures match Clob.CancelOrder(old(State()), owner, id)
              case Ok(p) => r == Ok(p.1) && State() == p.0
              case Err(e) => r == Err(e) && State() == old(State())
    {
      var snapshot, links, arena := core, store.links, store.ladder.arena;
      ghost var queues, trees, free := store.queues, store.ladder.trees, store.ladder.free;
      r := CancelOrderInner(owner, id);
      if r.Err? {
        core := snapshot;
        store.Restore(links, arena, queues, trees, free);
      } else {
        CancelOrderKeeps(BookOf(snapshot, queues), owner, id);
      }
    }
  }

  function NumberedCore(c: Core): Core {
    c.(nextOrderId := AtLeastOne(c.nextOrderId) + 1, nextSequence := AtLeastOne(c.nextSequence) + 1)
  }

  /** A new order is in no queue yet. */
  lemma {:induction false} InNoQueue(b: Book, qs: Store.Queues, id: nat)
    requires BookInv(b) && id !in b.orders && b.bids == qs.bids && b.asks == qs.asks
    ensures forall k: (Side, nat) :: id !in Store.QueueAt(qs, k)
  {
    UnknownNowhere(b.orders, Buy, b.bids, id);
    UnknownNowhere(b.orders, Sell, b.asks, id);
  }

  /** Where the matching loop stands: `line` is what is left of the line of makers. */
  ghost predicate OnTheWay(b: Book, taker: Order, t: Order, line: seq<nat>) {
    && BookInv(b) && Newest(b, t) && SameTaker(taker, t)
    && (t.remaining > 0 ==> line == Ladder(Opposite(taker.side), Levels(b, Opposite(taker.side))))
  }

  /** The front of the best level is the first in line. */
  lemma {:induction false} FrontOfLine(b: Book, taker: Order, t: Order, line: seq<nat>)
    requires OnTheWay(b, taker, t, line) && t.remaining > 0
    ensures var s := Opposite(taker.side);
      var levels := Levels(b, s);
      && (line == [] <==> levels == map[])
      && (levels != map[] ==>
            var p := Best(s, levels.Keys);
            levels[p] != [] && line[0] == levels[p][0] && line[0] in b.orders && AtFront(b, t, b.orders[line[0]])
            && b.orders[line[0]].price == p && b.orders[line[0]].id == line[0] && b.orders[line[0]].side == s)
  {
    var s := Opposite(taker.side);
    LadderFront(b.orders, s, Levels(b, s));
    if line != [] { assert OrderOk(b, line[0], b.orders[line[0]]); }
  }

  /** What the walk does at the first in line. */
  lemma {:induction false} WalkTurn(b: Book, t: Order, maker: Order, line: seq<nat>, trades: seq<Trade>)
    requires t.remaining > 0 && line != [] && line[0] in b.orders && b.orders[line[0]] == maker
    requires t.orderType == Limit ==> Crosses(t, maker.price)
    ensures maker.owner == t.owner ==> Walk(b, t, line, trades) == Ok(Matched(b, t, trades, true))
    ensures maker.owner != t.owner ==>
      match Fill(b, t, maker)
      case Err(e) => Walk(b, t, line, trades) == Err(e)
      case Ok(c) =>
        var trade := TradeOf(t, maker, MinNat(t.remaining, maker.remaining));
        Walk(b, t, line, trades) == Walk(c, TakerAfter(t, maker), line[1..], trades + [trade])
  {
  }

  /** What one turn of the matching loop keeps. */
  lemma {:induction false} TurnKeeps(b: Book, taker: Order, t: Order, maker: Order, line: seq<nat>, c: Book)
    requires OnTheWay(b, taker, t, line) && t.remaining > 0 && AtFront(b, t, maker) && Fill(b, t, maker) == Ok(c)
    ensures line != [] && OnTheWay(c, taker, TakerAfter(t, maker), line[1..])
  {
    LadderFront(b.orders, Opposite(t.side), Levels(b, Opposite(t.side)));
    FillKeeps(b, t, maker);
    FillFrame(b, t, maker);
    if TakerAfter(t, maker).remaining > 0 { FillAdvances(b, t, maker); }
  }
}
