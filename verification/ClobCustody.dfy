/** Runs of a market: what users are owed is what they brought in, and the market's account
    in the token ledger always covers it. */
module ClobCustody {
  import opened Basics
  import opened MapSums
  import opened Clob
  import opened ClobBook
  import opened ClobRuns
  import opened ClobMoney

  /** `Outside` is a transfer in the token ledger that does not go through the market. */
  datatype Op =
    | DepositOp(user: AccountId, asset: nat, amount: nat)
    | WithdrawOp(user: AccountId, asset: nat, amount: nat)
    | PlaceOp(request: Request)
    | CancelOp(owner: AccountId, id: nat)
    | Outside(token: Asset, from: AccountId, to: AccountId, amount: nat)

  /** A failed operation leaves the state as it was. */
  function Apply(b: Book, op: Op): Book {
    match op
    case DepositOp(u, i, n) => (match Deposit(b, u, i, n) case Ok(c) => c case Err(_) => b)
    case WithdrawOp(u, i, n) => (match Withdraw(b, u, i, n) case Ok(c) => c case Err(_) => b)
    case PlaceOp(r) => (match PlaceOrder(b, r) case Ok(p) => p.book case Err(_) => b)
    case CancelOp(u, id) => (match CancelOrder(b, u, id) case Ok(c) => c.0 case Err(_) => b)
    case Outside(a, u, v, n) => (match Transfer(b.ledger, a, u, v, n) case Ok(l) => b.(ledger := l) case Err(_) => b)
  }

  function Run(b: Book, ops: seq<Op>): Book
    decreases |ops|
  {
    if ops == [] then b else Run(Apply(b, ops[0]), ops[1..])
  }

  /** What the operation brought into the market, negative when it took out. */
  function Flow(b: Book, op: Op, a: Asset): int {
    match op
    case DepositOp(u, i, n) => if Deposit(b, u, i, n).Ok? && AssetOf(i) == Ok(a) then n else 0
    case WithdrawOp(u, i, n) => if Withdraw(b, u, i, n).Ok? && AssetOf(i) == Ok(a) then -(n as int) else 0
    case _ => 0
  }

  function NetDeposits(b: Book, ops: seq<Op>, a: Asset): int
    decreases |ops|
  {
    if ops == [] then 0 else Flow(b, ops[0], a) + NetDeposits(Apply(b, ops[0]), ops[1..], a)
  }

  // ----- one step -----

  lemma {:induction false} ApplyKeeps(b: Book, op: Op)
    requires BookInv(b)
    ensures BookInv(Apply(b, op))
  {
    match op
    case DepositOp(u, i, n) => if Deposit(b, u, i, n).Ok? { DepositKeeps(b, u, i, n); }
    case WithdrawOp(u, i, n) => if Withdraw(b, u, i, n).Ok? { WithdrawKeeps(b, u, i, n); }
    case PlaceOp(r) => if PlaceOrder(b, r).Ok? { PlaceOrderKeeps(b, r); }
    case CancelOp(u, id) => if CancelOrder(b, u, id).Ok? { CancelOrderKeeps(b, u, id); }
    case Outside(a, u, v, n) => SameOrdersKeeps(b, Apply(b, op));
  }

  lemma {:induction false} ApplyMoney(b: Book, op: Op, a: Asset)
    requires BookInv(b)
    ensures Claims(Apply(b, op), a) == Claims(b, a) + Flow(b, op, a)
    ensures Apply(b, op).market == b.market
  {
    match op
    case DepositOp(u, i, n) => if Deposit(b, u, i, n).Ok? { DepositMoney(b, u, i, n, a); }
    case WithdrawOp(u, i, n) => if Withdraw(b, u, i, n).Ok? { WithdrawMoney(b, u, i, n, a); }
    case PlaceOp(r) => if PlaceOrder(b, r).Ok? { PlaceOrderMoney(b, r, a); }
    case CancelOp(u, id) => if CancelOrder(b, u, id).Ok? { CancelRefunds(b, u, id); }
    case Outside(_, _, _, _) =>
  }

  // ----- runs -----

  /** The book stays uncrossed and every order sits in its queue, whatever happens. */
  lemma {:induction false} RunKeeps(b: Book, ops: seq<Op>)
    requires BookInv(b)
    ensures BookInv(Run(b, ops))
    decreases |ops|
  {
    if ops != [] {
      ApplyKeeps(b, ops[0]);
      RunKeeps(Apply(b, ops[0]), ops[1..]);
    }
  }

  /** Free balances plus locked remainders are the net deposits, per asset, over every run. */
  lemma {:induction false} RunConserves(b: Book, ops: seq<Op>, a: Asset)
    requires BookInv(b)
    ensures Claims(Run(b, ops), a) == Claims(b, a) + NetDeposits(b, ops, a)
    decreases |ops|
  {
    if ops != [] {
      ApplyKeeps(b, ops[0]);
      ApplyMoney(b, ops[0], a);
      RunConserves(Apply(b, ops[0]), ops[1..], a);
    }
  }

  // ----- custody -----

  /** The market's own account neither deposits nor sends tokens away. */
  predicate HandsOff(custodian: AccountId, op: Op) {
    match op
    case DepositOp(u, _, _) => u != custodian
    case Outside(_, u, _, _) => u != custodian
    case _ => true
  }

  ghost predicate Backed(b: Book) {
    b.market.Some? && forall a :: Claims(b, a) <= Get(b.ledger, a, b.market.value.custodian) <= U64_MAX
  }

  /** What a transfer does to account `k`. */
  lemma {:induction false} TransferAt(l: Balances, x: Asset, from: AccountId, to: AccountId, n: nat, a: Asset,
                                      k: AccountId)
    requires Transfer(l, x, from, to, n).Ok? && Get(l, a, k) <= U64_MAX
    ensures var m := Transfer(l, x, from, to, n).value;
      && Get(m, a, k) <= U64_MAX
      && Get(m, a, k) == Get(l, a, k) + (if a == x && from != to && k == to then n else 0)
                                      - (if a == x && from != to && k == from then n else 0)
  {
  }

  /** A successful deposit adds its amount to the market's account exactly when the
      depositor is not the market's account itself. */
  lemma {:induction false} DepositBacks(b: Book, user: AccountId, asset: nat, amount: nat, a: Asset)
    requires Deposit(b, user, asset, amount).Ok? && AssetOf(asset) == Ok(a)
    requires Get(b.ledger, a, b.market.value.custodian) <= U64_MAX
    ensures var c, k := Deposit(b, user, asset, amount).value, b.market.value.custodian;
      Get(c.ledger, a, k) - Get(b.ledger, a, k) == Claims(c, a) - Claims(b, a) <==> user != k
  {
    DepositMoney(b, user, asset, amount, a);
    TransferAt(b.ledger, a, user, b.market.value.custodian, amount, a, b.market.value.custodian);
  }

  /** What the market's account holds beyond what the market owes. */
  ghost function Slack(b: Book, a: Asset, k: AccountId): int {
    Get(b.ledger, a, k) - Claims(b, a)
  }

  /** How an operation changes that: the market's account as depositor, withdrawer, or one end
      of a transfer outside the market. */
  function Drift(b: Book, op: Op, a: Asset, k: AccountId): int {
    match op
    case DepositOp(u, i, n) => if Deposit(b, u, i, n).Ok? && AssetOf(i) == Ok(a) && u == k then 0 - n else 0
    case WithdrawOp(u, i, n) => if Withdraw(b, u, i, n).Ok? && AssetOf(i) == Ok(a) && u == k then n else 0
    case Outside(x, u, v, n) =>
      if Transfer(b.ledger, x, u, v, n).Err? || x != a || u == v then 0
      else if v == k then n
      else if u == k then 0 - n
      else 0
    case _ => 0
  }

  lemma {:induction false} ApplySlack(b: Book, op: Op, a: Asset, k: AccountId)
    requires BookInv(b) && b.market.Some? && k == b.market.value.custodian && Get(b.ledger, a, k) <= U64_MAX
    ensures Slack(Apply(b, op), a, k) == Slack(b, a, k) + Drift(b, op, a, k)
    ensures Get(Apply(b, op).ledger, a, k) <= U64_MAX
  {
    ApplyMoney(b, op, a);
    match op
    case DepositOp(u, i, n) => if Deposit(b, u, i, n).Ok? { TransferAt(b.ledger, AssetOf(i).value, u, k, n, a, k); }
    case WithdrawOp(u, i, n) => if Withdraw(b, u, i, n).Ok? { TransferAt(b.ledger, AssetOf(i).value, k, u, n, a, k); }
    case PlaceOp(r) => if PlaceOrder(b, r).Ok? { PlaceOrderMoney(b, r, a); }
    case CancelOp(u, id) => if CancelOrder(b, u, id).Ok? { CancelRefunds(b, u, id); }
    case Outside(x, u, v, n) => if Transfer(b.ledger, x, u, v, n).Ok? { TransferAt(b.ledger, x, u, v, n, a, k); }
  }

  function DriftOver(b: Book, ops: seq<Op>, a: Asset, k: AccountId): int
    decreases |ops|
  {
    if ops == [] then 0 else Drift(b, ops[0], a, k) + DriftOver(Apply(b, ops[0]), ops[1..], a, k)
  }

  /** Over every run, whoever acts, the slack changes by exactly the drift, so the market's account
      covers what the market owes exactly while the drift has not used up the slack. */
  lemma {:induction false} RunSlack(b: Book, ops: seq<Op>, a: Asset, k: AccountId)
    requires BookInv(b) && b.market.Some? && k == b.market.value.custodian && Get(b.ledger, a, k) <= U64_MAX
    ensures Slack(Run(b, ops), a, k) == Slack(b, a, k) + DriftOver(b, ops, a, k)
    ensures Claims(Run(b, ops), a) <= Get(Run(b, ops).ledger, a, k) <==> Slack(b, a, k) + DriftOver(b, ops, a, k) >= 0
    ensures Get(Run(b, ops).ledger, a, k) <= U64_MAX && Run(b, ops).market == b.market
    decreases |ops|
  {
    if ops != [] {
      ApplyKeeps(b, ops[0]);
      ApplyMoney(b, ops[0], a);
      ApplySlack(b, ops[0], a, k);
      RunSlack(Apply(b, ops[0]), ops[1..], a, k);
    }
  }

  lemma {:induction false} HandsOffDrift(b: Book, ops: seq<Op>, a: Asset, k: AccountId)
    requires forall i :: 0 <= i < |ops| ==> HandsOff(k, ops[i])
    ensures DriftOver(b, ops, a, k) >= 0
    decreases |ops|
  {
    if ops != [] { HandsOffDrift(Apply(b, ops[0]), ops[1..], a, k); }
  }

  lemma {:induction false} RunBacked(b: Book, ops: seq<Op>)
    requires BookInv(b) && Backed(b) && forall i :: 0 <= i < |ops| ==> HandsOff(b.market.value.custodian, ops[i])
    ensures BookInv(Run(b, ops)) && Backed(Run(b, ops))
  {
    RunKeeps(b, ops);
    var k := b.market.value.custodian;
    forall a
      ensures Run(b, ops).market == b.market && Claims(Run(b, ops), a) <= Get(Run(b, ops).ledger, a, k) <= U64_MAX
    {
      RunSlack(b, ops, a, k);
      HandsOffDrift(b, ops, a, k);
    }
    RunSlack(b, ops, Base, k);
  }

  // ----- getting out -----

  lemma {:induction false} ClaimBounds(b: Book, id: nat, u: AccountId, a: Asset)
    requires id in b.orders
    ensures Get(b.free, a, u) + Locked(b.orders[id], a) <= Claims(b, a)
  {
    MapSumAtLeast(Of(b.free, a), u);
    MapSumAtLeast(LockedBy(b.orders, a), id);
  }

  /** In a backed market cancelling never overflows: the owner of an order with a remainder,
      and only the owner, can always cancel it. */
  lemma {:induction false} CancelExactlyOwn(b: Book, owner: AccountId, id: nat)
    requires BookInv(b) && Backed(b)
    ensures CancelOrder(b, owner, id).Ok? <==>
      id in b.orders && b.orders[id].owner == owner && b.orders[id].remaining > 0
  {
    if id in b.orders && b.orders[id].owner == owner && b.orders[id].remaining > 0 {
      var o := b.orders[id];
      assert OrderOk(b, id, o);
      ClaimBounds(b, id, owner, LockAsset(o));
      assert Claims(b, LockAsset(o)) <= U64_MAX;
    }
  }

  /** In a backed market a user gets out what is free, up to the width of their own ledger balance. */
  lemma {:induction false} WithdrawExactlyFree(b: Book, user: AccountId, asset: nat, amount: nat)
    requires Backed(b) && user != b.market.value.custodian
    ensures Withdraw(b, user, asset, amount).Ok? <==>
      && amount > 0 && AssetOf(asset).Ok? && amount <= Get(b.free, AssetOf(asset).value, user)
      && Get(b.ledger, AssetOf(asset).value, user) + amount <= U64_MAX
  {
    if AssetOf(asset).Ok? {
      MapSumAtLeast(Of(b.free, AssetOf(asset).value), user);
    }
  }
}
