/** Over every run: money is conserved, each intent pays out once, and open intents stay funded. */
module IntentRuns {
  import opened Basics
  import opened MapSums
  import opened Intents

  function Balances(w: World): map<nat, nat> {
    map u | u in w.accounts :: w.accounts[u].balance
  }

  ghost function Total(w: World): nat {
    MapSum(Balances(w))
  }

  // ----- transfers -----

  lemma {:induction false} EnsuredSame(w: World, u: AccountId)
    ensures Total(Ensured(w, u)) == Total(w) && forall v :: Balance(Ensured(w, u), v) == Balance(w, v)
  {
    if u !in w.accounts {
      assert Balances(Ensured(w, u)) == Balances(w)[u := 0];
      MapSumUpdate(Balances(w), u, 0);
    }
  }

  lemma {:induction false} SetBalanceTotal(w: World, u: AccountId, n: nat)
    requires u in w.accounts
    ensures Total(SetBalance(w, u, n)) + Balance(w, u) == Total(w) + n
  {
    assert Balances(SetBalance(w, u, n)) == Balances(w)[u := n];
    MapSumUpdate(Balances(w), u, n);
  }

  /** A transfer conserves the native supply exactly when its two ends differ or nothing moves. */
  lemma {:induction false} TransferConserves(w: World, from: AccountId, to: AccountId, n: nat, a: World)
    requires NativeTransfer(w, from, to, n) == Ok(a)
    ensures Total(a) == Total(w) + if from == to then n else 0
    ensures Total(a) == Total(w) <==> from != to || n == 0
  {
    var w1 := Ensured(w, to);
    EnsuredSame(w, to);
    SetBalanceTotal(w1, from, Balance(w1, from) - n);
    SetBalanceTotal(SetBalance(w1, from, Balance(w1, from) - n), to, Balance(w1, to) + n);
  }

  /** Only the paying end can lose. */
  lemma {:induction false} TransferOthers(w: World, from: AccountId, to: AccountId, n: nat, a: World, u: AccountId)
    requires NativeTransfer(w, from, to, n) == Ok(a) && u != from
    ensures Balance(a, u) >= Balance(w, u) && a.intents == w.intents
  {
  }

  lemma {:induction false} ConsumeNonceSame(w: World, u: AccountId, nonce: nat, a: World)
    requires ConsumeNonce(w, u, nonce) == Ok(a)
    ensures Total(a) == Total(w) && a.intents == w.intents && forall v :: Balance(a, v) == Balance(w, v)
  {
    assert Balances(a) == Balances(w);
  }

  // ----- runs -----

  datatype Op =
    | CreateOp(sender: AccountId, nonce: nat, request: CreateRequest, slot: nat, recipient: Option<Recipient>)
    | FundOp(sender: AccountId, nonce: nat, id: nat, amount: nat, evidence: Option<Evidence>)
    | ExpireOp(id: nat, slot: nat)
    | RefundOp(sender: AccountId, nonce: nat, id: nat, auth: Option<bool>, slot: nat)
    | ClaimOp(sender: AccountId, id: nat, relay: Option<AccountId>, bound: bool,
              dest: Option<AccountId>, slot: nat, salted: bool)
    | OutsideOp(sender: AccountId, to: AccountId, amount: nat)

  function Try(derive: Derive, w: World, op: Op): Result<World, Error> {
    match op
    case CreateOp(u, nonce, r, slot, recipient) => HandleCreate(derive, w, u, nonce, r, slot, recipient)
    case FundOp(u, nonce, id, n, evidence) => HandleFund(w, u, nonce, id, n, evidence)
    case ExpireOp(id, slot) => HandleExpire(w, id, slot)
    case RefundOp(u, nonce, id, auth, slot) => HandleRefund(w, u, nonce, id, auth, slot)
    case ClaimOp(u, id, relay, bound, dest, slot, salted) => HandleClaim(w, u, id, relay, bound, dest, slot, salted)
    case OutsideOp(u, v, n) => NativeTransfer(w, u, v, n)
  }

  function Apply(derive: Derive, w: World, op: Op): World {
    match Try(derive, w, op) case Ok(a) => a case Err(_) => w
  }

  function Run(derive: Derive, w: World, ops: seq<Op>): World
    decreases |ops|
  {
    if ops == [] then w else Run(derive, Apply(derive, w, ops[0]), ops[1..])
  }

  // ----- states of an intent -----

  predicate Done(x: Intent) {
    x.status == Claimed || x.status == Refunded
  }

  /** An open intent has paid nothing and its deposit is its own address; a closed one has
      paid exactly its amount. */
  predicate IntentOk(derive: Derive, id: nat, x: Intent) {
    && x.id == id && x.amount > 0
    && (Done(x) ==> x.withdrawn == x.amount)
    && (!Done(x) ==> x.withdrawn == 0 && x.deposit == derive(x.chain, id))
  }

  ghost predicate IntentsOk(derive: Derive, w: World) {
    forall id :: id in w.intents ==> IntentOk(derive, id, w.intents[id])
  }

  lemma {:induction false} ApplyIntentsOk(derive: Derive, w: World, op: Op)
    requires IntentsOk(derive, w)
    ensures IntentsOk(derive, Apply(derive, w, op))
  {
    if Try(derive, w, op).Ok? { TouchesOne(derive, w, op); }
  }

  /** The intent an operation is about. */
  function About(op: Op): Option<nat> {
    match op
    case CreateOp(_, _, r, _, _) => Some(r.id)
    case FundOp(_, _, id, _, _) => Some(id)
    case ExpireOp(id, _) => Some(id)
    case RefundOp(_, _, id, _, _) => Some(id)
    case ClaimOp(_, id, _, _, _, _, _) => Some(id)
    case OutsideOp(_, _, _) => None
  }

  /** A successful operation writes its own intent only, and never a closed one. */
  lemma {:induction false} TouchesOne(derive: Derive, w: World, op: Op)
    requires IntentsOk(derive, w) && Try(derive, w, op).Ok?
    ensures match About(op)
      case None => Try(derive, w, op).value.intents == w.intents
      case Some(id) =>
        && id in Try(derive, w, op).value.intents
        && Try(derive, w, op).value.intents == w.intents[id := Try(derive, w, op).value.intents[id]]
        && IntentOk(derive, id, Try(derive, w, op).value.intents[id])
        && (id in w.intents ==> !Done(w.intents[id]))
  {
    if About(op).Some? && About(op).value in w.intents {
      assert IntentOk(derive, About(op).value, w.intents[About(op).value]);
    }
  }

  lemma {:induction false} RunIntentsOk(derive: Derive, w: World, ops: seq<Op>)
    requires IntentsOk(derive, w)
    ensures IntentsOk(derive, Run(derive, w, ops))
    decreases |ops|
  {
    if ops != [] {
      ApplyIntentsOk(derive, w, ops[0]);
      RunIntentsOk(derive, Apply(derive, w, ops[0]), ops[1..]);
    }
  }

  // ----- closed for good -----

  /** A claimed or refunded intent is never written again and no operation about it succeeds:
      its amount was paid out once and for all. */
  lemma {:induction false} ClosedForGood(derive: Derive, w: World, ops: seq<Op>, id: nat, again: Op)
    requires IntentsOk(derive, w) && id in w.intents && Done(w.intents[id]) && About(again) == Some(id)
    ensures id in Run(derive, w, ops).intents && Run(derive, w, ops).intents[id] == w.intents[id]
    ensures Try(derive, Run(derive, w, ops), again).Err?
    decreases |ops|
  {
    if ops == [] {
      if Try(derive, w, again).Ok? { TouchesOne(derive, w, again); }
    } else {
      var a := Apply(derive, w, ops[0]);
      ApplyIntentsOk(derive, w, ops[0]);
      if Try(derive, w, ops[0]).Ok? { TouchesOne(derive, w, ops[0]); }
      ClosedForGood(derive, a, ops[1..], id, again);
    }
  }

  // ----- open intents stay funded -----

  /** The account an operation takes money from. */
  function Payer(w: World, op: Op): Option<AccountId> {
    match op
    case CreateOp(u, _, _, _, recipient) => if recipient.Some? then Some(u) else None
    case RefundOp(_, _, id, _, _) => if id in w.intents then Some(w.intents[id].deposit) else None
    case ClaimOp(_, id, _, _, _, _, _) => if id in w.intents then Some(w.intents[id].deposit) else None
    case OutsideOp(u, _, _) => Some(u)
    case _ => None
  }

  lemma {:induction false} OnlyPayerLoses(derive: Derive, w: World, op: Op, u: AccountId)
    requires Try(derive, w, op).Ok? && Payer(w, op) != Some(u)
    ensures Balance(Try(derive, w, op).value, u) >= Balance(w, u)
  {
    match op
    case CreateOp(v, nonce, r, slot, recipient) =>
      var w1 := ConsumeNonce(w, v, nonce).value;
      ConsumeNonceSame(w, v, nonce, w1);
      if recipient.Some? {
        TransferOthers(w1, v, recipient.value.account, r.amount,
                       NativeTransfer(w1, v, recipient.value.account, r.amount).value, u);
      }
    case FundOp(v, nonce, id, n, evidence) => ConsumeNonceSame(w, v, nonce, ConsumeNonce(w, v, nonce).value);
    case RefundOp(v, nonce, id, auth, slot) => RefundOthers(w, v, nonce, id, auth, slot, Try(derive, w, op).value, u);
    case ClaimOp(v, id, relay, bound, dest, slot, salted) =>
      var x, w1 := w.intents[id], Ensured(w, dest.value);
      EnsuredSame(w, dest.value);
      TransferOthers(w1, x.deposit, dest.value, x.amount, NativeTransfer(w1, x.deposit, dest.value, x.amount).value, u);
    case OutsideOp(v, to, n) => TransferOthers(w, v, to, n, NativeTransfer(w, v, to, n).value, u);
    case ExpireOp(_, _) =>
  }

  lemma {:induction false} RefundOthers(w: World, v: AccountId, nonce: nat, id: nat, auth: Option<bool>, slot: nat,
                                        a: World, u: AccountId)
    requires HandleRefund(w, v, nonce, id, auth, slot) == Ok(a) && u != w.intents[id].deposit
    ensures Balance(a, u) >= Balance(w, u)
  {
    var x := w.intents[id];
    var w1 := if auth.Some? then w else ConsumeNonce(w, v, nonce).value;
    if auth.None? { ConsumeNonceSame(w, v, nonce, w1); }
    TransferOthers(w1, x.deposit, x.refundDest.value, x.amount,
                   NativeTransfer(w1, x.deposit, x.refundDest.value, x.amount).value, u);
  }

  predicate Holds(x: Intent) {
    x.status == Funded || x.status == Expired
  }

  /** Every funded or expired intent's deposit still covers its amount. */
  ghost predicate Escrowed(w: World) {
    forall id :: id in w.intents && Holds(w.intents[id]) ==> Balance(w, w.intents[id].deposit) >= w.intents[id].amount
  }

  ghost predicate OneAddressEach(derive: Derive) {
    forall c, i, d, j :: derive(c, i) == derive(d, j) ==> i == j
  }

  /** Nobody holds the key of a derived address. */
  ghost predicate SignedByUser(derive: Derive, op: Op) {
    op.CreateOp? || op.OutsideOp? ==> forall c, i :: derive(c, i) != op.sender
  }

  lemma {:induction false} ApplyEscrowed(derive: Derive, w: World, op: Op)
    requires IntentsOk(derive, w) && Escrowed(w) && OneAddressEach(derive) && SignedByUser(derive, op)
    ensures Escrowed(Apply(derive, w, op))
  {
    if Try(derive, w, op).Ok? {
      var a := Try(derive, w, op).value;
      TouchesOne(derive, w, op);
      forall id | id in a.intents && Holds(a.intents[id])
        ensures Balance(a, a.intents[id].deposit) >= a.intents[id].amount
      {
        if About(op) == Some(id) {
          JustFunded(derive, w, op, id);
        } else {
          assert IntentOk(derive, id, w.intents[id]);
          NotThePayer(derive, w, op, id);
          OnlyPayerLoses(derive, w, op, w.intents[id].deposit);
        }
      }
    }
  }

  lemma {:induction false} NotThePayer(derive: Derive, w: World, op: Op, id: nat)
    requires IntentsOk(derive, w) && OneAddressEach(derive) && SignedByUser(derive, op) && Try(derive, w, op).Ok?
    requires id in w.intents && Holds(w.intents[id]) && About(op) != Some(id)
    ensures Payer(w, op) != Some(w.intents[id].deposit)
  {
    assert IntentOk(derive, id, w.intents[id]);
    if op.RefundOp? || op.ClaimOp? { assert IntentOk(derive, op.id, w.intents[op.id]); }
  }

  lemma {:induction false} JustFunded(derive: Derive, w: World, op: Op, id: nat)
    requires IntentsOk(derive, w) && Escrowed(w) && Try(derive, w, op).Ok? && About(op) == Some(id)
    requires id in Try(derive, w, op).value.intents && Holds(Try(derive, w, op).value.intents[id])
    ensures Balance(Try(derive, w, op).value, Try(derive, w, op).value.intents[id].deposit)
         >= Try(derive, w, op).value.intents[id].amount
  {
    if op.FundOp? { ConsumeNonceSame(w, op.sender, op.nonce, ConsumeNonce(w, op.sender, op.nonce).value); }
    if id in w.intents { assert IntentOk(derive, id, w.intents[id]); }
  }

  lemma {:induction false} RunEscrowed(derive: Derive, w: World, ops: seq<Op>)
    requires IntentsOk(derive, w) && Escrowed(w) && OneAddressEach(derive)
    requires forall i :: 0 <= i < |ops| ==> SignedByUser(derive, ops[i])
    ensures Escrowed(Run(derive, w, ops))
    decreases |ops|
  {
    if ops != [] {
      ApplyIntentsOk(derive, w, ops[0]);
      ApplyEscrowed(derive, w, ops[0]);
      RunEscrowed(derive, Apply(derive, w, ops[0]), ops[1..]);
    }
  }

  // ----- supply -----

  /** What the operation pays from an account to that same account. */
  function SelfPaid(w: World, op: Op): nat {
    match op
    case CreateOp(u, _, r, _, recipient) => if recipient.Some? && recipient.value.account == u then r.amount else 0
    case RefundOp(_, _, id, _, _) =>
      if id in w.intents && w.intents[id].refundDest == Some(w.intents[id].deposit) then w.intents[id].amount else 0
    case ClaimOp(_, id, _, _, dest, _, _) =>
      if id in w.intents && dest == Some(w.intents[id].deposit) then w.intents[id].amount else 0
    case OutsideOp(u, v, n) => if u == v then n else 0
    case _ => 0
  }

  lemma {:induction false} PayOutSupply(w: World, x: Intent, to: AccountId, closed: Intent, a: World)
    requires PayOut(w, x, to, closed) == Ok(a)
    ensures Total(a) == Total(w) + if x.deposit == to then x.amount else 0
  {
    var w1 := NativeTransfer(w, x.deposit, to, x.amount).value;
    TransferConserves(w, x.deposit, to, x.amount, w1);
    assert Balances(a) == Balances(w1);
  }

  /** A claim or refund moves exactly the amount from the deposit to the destination; a deposit
      that is its own destination gains it. */
  lemma {:induction false} PayOutMoves(w: World, x: Intent, to: AccountId, closed: Intent, a: World, u: AccountId)
    requires PayOut(w, x, to, closed) == Ok(a)
    ensures Balance(a, u) == Balance(w, u) + (if u == to then x.amount else 0)
                                           - (if u == x.deposit && u != to then x.amount else 0)
  {
    EnsuredSame(w, to);
  }

  lemma {:induction false} CreateSupply(derive: Derive, w: World, u: AccountId, nonce: nat, r: CreateRequest, slot: nat,
                                        recipient: Option<Recipient>, a: World)
    requires HandleCreate(derive, w, u, nonce, r, slot, recipient) == Ok(a)
    ensures Total(a) == Total(w) + SelfPaid(w, CreateOp(u, nonce, r, slot, recipient))
  {
    var w1 := ConsumeNonce(w, u, nonce).value;
    ConsumeNonceSame(w, u, nonce, w1);
    if recipient.Some? {
      var w2 := NativeTransfer(w1, u, recipient.value.account, r.amount).value;
      TransferConserves(w1, u, recipient.value.account, r.amount, w2);
      assert Balances(a) == Balances(w2);
    } else {
      EnsuredSame(w1, r.deposit);
      assert Balances(a) == Balances(Ensured(w1, r.deposit));
    }
  }

  lemma {:induction false} RefundSupply(w: World, u: AccountId, nonce: nat, id: nat, auth: Option<bool>, slot: nat,
                                        a: World)
    requires HandleRefund(w, u, nonce, id, auth, slot) == Ok(a)
    ensures Total(a) == Total(w) + SelfPaid(w, RefundOp(u, nonce, id, auth, slot))
  {
    var x := w.intents[id];
    var w1 := if auth.Some? then w else ConsumeNonce(w, u, nonce).value;
    if auth.None? { ConsumeNonceSame(w, u, nonce, w1); }
    PayOutSupply(w1, x, x.refundDest.value, x.(status := Refunded, refundNonce := x.refundNonce + 1), a);
  }

  /** A successful operation adds to the supply exactly what it pays from an account to itself. */
  lemma {:induction false} StepSupply(derive: Derive, w: World, op: Op, a: World)
    requires Try(derive, w, op) == Ok(a)
    ensures Total(a) == Total(w) + SelfPaid(w, op)
  {
    match op
    case CreateOp(u, nonce, r, slot, recipient) => CreateSupply(derive, w, u, nonce, r, slot, recipient, a);
    case FundOp(u, nonce, id, n, evidence) =>
      ConsumeNonceSame(w, u, nonce, ConsumeNonce(w, u, nonce).value);
      assert Balances(a) == Balances(ConsumeNonce(w, u, nonce).value);
    case ExpireOp(id, slot) => assert Balances(a) == Balances(w);
    case RefundOp(u, nonce, id, auth, slot) => RefundSupply(w, u, nonce, id, auth, slot, a);
    case ClaimOp(u, id, relay, bound, dest, slot, salted) =>
      var x := w.intents[id];
      EnsuredSame(w, dest.value);
      PayOutSupply(Ensured(w, dest.value), x, dest.value,
                   x.(status := Claimed, owner := dest, claimNonce := x.claimNonce + 1), a);
    case OutsideOp(u, v, n) => TransferConserves(w, u, v, n, a);
  }

  /** What the successful operations of a run pay from an account to itself. */
  function SelfPaidBy(derive: Derive, w: World, ops: seq<Op>): nat
    decreases |ops|
  {
    if ops == [] then 0
    else (if Try(derive, w, ops[0]).Ok? then SelfPaid(w, ops[0]) else 0)
         + SelfPaidBy(derive, Apply(derive, w, ops[0]), ops[1..])
  }

  /** Every run changes the native supply by exactly its payments from an account to itself. */
  lemma {:induction false} RunSupply(derive: Derive, w: World, ops: seq<Op>)
    ensures Total(Run(derive, w, ops)) == Total(w) + SelfPaidBy(derive, w, ops)
    decreases |ops|
  {
    if ops != [] {
      if Try(derive, w, ops[0]).Ok? { StepSupply(derive, w, ops[0], Try(derive, w, ops[0]).value); }
      RunSupply(derive, Apply(derive, w, ops[0]), ops[1..]);
    }
  }

  /** No operation that succeeds pays an account from itself. */
  ghost predicate TwoEnds(derive: Derive, w: World, ops: seq<Op>)
    decreases |ops|
  {
    ops != [] ==>
      && (Try(derive, w, ops[0]).Ok? ==> SelfPaid(w, ops[0]) == 0)
      && TwoEnds(derive, Apply(derive, w, ops[0]), ops[1..])
  }

  lemma {:induction false} NothingSelfPaid(derive: Derive, w: World, ops: seq<Op>)
    ensures SelfPaidBy(derive, w, ops) == 0 <==> TwoEnds(derive, w, ops)
    decreases |ops|
  {
    if ops != [] {
      NothingSelfPaid(derive, Apply(derive, w, ops[0]), ops[1..]);
    }
  }

  /** So a run conserves the native supply exactly when none of its payments has one end. */
  lemma {:induction false} RunConserves(derive: Derive, w: World, ops: seq<Op>)
    ensures Total(Run(derive, w, ops)) == Total(w) <==> TwoEnds(derive, w, ops)
  {
    RunSupply(derive, w, ops);
    NothingSelfPaid(derive, w, ops);
  }

  /** A registered recipient who pays themselves doubles what they have. */
  lemma {:induction false} PayingOneselfDoubles(derive: Derive)
    ensures exists w: World, op: Op :: op.CreateOp? && Total(w) == 5 && Total(Run(derive, w, [op])) == 10
  {
    var w := World(map[1 := Account(5, 0)], map[]);
    var op := CreateOp(1, 0, CreateRequest(7, 0, 5, Some(Native), None, 0, 0, 0, None, None), 0, Some(Recipient(1, 0)));
    assert Balances(w) == map[][1 := 5];
    MapSumUpdate(map[], 1, 5);
    RunSupply(derive, w, [op]);
    assert [op][1..] == [];
    assert SelfPaidBy(derive, w, [op]) == 5;
  }
}
