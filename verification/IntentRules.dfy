/** Exactly when each operation on an intent succeeds, what it does, and so how an intent can
    come to each of its states. */
module IntentRules {
  import opened Basics
  import opened Intents
  import opened IntentRuns

  /** The account exists, its next nonce is this one, and there is another after it. */
  predicate NonceOk(w: World, u: AccountId, nonce: nat) {
    u in w.accounts && w.accounts[u].nonce == nonce && nonce < U64_MAX
  }

  lemma {:induction false} NonceExactly(w: World, u: AccountId, nonce: nat)
    ensures ConsumeNonce(w, u, nonce).Ok? <==> NonceOk(w, u, nonce)
  {
  }

  /** `from` holds the amount and `to` has room for it. */
  predicate CanMove(w: World, from: AccountId, to: AccountId, n: nat) {
    Balance(w, from) >= n && Balance(w, to) + n <= U64_MAX
  }

  lemma {:induction false} MoveExactly(w: World, from: AccountId, to: AccountId, n: nat)
    requires n > 0
    ensures NativeTransfer(w, from, to, n).Ok? <==> CanMove(w, from, to, n)
  {
  }

  // ----- create -----

  predicate Creatable(w: World, r: CreateRequest, slot: nat) {
    && r.amount > 0 && (r.expiry <= slot + 31_536_000 || slot + 31_536_000 > U64_MAX) && r.expiry <= U64_MAX
    && r.id !in w.intents && r.chain.Some?
  }

  /** A registered recipient is paid at once, exactly when the sender has the money and no token
      other than the native one is named; the intent is stored as claimed. */
  lemma {:induction false} CreatePaysExactly(derive: Derive, w: World, u: AccountId, nonce: nat, r: CreateRequest,
                                             slot: nat, to: Recipient)
    requires r.expiry <= U64_MAX
    ensures HandleCreate(derive, w, u, nonce, r, slot, Some(to)).Ok? <==>
      Creatable(w, r, slot) && r.mint.None? && NonceOk(w, u, nonce) && CanMove(w, u, to.account, r.amount)
    ensures HandleCreate(derive, w, u, nonce, r, slot, Some(to)).Ok? ==>
      var a := HandleCreate(derive, w, u, nonce, r, slot, Some(to)).value;
      && r.id in a.intents && a.intents[r.id].status == Claimed && a.intents[r.id].amount == r.amount
      && a.intents[r.id].owner == Some(to.account) && a.intents[r.id].deposit == to.account
      && a.intents[r.id].bindingEpoch == to.bindingEpoch && a.intents[r.id].createdAt == slot
      && (u != to.account ==> Balance(a, u) == Balance(w, u) - r.amount
                              && Balance(a, to.account) == Balance(w, to.account) + r.amount)
  {
    NonceExactly(w, u, nonce);
    if NonceOk(w, u, nonce) {
      var w1 := ConsumeNonce(w, u, nonce).value;
      ConsumeNonceSame(w, u, nonce, w1);
      if r.amount > 0 { MoveExactly(w1, u, to.account, r.amount); }
    }
  }

  /** Otherwise an open intent with the terms of the request is stored, exactly when its deposit is the derived
      address and the refund destination and authorizer come together. */
  lemma {:induction false} CreateStoresExactly(derive: Derive, w: World, u: AccountId, nonce: nat, r: CreateRequest,
                                               slot: nat)
    requires r.expiry <= U64_MAX
    ensures HandleCreate(derive, w, u, nonce, r, slot, None).Ok? <==>
      && Creatable(w, r, slot) && NonceOk(w, u, nonce) && r.deposit == derive(r.chain.value, r.id)
      && (r.refundDest.Some? <==> r.refundAuthorizer.Some?)
    ensures HandleCreate(derive, w, u, nonce, r, slot, None).Ok? ==>
      var x := Intent(r.id, r.binding, r.amount, r.chain.value, r.mint, r.deposit, r.bindingEpoch, r.expiry,
                      r.refundDest, r.refundAuthorizer, slot, Created, 0, 0, 0, None);
      HandleCreate(derive, w, u, nonce, r, slot, None).value.intents == w.intents[r.id := x]
  {
    NonceExactly(w, u, nonce);
  }

  // ----- fund and expire -----

  /** Funding takes a committed transfer of the exact amount by the same sender to the deposit,
      the refund authorizer as sender where one is named, and the money still there. */
  predicate Fundable(w: World, u: AccountId, x: Intent, amount: nat, evidence: Option<Evidence>) {
    && x.status == Created && amount == x.amount && evidence == Some(Evidence(u, x.deposit, x.amount))
    && (x.refundAuthorizer == None || x.refundAuthorizer == Some(u)) && Balance(w, x.deposit) >= x.amount
  }

  lemma {:induction false} FundExactly(w: World, u: AccountId, nonce: nat, id: nat, amount: nat,
                                       evidence: Option<Evidence>)
    ensures HandleFund(w, u, nonce, id, amount, evidence).Ok? <==>
      id in w.intents && Fundable(w, u, w.intents[id], amount, evidence) && NonceOk(w, u, nonce)
    ensures HandleFund(w, u, nonce, id, amount, evidence).Ok? && w.intents[id].id == id ==>
      HandleFund(w, u, nonce, id, amount, evidence).value.intents == w.intents[id := w.intents[id].(status := Funded)]
  {
    NonceExactly(w, u, nonce);
  }

  lemma {:induction false} ExpireExactly(w: World, id: nat, slot: nat)
    ensures HandleExpire(w, id, slot).Ok? <==>
      id in w.intents && w.intents[id].status == Funded && w.intents[id].expiry < slot
    ensures HandleExpire(w, id, slot).Ok? && w.intents[id].id == id ==>
      HandleExpire(w, id, slot).value == w.(intents := w.intents[id := w.intents[id].(status := Expired)])
  {
  }

  // ----- payouts -----

  lemma {:induction false} PayOutExactly(w: World, x: Intent, to: AccountId, closed: Intent)
    requires x.amount > 0
    ensures PayOut(w, x, to, closed).Ok? <==>
      && CanMove(w, x.deposit, to, x.amount) && x.withdrawn + x.amount <= U64_MAX
      && closed.claimNonce <= U64_MAX && closed.refundNonce <= U64_MAX
    ensures PayOut(w, x, to, closed).Ok? ==>
      PayOut(w, x, to, closed).value.intents == w.intents[closed.id := closed.(withdrawn := x.withdrawn + x.amount)]
  {
    MoveExactly(w, x.deposit, to, x.amount);
  }

  /** A claim is for a funded intent that has not expired, by the relay where there is one, with
      the commitment that the binding hides and a destination. */
  predicate Claimable(u: AccountId, x: Intent, relay: Option<AccountId>, bound: bool, dest: Option<AccountId>,
                      slot: nat)
  {
    (relay == None || relay == Some(u)) && x.status == Funded && slot <= x.expiry && bound && dest.Some?
  }

  lemma {:induction false} ClaimExactly(w: World, u: AccountId, id: nat, relay: Option<AccountId>, bound: bool,
                                        dest: Option<AccountId>, slot: nat, salted: bool)
    requires id in w.intents ==> w.intents[id].amount > 0 && w.intents[id].id == id
    ensures HandleClaim(w, u, id, relay, bound, dest, slot, salted).Ok? <==>
      && id in w.intents && Claimable(u, w.intents[id], relay, bound, dest, slot) && salted
      && CanMove(w, w.intents[id].deposit, dest.value, w.intents[id].amount)
      && w.intents[id].withdrawn + w.intents[id].amount <= U64_MAX
      && w.intents[id].claimNonce < U64_MAX && w.intents[id].refundNonce <= U64_MAX
    ensures HandleClaim(w, u, id, relay, bound, dest, slot, salted).Ok? ==>
      var x := w.intents[id];
      HandleClaim(w, u, id, relay, bound, dest, slot, salted).value.intents
      == w.intents[id := x.(status := Claimed, owner := dest, claimNonce := x.claimNonce + 1,
                            withdrawn := x.withdrawn + x.amount)]
  {
    if id in w.intents && dest.Some? {
      var x := w.intents[id];
      EnsuredSame(w, dest.value);
      PayOutExactly(Ensured(w, dest.value), x, dest.value,
                    x.(status := Claimed, owner := dest, claimNonce := x.claimNonce + 1));
    }
  }

  /** A refund has a destination and an authorizer, and either an expired intent and the authorizer
      as sender, or a good separate authorization and an open intent past its expiry. */
  predicate Refundable(w: World, u: AccountId, nonce: nat, x: Intent, auth: Option<bool>, slot: nat) {
    && x.refundDest.Some? && x.refundAuthorizer.Some?
    && match auth
       case None => x.status == Expired && u == x.refundAuthorizer.value && NonceOk(w, u, nonce)
       case Some(good) =>
         good && nonce == x.refundNonce
         && (x.status == Expired || ((x.status == Funded || x.status == Created) && x.expiry < slot))
  }

  lemma {:induction false} RefundExactly(w: World, u: AccountId, nonce: nat, id: nat, auth: Option<bool>, slot: nat)
    requires id in w.intents ==> w.intents[id].amount > 0 && w.intents[id].id == id
    ensures HandleRefund(w, u, nonce, id, auth, slot).Ok? <==>
      && id in w.intents && Refundable(w, u, nonce, w.intents[id], auth, slot)
      && CanMove(w, w.intents[id].deposit, w.intents[id].refundDest.value, w.intents[id].amount)
      && w.intents[id].withdrawn + w.intents[id].amount <= U64_MAX
      && w.intents[id].claimNonce <= U64_MAX && w.intents[id].refundNonce < U64_MAX
    ensures HandleRefund(w, u, nonce, id, auth, slot).Ok? ==>
      var x := w.intents[id];
      HandleRefund(w, u, nonce, id, auth, slot).value.intents
      == w.intents[id := x.(status := Refunded, refundNonce := x.refundNonce + 1, withdrawn := x.withdrawn + x.amount)]
  {
    NonceExactly(w, u, nonce);
    if id in w.intents && w.intents[id].refundDest.Some? {
      var x := w.intents[id];
      var closed := x.(status := Refunded, refundNonce := x.refundNonce + 1);
      PayOutExactly(w, x, x.refundDest.value, closed);
      if NonceOk(w, u, nonce) {
        var w1 := ConsumeNonce(w, u, nonce).value;
        ConsumeNonceSame(w, u, nonce, w1);
        PayOutExactly(w1, x, x.refundDest.value, closed);
      }
    }
  }

  /** A claim pays the amount from the deposit to the destination it names, a refund to the one
      stored, and neither moves anything else. */
  lemma {:induction false} ClaimPays(w: World, u: AccountId, id: nat, relay: Option<AccountId>, bound: bool,
                                     dest: Option<AccountId>, slot: nat, salted: bool, a: World, v: AccountId)
    requires HandleClaim(w, u, id, relay, bound, dest, slot, salted) == Ok(a)
    ensures id in w.intents && dest.Some?
    ensures var x := w.intents[id];
      Balance(a, v) == Balance(w, v) + (if v == dest.value then x.amount else 0)
                                     - (if v == x.deposit && v != dest.value then x.amount else 0)
  {
    var x := w.intents[id];
    EnsuredSame(w, dest.value);
    PayOutMoves(Ensured(w, dest.value), x, dest.value,
                x.(status := Claimed, owner := dest, claimNonce := x.claimNonce + 1), a, v);
  }

  lemma {:induction false} RefundPays(w: World, u: AccountId, nonce: nat, id: nat, auth: Option<bool>, slot: nat,
                                      a: World, v: AccountId)
    requires HandleRefund(w, u, nonce, id, auth, slot) == Ok(a)
    ensures id in w.intents && w.intents[id].refundDest.Some?
    ensures var x := w.intents[id];
      var dest := x.refundDest.value;
      Balance(a, v) == Balance(w, v) + (if v == dest then x.amount else 0)
                                     - (if v == x.deposit && v != dest then x.amount else 0)
  {
    var x := w.intents[id];
    var w1 := if auth.Some? then w else ConsumeNonce(w, u, nonce).value;
    if auth.None? { ConsumeNonceSame(w, u, nonce, w1); }
    PayOutMoves(w1, x, x.refundDest.value, x.(status := Refunded, refundNonce := x.refundNonce + 1), a, v);
  }

  // ----- how an intent comes to its states -----

  /** The operation is one that may bring the stored intent `x` from its status to `next`. */
  predicate Brings(w: World, op: Op, x: Intent, next: Status) {
    match next
    case Created => false
    case Funded => op.FundOp? && Fundable(w, op.sender, x, op.amount, op.evidence)
    case Expired => op.ExpireOp? && x.status == Funded && x.expiry < op.slot
    case Claimed => op.ClaimOp? && Claimable(op.sender, x, op.relay, op.bound, op.dest, op.slot)
    case Refunded => op.RefundOp? && Refundable(w, op.sender, op.nonce, x, op.auth, op.slot)
  }

  lemma {:induction false} StepBrings(derive: Derive, w: World, op: Op, a: World, id: nat)
    requires IntentsOk(derive, w) && Try(derive, w, op) == Ok(a) && id in w.intents
    ensures id in a.intents
    ensures a.intents[id].status != w.intents[id].status ==>
      About(op) == Some(id) && Brings(w, op, w.intents[id], a.intents[id].status)
  {
    TouchesOne(derive, w, op);
    if About(op) == Some(id) {
      assert IntentOk(derive, id, w.intents[id]);
      match op
      case CreateOp(_, _, _, _, _) =>
      case FundOp(u, nonce, _, n, evidence) => FundExactly(w, u, nonce, id, n, evidence);
      case ExpireOp(_, slot) => ExpireExactly(w, id, slot);
      case RefundOp(u, nonce, _, auth, slot) => RefundExactly(w, u, nonce, id, auth, slot);
      case ClaimOp(u, _, relay, bound, dest, slot, salted) => ClaimExactly(w, u, id, relay, bound, dest, slot, salted);
    }
  }

  /** Over every run, an intent that ends up in another state was brought there by an operation that may do
      so: claimed by a bound claim in time, refunded by right, funded on evidence, expired late. */
  lemma {:induction false} BroughtByRight(derive: Derive, w: World, ops: seq<Op>, id: nat, status: Status)
    returns (i: nat)
    requires IntentsOk(derive, w) && id in w.intents && w.intents[id].status != status
    requires id in Run(derive, w, ops).intents && Run(derive, w, ops).intents[id].status == status
    ensures i < |ops| && About(ops[i]) == Some(id)
    ensures var v := Run(derive, w, ops[..i]); id in v.intents && Brings(v, ops[i], v.intents[id], status)
    decreases |ops|
  {
    var a := Apply(derive, w, ops[0]);
    ApplyIntentsOk(derive, w, ops[0]);
    if Try(derive, w, ops[0]).Ok? { StepBrings(derive, w, ops[0], a, id); }
    if a.intents[id].status == status {
      i := 0;
      assert ops[..0] == [];
    } else {
      var j := BroughtByRight(derive, a, ops[1..], id, status);
      i := j + 1;
      assert ops[..i][1..] == ops[1..][..j] && ops[..i][0] == ops[0];
    }
  }
}
