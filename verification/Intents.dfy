/** Payment intents held on chain: created, funded, then claimed or refunded once. */
module Intents {
  import opened Basics

  datatype Chain = Native | Evm | Svm | Bvm | Tvm
  datatype Status = Created | Funded | Claimed | Expired | Refunded

  datatype Error =
    | ZeroAmount | ExpiryTooFar | AlreadyExists | InvalidChain | MintUnsupported | WrongDepositAddress
    | RefundPairIncomplete
    | UnknownSender | InvalidNonce | NonceOverflow | NotFound | WrongStatus | AmountMismatch | BadEvidence | WrongSender
    | Underfunded | NotYetExpired | NotEligible | NoRefund | BadAuthorization | IntentExpired | BindingMismatch
    | BadDestination | InsufficientBalance | BalanceOverflow | AccountMissing | CounterOverflow | SaltMissing

  const MAX_EXPIRY_WINDOW: nat := 31_536_000

  datatype Account = Account(balance: nat, nonce: nat)

  datatype Intent = Intent(
    id: nat, binding: Hash, amount: nat, chain: Chain, mint: Option<AccountId>, deposit: AccountId, bindingEpoch: nat,
    expiry: nat, refundDest: Option<AccountId>, refundAuthorizer: Option<AccountId>, createdAt: nat, status: Status,
    claimNonce: nat, refundNonce: nat, withdrawn: nat, owner: Option<AccountId>)

  datatype World = World(accounts: map<AccountId, Account>, intents: map<nat, Intent>)

  /** The address a deposit for an intent goes to: a hash of the chain's domain and the id. */
  type Derive = (Chain, nat) -> AccountId

  // ----- accounts -----

  function Balance(w: World, u: AccountId): nat {
    if u in w.accounts then w.accounts[u].balance else 0
  }

  function Ensured(w: World, u: AccountId): World {
    if u in w.accounts then w else w.(accounts := w.accounts[u := Account(0, 0)])
  }

  function SetBalance(w: World, u: AccountId, n: nat): World
    requires u in w.accounts
  {
    w.(accounts := w.accounts[u := w.accounts[u].(balance := n)])
  }

  /** Both new balances come from the old ones, so a transfer to oneself adds the amount. */
  function NativeTransfer(w: World, from: AccountId, to: AccountId, n: nat): Result<World, Error> {
    var w1 := Ensured(w, to);
    var fromBefore, toBefore := Balance(w1, from), Balance(w1, to);
    if fromBefore < n then Err(InsufficientBalance)
    else if toBefore + n > U64_MAX then Err(BalanceOverflow)
    else if from !in w1.accounts then Err(AccountMissing)
    else Ok(SetBalance(SetBalance(w1, from, fromBefore - n), to, toBefore + n))
  }

  function ConsumeNonce(w: World, u: AccountId, nonce: nat): Result<World, Error> {
    if u !in w.accounts then Err(UnknownSender)
    else if w.accounts[u].nonce != nonce then Err(InvalidNonce)
    else if nonce + 1 > U64_MAX then Err(NonceOverflow)
    else Ok(w.(accounts := w.accounts[u := w.accounts[u].(nonce := nonce + 1)]))
  }

  function Stored(w: World, x: Intent): World {
    w.(intents := w.intents[x.id := x])
  }

  // ----- create -----

  datatype CreateRequest = CreateRequest(
    id: nat, binding: Hash, amount: nat, chain: Option<Chain>, mint: Option<AccountId>, deposit: AccountId,
    bindingEpoch: nat, expiry: nat, refundDest: Option<AccountId>, refundAuthorizer: Option<AccountId>)

  /** A registered recipient is paid at once. */
  datatype Recipient = Recipient(account: AccountId, bindingEpoch: nat)

  function SatAdd(a: nat, b: nat): nat {
    if a + b > U64_MAX then U64_MAX else a + b
  }

  function HandleCreate(derive: Derive, w: World, sender: AccountId, nonce: nat, r: CreateRequest, slot: nat,
                        recipient: Option<Recipient>): Result<World, Error> {
    if r.amount == 0 then Err(ZeroAmount)
    else if r.expiry > SatAdd(slot, MAX_EXPIRY_WINDOW) then Err(ExpiryTooFar)
    else if r.id in w.intents then Err(AlreadyExists)
    else if r.chain.None? then Err(InvalidChain)
    else if recipient.Some? then
      if r.mint.Some? then Err(MintUnsupported)
      else
        var w1 :- ConsumeNonce(w, sender, nonce);
        var w2 :- NativeTransfer(w1, sender, recipient.value.account, r.amount);
        Ok(Stored(w2, Intent(r.id, r.binding, r.amount, r.chain.value, r.mint, recipient.value.account,
                             recipient.value.bindingEpoch, r.expiry, None, None, slot, Claimed, 0, 0, r.amount,
                             Some(recipient.value.account))))
    else if r.deposit != derive(r.chain.value, r.id) then Err(WrongDepositAddress)
    else if r.refundDest.Some? != r.refundAuthorizer.Some? then Err(RefundPairIncomplete)
    else
      var w1 :- ConsumeNonce(w, sender, nonce);
      Ok(Stored(Ensured(w1, r.deposit),
                Intent(r.id, r.binding, r.amount, r.chain.value, r.mint, r.deposit, r.bindingEpoch, r.expiry,
                       r.refundDest, r.refundAuthorizer, slot, Created, 0, 0, 0, None)))
  }

  // ----- fund and expire -----

  /** A committed native transfer named as evidence. */
  datatype Evidence = Evidence(sender: AccountId, to: AccountId, amount: nat)

  function HandleFund(w: World, sender: AccountId, nonce: nat, id: nat, amount: nat, evidence: Option<Evidence>)
    : Result<World, Error>
  {
    if id !in w.intents then Err(NotFound)
    else
      var x := w.intents[id];
      if x.status != Created then Err(WrongStatus)
      else if amount != x.amount then Err(AmountMismatch)
      else if evidence.None? then Err(BadEvidence)
      else if evidence.value.sender != sender then Err(WrongSender)
      else if x.refundAuthorizer.Some? && sender != x.refundAuthorizer.value then Err(WrongSender)
      else if evidence.value.to != x.deposit || evidence.value.amount != x.amount then Err(BadEvidence)
      else if Balance(w, x.deposit) < x.amount then Err(Underfunded)
      else
        var w1 :- ConsumeNonce(w, sender, nonce);
        Ok(Stored(w1, x.(status := Funded)))
  }

  function HandleExpire(w: World, id: nat, slot: nat): Result<World, Error> {
    if id !in w.intents then Err(NotFound)
    else if w.intents[id].status != Funded then Err(WrongStatus)
    else if slot <= w.intents[id].expiry then Err(NotYetExpired)
    else Ok(Stored(w, w.intents[id].(status := Expired)))
  }

  // ----- claim and refund -----

  /** Pay the intent's amount out of its deposit and close it. */
  function PayOut(w: World, x: Intent, to: AccountId, closed: Intent): Result<World, Error> {
    var w1 :- NativeTransfer(w, x.deposit, to, x.amount);
    if x.withdrawn + x.amount > U64_MAX || closed.claimNonce > U64_MAX || closed.refundNonce > U64_MAX
    then Err(CounterOverflow)
    else Ok(Stored(w1, closed.(withdrawn := x.withdrawn + x.amount)))
  }

  /** `auth`: a separately signed authorization, and whether its key and signature are good. */
  function HandleRefund(w: World, sender: AccountId, nonce: nat, id: nat, auth: Option<bool>, slot: nat)
    : Result<World, Error>
  {
    if id !in w.intents then Err(NotFound)
    else
      var x := w.intents[id];
      if x.status != Expired && !(auth.Some? && (x.status == Funded || x.status == Created) && slot > x.expiry)
      then Err(NotEligible)
      else if x.refundDest.None? || x.refundAuthorizer.None? then Err(NoRefund)
      else if auth.Some? && nonce != x.refundNonce then Err(InvalidNonce)
      else if auth.Some? && !auth.value then Err(BadAuthorization)
      else if auth.None? && sender != x.refundAuthorizer.value then Err(WrongSender)
      else
        var w1 :- if auth.Some? then Ok(w) else ConsumeNonce(w, sender, nonce);
        PayOut(w1, x, x.refundDest.value, x.(status := Refunded, refundNonce := x.refundNonce + 1))
  }

  /** `bound`: the revealed commitment matches the binding; `dest`: the decoded destination. */
  function HandleClaim(w: World, sender: AccountId, id: nat, relay: Option<AccountId>, bound: bool,
                       dest: Option<AccountId>, slot: nat, salted: bool): Result<World, Error> {
    if relay.Some? && sender != relay.value then Err(WrongSender)
    else if id !in w.intents then Err(NotFound)
    else
      var x := w.intents[id];
      if x.status != Funded then Err(WrongStatus)
      else if slot > x.expiry then Err(IntentExpired)
      else if !bound then Err(BindingMismatch)
      else if dest.None? then Err(BadDestination)
      else
        var w1 :- PayOut(Ensured(w, dest.value), x, dest.value,
                         x.(status := Claimed, owner := dest, claimNonce := x.claimNonce + 1));
        if !salted then Err(SaltMissing) else Ok(w1)
  }
}
