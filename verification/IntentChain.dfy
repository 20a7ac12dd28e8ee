/** The intent handlers as the program runs them, changing accounts and intents in place. A
    failing handler may already have changed something; undoing that is its caller's part. */
module IntentChains {
  import opened Basics
  import opened Intents

  class IntentChain {
    const derive: Derive
    var state: World

    constructor (derive: Derive, state: World)
      ensures this.derive == derive && this.state == state
    {
      this.derive, this.state := derive, state;
    }

    method EnsureAccount(u: AccountId)
      modifies this
      ensures state == Ensured(old(state), u)
    {
      if u !in state.accounts {
        state := state.(accounts := state.accounts[u := Account(0, 0)]);
      }
    }

    method TransferNative(from: AccountId, to: AccountId, n: nat) returns (failure: Option<Error>)
      modifies this
      ensures match NativeTransfer(old(state), from, to, n)
              case Ok(w) => failure == None && state == w
              case Err(e) => failure == Some(e)
    {
      EnsureAccount(to);
      var fromBefore := Balance(state, from);
      if fromBefore < n { return Some(InsufficientBalance); }
      var toBefore := Balance(state, to);
      var fromAfter := fromBefore - n;
      if toBefore + n > U64_MAX { return Some(BalanceOverflow); }
      if from !in state.accounts { return Some(AccountMissing); }
      state := SetBalance(state, from, fromAfter);
      state := SetBalance(state, to, toBefore + n);
      return None;
    }

    method TakeNonce(u: AccountId, nonce: nat) returns (failure: Option<Error>)
      modifies this
      ensures match ConsumeNonce(old(state), u, nonce)
              case Ok(w) => failure == None && state == w
              case Err(e) => failure == Some(e)
    {
      if u !in state.accounts { return Some(UnknownSender); }
      var account := state.accounts[u];
      if account.nonce != nonce { return Some(InvalidNonce); }
      if account.nonce + 1 > U64_MAX { return Some(NonceOverflow); }
      state := state.(accounts := state.accounts[u := account.(nonce := account.nonce + 1)]);
      return None;
    }

    method Create(sender: AccountId, nonce: nat, r: CreateRequest, slot: nat, recipient: Option<Recipient>)
      returns (failure: Option<Error>)
      modifies this
      ensures match HandleCreate(derive, old(state), sender, nonce, r, slot, recipient)
              case Ok(w) => failure == None && state == w
              case Err(e) => failure == Some(e)
    {
      if r.amount == 0 { return Some(ZeroAmount); }
      if r.expiry > SatAdd(slot, MAX_EXPIRY_WINDOW) { return Some(ExpiryTooFar); }
      if r.id in state.intents { return Some(AlreadyExists); }
      if r.chain.None? { return Some(InvalidChain); }
      if recipient.Some? {
        if r.mint.Some? { return Some(MintUnsupported); }
        failure := TakeNonce(sender, nonce);
        if failure != None { return; }
        var account := recipient.value.account;
        failure := TransferNative(sender, account, r.amount);
        if failure != None { return; }
        state := Stored(state, Intent(r.id, r.binding, r.amount, r.chain.value, r.mint, account,
                                      recipient.value.bindingEpoch, r.expiry, None, None, slot,
                                      Claimed, 0, 0, r.amount, Some(account)));
        return None;
      }
      if r.deposit != derive(r.chain.value, r.id) { return Some(WrongDepositAddress); }
      if r.refundDest.Some? != r.refundAuthorizer.Some? { return Some(RefundPairIncomplete); }
      failure := TakeNonce(sender, nonce);
      if failure != None { return; }
      EnsureAccount(r.deposit);
      state := Stored(state, Intent(r.id, r.binding, r.amount, r.chain.value, r.mint, r.deposit,
                                    r.bindingEpoch, r.expiry, r.refundDest, r.refundAuthorizer, slot,
                                    Created, 0, 0, 0, None));
    }

    method Fund(sender: AccountId, nonce: nat, id: nat, amount: nat, evidence: Option<Evidence>)
      returns (failure: Option<Error>)
      modifies this
      ensures match HandleFund(old(state), sender, nonce, id, amount, evidence)
              case Ok(w) => failure == None && state == w
              case Err(e) => failure == Some(e)
    {
      if id !in state.intents { return Some(NotFound); }
      var x := state.intents[id];
      if x.status != Created { return Some(WrongStatus); }
      if amount != x.amount { return Some(AmountMismatch); }
      if evidence.None? { return Some(BadEvidence); }
      var e := evidence.value;
      if e.sender != sender { return Some(WrongSender); }
      if x.refundAuthorizer.Some? && sender != x.refundAuthorizer.value { return Some(WrongSender); }
      if e.to != x.deposit { return Some(BadEvidence); }
      if e.amount != x.amount { return Some(BadEvidence); }
      if Balance(state, x.deposit) < x.amount { return Some(Underfunded); }
      failure := TakeNonce(sender, nonce);
      if failure != None { return; }
      state := Stored(state, x.(status := Funded));
    }

    method Expire(id: nat, slot: nat) returns (failure: Option<Error>)
      modifies this
      ensures match HandleExpire(old(state), id, slot)
              case Ok(w) => failure == None && state == w
              case Err(e) => failure == Some(e)
    {
      if id !in state.intents { return Some(NotFound); }
      var x := state.intents[id];
      if x.status != Funded { return Some(WrongStatus); }
      if slot <= x.expiry { return Some(NotYetExpired); }
      state := Stored(state, x.(status := Expired));
      return None;
    }

    method Refund(sender: AccountId, nonce: nat, id: nat, auth: Option<bool>, slot: nat)
      returns (failure: Option<Error>)
      modifies this
      ensures match HandleRefund(old(state), sender, nonce, id, auth, slot)
              case Ok(w) => failure == None && state == w
              case Err(e) => failure == Some(e)
    {
      if id !in state.intents { return Some(NotFound); }
      var x := state.intents[id];
      var alreadyExpired := x.status == Expired;
      var pastExpiry := auth.Some? && (x.status == Funded || x.status == Created) && slot > x.expiry;
      if !alreadyExpired && !pastExpiry { return Some(NotEligible); }
      if x.refundDest.None? { return Some(NoRefund); }
      if x.refundAuthorizer.None? { return Some(NoRefund); }
      if auth.Some? {
        if nonce != x.refundNonce { return Some(InvalidNonce); }
        if !auth.value { return Some(BadAuthorization); }
      } else {
        if sender != x.refundAuthorizer.value { return Some(WrongSender); }
        failure := TakeNonce(sender, nonce);
        if failure != None { return; }
      }
      failure := TransferNative(x.deposit, x.refundDest.value, x.amount);
      if failure != None { return; }
      if x.withdrawn + x.amount > U64_MAX { return Some(CounterOverflow); }
      if x.claimNonce > U64_MAX || x.refundNonce + 1 > U64_MAX { return Some(CounterOverflow); }
      state := Stored(state, x.(status := Refunded, withdrawn := x.withdrawn + x.amount,
                                refundNonce := x.refundNonce + 1));
      return None;
    }

    method Claim(sender: AccountId, id: nat, relay: Option<AccountId>, bound: bool, dest: Option<AccountId>, slot: nat,
                 salted: bool)
      returns (failure: Option<Error>)
      modifies this
      ensures match HandleClaim(old(state), sender, id, relay, bound, dest, slot, salted)
              case Ok(w) => failure == None && state == w
              case Err(e) => failure == Some(e)
    {
      if relay.Some? && sender != relay.value { return Some(WrongSender); }
      if id !in state.intents { return Some(NotFound); }
      var x := state.intents[id];
      if x.status != Funded { return Some(WrongStatus); }
      if slot > x.expiry { return Some(IntentExpired); }
      if !bound { return Some(BindingMismatch); }
      if dest.None? { return Some(BadDestination); }
      EnsureAccount(dest.value);
      failure := TransferNative(x.deposit, dest.value, x.amount);
      if failure != None { return; }
      if x.withdrawn + x.amount > U64_MAX { return Some(CounterOverflow); }
      if x.claimNonce + 1 > U64_MAX || x.refundNonce > U64_MAX { return Some(CounterOverflow); }
      state := Stored(state, x.(status := Claimed, owner := dest, withdrawn := x.withdrawn + x.amount,
                                claimNonce := x.claimNonce + 1));
      if !salted { return Some(SaltMissing); }
      return None;
    }
  }
}
