/** The token runtime: mints with a total supply, and balances by mint and owner. */
module Tokens {
  import opened Basics

  datatype TokenError = NoMint | MintExists | LowBalance | TooLarge

  datatype Ledger = Ledger(supply: map<AccountId, nat>, balances: map<(AccountId, AccountId), nat>)

  function BalanceOf(l: Ledger, mint: AccountId, owner: AccountId): nat {
    if (mint, owner) in l.balances then l.balances[(mint, owner)] else 0
  }

  function SetBalance(l: Ledger, mint: AccountId, owner: AccountId, n: nat): Ledger {
    l.(balances := l.balances[(mint, owner) := n])
  }

  /** A transfer to oneself only checks the balance. */
  function Transfer(l: Ledger, mint: AccountId, from: AccountId, to: AccountId, n: nat): Result<Ledger, TokenError> {
    if n == 0 then Ok(l)
    else if mint !in l.supply then Err(NoMint)
    else if BalanceOf(l, mint, from) < n then Err(LowBalance)
    else if from == to then Ok(l)
    else if BalanceOf(l, mint, to) + n > U64_MAX then Err(TooLarge)
    else Ok(SetBalance(SetBalance(l, mint, from, BalanceOf(l, mint, from) - n), mint, to, BalanceOf(l, mint, to) + n))
  }

  /** The caller is the authority of the mint. */
  function MintTo(l: Ledger, mint: AccountId, owner: AccountId, n: nat): Result<Ledger, TokenError> {
    if n == 0 then Ok(l)
    else if mint !in l.supply then Err(NoMint)
    else if l.supply[mint] + n > U64_MAX || BalanceOf(l, mint, owner) + n > U64_MAX then Err(TooLarge)
    else Ok(SetBalance(l.(supply := l.supply[mint := l.supply[mint] + n]), mint, owner, BalanceOf(l, mint, owner) + n))
  }

  /** What a transfer does to one balance. */
  lemma {:induction false} TransferEffect(l: Ledger, m: AccountId, from: AccountId, to: AccountId, n: nat, x: AccountId,
                                          u: AccountId)
    requires Transfer(l, m, from, to, n).Ok?
    ensures var k := Transfer(l, m, from, to, n).value;
      && k.supply == l.supply
      && BalanceOf(k, x, u) == BalanceOf(l, x, u) + (if x == m && from != to && u == to then n else 0)
                                                  - (if x == m && from != to && u == from then n else 0)
      && (BalanceOf(l, x, u) <= U64_MAX ==> BalanceOf(k, x, u) <= U64_MAX)
  {
  }

  /** The ledger of the token runtime, changed in place. */
  class TokenRuntime {
    var ledger: Ledger

    constructor (ledger: Ledger)
      ensures this.ledger == ledger
    {
      this.ledger := ledger;
    }

    method TransferBetweenOwners(mint: AccountId, from: AccountId, to: AccountId, n: nat)
      returns (failure: Option<TokenError>)
      modifies this
      ensures match Transfer(old(ledger), mint, from, to, n)
              case Ok(l) => failure == None && ledger == l
              case Err(e) => failure == Some(e) && ledger == old(ledger)
    {
      if n == 0 { return None; }
      if mint !in ledger.supply { return Some(NoMint); }
      var have := BalanceOf(ledger, mint, from);
      if from == to {
        if have < n { return Some(LowBalance); }
        return None;
      }
      var held := BalanceOf(ledger, mint, to);
      if have < n { return Some(LowBalance); }
      if held + n > U64_MAX { return Some(TooLarge); }
      ledger := SetBalance(SetBalance(ledger, mint, from, have - n), mint, to, held + n);
      return None;
    }

    /** On failure the supply may already have grown; callers put their snapshot back. */
    method MintToOwner(mint: AccountId, owner: AccountId, n: nat) returns (failure: Option<TokenError>)
      modifies this
      ensures match MintTo(old(ledger), mint, owner, n)
              case Ok(l) => failure == None && ledger == l
              case Err(e) => failure == Some(e)
    {
      if n == 0 { return None; }
      if mint !in ledger.supply { return Some(NoMint); }
      var supply := ledger.supply[mint] + n;
      if supply > U64_MAX { return Some(TooLarge); }
      ledger := ledger.(supply := ledger.supply[mint := supply]);
      var held := BalanceOf(ledger, mint, owner) + n;
      if held > U64_MAX { return Some(TooLarge); }
      ledger := SetBalance(ledger, mint, owner, held);
      return None;
    }
  }
}
