/** The pool as the program runs it: reserves and balances changed step by step. */
module SwapEngines {
  import opened Basics
  import opened Arithmetic
  import opened AmmMath
  import opened Tokens
  import opened Amm

  class SwapEngine {
    const tokens: TokenRuntime
    var pool: Pool

    ghost function View(): State
      reads this, tokens
    {
      State(tokens.ledger, pool)
    }

    constructor (tokens: TokenRuntime, pool: Pool)
      ensures this.tokens == tokens && View() == State(tokens.ledger, pool)
    {
      this.tokens, this.pool := tokens, pool;
    }

    /** Move both tokens, putting the ledger back when either move fails. */
    method MovePair(from: AccountId, to: AccountId, a: nat, b: nat) returns (failure: Option<TokenError>)
      modifies tokens
      ensures match TransferPair(old(tokens.ledger), pool, from, to, a, b)
              case Ok(l) => failure == None && tokens.ledger == l
              case Err(e) => failure == Some(e) && tokens.ledger == old(tokens.ledger)
    {
      var snapshot := tokens.ledger;
      failure := tokens.TransferBetweenOwners(pool.tokenA, from, to, a);
      if failure != None { return; }
      failure := tokens.TransferBetweenOwners(pool.tokenB, from, to, b);
      if failure != None { tokens.ledger := snapshot; }
    }

    /** How many LP tokens a deposit earns. */
    method SharesFor(a: nat, b: nat) returns (r: Result<nat, Error>)
      requires a <= U64_MAX && b <= U64_MAX
      ensures r == Minted(pool, a, b)
    {
      if pool.lpSupply == 0 {
        MulMono2(a, U64_MAX, b, U64_MAX);
        var root := Isqrt(a * b);
        RootUnique(a * b, root, Root(a * b));
        return Ok(root);
      }
      if pool.reserveA == 0 || pool.reserveB == 0 { return Err(ZeroAmount); }
      var la := Div(a * pool.lpSupply, pool.reserveA);
      var lb := Div(b * pool.lpSupply, pool.reserveB);
      return Ok(if la <= lb then la else lb);
    }

    /** Update the pool's counters one by one. */
    method RecordDeposit(a: nat, b: nat, lp: nat) returns (failure: Option<Error>)
      modifies `pool
      ensures (pool, failure) == Record(old(pool), a, b, lp)
    {
      if pool.reserveA + a > U64_MAX { return Some(AmountOverflow); }
      pool := pool.(reserveA := pool.reserveA + a);
      if pool.reserveB + b > U64_MAX { return Some(AmountOverflow); }
      pool := pool.(reserveB := pool.reserveB + b);
      if pool.lpSupply + lp > U64_MAX { return Some(AmountOverflow); }
      pool := pool.(lpSupply := pool.lpSupply + lp);
      return None;
    }

    method AddLiquidity(x: AccountId, y: AccountId, provider: AccountId, amountX: nat, amountY: nat)
      returns (r: Result<nat, Error>)
      requires amountX <= U64_MAX && amountY <= U64_MAX
      modifies this, tokens
      ensures (View(), r) == Amm.AddLiquidity(old(View()), x, y, provider, amountX, amountY)
    {
      if amountX == 0 || amountY == 0 { return Err(ZeroAmount); }
      if !SamePair(pool, x, y) { return Err(PoolNotFound); }
      var a, b := amountX, amountY;
      if !(x <= y) { a, b := amountY, amountX; }
      var haveA := BalanceOf(tokens.ledger, pool.tokenA, provider);
      if haveA < a { return Err(InsufficientBalance(haveA, a)); }
      var haveB := BalanceOf(tokens.ledger, pool.tokenB, provider);
      if haveB < b { return Err(InsufficientBalance(haveB, b)); }
      r := AddChecked(provider, a, b);
    }

    method AddChecked(provider: AccountId, a: nat, b: nat) returns (r: Result<nat, Error>)
      requires a <= U64_MAX && b <= U64_MAX
      modifies this, tokens
      ensures (View(), r) == AddInOrder(old(View()), provider, a, b)
    {
      var snapshot := tokens.ledger;
      var moved := MovePair(provider, pool.id, a, b);
      if moved != None { return Err(TokenRuntime(moved.value)); }
      var shares := SharesFor(a, b);
      if shares.Err? { return Err(shares.error); }
      var lp := shares.value;
      if lp > U64_MAX { return Err(AmountOverflow); }
      if lp == 0 { return Err(ZeroAmount); }
      var minted := tokens.MintToOwner(pool.lpMint, provider, lp);
      if minted != None {
        tokens.ledger := snapshot;
        return Err(TokenRuntime(minted.value));
      }
      var failure := RecordDeposit(a, b, lp);
      if failure != None { return Err(failure.value); }
      return Ok(lp);
    }

    /** Take the shares and pay both tokens, or put the ledger back. */
    method Redeem(provider: AccountId, lp: nat, a: nat, b: nat) returns (failure: Option<TokenError>)
      modifies tokens
      ensures match PayOut(old(tokens.ledger), pool, provider, lp, a, b)
              case Ok(l) => failure == None && tokens.ledger == l
              case Err(e) => failure == Some(e) && tokens.ledger == old(tokens.ledger)
    {
      var snapshot := tokens.ledger;
      failure := tokens.TransferBetweenOwners(pool.lpMint, provider, pool.id, lp);
      if failure != None { return; }
      failure := MovePair(pool.id, provider, a, b);
      if failure != None { tokens.ledger := snapshot; }
    }

    method RemoveLiquidity(x: AccountId, y: AccountId, provider: AccountId, lp: nat)
      returns (r: Result<(nat, nat), Error>)
      modifies this, tokens
      ensures (View(), r) == Amm.RemoveLiquidity(old(View()), x, y, provider, lp)
    {
      if lp == 0 { return Err(ZeroAmount); }
      if !SamePair(pool, x, y) { return Err(PoolNotFound); }
      if lp > pool.lpSupply { return Err(InsufficientBalance(pool.lpSupply, lp)); }
      var a := Div(lp * pool.reserveA, pool.lpSupply);
      if a > U64_MAX { return Err(AmountOverflow); }
      var b := Div(lp * pool.reserveB, pool.lpSupply);
      if b > U64_MAX { return Err(AmountOverflow); }
      if a == 0 || b == 0 { return Err(ZeroAmount); }
      var failure := Redeem(provider, lp, a, b);
      if failure != None { return Err(TokenRuntime(failure.value)); }
      BurnKeepsShare(pool.reserveA, pool.lpSupply, lp);
      BurnKeepsShare(pool.reserveB, pool.lpSupply, lp);
      pool := pool.(reserveA := pool.reserveA - a, reserveB := pool.reserveB - b, lpSupply := pool.lpSupply - lp);
      return Ok((a, b));
    }

    /** The constant-product output, from 128-bit products. */
    method Output(ri: nat, ro: nat, x: nat) returns (o: nat)
      requires ri > 0
      ensures o == Payout(ri, ro, x) % (U64_MAX + 1)
    {
      var withFee := x * (FEE_DENOMINATOR - FEE_NUMERATOR);
      var numerator := Wrap128(withFee * ro);
      var denominator := ri * FEE_DENOMINATOR + withFee;
      return Div(numerator, denominator) % (U64_MAX + 1);
    }

    method Quote(tokenIn: AccountId, tokenOut: AccountId, x: nat) returns (r: Result<nat, Error>)
      ensures r == QuoteSwap(pool, tokenIn, tokenOut, x)
    {
      var inIsA := tokenIn == pool.tokenA && tokenOut == pool.tokenB;
      if !inIsA && !(tokenIn == pool.tokenB && tokenOut == pool.tokenA) { return Err(PoolNotFound); }
      var ri := if inIsA then pool.reserveA else pool.reserveB;
      var ro := if inIsA then pool.reserveB else pool.reserveA;
      if ri == 0 || ro == 0 { return Err(InsufficientLiquidity); }
      var o := Output(ri, ro, x);
      return Ok(o);
    }

    /** Both legs of a swap, or neither. */
    method ExchangeTokens(sender: AccountId, tokenIn: AccountId, tokenOut: AccountId, x: nat, o: nat)
      returns (failure: Option<TokenError>)
      modifies tokens
      ensures match Exchange(old(tokens.ledger), pool, sender, tokenIn, tokenOut, x, o)
              case Ok(l) => failure == None && tokens.ledger == l
              case Err(e) => failure == Some(e) && tokens.ledger == old(tokens.ledger)
    {
      var snapshot := tokens.ledger;
      failure := tokens.TransferBetweenOwners(tokenIn, sender, pool.id, x);
      if failure != None { return; }
      failure := tokens.TransferBetweenOwners(tokenOut, pool.id, sender, o);
      if failure != None { tokens.ledger := snapshot; }
    }

    /** Update the two reserves one by one. */
    method UpdateReserves(inIsA: bool, x: nat, o: nat) returns (failure: Option<Error>)
      modifies `pool
      ensures var (ri, ro) := Reserves(old(pool), inIsA);
        if ri + x > U64_MAX then failure == Some(AmountOverflow) && pool == old(pool)
        else if o > ro then failure == Some(InsufficientLiquidity) && pool == SetReserves(old(pool), inIsA, ri + x, ro)
        else failure == None && pool == SetReserves(old(pool), inIsA, ri + x, ro - o)
    {
      if inIsA {
        if pool.reserveA + x > U64_MAX { return Some(AmountOverflow); }
        pool := pool.(reserveA := pool.reserveA + x);
        if o > pool.reserveB { return Some(InsufficientLiquidity); }
        pool := pool.(reserveB := pool.reserveB - o);
      } else {
        if pool.reserveB + x > U64_MAX { return Some(AmountOverflow); }
        pool := pool.(reserveB := pool.reserveB + x);
        if o > pool.reserveA { return Some(InsufficientLiquidity); }
        pool := pool.(reserveA := pool.reserveA - o);
      }
      return None;
    }

    method Swap(tokenIn: AccountId, tokenOut: AccountId, sender: AccountId, x: nat, minOut: nat)
      returns (r: Result<nat, Error>)
      modifies this, tokens
      ensures (View(), r) == Amm.Swap(old(View()), tokenIn, tokenOut, sender, x, minOut)
    {
      if x == 0 { return Err(ZeroAmount); }
      if tokenIn == tokenOut { return Err(IdenticalTokens); }
      if !SamePair(pool, tokenIn, tokenOut) { return Err(PoolNotFound); }
      if pool.reserveA == 0 || pool.reserveB == 0 { return Err(InsufficientLiquidity); }
      var inIsA := tokenIn == pool.tokenA;
      var ri := if inIsA then pool.reserveA else pool.reserveB;
      var ro := if inIsA then pool.reserveB else pool.reserveA;
      var o := Output(ri, ro, x);
      if o == 0 { return Err(InsufficientLiquidity); }
      if o < minOut { return Err(SlippageExceeded(minOut, o)); }
      var have := BalanceOf(tokens.ledger, tokenIn, sender);
      if have < x { return Err(InsufficientBalance(have, x)); }
      var moved := ExchangeTokens(sender, tokenIn, tokenOut, x, o);
      if moved != None { return Err(TokenRuntime(moved.value)); }
      var failure := UpdateReserves(inIsA, x, o);
      if failure != None { return Err(failure.value); }
      return Ok(o);
    }
  }
}
