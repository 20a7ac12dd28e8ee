/** One liquidity pool and the token balances it moves. */
module Amm {
  import opened Basics
  import opened AmmMath
  import opened Tokens

  datatype Error =
    | ZeroAmount | IdenticalTokens | PoolNotFound | InsufficientLiquidity | AmountOverflow
    | InsufficientBalance(have: nat, need: nat) | SlippageExceeded(minOut: nat, actualOut: nat)
    | TokenRuntime(cause: TokenError)

  /** `tokenA` is the smaller of the two mints. */
  datatype Pool = Pool(
    id: AccountId, tokenA: AccountId, tokenB: AccountId, lpMint: AccountId,
    reserveA: nat, reserveB: nat, lpSupply: nat)

  datatype State = State(ledger: Ledger, pool: Pool)

  // ----- adding liquidity -----

  predicate SamePair(p: Pool, x: AccountId, y: AccountId) {
    (x == p.tokenA && y == p.tokenB) || (x == p.tokenB && y == p.tokenA)
  }

  ghost function Root(n: nat): (r: nat)
    ensures IsRoot(n, r)
  {
    assert exists r :: IsRoot(n, r) by { var r := RootExists(n); }
    var r :| IsRoot(n, r);
    r
  }

  lemma {:induction false} RootExists(n: nat) returns (r: nat)
    ensures IsRoot(n, r)
  {
    if n == 0 {
      r := 0;
    } else {
      r := RootExists(n - 1);
      if n >= (r + 1) * (r + 1) {
        r := r + 1;
        assert (r + 1) * (r + 1) == r * r + 2 * r + 1;
      }
    }
  }

  /** LP tokens for bringing `a` and `b`. */
  ghost function Minted(p: Pool, a: nat, b: nat): Result<nat, Error> {
    if p.lpSupply == 0 then Ok(Root(a * b))
    else if p.reserveA == 0 || p.reserveB == 0 then Err(ZeroAmount)
    else
      var la, lb := ShareOf(a, p.lpSupply, p.reserveA), ShareOf(b, p.lpSupply, p.reserveB);
      Ok(if la <= lb then la else lb)
  }

  /** Both token transfers into the pool, or neither. */
  function TransferPair(l: Ledger, p: Pool, from: AccountId, to: AccountId, a: nat, b: nat)
    : Result<Ledger, TokenError>
  {
    var l1 :- Transfer(l, p.tokenA, from, to, a);
    Transfer(l1, p.tokenB, from, to, b)
  }

  /** Record the deposit in the pool, stopping at the first sum that does not fit. */
  function Record(p: Pool, a: nat, b: nat, lp: nat): (Pool, Option<Error>) {
    if p.reserveA + a > U64_MAX then (p, Some(AmountOverflow))
    else if p.reserveB + b > U64_MAX then (p.(reserveA := p.reserveA + a), Some(AmountOverflow))
    else if p.lpSupply + lp > U64_MAX then
      (p.(reserveA := p.reserveA + a, reserveB := p.reserveB + b), Some(AmountOverflow))
    else (p.(reserveA := p.reserveA + a, reserveB := p.reserveB + b, lpSupply := p.lpSupply + lp), None)
  }

  /** Add in pool order, after the balance checks. Only failing transfers and a failing mint put
      the ledger back. */
  ghost function AddInOrder(s: State, provider: AccountId, a: nat, b: nat): (State, Result<nat, Error>) {
    match TransferPair(s.ledger, s.pool, provider, s.pool.id, a, b)
    case Err(e) => (s, Err(TokenRuntime(e)))
    case Ok(l) =>
      match Minted(s.pool, a, b)
      case Err(e) => (s.(ledger := l), Err(e))
      case Ok(lp) =>
        if lp > U64_MAX then (s.(ledger := l), Err(AmountOverflow))
        else if lp == 0 then (s.(ledger := l), Err(ZeroAmount))
        else
          match MintTo(l, s.pool.lpMint, provider, lp)
          case Err(e) => (s, Err(TokenRuntime(e)))
          case Ok(l2) =>
            var (p, failure) := Record(s.pool, a, b, lp);
            (State(l2, p), if failure.Some? then Err(failure.value) else Ok(lp))
  }

  ghost function AddLiquidity(s: State, x: AccountId, y: AccountId, provider: AccountId, amountX: nat, amountY: nat)
    : (State, Result<nat, Error>)
  {
    if amountX == 0 || amountY == 0 then (s, Err(ZeroAmount))
    else if !SamePair(s.pool, x, y) then (s, Err(PoolNotFound))
    else
      var a, b := if x <= y then amountX else amountY, if x <= y then amountY else amountX;
      var haveA, haveB := BalanceOf(s.ledger, s.pool.tokenA, provider), BalanceOf(s.ledger, s.pool.tokenB, provider);
      if haveA < a then (s, Err(InsufficientBalance(haveA, a)))
      else if haveB < b then (s, Err(InsufficientBalance(haveB, b)))
      else AddInOrder(s, provider, a, b)
  }

  // ----- removing liquidity -----

  function RemoveLiquidity(s: State, x: AccountId, y: AccountId, provider: AccountId, lp: nat)
    : (State, Result<(nat, nat), Error>)
  {
    var p := s.pool;
    if lp == 0 then (s, Err(ZeroAmount))
    else if !SamePair(p, x, y) then (s, Err(PoolNotFound))
    else if lp > p.lpSupply then (s, Err(InsufficientBalance(p.lpSupply, lp)))
    else
      var a, b := ShareOf(lp, p.reserveA, p.lpSupply), ShareOf(lp, p.reserveB, p.lpSupply);
      if a > U64_MAX || b > U64_MAX then (s, Err(AmountOverflow))
      else if a == 0 || b == 0 then (s, Err(ZeroAmount))
      else
        match PayOut(s.ledger, p, provider, lp, a, b)
        case Err(e) => (s, Err(TokenRuntime(e)))
        case Ok(l) =>
          BurnKeepsShare(p.reserveA, p.lpSupply, lp);
          BurnKeepsShare(p.reserveB, p.lpSupply, lp);
          (State(l, p.(reserveA := p.reserveA - a, reserveB := p.reserveB - b, lpSupply := p.lpSupply - lp)),
           Ok((a, b)))
  }

  function PayOut(l: Ledger, p: Pool, provider: AccountId, lp: nat, a: nat, b: nat): Result<Ledger, TokenError> {
    var l1 :- Transfer(l, p.lpMint, provider, p.id, lp);
    TransferPair(l1, p, p.id, provider, a, b)
  }

  // ----- swapping -----

  function Reserves(p: Pool, inIsA: bool): (nat, nat) {
    if inIsA then (p.reserveA, p.reserveB) else (p.reserveB, p.reserveA)
  }

  function SetReserves(p: Pool, inIsA: bool, reserveIn: nat, reserveOut: nat): Pool {
    if inIsA then p.(reserveA := reserveIn, reserveB := reserveOut)
    else p.(reserveB := reserveIn, reserveA := reserveOut)
  }

  function QuoteSwap(p: Pool, tokenIn: AccountId, tokenOut: AccountId, x: nat): Result<nat, Error> {
    if !SamePair(p, tokenIn, tokenOut) then Err(PoolNotFound)
    else
      var (ri, ro) := Reserves(p, tokenIn == p.tokenA);
      if ri == 0 || ro == 0 then Err(InsufficientLiquidity) else Ok(Payout(ri, ro, x) % (U64_MAX + 1))
  }

  function Exchange(l: Ledger, p: Pool, sender: AccountId, tokenIn: AccountId, tokenOut: AccountId, x: nat, o: nat)
    : Result<Ledger, TokenError>
  {
    var l1 :- Transfer(l, tokenIn, sender, p.id, x);
    Transfer(l1, tokenOut, p.id, sender, o)
  }

  function Swap(s: State, tokenIn: AccountId, tokenOut: AccountId, sender: AccountId, x: nat, minOut: nat)
    : (State, Result<nat, Error>)
  {
    var p := s.pool;
    if x == 0 then (s, Err(ZeroAmount))
    else if tokenIn == tokenOut then (s, Err(IdenticalTokens))
    else if !SamePair(p, tokenIn, tokenOut) then (s, Err(PoolNotFound))
    else if p.reserveA == 0 || p.reserveB == 0 then (s, Err(InsufficientLiquidity))
    else
      var inIsA := tokenIn == p.tokenA;
      var (ri, ro) := Reserves(p, inIsA);
      var o := Payout(ri, ro, x) % (U64_MAX + 1);
      var have := BalanceOf(s.ledger, tokenIn, sender);
      if o == 0 then (s, Err(InsufficientLiquidity))
      else if o < minOut then (s, Err(SlippageExceeded(minOut, o)))
      else if have < x then (s, Err(InsufficientBalance(have, x)))
      else
        match Exchange(s.ledger, p, sender, tokenIn, tokenOut, x, o)
        case Err(e) => (s, Err(TokenRuntime(e)))
        case Ok(l) =>
          if ri + x > U64_MAX then (s.(ledger := l), Err(AmountOverflow))
          else if o > ro then (State(l, SetReserves(p, inIsA, ri + x, ro)), Err(InsufficientLiquidity))
          else (State(l, SetReserves(p, inIsA, ri + x, ro - o)), Ok(o))
  }
}
